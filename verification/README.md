# HotStaq data route: statement builders, hook pipeline and result filter

The data route of HotStaq exposes four methods over a MySQL table:
- `add`: builds an `insert into ?? set …`.
- `edit`: builds an `update ?? set … where …`.
- `list`: builds a `select * from ?? where … offset ? limit ?`.
- `remove`: builds a `delete from ?? where …`.

Each method walks an open key/value map of fields in order. Every field can go through an optional hook registered on the route. The hook can:
- keep the value;
- replace it;
- drop the field, by returning `undefined`;
- wrap the value marker in literal SQL, through `beginStr`/`endStr`.

The route then writes `?? = <begin>?<end>` per kept field, joined by `", "` or `" AND "`. It trims the trailing separator with `substring`. It hands the template and the argument list to the driver, which escapes `??` as an identifier and binds `?` as a value. `list` passes the driver's results through a replaceable filter that deletes password, API-key, private-key and secret-key entries.

Modules, one per part of the route:
- `Wrappers`: `Option` and `Result`.
- `Values`: a JavaScript value as the route sees it. It covers `undefined`, `null`, booleans, numbers and strings, plus an object with the three properties the route reads: `value`, `beginStr` and `endStr`.
- `Statement`: the template text as tokens (a literal, the identifier marker `??` or the value marker `?`), the driver arguments, and how the text renders. It also holds JavaScript's `substring(0, length - n)` trim carried out on tokens, and the alignment invariant: the markers of the text line up one for one with the arguments, `??` with a name and `?` with a value.
- `Pipeline`: one field through its hook (`Apply`), the fold over a field map (`Kept`), and the text and argument pieces each kept field contributes.
- `Builders`: the four statement builders, with the route's exact trimming guards.
- `Redaction`: the default `onListFilterResults` filter.
- `DataRoute`: request parameters, the hooks a route is configured with, the driver as a function parameter, and what each method returns.

The statement text is kept as tokens rather than as one string for a reason. A hook's `beginStr`/`endStr` may itself contain `?`, and the driver would count such a `?` as a marker. The alignment invariant is therefore stated about the builder's own markers. `Statement.DropCharsIsSubstring` ties the token trim back to the character-level `substring` the route performs.

Behaviours of the code worth knowing:
- A hook that returns its argument is not the same as no hook. It unwraps an object with a non-null `value`, which the unhooked path binds whole (`Pipeline.IdentityHookUnwrapsObjects`).
- `remove` has no `limit` clause.
- `offset` is left out of the select when absent. It is not defaulted to 0.
- `list` and `remove` emit ` where ` whenever the where map is non-empty before any hook runs. When hooks then drop every entry, the statement ends in a dangling ` where `.
- `edit` always writes ` where `, so an update whose where pairs were all dropped renders `… where ;`.
- An empty where map for `remove` deletes the whole table.
- `list` reads each where entry's `value` before its hook runs, so a null or undefined entry fails the request even when the hook would drop it.

## Model

| member | source | states |
|---|---|---|
| Pipeline.Apply | src/DataRoute.ts:280-297 | With no hook the value is bound unchanged with empty wrapping. With a hook: undefined drops the field and null binds null. An object result gives its non-null `beginStr`/`endStr` as wrapping and is bound by its non-null `value`, else as itself. Any other result is bound as is. The key is never changed. |
| Pipeline.Kept | src/DataRoute.ts:274-303 | The loop's fold keeps at most one binding per field; its order and contents are stated by the next three rows. |
| Pipeline.KeptConcat | src/DataRoute.ts:274-303 | The loop works field by field in order: the bindings kept from one field list followed by another are those of the first list followed by those of the second. |
| Pipeline.KeptSingle | src/DataRoute.ts:280-302 | One field contributes the hook's binding for it, or nothing when the hook returns undefined (the `continue` at :288-289). |
| Pipeline.KeptComeFromFields | src/DataRoute.ts:274-303 | A binding is kept exactly when the hook made it from one of the fields: the fold neither invents nor loses a surviving field. |
| Pipeline.TrimSegments | src/DataRoute.ts:300-306 | Cutting the separator's length off the loop's text leaves exactly the terms joined by the separator. The cut never reaches into a term, and on empty text it yields empty text. |
| Pipeline.RenderJoin | src/DataRoute.ts:300 | The joined terms render as `?? = <begin>?<end>` per kept field, separated by the separator, with none after the last. |
| Pipeline.JoinPlaceholders | src/DataRoute.ts:300-302 | The joined terms carry one `??` then one `?` per kept field, matching the key and value pushed for it. |
| Pipeline.PairArgsLayout | src/DataRoute.ts:301-302 | The i-th kept field's key is argument 2i and its bound value is argument 2i+1. |
| Pipeline.NoHookKeepsEveryField | src/DataRoute.ts:52-56 | With no hook registered (the route's initial state) every field is kept, in order, bound to its own value with no wrapping. |
| Pipeline.DroppingRemovesOnlyThatKey | src/DataRoute.ts:284-285 | A hook that returns undefined for key `k` keeps exactly what the hook keeps of the map without `k`, and keeps no field named `k`. |
| Pipeline.IdentityHookUnwrapsObjects | src/DataRoute.ts:280-297 | A hook returning its own argument binds an object's `value` and wrapping, while no hook binds the object whole. |
| Pipeline.IdentityHookAgreesOffObjects | src/DataRoute.ts:280-297 | For every value that is neither an object nor undefined, a hook that returns its argument and no hook bind the same thing. |
| Statement.DropCharsIsSubstring | src/DataRoute.ts:305-306 | The token trim renders to `substring(0, length - n)` of the rendered text, counted in characters, including the clamp to "" when the text is shorter than `n`. |
| Statement.AlignedConcat | src/DataRoute.ts:272-303 | Text pieces whose markers match their argument pieces still match when both are put side by side. |
| Builders.Insert | src/DataRoute.ts:271-308 | The statement is `insert into ?? set`, then the kept terms joined by `", "`, then `;`. The trim happens exactly when a field was kept. The arguments are the schema, then each kept key and value. |
| Builders.InsertArgs | src/DataRoute.ts:272-302 | Insert argument 0 is the schema as a name; for the i-th kept field, argument 1+2i is its key and argument 2+2i its bound value. |
| Builders.InsertAligned | src/DataRoute.ts:300-308 | Every insert statement's markers line up with its arguments, `??` with names and `?` with values. |
| Builders.InsertRendered | src/DataRoute.ts:300-308 | The insert statement renders as `insert into ?? set <terms joined by ", ">;`. |
| Builders.InsertNothingKept | src/DataRoute.ts:305-308 | When every field is dropped the trim is skipped; the statement is `insert into ?? set ;` with only the schema as argument. |
| Builders.InsertWithoutHook | src/DataRoute.ts:274-303 | With no insert hook, every field is assigned in field order with its own value. |
| Builders.InsertDroppingKey | src/DataRoute.ts:282-285 | An insert hook dropping key `k` builds the statement the undropping hook builds for the map without `k`. |
| Builders.Edit | src/DataRoute.ts:324-400 | The statement is `update ?? set`, the kept update terms joined by `", "`, ` where `, the kept where terms joined by `" AND "`, then `;`. The where trim is guarded by the whole argument count, which never changes the text. The arguments are the schema, the update pairs, then the where pairs. |
| Builders.EditArgs | src/DataRoute.ts:326-359 | Edit argument 0 is the schema; the i-th kept update field's key and value are arguments 1+2i and 2+2i. |
| Builders.EditWhereArgs | src/DataRoute.ts:366-395 | The where pairs follow the update pairs: after 2u update arguments, the i-th kept where field's key and value are at 1+2u+2i and 2+2u+2i. |
| Builders.EditAligned | src/DataRoute.ts:324-400 | Every update statement's markers line up with its arguments. |
| Builders.EditRendered | src/DataRoute.ts:356-400 | The update renders as `update ?? set <assignments> where <conditions>;`. |
| Builders.EditNoWhereKept | src/DataRoute.ts:392-400 | When every where pair is dropped, the update still says `where` and closes at once with `where ;`. |
| Builders.EditDroppingKey | src/DataRoute.ts:338-341 | Dropping a key in either edit hook is the same as leaving it out of that map. |
| Builders.FirstNullishEntry | src/DataRoute.ts:427-430 | No key is reported exactly when no where entry is null or undefined; otherwise the reported key belongs to a null or undefined entry with none before it, the one whose `value` read throws first. |
| Builders.List | src/DataRoute.ts:414-473 | Fails exactly when a where entry is null or undefined, whose `value` read throws. Otherwise the statement is `select * from ??`, ` where ` iff the where map is non-empty, the kept conditions joined by `" AND "`, then ` offset ? ` and ` limit ? ` each exactly when non-null. The arguments follow the same order. |
| Builders.ListArgs | src/DataRoute.ts:420-472 | List arguments are the schema, the kept where pairs at 1+2i and 2+2i, then the offset when non-null, and the limit last when non-null. |
| Builders.ListAligned | src/DataRoute.ts:419-473 | Every select statement's markers line up with its arguments. |
| Builders.ListWhereIffEntries | src/DataRoute.ts:422-425 | ` where ` follows the table exactly when the where map had entries before any hook ran. |
| Builders.ListDanglingWhere | src/DataRoute.ts:424-461 | When hooks drop every entry of a non-empty where map, the select keeps ` where ` directly before the paging clauses. |
| Builders.ListDroppingKey | src/DataRoute.ts:434-439 | With no null or undefined where entry and some entry other than `k` left, a list hook dropping `k` builds the select the hook builds for the map without `k`. |
| Builders.ListDroppedNullEntryStillFails | src/DataRoute.ts:429-439 | Dropping through the hook differs from leaving the key out: a null entry named `k` fails the select under a hook that drops `k`, while the map without `k` succeeds. |
| Builders.ListDefaultPaging | src/DataRoute.ts:416-473 | With offset null and limit 20, the statement ends in ` limit ? ` with 20 as the last argument, and binds no offset. |
| Builders.PagingAligned | src/DataRoute.ts:463-473 | Each paging clause adds one value marker and its one value, or nothing when the parameter is null. |
| Builders.Remove | src/DataRoute.ts:496-535 | The statement is `delete from ??`, and when the where map is non-empty, ` where ` and the kept conditions joined by `" AND "`; there is no limit. The arguments are the schema, then the kept pairs. |
| Builders.RemoveArgs | src/DataRoute.ts:498-531 | Remove argument 0 is the schema; the i-th kept where field's key and value are arguments 1+2i and 2+2i. |
| Builders.RemoveAligned | src/DataRoute.ts:496-535 | Every delete statement's markers line up with its arguments. |
| Builders.RemoveRendered | src/DataRoute.ts:496-535 | The delete renders as `delete from ??`, followed by ` where <conditions>` exactly when the where map is non-empty. |
| Builders.RemoveEmptyWhereIsUnconditional | src/DataRoute.ts:494-535 | An empty where map gives the unconditional `delete from ??` with only the schema as argument. |
| Builders.RemoveDanglingWhere | src/DataRoute.ts:528-535 | When the hook drops every entry of a non-empty where map, the delete is `delete from ?? where `: the trim of empty text clamps to "". |
| Builders.RemoveDroppingKey | src/DataRoute.ts:510-513 | Dropping a key in the remove hook equals leaving it out of the where map, as long as some entry remains. |
| Redaction.LowerChar | src/DataRoute.ts:61 | An ASCII capital becomes its own lower-case letter and the Kelvin sign becomes `k`; lower-case letters, digits and `_` are unchanged; the result is never an ASCII capital. |
| Redaction.PasswordSaltNeverMatches | src/DataRoute.ts:61-63 | No key lower-cases to `passwordSalt`, so that comparison never succeeds. |
| Redaction.SensitiveIffDenylisted | src/DataRoute.ts:61-70 | A key is deleted exactly when its lower-cased form is one of the eleven names that can match. |
| Redaction.MixedCaseIsSensitive | src/DataRoute.ts:61-70 | `apiKey`, `PASSWORD`, `Secret_Key`, and `apiKey` spelled with the Kelvin sign are all deleted. |
| Redaction.DigitKeyNotSensitive | src/DataRoute.ts:59-70 | A key of decimal digits, such as an array index, is never deleted. |
| Redaction.Redact | src/DataRoute.ts:57-75 | The filter's output is no longer than its input and holds no sensitive key. |
| Redaction.RedactMembership | src/DataRoute.ts:59-74 | An entry survives exactly when it was present and its key is not sensitive: nothing is added and no value changes. |
| Redaction.RedactConcat | src/DataRoute.ts:59-72 | The filter works entry by entry: on a concatenation it is the concatenation of the filtered parts. |
| Redaction.RedactKeepsClean | src/DataRoute.ts:59-74 | A map with no sensitive key passes through unchanged. |
| Redaction.RedactIdempotent | src/DataRoute.ts:57-75 | Filtering twice is filtering once. |
| DataRoute.AddQuery | src/DataRoute.ts:267-308 | `add` fails exactly when `schema` or `fields` is missing, reporting `schema` first. Otherwise it sends the insert of the request's `fields` under `onInsertField`, which is aligned. |
| DataRoute.EditQuery | src/DataRoute.ts:319-401 | `edit` fails exactly when `schema`, `whereFields` or `fields` is missing, in that order. Otherwise it sends the update whose SET comes from `fields` under `onUpdateField` and whose WHERE comes from `whereFields` under `onUpdateWhereField`, which is aligned. |
| DataRoute.ListQuery | src/DataRoute.ts:412-475 | `list` fails exactly when `schema` is missing or a where entry is null or undefined. Otherwise it sends the select built under `onListWhereField` from the request's where map (default empty), offset (default null) and limit (default 20), which is aligned. |
| DataRoute.RemoveQuery | src/DataRoute.ts:491-538 | `remove` fails exactly when `schema` is missing. Otherwise it sends the delete built under `onRemoveWhereField` from the request's where map (default empty), which is aligned. |
| DataRoute.Add | src/DataRoute.ts:308-313 | `add` returns true exactly when the statement was built and the driver reported no error. |
| DataRoute.Edit | src/DataRoute.ts:401-406 | `edit` returns true exactly when the statement was built and the driver reported no error. |
| DataRoute.Remove | src/DataRoute.ts:538-546 | `remove` succeeds exactly when the driver reports no error, and then returns the driver's results unchanged. |
| DataRoute.IndexKey | src/DataRoute.ts:59 | An array's index key is a non-empty string of decimal digits. |
| DataRoute.FilterResults | src/DataRoute.ts:481-483 | Applied to the array of rows, as `list` applies it, the filter returns every row whole. |
| DataRoute.List | src/DataRoute.ts:475-485 | `list` as written succeeds exactly when the driver reports no error, and returns the driver's rows unchanged. |
| DataRoute.ListRedactingRows | src/DataRoute.ts:57-75 | `list` with the filter applied to each row: same success condition and row count, and no returned row has a sensitive column. |
| DataRoute.ListRedactingRowsKeepsTheRest | src/DataRoute.ts:59-74 | In the corrected `list`, a row entry survives exactly when it is in the driver's row and its key is not sensitive. |
| DataRoute.ListReturnsPasswords | src/DataRoute.ts:241-258 | In the route's list-test scenario, with a `password` column stored, `list` as written returns the password while the corrected `list` removes it. |
| DataRoute.ListDefaultsToTwentyRows | src/DataRoute.ts:416-473 | A request without `limit` or `offset` is bounded by a trailing ` limit ? ` bound to 20. |
| DataRoute.ListNullLimitIsUnbounded | src/DataRoute.ts:463-473 | With no offset and an explicit null limit, the select ends with its conditions, with no paging clause, and binds only the schema and the where pairs. |
| DataRoute.RemoveWithoutWhereDeletesAll | src/DataRoute.ts:494-535 | `remove` without `whereFields` sends `delete from ??` with only the schema, whatever hook is registered. |
| DataRoute.AddTestStatement | src/DataRoute.ts:113-124 | The route's add test case sends `insert into ?? set ?? = ?, ?? = ?;` with `users`, `name`, `Test_User`, `email` and `test@test.com` in that order. |

## Left out

- Route registration, parameter documentation, `onRegister` and the route's test-case bodies: these are framework wiring, not statement building.
- HotStaq's `getParam` and `getParamDefault` are outside this model. The model assumes `getParam` fails with a missing-parameter error, and that `getParamDefault` returns its default when the parameter is absent.
- DataRoute.ListNullLimitIsUnbounded: assumes that an explicit `limit: null` in the request reaches the `limit != null` test as null, i.e. that `getParamDefault` returns a present null rather than its default of 20.
- DataRoute.RemoveQuery, DataRoute.ListQuery and DataRoute.RemoveWithoutWhereDeletesAll: assume that parameters the route's documentation flags as required (remove's `whereFields`, list's `fields`) are not enforced before the method runs; the method bodies read `whereFields` with a default of an empty map and never read list's `fields`.
- `async`/`await` and exceptions: a hook is a pure function of schema, key and value. A thrown driver error is the `Execution` failure, and the `TypeError` of reading `value` on a null where entry is the `NullWhereEntry` failure. The real `TypeError` does not name the entry's key; the model's failure does.
- The driver's escaping and formatting of `??` and `?`, and `edit`'s extra `db.db.format` before the query, are outside this model; the model stops at the template and the argument list. `remove`'s unused `format` call likewise.
- The logger's verbose output of `list` and `remove` results.
- Numbers are integers. Floating-point values and other JavaScript values (arrays, functions, objects with further properties) are not modelled.
- `for … in` order is the order of the field sequence. JavaScript's rule that integer-like keys come first is not modelled.
- Statement.DropCharsIsSubstring and Statement.CharTrim: strings are sequences of Unicode scalar values, while JavaScript's `length` and `substring` count UTF-16 code units. The two trims agree only when the last `n` characters all lie in the Basic Multilingual Plane. Every trim the route performs removes an ASCII separator (`", "` or `" AND "`) that the loop appended last, so the route's statements are unaffected.
- `Redaction.LowerChar`: lower-cases ASCII letters and the Kelvin sign only. Other non-ASCII characters, whose lower-case forms are never ASCII-only, stay as they are.
- `onListFilterResults` may be replaced by the application. Only the default filter is modelled.
- `DataRoute.Remove`: returns the driver's results as they are. The route's own remove test case compares them with `true`, which is not modelled.

## Findings

| source | as written | input that shows it | evidently intended | confidence | as-written member | corrected member |
|---|---|---|---|---|---|---|
| src/DataRoute.ts:481-483 | `list` hands the whole result array to `onListFilterResults`, whose loop visits the array's own keys `"0"`, `"1"`, …, so no column of any row is removed. | A `users` table whose row has a `password` column, listed as in the route's list test: the password is returned. | The denylist applied to the columns of each row, so no returned row carries a sensitive column. | not executed | DataRoute.ListReturnsPasswords | DataRoute.ListRedactingRows |
