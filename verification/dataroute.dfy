/** The data route's four methods, `add`, `edit`, `list` and `remove`: read
    the request's parameters, build the statement, hand it to the database
    driver, and return what the route returns. The driver is a parameter. */
module DataRoute {
  import opened Wrappers
  import opened Values
  import opened Statement
  import opened Pipeline
  import Builders
  import Redaction

  /** The route's hooks; each is unset until the application registers one. */
  datatype Config = Config(
    onInsertField: Option<Hook>,
    onUpdateField: Option<Hook>,
    onUpdateWhereField: Option<Hook>,
    onRemoveWhereField: Option<Hook>,
    onListWhereField: Option<Hook>)

  /** The route as constructed: no field hook registered. */
  const Unhooked: Config := Config(None, None, None, None, None)

  /** The parameters a request may carry; `None` is an absent parameter. */
  datatype Request = Request(
    schema: Option<string>,
    fields: Option<FieldMap>,
    whereFields: Option<FieldMap>,
    offset: Option<Val>,
    limit: Option<Val>)

  datatype Error =
    | MissingParam(name: string)
    | NullWhereEntry(key: string)
    | Execution(message: string)

  type Row = seq<(string, Val)>

  /** What the driver answers: an error, or the rows it returned. */
  datatype Reply = Reply(error: Option<string>, results: seq<Row>)

  type Driver = Query -> Reply

  /** The limit `list` uses when the request gives none. */
  const DefaultLimit: Val := Num(20)

  // ---------------------------------------------------------------------
  // Statements from requests.

  function AddQuery(config: Config, req: Request): (r: Result<Query, Error>)
    ensures r.Failure? <==> req.schema.None? || req.fields.None?
    ensures req.schema.None? ==> r == Failure(MissingParam("schema"))
    ensures r.Success? ==> r.value == Builders.Insert(config.onInsertField, req.schema.value, req.fields.value)
    ensures r.Success? ==> Aligned(r.value)
  {
    if req.schema.None? then Failure(MissingParam("schema"))
    else if req.fields.None? then Failure(MissingParam("fields"))
    else
      Builders.InsertAligned(config.onInsertField, req.schema.value, req.fields.value);
      Success(Builders.Insert(config.onInsertField, req.schema.value, req.fields.value))
  }

  function EditQuery(config: Config, req: Request): (r: Result<Query, Error>)
    ensures r.Failure? <==> req.schema.None? || req.whereFields.None? || req.fields.None?
    ensures req.schema.None? ==> r == Failure(MissingParam("schema"))
    ensures req.schema.Some? && req.whereFields.None? ==> r == Failure(MissingParam("whereFields"))
    ensures r.Success? ==>
              r.value == Builders.Edit(config.onUpdateField, config.onUpdateWhereField,
                                       req.schema.value, req.fields.value, req.whereFields.value)
    ensures r.Success? ==> Aligned(r.value)
  {
    if req.schema.None? then Failure(MissingParam("schema"))
    else if req.whereFields.None? then Failure(MissingParam("whereFields"))
    else if req.fields.None? then Failure(MissingParam("fields"))
    else
      var (uh, wh) := (config.onUpdateField, config.onUpdateWhereField);
      Builders.EditAligned(uh, wh, req.schema.value, req.fields.value, req.whereFields.value);
      Success(Builders.Edit(uh, wh, req.schema.value, req.fields.value, req.whereFields.value))
  }

  function ListQuery(config: Config, req: Request): (r: Result<Query, Error>)
    ensures req.schema.None? ==> r == Failure(MissingParam("schema"))
    ensures r.Failure? <==>
              req.schema.None?
              || exists i :: 0 <= i < |req.whereFields.GetOr([])| && IsNullish(req.whereFields.GetOr([])[i].1)
    ensures r.Failure? && req.schema.Some? ==> r.error.NullWhereEntry?
    ensures r.Success? ==>
              Builders.List(config.onListWhereField, req.schema.value, req.whereFields.GetOr([]),
                            req.offset.GetOr(Null), req.limit.GetOr(DefaultLimit))
              == Success(r.value)
    ensures r.Success? ==> Aligned(r.value)
  {
    if req.schema.None? then Failure(MissingParam("schema"))
    else
      var whereFields := req.whereFields.GetOr([]);
      var offset := req.offset.GetOr(Null);
      var limit := req.limit.GetOr(DefaultLimit);
      match Builders.List(config.onListWhereField, req.schema.value, whereFields, offset, limit)
      case Failure(key) => Failure(NullWhereEntry(key))
      case Success(q) =>
        Builders.ListAligned(config.onListWhereField, req.schema.value, whereFields, offset, limit);
        Success(q)
  }

  function RemoveQuery(config: Config, req: Request): (r: Result<Query, Error>)
    ensures r.Failure? <==> req.schema.None?
    ensures r.Success? ==>
              r.value == Builders.Remove(config.onRemoveWhereField, req.schema.value, req.whereFields.GetOr([]))
    ensures r.Success? ==> Aligned(r.value)
  {
    if req.schema.None? then Failure(MissingParam("schema"))
    else
      var whereFields := req.whereFields.GetOr([]);
      Builders.RemoveAligned(config.onRemoveWhereField, req.schema.value, whereFields);
      Success(Builders.Remove(config.onRemoveWhereField, req.schema.value, whereFields))
  }

  // ---------------------------------------------------------------------
  // The route methods.

  /** `add`: true once the driver accepts the insert; the driver's error
      otherwise. */
  function Add(config: Config, req: Request, db: Driver): (r: Result<bool, Error>)
    ensures r.Success? ==> r.value
    ensures r.Success? <==> AddQuery(config, req).Success? && db(AddQuery(config, req).value).error.None?
  {
    match AddQuery(config, req)
    case Failure(e) => Failure(e)
    case Success(q) =>
      var reply := db(q);
      if reply.error.Some? then Failure(Execution(reply.error.value)) else Success(true)
  }

  /** `edit`: true once the driver accepts the update. */
  function Edit(config: Config, req: Request, db: Driver): (r: Result<bool, Error>)
    ensures r.Success? ==> r.value
    ensures r.Success? <==> EditQuery(config, req).Success? && db(EditQuery(config, req).value).error.None?
  {
    match EditQuery(config, req)
    case Failure(e) => Failure(e)
    case Success(q) =>
      var reply := db(q);
      if reply.error.Some? then Failure(Execution(reply.error.value)) else Success(true)
  }

  /** `remove`: the driver's results as they came. */
  function Remove(config: Config, req: Request, db: Driver): (r: Result<seq<Row>, Error>)
    ensures r.Success? <==> RemoveQuery(config, req).Success? && db(RemoveQuery(config, req).value).error.None?
    ensures r.Success? ==> r.value == db(RemoveQuery(config, req).value).results
  {
    match RemoveQuery(config, req)
    case Failure(e) => Failure(e)
    case Success(q) =>
      var reply := db(q);
      if reply.error.Some? then Failure(Execution(reply.error.value)) else Success(reply.results)
  }

  // ---------------------------------------------------------------------
  // What `list` filters.

  /** The decimal digits of `n`: the key under which an array holds its
      `n`-th element. */
  function IndexKey(n: nat): (s: string)
    ensures |s| > 0
    ensures forall i :: 0 <= i < |s| ==> '0' <= s[i] <= '9'
  {
    if n < 10 then [('0' as int + n) as char]
    else IndexKey(n / 10) + [('0' as int + n % 10) as char]
  }

  /** The top-level entries of an array of rows, as `for ... in` visits
      them: index key, then row. */
  function IndexEntries(rows: seq<Row>): seq<(string, Row)> {
    seq(|rows|, i requires 0 <= i < |rows| => (IndexKey(i), rows[i]))
  }

  function Elements<V>(m: seq<(string, V)>): seq<V> {
    seq(|m|, i requires 0 <= i < |m| => m[i].1)
  }

  /** The route's filter applied, as `list` applies it, to the array of
      rows itself. Its top-level keys are array indices, none of which is
      sensitive, so every row comes back whole. */
  function FilterResults(rows: seq<Row>): (r: seq<Row>)
    ensures r == rows
  {
    var entries := IndexEntries(rows);
    forall i | 0 <= i < |entries| ensures !Redaction.IsSensitive(entries[i].0) {
      Redaction.DigitKeyNotSensitive(entries[i].0);
    }
    Redaction.RedactKeepsClean(entries);
    Elements(Redaction.Redact(entries))
  }

  /** `list` as written: the driver's rows, after a filter that removes
      nothing from them. */
  function List(config: Config, req: Request, db: Driver): (r: Result<seq<Row>, Error>)
    ensures r.Success? <==> ListQuery(config, req).Success? && db(ListQuery(config, req).value).error.None?
    ensures r.Success? ==> r.value == db(ListQuery(config, req).value).results
  {
    match ListQuery(config, req)
    case Failure(e) => Failure(e)
    case Success(q) =>
      var reply := db(q);
      if reply.error.Some? then Failure(Execution(reply.error.value))
      else Success(FilterResults(reply.results))
  }

  /** `list` with the filter applied to each row, as the denylist of column
      names is evidently meant: no returned row has a sensitive column. */
  function ListRedactingRows(config: Config, req: Request, db: Driver): (r: Result<seq<Row>, Error>)
    ensures r.Success? <==> ListQuery(config, req).Success? && db(ListQuery(config, req).value).error.None?
    ensures r.Success? ==> |r.value| == |db(ListQuery(config, req).value).results|
    ensures r.Success? ==> forall i, j :: 0 <= i < |r.value| && 0 <= j < |r.value[i]| ==>
                             !Redaction.IsSensitive(r.value[i][j].0)
  {
    match ListQuery(config, req)
    case Failure(e) => Failure(e)
    case Success(q) =>
      var reply := db(q);
      if reply.error.Some? then Failure(Execution(reply.error.value))
      else Success(seq(|reply.results|, i requires 0 <= i < |reply.results| => Redaction.Redact(reply.results[i])))
  }

  // ---------------------------------------------------------------------
  // Properties of the methods.

  /** The corrected `list` keeps every entry of every row except the
      sensitive ones, and otherwise returns what `list` returns. */
  lemma ListRedactingRowsKeepsTheRest(config: Config, req: Request, db: Driver, i: nat, k: string, v: Val)
    requires ListRedactingRows(config, req, db).Success?
    requires i < |ListRedactingRows(config, req, db).value|
    ensures var rows := List(config, req, db).value;
            (k, v) in ListRedactingRows(config, req, db).value[i]
            <==> (k, v) in rows[i] && !Redaction.IsSensitive(k)
  {
    var rows := db(ListQuery(config, req).value).results;
    Redaction.RedactMembership(rows[i], k, v);
  }

  /** The scenario of the route's own list test, with a password column in
      the stored row: `list` as written returns the password. */
  lemma ListReturnsPasswords()
    ensures var row: Row := [("name", Str("Test_User")), ("password", Str("secret"))];
            var db: Driver := (q: Query) => Reply(None, [row]);
            var req := Request(Some("users"), None, None, None, None);
            && Redaction.IsSensitive("password")
            && List(Unhooked, req, db) == Success([row])
            && ListRedactingRows(Unhooked, req, db) == Success([[("name", Str("Test_User"))]])
  {
    var row: Row := [("name", Str("Test_User")), ("password", Str("secret"))];
    var db: Driver := (q: Query) => Reply(None, [row]);
    var req := Request(Some("users"), None, None, None, None);
    assert Redaction.Lower("password") == "password";
    assert Redaction.Lower("name") == "name";
    assert !Redaction.IsSensitive("name");
    assert Redaction.Redact(row[1..]) == [] by {
      assert row[1..][1..] == [];
    }
    assert Redaction.Redact(row) == [("name", Str("Test_User"))];
    var q := ListQuery(Unhooked, req);
    assert Builders.List(None, "users", [], Null, Num(20)).Success?;
    assert q.Success?;
    assert db(q.value) == Reply(None, [row]);
    assert List(Unhooked, req, db) == Success([row]);
    var redacted := ListRedactingRows(Unhooked, req, db);
    assert redacted.Success?;
    assert redacted.value == [Redaction.Redact(row)];
  }

  /** A request without `limit` is bounded to 20 rows, bound as the last
      argument after the where pairs; without `offset` no offset is sent. */
  lemma ListDefaultsToTwentyRows(config: Config, req: Request)
    requires req.offset.None? && req.limit.None?
    requires ListQuery(config, req).Success?
    ensures var q := ListQuery(config, req).value;
            && q.args[|q.args| - 1] == Value(Num(20))
            && q.text[|q.text| - 3..] == [Lit(" limit "), ValuePH, Lit(" ")]
            && |q.args| % 2 == 0
  {
    var whereFields := req.whereFields.GetOr([]);
    var hook := config.onListWhereField;
    var q := Builders.List(hook, req.schema.value, whereFields, Null, Num(20));
    assert ListQuery(config, req) == Success(q.value);
    Builders.ListDefaultPaging(hook, req.schema.value, whereFields);
  }

  /** An explicit null limit removes the bound altogether: with no offset
      either, the select ends with its conditions and binds only the schema
      and the where pairs. */
  lemma ListNullLimitIsUnbounded(config: Config, req: Request)
    requires req.offset.None? && req.limit == Some(Null)
    requires ListQuery(config, req).Success?
    ensures var q, w := ListQuery(config, req).value, req.whereFields.GetOr([]);
            var kept := Kept(config.onListWhereField, req.schema.value, Builders.EntryValues(w));
            && q.args == [Ident(req.schema.value)] + PairArgs(kept)
            && q.text == [Lit("select * from "), IdentPH] + (if |w| > 0 then [Lit(" where ")] else [])
                         + JoinTerms(kept, " AND ")
  {
    var w := req.whereFields.GetOr([]);
    var q := Builders.List(config.onListWhereField, req.schema.value, w, Null, Null);
    assert q.value == ListQuery(config, req).value;
    var kept := Kept(config.onListWhereField, req.schema.value, Builders.EntryValues(w));
    assert q.value.args == [Ident(req.schema.value)] + PairArgs(kept) + [] + [];
  }

  /** `remove` without where fields deletes every row of the table. */
  lemma RemoveWithoutWhereDeletesAll(config: Config, schema: string)
    ensures var q := RemoveQuery(config, Request(Some(schema), None, None, None, None));
            && q.Success?
            && Render(q.value.text) == "delete from ??"
            && q.value.args == [Ident(schema)]
  {
    Builders.RemoveEmptyWhereIsUnconditional(config.onRemoveWhereField, schema);
  }

  /** The route's add test: `insert into ?? set ?? = ?, ?? = ?;` with the
      schema, then each name and value in order. */
  lemma AddTestStatement()
    ensures var fields := [("name", Str("Test_User")), ("email", Str("test@test.com"))];
            var q := AddQuery(Unhooked, Request(Some("users"), Some(fields), None, None, None));
            && q.Success?
            && Render(q.value.text) == "insert into ?? set ?? = ?, ?? = ?;"
            && q.value.args == [Ident("users"), Ident("name"), Value(Str("Test_User")),
                                Ident("email"), Value(Str("test@test.com"))]
  {
    var fields := [("name", Str("Test_User")), ("email", Str("test@test.com"))];
    var q := Builders.Insert(None, "users", fields);
    assert AddQuery(Unhooked, Request(Some("users"), Some(fields), None, None, None)) == Success(q);
    AddTestText(fields);
    TwoFieldsKept(fields);
    var b1 := Binding("email", "", Str("test@test.com"), "");
    assert PairArgs([b1]) == [Ident("email"), Value(Str("test@test.com"))] by {
      assert [b1][1..] == [];
    }
  }

  lemma AddTestText(fields: FieldMap)
    requires fields == [("name", Str("Test_User")), ("email", Str("test@test.com"))]
    ensures Render(Builders.Insert(None, "users", fields).text) == "insert into ?? set ?? = ?, ?? = ?;"
  {
    var kept := Kept(None, "users", fields);
    assert JoinText(kept, ", ") == "?? = ?, ?? = ?" by {
      TwoFieldsKept(fields);
    }
    Builders.InsertRendered(None, "users", fields);
    AddTestLiteral();
  }

  lemma TwoFieldsKept(fields: FieldMap)
    requires fields == [("name", Str("Test_User")), ("email", Str("test@test.com"))]
    ensures Kept(None, "users", fields)
         == [Binding("name", "", Str("Test_User"), ""), Binding("email", "", Str("test@test.com"), "")]
    ensures JoinText(Kept(None, "users", fields), ", ") == "?? = ?, ?? = ?"
  {
    var b0, b1 := Binding("name", "", Str("Test_User"), ""), Binding("email", "", Str("test@test.com"), "");
    assert fields[1..][1..] == [];
    assert Kept(None, "users", fields[1..]) == [b1];
    var kept := Kept(None, "users", fields);
    assert kept == [b0, b1];
    assert kept[1..] == [b1];
  }

  /** The add test's text, assembled from the clause head, the two terms
      and the closing `;`. */
  lemma AddTestLiteral()
    ensures "insert into ?? set " + "?? = ?, ?? = ?" + ";" == "insert into ?? set ?? = ?, ?? = ?;"
  {
  }
}
