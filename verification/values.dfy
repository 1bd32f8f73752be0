/** The values a request carries once its JSON body has been parsed. */
module Values {
  import opened Wrappers

  /** A JavaScript value as the route handles it. `Obj` is an object seen
      through the three properties the route ever reads from one: `value`,
      `beginStr` and `endStr`. A `value` property that is absent reads as
      `Undefined`; a `beginStr` or `endStr` that is absent or null is `None`. */
  datatype Val =
    | Undefined
    | Null
    | Bool(b: bool)
    | Num(n: int)
    | Str(s: string)
    | Obj(value: Val, beginStr: Option<string>, endStr: Option<string>)

  /** JavaScript's loose comparison `v == null`, true of null and undefined. */
  predicate IsNullish(v: Val) {
    v.Undefined? || v.Null?
  }
}
