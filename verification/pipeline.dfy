/** The per-field hook pipeline every builder shares: each field of an
    ordered key/value map goes through an optional hook, which may drop it,
    bind null, bind a plain value, or wrap the value marker in literal text. */
module Pipeline {
  import opened Wrappers
  import opened Values
  import opened Statement

  /** A field map in the order the route's `for ... in` loop visits it. */
  type FieldMap = seq<(string, Val)>

  /** A registered hook, called as `hook(schema, key, value)`; returning
      `Undefined` drops the field. */
  type Hook = (string, string, Val) -> Val

  /** A field that survived its hook: `key = <begin>?<end>` with `value`
      bound to the marker. */
  datatype Binding = Binding(key: string, begin: string, value: Val, end: string)

  /** One field through its hook. With no hook the value is bound unchanged.
      A hook result of undefined drops the field and null binds null. Any
      other result that carries a non-null `beginStr` or `endStr` puts that
      text right before or after the value marker, and is bound by its
      `value` property when that is non-null, otherwise as the object itself. */
  function Apply(hook: Option<Hook>, schema: string, key: string, v: Val): (r: Option<Binding>)
    ensures r.Some? ==> r.value.key == key
    ensures hook.None? ==> r == Some(Binding(key, "", v, ""))
    ensures hook.Some? ==> (r.None? <==> hook.value(schema, key, v).Undefined?)
    ensures hook.Some? && hook.value(schema, key, v).Null? ==> r == Some(Binding(key, "", Null, ""))
    ensures hook.Some? && r.Some? && !hook.value(schema, key, v).Obj? ==>
              r == Some(Binding(key, "", hook.value(schema, key, v), ""))
    ensures hook.Some? && hook.value(schema, key, v).Obj? ==>
              var o := hook.value(schema, key, v);
              && r.Some?
              && r.value.begin == o.beginStr.GetOr("")
              && r.value.end == o.endStr.GetOr("")
              && r.value.value == (if IsNullish(o.value) then o else o.value)
  {
    match hook
    case None => Some(Binding(key, "", v, ""))
    case Some(h) =>
      var out := h(schema, key, v);
      if out.Undefined? then None
      else if out.Null? then Some(Binding(key, "", Null, ""))
      else if out.Obj? then
        Some(Binding(key, out.beginStr.GetOr(""),
                     if IsNullish(out.value) then out else out.value,
                     out.endStr.GetOr("")))
      else Some(Binding(key, "", out, ""))
  }

  /** The bindings a builder keeps from its fields: one per field the hook
      does not drop, in field order (see `KeptSingle` and `KeptConcat`). */
  function Kept(hook: Option<Hook>, schema: string, fields: FieldMap): (bs: seq<Binding>)
    ensures |bs| <= |fields|
  {
    if fields == [] then []
    else
      var rest := Kept(hook, schema, fields[1..]);
      match Apply(hook, schema, fields[0].0, fields[0].1)
      case None => rest
      case Some(b) => [b] + rest
  }

  /** The fold works field by field in order: the bindings kept from two
      field lists placed one after the other are those of the first list
      followed by those of the second. */
  lemma {:induction false} KeptConcat(hook: Option<Hook>, schema: string, a: FieldMap, b: FieldMap)
    ensures Kept(hook, schema, a + b) == Kept(hook, schema, a) + Kept(hook, schema, b)
    decreases |a|
  {
    if a == [] {
      assert a + b == b;
    } else {
      assert (a + b)[0] == a[0];
      assert (a + b)[1..] == a[1..] + b;
      KeptConcat(hook, schema, a[1..], b);
    }
  }

  /** A single field contributes the hook's binding for it, or nothing when
      the hook drops it; with `KeptConcat` this fixes the fold completely. */
  lemma KeptSingle(hook: Option<Hook>, schema: string, field: (string, Val))
    ensures Kept(hook, schema, [field])
         == match Apply(hook, schema, field.0, field.1)
            case None => []
            case Some(b) => [b]
  {
    assert [field][1..] == [];
  }

  /** The kept bindings are exactly what the hook made of the fields it
      did not drop: nothing is invented and nothing surviving is lost. */
  lemma {:induction false} KeptComeFromFields(hook: Option<Hook>, schema: string, fields: FieldMap)
    ensures forall b :: b in Kept(hook, schema, fields) <==>
              exists i :: 0 <= i < |fields| && Apply(hook, schema, fields[i].0, fields[i].1) == Some(b)
  {
    if fields != [] {
      var rest := Kept(hook, schema, fields[1..]);
      var first := Apply(hook, schema, fields[0].0, fields[0].1);
      KeptComeFromFields(hook, schema, fields[1..]);
      assert Kept(hook, schema, fields) == if first.Some? then [first.value] + rest else rest;
      forall b
        ensures b in Kept(hook, schema, fields) <==>
                exists i :: 0 <= i < |fields| && Apply(hook, schema, fields[i].0, fields[i].1) == Some(b)
      {
        if b in Kept(hook, schema, fields) && first != Some(b) {
          assert b in rest;
          var j :| 0 <= j < |fields[1..]| && Apply(hook, schema, fields[1..][j].0, fields[1..][j].1) == Some(b);
          assert fields[1..][j] == fields[j + 1];
        }
        if i :| 0 <= i < |fields| && Apply(hook, schema, fields[i].0, fields[i].1) == Some(b) {
          if i > 0 {
            assert fields[1..][i - 1] == fields[i];
            assert b in rest;
          }
        }
      }
    }
  }

  /** The text of one kept field: `?? = <begin>?<end>`. */
  function Term(b: Binding): seq<Token> {
    [IdentPH, Lit(" = "), Lit(b.begin), ValuePH, Lit(b.end)]
  }

  /** What the route's loop appends: each term followed by the separator. */
  function Segments(bs: seq<Binding>, sep: string): seq<Token> {
    if bs == [] then [] else Term(bs[0]) + [Lit(sep)] + Segments(bs[1..], sep)
  }

  /** The terms joined by the separator, with none after the last. */
  function JoinTerms(bs: seq<Binding>, sep: string): seq<Token> {
    if bs == [] then []
    else if |bs| == 1 then Term(bs[0])
    else Term(bs[0]) + [Lit(sep)] + JoinTerms(bs[1..], sep)
  }

  /** What the route's loop pushes: the key, then the bound value, per field. */
  function PairArgs(bs: seq<Binding>): (args: seq<Arg>)
    ensures |args| == 2 * |bs|
  {
    if bs == [] then [] else [Ident(bs[0].key), Value(bs[0].value)] + PairArgs(bs[1..])
  }

  lemma {:induction false} SegmentsEndWithSeparator(bs: seq<Binding>, sep: string)
    requires bs != []
    ensures Segments(bs, sep) == JoinTerms(bs, sep) + [Lit(sep)]
  {
    if |bs| > 1 {
      SegmentsEndWithSeparator(bs[1..], sep);
    }
  }

  /** Trimming the separator's length off the loop's text leaves exactly the
      joined terms: the cut never reaches into a term, and on empty text it
      yields empty text. */
  lemma TrimSegments(bs: seq<Binding>, sep: string)
    requires |sep| > 0
    ensures DropChars(Segments(bs, sep), |sep|) == JoinTerms(bs, sep)
  {
    if bs != [] {
      SegmentsEndWithSeparator(bs, sep);
      DropTrailingLit(JoinTerms(bs, sep), sep);
    }
  }

  /** Each term renders as `?? = <begin>?<end>`, the begin and end text
      immediately around the value marker. */
  lemma RenderTerm(b: Binding)
    ensures Render(Term(b)) == "?? = " + b.begin + "?" + b.end
  {
    var a0: seq<Token> := [];
    var a1 := a0 + [IdentPH];
    var a2 := a1 + [Lit(" = ")];
    var a3 := a2 + [Lit(b.begin)];
    var a4 := a3 + [ValuePH];
    var a5 := a4 + [Lit(b.end)];
    RenderSnoc(a0, IdentPH);
    RenderSnoc(a1, Lit(" = "));
    RenderSnoc(a2, Lit(b.begin));
    RenderSnoc(a3, ValuePH);
    RenderSnoc(a4, Lit(b.end));
    assert Term(b) == a5;
  }

  /** The opening of a term, `?? = <begin>`, carries only the key marker. */
  lemma TermHeadPlaceholders(begin: string)
    ensures Placeholders([IdentPH, Lit(" = "), Lit(begin)]) == [IdentPH]
  {
    var a0: seq<Token> := [];
    var a1 := a0 + [IdentPH];
    var a2 := a1 + [Lit(" = ")];
    assert Placeholders(a1) == [IdentPH] by { PlaceholdersSnoc(a0, IdentPH); }
    assert Placeholders(a2) == [IdentPH] by { PlaceholdersSnoc(a1, Lit(" = ")); }
    PlaceholdersSnoc(a2, Lit(begin));
    assert a2 + [Lit(begin)] == [IdentPH, Lit(" = "), Lit(begin)];
  }

  /** Each term carries one key marker then one value marker. */
  lemma TermPlaceholders(b: Binding)
    ensures Placeholders(Term(b)) == [IdentPH, ValuePH]
  {
    var head: seq<Token> := [IdentPH, Lit(" = "), Lit(b.begin)];
    var withValue := head + [ValuePH];
    assert Term(b) == withValue + [Lit(b.end)];
    assert Placeholders(withValue) == [IdentPH, ValuePH] by {
      TermHeadPlaceholders(b.begin);
      PlaceholdersSnoc(head, ValuePH);
    }
    PlaceholdersSnoc(withValue, Lit(b.end));
  }

  /** The joined terms carry one `??` then one `?` per kept field, matching
      the key/value arguments pushed for it. */
  lemma {:induction false} JoinPlaceholders(bs: seq<Binding>, sep: string)
    ensures Placeholders(JoinTerms(bs, sep)) == Kinds(PairArgs(bs))
  {
    if bs != [] {
      var pair := [Ident(bs[0].key), Value(bs[0].value)];
      var rest := PairArgs(bs[1..]);
      TermPlaceholders(bs[0]);
      assert Kinds(pair) == [IdentPH, ValuePH];
      KindsConcat(pair, rest);
      assert PairArgs(bs) == pair + rest;
      if |bs| == 1 {
        assert rest == [];
        assert Kinds(rest) == [];
      } else {
        JoinPlaceholders(bs[1..], sep);
        PlaceholdersSnoc(Term(bs[0]), Lit(sep));
        PlaceholdersConcat(Term(bs[0]) + [Lit(sep)], JoinTerms(bs[1..], sep));
      }
    }
  }

  /** The joined terms as the route's string, each `?? = <begin>?<end>`,
      separated by `sep` and with no separator after the last. */
  function JoinText(bs: seq<Binding>, sep: string): string {
    if bs == [] then ""
    else if |bs| == 1 then "?? = " + bs[0].begin + "?" + bs[0].end
    else "?? = " + bs[0].begin + "?" + bs[0].end + sep + JoinText(bs[1..], sep)
  }

  lemma {:induction false} RenderJoin(bs: seq<Binding>, sep: string)
    ensures Render(JoinTerms(bs, sep)) == JoinText(bs, sep)
  {
    if bs != [] {
      RenderTerm(bs[0]);
      if |bs| > 1 {
        RenderJoin(bs[1..], sep);
        RenderConcat(Term(bs[0]) + [Lit(sep)], JoinTerms(bs[1..], sep));
        RenderConcat(Term(bs[0]), [Lit(sep)]);
        RenderSingle(Lit(sep));
      }
    }
  }

  /** The argument layout: the key of the i-th kept field at 2i, its bound
      value at 2i + 1. */
  lemma {:induction false} PairArgsLayout(bs: seq<Binding>)
    ensures forall i :: 0 <= i < |bs| ==>
              PairArgs(bs)[2 * i] == Ident(bs[i].key) && PairArgs(bs)[2 * i + 1] == Value(bs[i].value)
  {
    if bs != [] {
      PairArgsLayout(bs[1..]);
      forall i | 0 <= i < |bs|
        ensures PairArgs(bs)[2 * i] == Ident(bs[i].key) && PairArgs(bs)[2 * i + 1] == Value(bs[i].value)
      {
        if i > 0 {
          assert bs[1..][i - 1] == bs[i];
          assert PairArgs(bs)[2 * i] == PairArgs(bs[1..])[2 * (i - 1)];
          assert PairArgs(bs)[2 * i + 1] == PairArgs(bs[1..])[2 * (i - 1) + 1];
        }
      }
    }
  }

  /** With no hook registered, every field is kept, in order, bound to its
      own value with no wrapping. */
  lemma {:induction false} NoHookKeepsEveryField(schema: string, fields: FieldMap)
    ensures Kept(None, schema, fields)
         == seq(|fields|, i requires 0 <= i < |fields| => Binding(fields[i].0, "", fields[i].1, ""))
  {
    if fields != [] {
      NoHookKeepsEveryField(schema, fields[1..]);
    }
  }

  /** `h`, except that it drops every field named `k`. */
  function Dropping(h: Hook, k: string): Hook {
    (s: string, key: string, v: Val) => if key == k then Undefined else h(s, key, v)
  }

  /** The fields not named `k`, in order. */
  function FieldsWithout(fields: FieldMap, k: string): (r: FieldMap)
    ensures |r| <= |fields|
    ensures forall i :: 0 <= i < |r| ==> r[i].0 != k
    ensures forall e :: e in fields && e.0 != k ==> e in r
  {
    if fields == [] then []
    else (if fields[0].0 == k then [] else [fields[0]]) + FieldsWithout(fields[1..], k)
  }

  /** A hook that drops key `k` keeps exactly what `h` keeps of the other
      fields: the outcome is that of `h` on the map without `k`, and no kept
      field is named `k`. */
  lemma {:induction false} DroppingRemovesOnlyThatKey(h: Hook, k: string, schema: string, fields: FieldMap)
    ensures Kept(Some(Dropping(h, k)), schema, fields) == Kept(Some(h), schema, FieldsWithout(fields, k))
    ensures forall b :: b in Kept(Some(Dropping(h, k)), schema, fields) ==> b.key != k
  {
    if fields != [] {
      DroppingRemovesOnlyThatKey(h, k, schema, fields[1..]);
      if fields[0].0 != k {
        assert FieldsWithout(fields, k) == [fields[0]] + FieldsWithout(fields[1..], k);
        assert FieldsWithout(fields, k)[1..] == FieldsWithout(fields[1..], k);
      } else {
        assert FieldsWithout(fields, k) == FieldsWithout(fields[1..], k);
      }
    }
  }

  /** A hook that returns its argument is not the same as no hook: it
      unwraps an object with a non-null `value` and applies its wrapping,
      while the unhooked path binds the object whole. */
  lemma IdentityHookUnwrapsObjects()
    ensures var identity: Hook := (s: string, key: string, v: Val) => v;
            var o := Obj(Str("x"), Some("%"), None);
            && Apply(Some(identity), "t", "k", o) == Some(Binding("k", "%", Str("x"), ""))
            && Apply(None, "t", "k", o) == Some(Binding("k", "", o, ""))
  {
  }

  /** For every value that is neither an object nor undefined, a hook that
      returns its argument and no hook bind the same thing. */
  lemma IdentityHookAgreesOffObjects(schema: string, key: string, v: Val)
    requires !v.Obj? && !v.Undefined?
    ensures Apply(Some((s: string, k: string, x: Val) => x), schema, key, v) == Apply(None, schema, key, v)
  {
  }
}
