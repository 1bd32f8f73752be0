/** The four statement builders of the data route: insert (`add`), update
    (`edit`), select (`list`) and delete (`remove`). Each is a fold over an
    ordered field map through the hook pipeline, yielding template text and
    the argument list, with the route's separator trimming. */
module Builders {
  import opened Wrappers
  import opened Values
  import opened Statement
  import opened Pipeline

  /** `insert into ?? set <assignments>;` with the schema, then one key and
      one value per kept field. The trailing `", "` is trimmed exactly when a
      field was kept, so the assignments are the terms joined by `", "`. */
  function Insert(hook: Option<Hook>, schema: string, fields: FieldMap): (q: Query)
    ensures q.text == [Lit("insert into "), IdentPH, Lit(" set ")]
                      + JoinTerms(Kept(hook, schema, fields), ", ") + [Lit(";")]
    ensures q.args == [Ident(schema)] + PairArgs(Kept(hook, schema, fields))
  {
    var kept := Kept(hook, schema, fields);
    var args := [Ident(schema)] + PairArgs(kept);
    var text := Segments(kept, ", ");
    var assignments := if |args| > 1 then TrimSegments(kept, ", "); DropChars(text, 2) else text;
    Query([Lit("insert into "), IdentPH, Lit(" set ")] + assignments + [Lit(";")], args)
  }

  /** `update ?? set <assignments> where <conditions>;`: the schema, every
      kept update pair, then every kept where pair. The assignments are
      joined by `", "` and the conditions by `" AND "`. The where trim is
      guarded by the whole argument count, but when no where pair was kept
      the trimmed text is already empty, so the conditions are still the
      joined where terms. */
  function Edit(updateHook: Option<Hook>, whereHook: Option<Hook>, schema: string,
                fields: FieldMap, whereFields: FieldMap): (q: Query)
    ensures q.text == [Lit("update "), IdentPH, Lit(" set ")]
                      + JoinTerms(Kept(updateHook, schema, fields), ", ")
                      + [Lit(" where ")]
                      + JoinTerms(Kept(whereHook, schema, whereFields), " AND ")
                      + [Lit(";")]
    ensures q.args == [Ident(schema)] + PairArgs(Kept(updateHook, schema, fields))
                      + PairArgs(Kept(whereHook, schema, whereFields))
  {
    var updates := Kept(updateHook, schema, fields);
    var conditions := Kept(whereHook, schema, whereFields);
    var args := [Ident(schema)] + PairArgs(updates) + PairArgs(conditions);
    var updateQuery := Segments(updates, ", ");
    var assignments := if updates != [] then DropChars(updateQuery, 2) else updateQuery;
    var whereQuery := Segments(conditions, " AND ");
    var whereText := if |args| > 1 then DropChars(whereQuery, 5) else whereQuery;
    TrimSegments(updates, ", ");
    TrimSegments(conditions, " AND ");
    assert assignments == JoinTerms(updates, ", ");
    assert whereText == JoinTerms(conditions, " AND ");
    Query([Lit("update "), IdentPH, Lit(" set ")] + assignments + [Lit(" where ")] + whereText + [Lit(";")],
          args)
  }

  /** What `list` hands its hook for a where entry: the entry's `value`
      property, read before the hook runs. A plain value has none. */
  function EntryValue(entry: Val): Val {
    if entry.Obj? then entry.value else Undefined
  }

  function EntryValues(whereFields: FieldMap): FieldMap {
    seq(|whereFields|, i requires 0 <= i < |whereFields| => (whereFields[i].0, EntryValue(whereFields[i].1)))
  }

  /** The key of the first where entry that is null or undefined: reading
      its `value` property throws before any statement is sent. The thrown
      error itself does not name the key; the model reports it. */
  function FirstNullishEntry(whereFields: FieldMap): (r: Option<string>)
    ensures r.None? <==> forall i :: 0 <= i < |whereFields| ==> !IsNullish(whereFields[i].1)
    ensures r.Some? ==> exists i :: 0 <= i < |whereFields| && whereFields[i].0 == r.value
                                     && IsNullish(whereFields[i].1)
                                     && forall j :: 0 <= j < i ==> !IsNullish(whereFields[j].1)
  {
    if whereFields == [] then None
    else if IsNullish(whereFields[0].1) then Some(whereFields[0].0)
    else
      var r := FirstNullishEntry(whereFields[1..]);
      assert forall i :: 1 <= i < |whereFields| ==> whereFields[i] == whereFields[1..][i - 1];
      if r.Some? then
        var i :| 0 <= i < |whereFields[1..]| && whereFields[1..][i].0 == r.value
                 && IsNullish(whereFields[1..][i].1)
                 && forall j :: 0 <= j < i ==> !IsNullish(whereFields[1..][j].1);
        assert whereFields[i + 1].0 == r.value && IsNullish(whereFields[i + 1].1);
        assert forall j :: 0 <= j < i + 1 ==> !IsNullish(whereFields[j].1);
        r
      else r
  }

  /** The ` offset ? ` or ` limit ? ` clause: present, with one value
      argument, exactly when the parameter is not null. */
  function Paging(keyword: string, v: Val): (seq<Token>, seq<Arg>) {
    if IsNullish(v) then ([], []) else ([Lit(keyword), ValuePH, Lit(" ")], [Value(v)])
  }

  /** `select * from ??`, then ` where ` whenever the where map was non-empty
      before any hook ran, the kept conditions joined by `" AND "`, then the
      offset and limit clauses. Fails with the key of a null or undefined
      where entry. */
  function List(hook: Option<Hook>, schema: string, whereFields: FieldMap, offset: Val, limit: Val)
    : (r: Result<Query, string>)
    ensures r.Failure? <==> exists i :: 0 <= i < |whereFields| && IsNullish(whereFields[i].1)
    ensures r.Success? ==>
              var kept := Kept(hook, schema, EntryValues(whereFields));
              && r.value.text == [Lit("select * from "), IdentPH]
                                 + (if |whereFields| > 0 then [Lit(" where ")] else [])
                                 + JoinTerms(kept, " AND ")
                                 + Paging(" offset ", offset).0 + Paging(" limit ", limit).0
              && r.value.args == [Ident(schema)] + PairArgs(kept) + Paging(" offset ", offset).1 + Paging(" limit ", limit).1
  {
    match FirstNullishEntry(whereFields)
    case Some(key) => Failure(key)
    case None =>
      var kept := Kept(hook, schema, EntryValues(whereFields));
      var head := [Lit("select * from "), IdentPH] + (if |whereFields| > 0 then [Lit(" where ")] else []);
      var values := [Ident(schema)] + PairArgs(kept);
      var text := head + Segments(kept, " AND ");
      var trimmed :=
        if |values| > 1 then
          SegmentsEndWithSeparator(kept, " AND ");
          assert text == head + JoinTerms(kept, " AND ") + [Lit(" AND ")];
          DropTrailingLit(head + JoinTerms(kept, " AND "), " AND ");
          DropChars(text, 5)
        else text;
      var (offsetText, offsetArgs) := Paging(" offset ", offset);
      var (limitText, limitArgs) := Paging(" limit ", limit);
      Success(Query(trimmed + offsetText + limitText, values + offsetArgs + limitArgs))
  }

  /** `delete from ??`, and when the where map was non-empty before any hook
      ran, ` where ` and the kept conditions joined by `" AND "`. No limit. */
  function Remove(hook: Option<Hook>, schema: string, whereFields: FieldMap): (q: Query)
    ensures q.text == [Lit("delete from "), IdentPH]
                      + (if |whereFields| > 0
                         then [Lit(" where ")] + JoinTerms(Kept(hook, schema, whereFields), " AND ")
                         else [])
    ensures q.args == [Ident(schema)] + PairArgs(Kept(hook, schema, whereFields))
  {
    var kept := Kept(hook, schema, whereFields);
    var values := [Ident(schema)] + PairArgs(kept);
    var whereQuery := Segments(kept, " AND ");
    var text :=
      [Lit("delete from "), IdentPH]
      + (if |whereFields| > 0 then TrimSegments(kept, " AND "); [Lit(" where ")] + DropChars(whereQuery, 5) else []);
    Query(text, values)
  }

  // ---------------------------------------------------------------------
  // Argument layout and marker alignment.

  /** The common argument layout: the schema as a name, then for the i-th
      binding its key as a name and its bound value, then whatever follows. */
  lemma LeadingPairs(schema: string, bs: seq<Binding>, rest: seq<Arg>)
    ensures var a := [Ident(schema)] + PairArgs(bs) + rest;
            && |a| == 1 + 2 * |bs| + |rest|
            && a[0] == Ident(schema)
            && (forall i :: 0 <= i < |bs| ==> a[1 + 2 * i] == Ident(bs[i].key) && a[2 + 2 * i] == Value(bs[i].value))
            && (forall j :: 0 <= j < |rest| ==> a[1 + 2 * |bs| + j] == rest[j])
  {
    var front := [Ident(schema)] + PairArgs(bs);
    SchemaThenPairs(schema, bs);
    assert forall k :: 0 <= k < |front| ==> (front + rest)[k] == front[k];
    assert forall j :: 0 <= j < |rest| ==> (front + rest)[|front| + j] == rest[j];
  }

  lemma SchemaThenPairs(schema: string, bs: seq<Binding>)
    ensures var f := [Ident(schema)] + PairArgs(bs);
            && f[0] == Ident(schema)
            && forall i :: 0 <= i < |bs| ==> f[1 + 2 * i] == Ident(bs[i].key) && f[2 + 2 * i] == Value(bs[i].value)
  {
    var pairs := PairArgs(bs);
    var f := [Ident(schema)] + pairs;
    PairArgsLayout(bs);
    forall i | 0 <= i < |bs|
      ensures f[1 + 2 * i] == Ident(bs[i].key) && f[2 + 2 * i] == Value(bs[i].value)
    {
      assert f[1 + 2 * i] == pairs[2 * i];
      assert f[1 + (2 * i + 1)] == pairs[2 * i + 1];
    }
  }

  /** Insert arguments: the schema as a name, then for the i-th kept field
      its key as a name and its bound value. */
  lemma InsertArgs(hook: Option<Hook>, schema: string, fields: FieldMap)
    ensures var q, kept := Insert(hook, schema, fields), Kept(hook, schema, fields);
            && q.args[0] == Ident(schema)
            && forall i :: 0 <= i < |kept| ==>
                 q.args[1 + 2 * i] == Ident(kept[i].key) && q.args[2 + 2 * i] == Value(kept[i].value)
  {
    var kept := Kept(hook, schema, fields);
    LeadingPairs(schema, kept, []);
    assert [Ident(schema)] + PairArgs(kept) + [] == [Ident(schema)] + PairArgs(kept);
  }

  lemma InsertAligned(hook: Option<Hook>, schema: string, fields: FieldMap)
    ensures Aligned(Insert(hook, schema, fields))
  {
    var kept := Kept(hook, schema, fields);
    var q := Insert(hook, schema, fields);
    InsertPartsAligned(schema, kept);
    assert q.text == [Lit("insert into "), IdentPH, Lit(" set ")] + JoinTerms(kept, ", ") + [Lit(";")];
    assert q.args == [Ident(schema)] + PairArgs(kept);
  }

  lemma InsertPartsAligned(schema: string, kept: seq<Binding>)
    ensures Placeholders([Lit("insert into "), IdentPH, Lit(" set ")] + JoinTerms(kept, ", ") + [Lit(";")])
         == Kinds([Ident(schema)] + PairArgs(kept))
  {
    var head, join := [Lit("insert into "), IdentPH, Lit(" set ")], JoinTerms(kept, ", ");
    HeadJoinAligned("insert into ", " set ", ", ", schema, kept);
    PlaceholdersSingle(Lit(";"));
    AlignedConcat(head + join, [Ident(schema)] + PairArgs(kept), [Lit(";")], []);
    assert [Ident(schema)] + PairArgs(kept) + [] == [Ident(schema)] + PairArgs(kept);
  }

  lemma HeadPlaceholders(before: string, after: string)
    ensures Placeholders([Lit(before), IdentPH, Lit(after)]) == [IdentPH]
    ensures Placeholders([Lit(before), IdentPH]) == [IdentPH]
  {
    var a0: seq<Token> := [];
    PlaceholdersSnoc(a0, Lit(before));
    PlaceholdersSnoc(a0 + [Lit(before)], IdentPH);
    PlaceholdersSnoc(a0 + [Lit(before)] + [IdentPH], Lit(after));
    assert a0 + [Lit(before)] + [IdentPH] == [Lit(before), IdentPH];
    assert [Lit(before), IdentPH] + [Lit(after)] == [Lit(before), IdentPH, Lit(after)];
  }

  /** A clause head `<before>??<after>` followed by joined terms carries the
      schema's `??`, then one `??` and one `?` per binding. */
  lemma HeadJoinAligned(before: string, after: string, sep: string, schema: string, bs: seq<Binding>)
    ensures Placeholders([Lit(before), IdentPH, Lit(after)] + JoinTerms(bs, sep))
         == Kinds([Ident(schema)] + PairArgs(bs))
  {
    HeadPlaceholders(before, after);
    JoinPlaceholders(bs, sep);
    AlignedConcat([Lit(before), IdentPH, Lit(after)], [Ident(schema)], JoinTerms(bs, sep), PairArgs(bs));
  }

  /** Edit arguments, first part: the schema, then the kept update pairs in
      field order. */
  lemma EditArgs(updateHook: Option<Hook>, whereHook: Option<Hook>, schema: string,
                 fields: FieldMap, whereFields: FieldMap)
    ensures var q := Edit(updateHook, whereHook, schema, fields, whereFields);
            var u := Kept(updateHook, schema, fields);
            && q.args[0] == Ident(schema)
            && forall i :: 0 <= i < |u| ==>
                 q.args[1 + 2 * i] == Ident(u[i].key) && q.args[2 + 2 * i] == Value(u[i].value)
  {
    var u, w := Kept(updateHook, schema, fields), Kept(whereHook, schema, whereFields);
    LeadingPairs(schema, u, PairArgs(w));
  }

  /** Edit arguments, second part: after the update pairs come the kept
      where pairs, in where order. */
  lemma EditWhereArgs(updateHook: Option<Hook>, whereHook: Option<Hook>, schema: string,
                      fields: FieldMap, whereFields: FieldMap)
    ensures var q := Edit(updateHook, whereHook, schema, fields, whereFields);
            var u, w := Kept(updateHook, schema, fields), Kept(whereHook, schema, whereFields);
            forall i :: 0 <= i < |w| ==>
              q.args[1 + 2 * |u| + 2 * i] == Ident(w[i].key) && q.args[2 + 2 * |u| + 2 * i] == Value(w[i].value)
  {
    var u, w := Kept(updateHook, schema, fields), Kept(whereHook, schema, whereFields);
    EditPartsLayout(schema, u, w);
  }

  lemma EditPartsLayout(schema: string, u: seq<Binding>, w: seq<Binding>)
    ensures var a := [Ident(schema)] + PairArgs(u) + PairArgs(w);
            && a[0] == Ident(schema)
            && (forall i :: 0 <= i < |u| ==>
                  a[1 + 2 * i] == Ident(u[i].key) && a[2 + 2 * i] == Value(u[i].value))
            && (forall i :: 0 <= i < |w| ==>
                  a[1 + 2 * |u| + 2 * i] == Ident(w[i].key)
                  && a[2 + 2 * |u| + 2 * i] == Value(w[i].value))
  {
    var a := [Ident(schema)] + PairArgs(u) + PairArgs(w);
    LeadingPairs(schema, u, PairArgs(w));
    PairArgsLayout(w);
    forall i | 0 <= i < |w|
      ensures a[1 + 2 * |u| + 2 * i] == Ident(w[i].key) && a[2 + 2 * |u| + 2 * i] == Value(w[i].value)
    {
      assert a[1 + 2 * |u| + 2 * i] == PairArgs(w)[2 * i];
      assert a[1 + 2 * |u| + (2 * i + 1)] == PairArgs(w)[2 * i + 1];
    }
  }

  lemma EditAligned(updateHook: Option<Hook>, whereHook: Option<Hook>, schema: string,
                    fields: FieldMap, whereFields: FieldMap)
    ensures Aligned(Edit(updateHook, whereHook, schema, fields, whereFields))
  {
    var u, w := Kept(updateHook, schema, fields), Kept(whereHook, schema, whereFields);
    var q := Edit(updateHook, whereHook, schema, fields, whereFields);
    EditPartsAligned(schema, u, w);
    assert q.text == [Lit("update "), IdentPH, Lit(" set ")] + JoinTerms(u, ", ")
                     + [Lit(" where ")] + JoinTerms(w, " AND ") + [Lit(";")];
    assert q.args == [Ident(schema)] + PairArgs(u) + PairArgs(w);
  }

  lemma EditPartsAligned(schema: string, u: seq<Binding>, w: seq<Binding>)
    ensures Placeholders([Lit("update "), IdentPH, Lit(" set ")] + JoinTerms(u, ", ")
                         + [Lit(" where ")] + JoinTerms(w, " AND ") + [Lit(";")])
         == Kinds([Ident(schema)] + PairArgs(u) + PairArgs(w))
  {
    var t1 := [Lit("update "), IdentPH, Lit(" set ")] + JoinTerms(u, ", ");
    var a1 := [Ident(schema)] + PairArgs(u);
    var t2 := t1 + [Lit(" where ")];
    var t3 := t2 + JoinTerms(w, " AND ");
    var a3 := a1 + PairArgs(w);
    assert Placeholders(t1) == Kinds(a1) by {
      HeadJoinAligned("update ", " set ", ", ", schema, u);
    }
    assert Placeholders(t2) == Kinds(a1) by {
      PlaceholdersSnoc(t1, Lit(" where "));
    }
    assert Placeholders(t3) == Kinds(a3) by {
      JoinPlaceholders(w, " AND ");
      AlignedConcat(t2, a1, JoinTerms(w, " AND "), PairArgs(w));
    }
    PlaceholdersSnoc(t3, Lit(";"));
  }

  lemma PagingAligned(keyword: string, v: Val)
    ensures Placeholders(Paging(keyword, v).0) == Kinds(Paging(keyword, v).1)
  {
    if !IsNullish(v) {
      var a0: seq<Token> := [];
      PlaceholdersSnoc(a0, Lit(keyword));
      PlaceholdersSnoc(a0 + [Lit(keyword)], ValuePH);
      PlaceholdersSnoc(a0 + [Lit(keyword)] + [ValuePH], Lit(" "));
      assert a0 + [Lit(keyword)] + [ValuePH] + [Lit(" ")] == [Lit(keyword), ValuePH, Lit(" ")];
    }
  }

  /** List arguments: the schema, the kept where pairs, then the offset
      value when present and the limit value when present, in that order. */
  lemma ListArgs(hook: Option<Hook>, schema: string, whereFields: FieldMap, offset: Val, limit: Val)
    requires List(hook, schema, whereFields, offset, limit).Success?
    ensures var q := List(hook, schema, whereFields, offset, limit).value;
            var kept := Kept(hook, schema, EntryValues(whereFields));
            var n := 1 + 2 * |kept|;
            && q.args[0] == Ident(schema)
            && (forall i :: 0 <= i < |kept| ==>
                  q.args[1 + 2 * i] == Ident(kept[i].key) && q.args[2 + 2 * i] == Value(kept[i].value))
            && (!IsNullish(offset) ==> q.args[n] == Value(offset))
            && (!IsNullish(limit) ==> q.args[|q.args| - 1] == Value(limit))
            && (IsNullish(offset) && IsNullish(limit) ==> |q.args| == n)
  {
    var kept := Kept(hook, schema, EntryValues(whereFields));
    var q := List(hook, schema, whereFields, offset, limit).value;
    var oa, la := Paging(" offset ", offset).1, Paging(" limit ", limit).1;
    assert q.args == [Ident(schema)] + PairArgs(kept) + (oa + la);
    ListPartsLayout(schema, kept, offset, limit);
  }

  lemma ListPartsLayout(schema: string, kept: seq<Binding>, offset: Val, limit: Val)
    ensures var oa, la := Paging(" offset ", offset).1, Paging(" limit ", limit).1;
            var a := [Ident(schema)] + PairArgs(kept) + (oa + la);
            var n := 1 + 2 * |kept|;
            && a[0] == Ident(schema)
            && (forall i :: 0 <= i < |kept| ==>
                  a[1 + 2 * i] == Ident(kept[i].key) && a[2 + 2 * i] == Value(kept[i].value))
            && (!IsNullish(offset) ==> a[n] == Value(offset))
            && (!IsNullish(limit) ==> a[|a| - 1] == Value(limit))
            && (IsNullish(offset) && IsNullish(limit) ==> |a| == n)
  {
    var oa, la := Paging(" offset ", offset).1, Paging(" limit ", limit).1;
    LeadingPairs(schema, kept, oa + la);
    if !IsNullish(offset) {
      assert (oa + la)[0] == Value(offset);
    }
    if !IsNullish(limit) {
      assert (oa + la)[|oa + la| - 1] == Value(limit);
    }
  }

  lemma ListAligned(hook: Option<Hook>, schema: string, whereFields: FieldMap, offset: Val, limit: Val)
    requires List(hook, schema, whereFields, offset, limit).Success?
    ensures Aligned(List(hook, schema, whereFields, offset, limit).value)
  {
    var kept := Kept(hook, schema, EntryValues(whereFields));
    var q := List(hook, schema, whereFields, offset, limit).value;
    var head := [Lit("select * from "), IdentPH] + (if |whereFields| > 0 then [Lit(" where ")] else []);
    var ot, oa := Paging(" offset ", offset).0, Paging(" offset ", offset).1;
    var lt, la := Paging(" limit ", limit).0, Paging(" limit ", limit).1;
    ListPartsAligned(schema, head, kept, offset, limit);
    assert q.text == head + JoinTerms(kept, " AND ") + ot + lt;
    assert q.args == [Ident(schema)] + PairArgs(kept) + oa + la;
  }

  lemma ListPartsAligned(schema: string, head: seq<Token>, kept: seq<Binding>, offset: Val, limit: Val)
    requires head == [Lit("select * from "), IdentPH] || head == [Lit("select * from "), IdentPH, Lit(" where ")]
    ensures Placeholders(head + JoinTerms(kept, " AND ") + Paging(" offset ", offset).0 + Paging(" limit ", limit).0)
         == Kinds([Ident(schema)] + PairArgs(kept) + Paging(" offset ", offset).1 + Paging(" limit ", limit).1)
  {
    var j, pairs := JoinTerms(kept, " AND "), PairArgs(kept);
    var ot, oa := Paging(" offset ", offset).0, Paging(" offset ", offset).1;
    var lt, la := Paging(" limit ", limit).0, Paging(" limit ", limit).1;
    HeadPlaceholders("select * from ", " where ");
    assert Placeholders(head) == Kinds([Ident(schema)]);
    JoinPlaceholders(kept, " AND ");
    PagingAligned(" offset ", offset);
    PagingAligned(" limit ", limit);
    AlignedConcat(head, [Ident(schema)], j, pairs);
    AlignedConcat(head + j, [Ident(schema)] + pairs, ot, oa);
    AlignedConcat(head + j + ot, [Ident(schema)] + pairs + oa, lt, la);
  }

  /** Remove arguments: the schema, then the kept where pairs. */
  lemma RemoveArgs(hook: Option<Hook>, schema: string, whereFields: FieldMap)
    ensures var q, kept := Remove(hook, schema, whereFields), Kept(hook, schema, whereFields);
            && q.args[0] == Ident(schema)
            && forall i :: 0 <= i < |kept| ==>
                 q.args[1 + 2 * i] == Ident(kept[i].key) && q.args[2 + 2 * i] == Value(kept[i].value)
  {
    var kept := Kept(hook, schema, whereFields);
    LeadingPairs(schema, kept, []);
    assert [Ident(schema)] + PairArgs(kept) + [] == [Ident(schema)] + PairArgs(kept);
  }

  lemma RemoveAligned(hook: Option<Hook>, schema: string, whereFields: FieldMap)
    ensures Aligned(Remove(hook, schema, whereFields))
  {
    var kept := Kept(hook, schema, whereFields);
    var q := Remove(hook, schema, whereFields);
    if |whereFields| > 0 {
      assert Placeholders([Lit("delete from "), IdentPH, Lit(" where ")] + JoinTerms(kept, " AND "))
          == Kinds([Ident(schema)] + PairArgs(kept)) by {
        HeadJoinAligned("delete from ", " where ", " AND ", schema, kept);
      }
      assert q.text == [Lit("delete from "), IdentPH, Lit(" where ")] + JoinTerms(kept, " AND ");
    } else {
      assert kept == [];
      assert Placeholders([Lit("delete from "), IdentPH]) == [IdentPH] by {
        HeadPlaceholders("delete from ", " where ");
      }
      assert q.text == [Lit("delete from "), IdentPH] + [];
      assert q.args == [Ident(schema)];
      assert Kinds([Ident(schema)]) == [IdentPH];
    }
  }

  // ---------------------------------------------------------------------
  // Rendered text, empty clauses, and hooks.

  /** A three-token clause head renders as its three texts in order. */
  lemma RenderThree(a: Token, b: Token, c: Token)
    ensures Render([a, b, c]) == TokenText(a) + TokenText(b) + TokenText(c)
  {
    var a0: seq<Token> := [];
    RenderSnoc(a0, a);
    RenderSnoc(a0 + [a], b);
    RenderSnoc(a0 + [a] + [b], c);
    assert a0 + [a] + [b] + [c] == [a, b, c];
  }

  /** The insert statement as the route's string: the assignments are
      `?? = <begin>?<end>` per kept field joined by `", "`. */
  lemma InsertRendered(hook: Option<Hook>, schema: string, fields: FieldMap)
    ensures Render(Insert(hook, schema, fields).text)
         == "insert into ?? set " + JoinText(Kept(hook, schema, fields), ", ") + ";"
  {
    var kept := Kept(hook, schema, fields);
    var head := [Lit("insert into "), IdentPH, Lit(" set ")];
    assert Render(head) == "insert into ?? set " by {
      RenderThree(Lit("insert into "), IdentPH, Lit(" set "));
    }
    RenderJoin(kept, ", ");
    RenderConcat(head, JoinTerms(kept, ", "));
    RenderSnoc(head + JoinTerms(kept, ", "), Lit(";"));
  }

  /** With every field dropped the trim is skipped and the statement is
      `insert into ?? set ;`, with the schema as its only argument. */
  lemma InsertNothingKept(hook: Option<Hook>, schema: string, fields: FieldMap)
    requires Kept(hook, schema, fields) == []
    ensures Render(Insert(hook, schema, fields).text) == "insert into ?? set ;"
    ensures Insert(hook, schema, fields).args == [Ident(schema)]
  {
    InsertRendered(hook, schema, fields);
  }

  /** With no insert hook every field is assigned, in field order, with its
      own value. */
  lemma InsertWithoutHook(schema: string, fields: FieldMap)
    ensures var q := Insert(None, schema, fields);
            && |q.args| == 1 + 2 * |fields|
            && forall i :: 0 <= i < |fields| ==>
                 q.args[1 + 2 * i] == Ident(fields[i].0) && q.args[2 + 2 * i] == Value(fields[i].1)
  {
    NoHookKeepsEveryField(schema, fields);
    InsertArgs(None, schema, fields);
    var kept := Kept(None, schema, fields);
    assert forall i :: 0 <= i < |fields| ==> kept[i] == Binding(fields[i].0, "", fields[i].1, "");
  }

  /** An insert hook that drops key `k` builds the statement the hook
      without that drop builds for the fields other than `k`. */
  lemma InsertDroppingKey(h: Hook, k: string, schema: string, fields: FieldMap)
    ensures Insert(Some(Dropping(h, k)), schema, fields) == Insert(Some(h), schema, FieldsWithout(fields, k))
  {
    DroppingRemovesOnlyThatKey(h, k, schema, fields);
  }

  /** The update statement as the route's string. */
  lemma EditRendered(updateHook: Option<Hook>, whereHook: Option<Hook>, schema: string,
                     fields: FieldMap, whereFields: FieldMap)
    ensures Render(Edit(updateHook, whereHook, schema, fields, whereFields).text)
         == "update ?? set " + JoinText(Kept(updateHook, schema, fields), ", ")
            + " where " + JoinText(Kept(whereHook, schema, whereFields), " AND ") + ";"
  {
    var u, w := Kept(updateHook, schema, fields), Kept(whereHook, schema, whereFields);
    EditClausesRendered(u, w);
  }

  lemma EditClausesRendered(u: seq<Binding>, w: seq<Binding>)
    ensures Render([Lit("update "), IdentPH, Lit(" set ")] + JoinTerms(u, ", ")
                   + [Lit(" where ")] + JoinTerms(w, " AND ") + [Lit(";")])
         == "update ?? set " + JoinText(u, ", ") + " where " + JoinText(w, " AND ") + ";"
  {
    var t1 := [Lit("update "), IdentPH, Lit(" set ")] + JoinTerms(u, ", ");
    var t2 := t1 + [Lit(" where ")];
    var t3 := t2 + JoinTerms(w, " AND ");
    SetClauseRendered(u);
    RenderSnoc(t1, Lit(" where "));
    RenderJoin(w, " AND ");
    RenderConcat(t2, JoinTerms(w, " AND "));
    RenderSnoc(t3, Lit(";"));
  }

  lemma SetClauseRendered(u: seq<Binding>)
    ensures Render([Lit("update "), IdentPH, Lit(" set ")] + JoinTerms(u, ", "))
         == "update ?? set " + JoinText(u, ", ")
  {
    var head := [Lit("update "), IdentPH, Lit(" set ")];
    assert Render(head) == "update ?? set " by {
      RenderThree(Lit("update "), IdentPH, Lit(" set "));
    }
    RenderJoin(u, ", ");
    RenderConcat(head, JoinTerms(u, ", "));
  }

  /** An update whose where pairs were all dropped still says `where` and
      closes at once, as `... where ;`. */
  lemma EditNoWhereKept(updateHook: Option<Hook>, whereHook: Option<Hook>, schema: string,
                        fields: FieldMap, whereFields: FieldMap)
    requires Kept(whereHook, schema, whereFields) == []
    ensures Render(Edit(updateHook, whereHook, schema, fields, whereFields).text)
         == "update ?? set " + JoinText(Kept(updateHook, schema, fields), ", ") + " where ;"
  {
    EditRendered(updateHook, whereHook, schema, fields, whereFields);
  }

  /** Dropping a key in either edit hook is the same as leaving it out of
      that map. */
  lemma EditDroppingKey(uh: Hook, wh: Hook, k: string, schema: string, fields: FieldMap, whereFields: FieldMap)
    ensures Edit(Some(Dropping(uh, k)), Some(wh), schema, fields, whereFields)
         == Edit(Some(uh), Some(wh), schema, FieldsWithout(fields, k), whereFields)
    ensures Edit(Some(uh), Some(Dropping(wh, k)), schema, fields, whereFields)
         == Edit(Some(uh), Some(wh), schema, fields, FieldsWithout(whereFields, k))
  {
    DroppingRemovesOnlyThatKey(uh, k, schema, fields);
    DroppingRemovesOnlyThatKey(wh, k, schema, whereFields);
  }

  /** ` where ` follows the table exactly when the where map had entries
      before any hook ran. */
  lemma ListWhereIffEntries(hook: Option<Hook>, schema: string, whereFields: FieldMap, offset: Val, limit: Val)
    requires List(hook, schema, whereFields, offset, limit).Success?
    ensures var t := List(hook, schema, whereFields, offset, limit).value.text;
            (|t| >= 3 && t[2] == Lit(" where ")) <==> |whereFields| > 0
  {
    var t := List(hook, schema, whereFields, offset, limit).value.text;
    var kept := Kept(hook, schema, EntryValues(whereFields));
    if |whereFields| == 0 {
      assert kept == [];
      assert t == [Lit("select * from "), IdentPH] + Paging(" offset ", offset).0 + Paging(" limit ", limit).0;
      if |t| >= 3 {
        assert " limit "[1] != " where "[1];
        assert |" offset "| != |" where "|;
        if IsNullish(offset) {
          assert t[2] == Lit(" limit ");
        } else {
          assert t[2] == Lit(" offset ");
        }
      }
    } else {
      assert t[2] == Lit(" where ");
    }
  }

  /** When hooks drop every entry of a non-empty where map, the select keeps
      a dangling ` where ` directly before the paging clauses. */
  lemma ListDanglingWhere(hook: Option<Hook>, schema: string, whereFields: FieldMap, offset: Val, limit: Val)
    requires List(hook, schema, whereFields, offset, limit).Success?
    requires |whereFields| > 0 && Kept(hook, schema, EntryValues(whereFields)) == []
    ensures List(hook, schema, whereFields, offset, limit).value.text
         == [Lit("select * from "), IdentPH, Lit(" where ")] + Paging(" offset ", offset).0 + Paging(" limit ", limit).0
  {
  }

  /** With no limit given the route's default of 20 is bound last, after
      the where pairs, and with no offset none is emitted. */
  lemma ListDefaultPaging(hook: Option<Hook>, schema: string, whereFields: FieldMap)
    requires List(hook, schema, whereFields, Null, Num(20)).Success?
    ensures var q := List(hook, schema, whereFields, Null, Num(20)).value;
            var kept := Kept(hook, schema, EntryValues(whereFields));
            && |q.args| == 2 + 2 * |kept|
            && q.args[|q.args| - 1] == Value(Num(20))
            && q.text[|q.text| - 3..] == [Lit(" limit "), ValuePH, Lit(" ")]
  {
    ListArgs(hook, schema, whereFields, Null, Num(20));
  }

  /** The delete statement as the route's string. */
  lemma RemoveRendered(hook: Option<Hook>, schema: string, whereFields: FieldMap)
    ensures Render(Remove(hook, schema, whereFields).text)
         == "delete from ??"
            + (if |whereFields| > 0 then " where " + JoinText(Kept(hook, schema, whereFields), " AND ") else "")
  {
    var kept := Kept(hook, schema, whereFields);
    var head := [Lit("delete from "), IdentPH];
    RenderSingle(Lit("delete from "));
    assert head[..1] == [Lit("delete from ")];
    assert Render(head) == "delete from ??";
    if |whereFields| > 0 {
      var tail := [Lit(" where ")] + JoinTerms(kept, " AND ");
      RenderJoin(kept, " AND ");
      RenderSingle(Lit(" where "));
      RenderConcat([Lit(" where ")], JoinTerms(kept, " AND "));
      assert Render(tail) == " where " + JoinText(kept, " AND ");
      RenderConcat(head, tail);
      assert Remove(hook, schema, whereFields).text == head + tail;
    } else {
      assert Remove(hook, schema, whereFields).text == head;
    }
  }

  /** An empty where map deletes from the whole table: the statement is
      `delete from ??` with the schema as its only argument. */
  lemma RemoveEmptyWhereIsUnconditional(hook: Option<Hook>, schema: string)
    ensures Render(Remove(hook, schema, []).text) == "delete from ??"
    ensures Remove(hook, schema, []).args == [Ident(schema)]
  {
    RemoveRendered(hook, schema, []);
  }

  /** When the hook drops every entry of a non-empty where map, the delete
      ends in a dangling ` where `: the trim of the empty condition text
      clamps to "" instead of failing. */
  lemma RemoveDanglingWhere(hook: Option<Hook>, schema: string, whereFields: FieldMap)
    requires |whereFields| > 0 && Kept(hook, schema, whereFields) == []
    ensures Render(Remove(hook, schema, whereFields).text) == "delete from ?? where "
  {
    RemoveRendered(hook, schema, whereFields);
  }

  /** Dropping a key in the remove hook equals leaving it out of the where
      map, as long as some entry remains to keep the ` where `. */
  lemma RemoveDroppingKey(h: Hook, k: string, schema: string, whereFields: FieldMap)
    requires |FieldsWithout(whereFields, k)| > 0
    ensures Remove(Some(Dropping(h, k)), schema, whereFields)
         == Remove(Some(h), schema, FieldsWithout(whereFields, k))
  {
    DroppingRemovesOnlyThatKey(h, k, schema, whereFields);
  }

  lemma EntryValuesCons(x: (string, Val), rest: FieldMap)
    ensures EntryValues([x] + rest) == [(x.0, EntryValue(x.1))] + EntryValues(rest)
  {
    var l, r := EntryValues([x] + rest), [(x.0, EntryValue(x.1))] + EntryValues(rest);
    forall i | 0 <= i < |l| ensures l[i] == r[i] {
      if i > 0 {
        assert ([x] + rest)[i] == rest[i - 1];
      }
    }
  }

  /** Leaving out key `k` commutes with reading each entry's `value`. */
  lemma {:induction false} EntryValuesWithout(whereFields: FieldMap, k: string)
    ensures EntryValues(FieldsWithout(whereFields, k)) == FieldsWithout(EntryValues(whereFields), k)
  {
    if whereFields != [] {
      var x, rest := whereFields[0], whereFields[1..];
      EntryValuesWithout(rest, k);
      assert whereFields == [x] + rest;
      EntryValuesCons(x, rest);
      var e := EntryValues(whereFields);
      assert e[1..] == EntryValues(rest);
      if x.0 == k {
        assert FieldsWithout(whereFields, k) == FieldsWithout(rest, k);
      } else {
        assert FieldsWithout(whereFields, k) == [x] + FieldsWithout(rest, k);
        EntryValuesCons(x, FieldsWithout(rest, k));
      }
    }
  }

  /** Leaving out a key only removes entries. */
  lemma {:induction false} WithoutIsSubset(fields: FieldMap, k: string)
    ensures forall e :: e in FieldsWithout(fields, k) ==> e in fields
  {
    if fields != [] {
      WithoutIsSubset(fields[1..], k);
      assert fields == [fields[0]] + fields[1..];
    }
  }

  /** A list hook that drops key `k` builds the select the hook builds for
      the where map without `k`, provided no where entry is null or
      undefined and some entry other than `k` remains to keep the
      ` where `. */
  lemma ListDroppingKey(h: Hook, k: string, schema: string, whereFields: FieldMap, offset: Val, limit: Val)
    requires forall i :: 0 <= i < |whereFields| ==> !IsNullish(whereFields[i].1)
    requires |FieldsWithout(whereFields, k)| > 0
    ensures List(Some(Dropping(h, k)), schema, whereFields, offset, limit)
         == List(Some(h), schema, FieldsWithout(whereFields, k), offset, limit)
  {
    var w := FieldsWithout(whereFields, k);
    EntryValuesWithout(whereFields, k);
    WithoutIsSubset(whereFields, k);
    forall i | 0 <= i < |w| ensures !IsNullish(w[i].1) {
      assert w[i] in whereFields;
    }
    DroppingRemovesOnlyThatKey(h, k, schema, EntryValues(whereFields));
  }

  /** Dropping through the hook is not leaving the key out: `value` is read
      before the hook runs, so a null entry named `k` still makes the select
      fail under a hook that drops `k`, while the map without `k` succeeds. */
  lemma ListDroppedNullEntryStillFails(h: Hook)
    ensures var w: FieldMap := [("k", Null), ("n", Obj(Str("x"), None, None))];
            && List(Some(Dropping(h, "k")), "t", w, Null, Num(20)) == Failure("k")
            && List(Some(h), "t", FieldsWithout(w, "k"), Null, Num(20)).Success?
  {
    var w: FieldMap := [("k", Null), ("n", Obj(Str("x"), None, None))];
    assert FirstNullishEntry(w) == Some("k");
    assert FieldsWithout(w, "k") == [("n", Obj(Str("x"), None, None))] by {
      assert w[1..][1..] == [];
    }
  }
}
