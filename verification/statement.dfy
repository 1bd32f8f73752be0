/** A statement as the route hands it to the database driver: template text,
    in which `??` marks an identifier and `?` marks a value, and the ordered
    argument list the driver binds to those markers. The text is kept as
    tokens, because the literal fragments a hook supplies may themselves
    contain `?`. */
module Statement {
  import opened Values

  /** A piece of template text: literal SQL, an identifier marker `??`, or a
      value marker `?`. */
  datatype Token = Lit(text: string) | IdentPH | ValuePH

  /** One driver argument: a name escaped as an identifier, or a bound value. */
  datatype Arg = Ident(name: string) | Value(v: Val)

  datatype Query = Query(text: seq<Token>, args: seq<Arg>)

  function TokenText(t: Token): string {
    match t
    case Lit(s) => s
    case IdentPH => "??"
    case ValuePH => "?"
  }

  /** The template as the character string the route builds. */
  function Render(ts: seq<Token>): string
    decreases |ts|
  {
    if ts == [] then "" else Render(ts[..|ts| - 1]) + TokenText(ts[|ts| - 1])
  }

  lemma {:induction false} RenderConcat(a: seq<Token>, b: seq<Token>)
    ensures Render(a + b) == Render(a) + Render(b)
    decreases |b|
  {
    if b == [] {
      assert a + b == a;
    } else {
      var b', t := b[..|b| - 1], b[|b| - 1];
      assert (a + b)[..|a + b| - 1] == a + b';
      assert (a + b)[|a + b| - 1] == t;
      assert Render(a + b) == Render(a + b') + TokenText(t);
      RenderConcat(a, b');
      assert Render(b) == Render(b') + TokenText(t);
    }
  }

  lemma RenderSnoc(ts: seq<Token>, t: Token)
    ensures Render(ts + [t]) == Render(ts) + TokenText(t)
  {
    assert (ts + [t])[..|ts + [t]| - 1] == ts;
  }

  lemma RenderSingle(t: Token)
    ensures Render([t]) == TokenText(t)
  {
    assert [t][..0] == [];
  }

  /** JavaScript's `s.substring(0, s.length - n)` on a string of characters:
      the last `n` are dropped, and a negative end index clamps to 0,
      giving "". */
  function CharTrim(s: string, n: nat): (r: string)
    ensures r <= s
    ensures |r| == if n <= |s| then |s| - n else 0
  {
    if n <= |s| then s[..|s| - n] else ""
  }

  lemma CharTrimAcross(a: string, b: string, n: nat)
    requires |b| <= n
    ensures CharTrim(a + b, n) == CharTrim(a, n - |b|)
  {
    if n <= |a + b| {
      assert (a + b)[..|a + b| - n] == a[..|a| - (n - |b|)];
    }
  }

  lemma CharTrimInside(a: string, b: string, n: nat)
    requires n < |b|
    ensures CharTrim(a + b, n) == a + b[..|b| - n]
  {
    assert (a + b)[..|a + b| - n] == a + b[..|b| - n];
  }

  /** A token with its last `n` characters cut off. A cut identifier marker
      `??` leaves a value marker `?`. */
  function Shorten(t: Token, n: nat): (r: Token)
    requires 0 < n < |TokenText(t)|
    ensures TokenText(r) == TokenText(t)[..|TokenText(t)| - n]
  {
    if t.Lit? then Lit(t.text[..|t.text| - n]) else ValuePH
  }

  /** The JavaScript trim of the rendered text, performed on tokens: the
      last `n` characters go, token by token from the end. */
  function DropChars(ts: seq<Token>, n: nat): (r: seq<Token>)
    ensures |r| <= |ts|
    decreases |ts|
  {
    if n == 0 || ts == [] then ts
    else
      var last := ts[|ts| - 1];
      var w := |TokenText(last)|;
      if w <= n then DropChars(ts[..|ts| - 1], n - w)
      else ts[..|ts| - 1] + [Shorten(last, n)]
  }

  /** The token trim renders to `substring(0, length - n)` of the rendered
      text, counted in characters, including the clamp to "" when the text
      is shorter than `n`. */
  lemma {:induction false} DropCharsIsSubstring(ts: seq<Token>, n: nat)
    ensures Render(DropChars(ts, n)) == CharTrim(Render(ts), n)
    decreases |ts|
  {
    if n != 0 && ts != [] {
      var init := ts[..|ts| - 1];
      var last := ts[|ts| - 1];
      var w := |TokenText(last)|;
      if w <= n {
        DropCharsIsSubstring(init, n - w);
        CharTrimAcross(Render(init), TokenText(last), n);
      } else {
        var r := init + [Shorten(last, n)];
        assert r[..|r| - 1] == init;
        CharTrimInside(Render(init), TokenText(last), n);
      }
    }
  }

  /** Cutting exactly one trailing literal removes that token and nothing else. */
  lemma DropTrailingLit(ts: seq<Token>, sep: string)
    requires |sep| > 0
    ensures DropChars(ts + [Lit(sep)], |sep|) == ts
  {
    assert (ts + [Lit(sep)])[..|ts + [Lit(sep)]| - 1] == ts;
  }

  /** The markers of a template, in order. */
  function Placeholders(ts: seq<Token>): seq<Token>
    decreases |ts|
  {
    if ts == [] then []
    else Placeholders(ts[..|ts| - 1]) + (if ts[|ts| - 1].Lit? then [] else [ts[|ts| - 1]])
  }

  lemma {:induction false} PlaceholdersConcat(a: seq<Token>, b: seq<Token>)
    ensures Placeholders(a + b) == Placeholders(a) + Placeholders(b)
    decreases |b|
  {
    if b == [] {
      assert a + b == a;
    } else {
      var b' := b[..|b| - 1];
      assert (a + b)[..|a + b| - 1] == a + b';
      assert (a + b)[|a + b| - 1] == b[|b| - 1];
      PlaceholdersConcat(a, b');
    }
  }

  lemma PlaceholdersSnoc(ts: seq<Token>, t: Token)
    ensures Placeholders(ts + [t]) == Placeholders(ts) + (if t.Lit? then [] else [t])
  {
    assert (ts + [t])[..|ts + [t]| - 1] == ts;
  }

  lemma PlaceholdersSingle(t: Token)
    ensures Placeholders([t]) == if t.Lit? then [] else [t]
  {
    assert [t][..0] == [];
  }

  /** The marker an argument must be bound to. */
  function KindOf(a: Arg): Token {
    if a.Ident? then IdentPH else ValuePH
  }

  function Kinds(args: seq<Arg>): (ks: seq<Token>)
    ensures |ks| == |args|
  {
    seq(|args|, i requires 0 <= i < |args| => KindOf(args[i]))
  }

  lemma KindsConcat(a1: seq<Arg>, a2: seq<Arg>)
    ensures Kinds(a1 + a2) == Kinds(a1) + Kinds(a2)
  {
    var k, k1, k2 := Kinds(a1 + a2), Kinds(a1), Kinds(a2);
    forall i | 0 <= i < |k| ensures k[i] == (k1 + k2)[i] {
      if i < |a1| {
        assert (a1 + a2)[i] == a1[i];
      } else {
        assert (a1 + a2)[i] == a2[i - |a1|];
      }
    }
  }

  /** The statement invariant: the markers of the text line up one for one
      with the arguments, `??` with a name and `?` with a value. */
  predicate Aligned(q: Query) {
    Placeholders(q.text) == Kinds(q.args)
  }

  /** Aligned pieces put side by side stay aligned. */
  lemma AlignedConcat(t1: seq<Token>, a1: seq<Arg>, t2: seq<Token>, a2: seq<Arg>)
    requires Placeholders(t1) == Kinds(a1) && Placeholders(t2) == Kinds(a2)
    ensures Placeholders(t1 + t2) == Kinds(a1 + a2)
  {
    PlaceholdersConcat(t1, t2);
    KindsConcat(a1, a2);
  }

  /** Aligned statements bind every identifier marker to a name and every
      value marker to a value, and have one argument per marker. */
  lemma AlignedBindsByKind(q: Query)
    requires Aligned(q)
    ensures |Placeholders(q.text)| == |q.args|
    ensures forall i :: 0 <= i < |q.args| ==>
              (Placeholders(q.text)[i] == IdentPH <==> q.args[i].Ident?)
  {
  }
}
