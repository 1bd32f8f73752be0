/** The route's default result filter: it walks the top-level keys of the
    object it is given and deletes every key whose lower-cased form names a
    password, API key, private key or secret key. */
module Redaction {

  /** JavaScript's `toLowerCase` as far as it can matter here: ASCII
      upper-case letters, and the Kelvin sign, the one other character that
      lower-cases to a single ASCII letter (`k`). */
  function LowerChar(c: char): (r: char)
    ensures !('A' <= r <= 'Z')
    ensures 'A' <= c <= 'Z' ==> r as int == c as int + 32
    ensures c == '\U{212A}' ==> r == 'k'
    ensures 'a' <= c <= 'z' || '0' <= c <= '9' || c == '_' ==> r == c
  {
    if 'A' <= c <= 'Z' then (c as int + 32) as char
    else if c == '\U{212A}' then 'k'
    else c
  }

  function Lower(s: string): (r: string)
    ensures |r| == |s|
    ensures forall i :: 0 <= i < |s| ==> r[i] == LowerChar(s[i])
  {
    seq(|s|, i requires 0 <= i < |s| => LowerChar(s[i]))
  }

  /** The names the filter compares the lower-cased key with, in the order
      it compares them, `passwordSalt` included. */
  const Compared: seq<string> := [
    "password", "passwordSalt",
    "password_hash", "password_salt",
    "passwordhash", "passwordsalt",
    "apikey", "api_key",
    "privatekey", "private_key",
    "secretkey", "secret_key"]

  /** The eleven names that can actually match. */
  const Denylist: set<string> := {
    "password", "password_hash", "password_salt", "passwordhash", "passwordsalt",
    "apikey", "api_key", "privatekey", "private_key", "secretkey", "secret_key"}

  predicate IsSensitive(key: string) {
    Lower(key) in Compared
  }

  /** No key lower-cases to `passwordSalt`: its capital `S` cannot survive. */
  lemma PasswordSaltNeverMatches(key: string)
    ensures Lower(key) != "passwordSalt"
  {
    if |key| == 12 {
      assert Lower(key)[8] != 'S';
    }
  }

  /** A key is removed exactly when its lower-cased form is one of the
      eleven denylisted names. */
  lemma SensitiveIffDenylisted(key: string)
    ensures IsSensitive(key) <==> Lower(key) in Denylist
  {
    PasswordSaltNeverMatches(key);
  }

  /** Case does not matter: `apiKey`, `PASSWORD`, `Secret_Key`, and `apiKey`
      spelled with a Kelvin sign are all removed. */
  lemma MixedCaseIsSensitive()
    ensures IsSensitive("apiKey") && IsSensitive("PASSWORD") && IsSensitive("Secret_Key")
    ensures IsSensitive("api\U{212A}ey")
  {
    assert Lower("apiKey") == "apikey";
    assert Lower("api\U{212A}ey") == "apikey";
    assert Lower("PASSWORD") == "password";
    assert Lower("Secret_Key") == "secret_key";
  }

  /** A key made of decimal digits, like the index keys of an array, is
      never removed. */
  lemma DigitKeyNotSensitive(key: string)
    requires |key| > 0
    requires forall i :: 0 <= i < |key| ==> '0' <= key[i] <= '9'
    ensures !IsSensitive(key)
  {
    var low := Lower(key);
    assert '0' <= low[0] <= '9';
    forall w | w in Compared
      ensures low != w
    {
      assert w[0] in {'p', 'a', 's'};
    }
  }

  /** The filter: the entries of `m` whose key is not sensitive, in order. */
  function Redact<V>(m: seq<(string, V)>): (r: seq<(string, V)>)
    ensures |r| <= |m|
    ensures forall i :: 0 <= i < |r| ==> !IsSensitive(r[i].0)
  {
    if m == [] then []
    else (if IsSensitive(m[0].0) then [] else [m[0]]) + Redact(m[1..])
  }

  /** The filter works entry by entry: on a concatenation it is the
      concatenation of the filtered parts. */
  lemma {:induction false} RedactConcat<V>(a: seq<(string, V)>, b: seq<(string, V)>)
    ensures Redact(a + b) == Redact(a) + Redact(b)
  {
    if a == [] {
      assert a + b == b;
    } else {
      assert (a + b)[0] == a[0];
      assert (a + b)[1..] == a[1..] + b;
      RedactConcat(a[1..], b);
    }
  }

  /** An entry survives exactly when it was there and its key is not
      sensitive; nothing is added and no value changes. */
  lemma {:induction false} RedactMembership<V>(m: seq<(string, V)>, k: string, v: V)
    ensures (k, v) in Redact(m) <==> (k, v) in m && !IsSensitive(k)
  {
    if m != [] {
      RedactMembership(m[1..], k, v);
      assert m == [m[0]] + m[1..];
    }
  }

  /** A map with no sensitive key passes through unchanged. */
  lemma {:induction false} RedactKeepsClean<V>(m: seq<(string, V)>)
    requires forall i :: 0 <= i < |m| ==> !IsSensitive(m[i].0)
    ensures Redact(m) == m
  {
    if m != [] {
      assert forall i :: 0 <= i < |m[1..]| ==> m[1..][i] == m[i + 1];
      RedactKeepsClean(m[1..]);
    }
  }

  /** Filtering twice is filtering once. */
  lemma RedactIdempotent<V>(m: seq<(string, V)>)
    ensures Redact(Redact(m)) == Redact(m)
  {
    RedactKeepsClean(Redact(m));
  }
}
