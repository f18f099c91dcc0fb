/** Rust's `char::is_whitespace` and `str::trim`, which the request
    validation of both backends relies on (`text.trim().is_empty()`). */
module Whitespace {

  /** The Unicode White_Space property, which is what `char::is_whitespace`
      tests: U+0009..U+000D, U+0020, U+0085, U+00A0, U+1680, U+2000..U+200A,
      U+2028, U+2029, U+202F, U+205F and U+3000. */
  predicate IsWs(c: char) {
    var n := c as int;
    (0x09 <= n <= 0x0D) || n == 0x20 || n == 0x85 || n == 0xA0 || n == 0x1680
    || (0x2000 <= n <= 0x200A) || n == 0x2028 || n == 0x2029 || n == 0x202F
    || n == 0x205F || n == 0x3000
  }

  /** Every character of `s` is whitespace (true of the empty string). */
  predicate AllWs(s: string) {
    forall i :: 0 <= i < |s| ==> IsWs(s[i])
  }

  /** `s` with its leading whitespace removed. */
  function TrimStart(s: string): (r: string)
    ensures |r| <= |s|
  {
    if s == [] || !IsWs(s[0]) then s else TrimStart(s[1..])
  }

  /** `s` with its trailing whitespace removed. */
  function TrimEnd(s: string): (r: string)
    ensures |r| <= |s|
  {
    if s == [] || !IsWs(s[|s| - 1]) then s else TrimEnd(s[..|s| - 1])
  }

  /** What `TrimStart` drops is a whitespace prefix; what it keeps is the
      rest of `s`, and that does not start with whitespace. */
  lemma {:induction false} TrimStartSpec(s: string)
    ensures TrimStart(s) == s[|s| - |TrimStart(s)|..]
    ensures AllWs(s[..|s| - |TrimStart(s)|])
    ensures TrimStart(s) == [] || !IsWs(TrimStart(s)[0])
  {
    if s != [] && IsWs(s[0]) {
      var u := s[1..];
      TrimStartSpec(u);
      var k := |u| - |TrimStart(u)|;
      assert u[k..] == s[k + 1..];
      var dropped := s[..k + 1];
      forall i | 0 <= i < |dropped| ensures IsWs(dropped[i]) {
        if i > 0 {
          assert dropped[i] == u[..k][i - 1];
        }
      }
    }
  }

  /** What `TrimEnd` drops is a whitespace suffix; what it keeps is the
      start of `s`, and that does not end with whitespace. */
  lemma {:induction false} TrimEndSpec(s: string)
    ensures TrimEnd(s) == s[..|TrimEnd(s)|]
    ensures AllWs(s[|TrimEnd(s)|..])
    ensures TrimEnd(s) == [] || !IsWs(TrimEnd(s)[|TrimEnd(s)| - 1])
  {
    if s != [] && IsWs(s[|s| - 1]) {
      var u := s[..|s| - 1];
      TrimEndSpec(u);
      var n := |TrimEnd(u)|;
      assert u[..n] == s[..n];
      forall i | 0 <= i < |s| - n ensures IsWs(s[n..][i]) {
        if i < |s| - n - 1 {
          assert s[n..][i] == u[n..][i];
        }
      }
    }
  }

  /** `str::trim`: whitespace removed at both ends. */
  function Trim(s: string): (r: string)
    ensures |r| <= |s|
  {
    TrimEnd(TrimStart(s))
  }

  /** What `Trim` keeps is a contiguous slice of `s` that neither starts nor
      ends with whitespace, and everything it drops on either side of that
      slice is whitespace. */
  lemma {:induction false} TrimIsSlice(s: string)
    ensures var k, r := |s| - |TrimStart(s)|, Trim(s);
      && k + |r| <= |s| && r == s[k..k + |r|]
      && AllWs(s[..k]) && AllWs(s[k + |r|..])
      && (r == [] || (!IsWs(r[0]) && !IsWs(r[|r| - 1])))
  {
    var t := TrimStart(s);
    var r := TrimEnd(t);
    var k := |s| - |t|;
    TrimStartSpec(s);
    TrimEndSpec(t);
    assert r == s[k..k + |r|];
    assert s[k + |r|..] == t[|r|..];
  }

  /** The validation test of both handlers: `text.trim().is_empty()`. */
  predicate IsBlank(s: string) {
    Trim(s) == []
  }

  /** A text is rejected as blank exactly when every one of its characters
      is whitespace; the empty text is blank. */
  lemma {:induction false} BlankIffAllWhitespace(s: string)
    ensures IsBlank(s) <==> AllWs(s)
  {
    var t := TrimStart(s);
    var k := |s| - |t|;
    TrimStartSpec(s);
    TrimEndSpec(t);
    if AllWs(s) {
      assert AllWs(s[k..]);
      assert t == [];
    }
    if IsBlank(s) {
      assert t[0..] == t;
      assert t == [];
      assert s[..k] == s;
    }
  }

  /** Trimming twice removes nothing more than trimming once. */
  lemma {:induction false} TrimIdempotent(s: string)
    ensures Trim(Trim(s)) == Trim(s)
  {
    var r := Trim(s);
    TrimIsSlice(s);
    assert TrimStart(r) == r;
    assert TrimEnd(r) == r;
  }
}
