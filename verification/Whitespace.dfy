// Python's `strip`, for ASCII white space.
module Whitespace {

  predicate IsSpace(c: char) {
    c == ' ' || '\t' <= c <= '\r' || '\U{1c}' <= c <= '\U{1f}'
  }

  function TrimLeft(s: string): string {
    if s != "" && IsSpace(s[0]) then TrimLeft(s[1..]) else s
  }

  function TrimRight(s: string): string {
    if s != "" && IsSpace(s[|s| - 1]) then TrimRight(s[..|s| - 1]) else s
  }

  /** Python's `strip`. */
  function Strip(s: string): string {
    TrimRight(TrimLeft(s))
  }

  predicate Bare(s: string) {
    s == "" || (!IsSpace(s[0]) && !IsSpace(s[|s| - 1]))
  }

  lemma {:induction false} TrimRightBare(s: string)
    ensures var r := TrimRight(s); r <= s && (r == "" || !IsSpace(r[|r| - 1])) && (s != "" && !IsSpace(s[0]) ==> r != "")
  {
    if s != "" && IsSpace(s[|s| - 1]) { TrimRightBare(s[..|s| - 1]); }
  }

  lemma {:induction false} TrimLeftBare(s: string)
    ensures var r := TrimLeft(s); r == "" || !IsSpace(r[0])
  {
    if s != "" && IsSpace(s[0]) { TrimLeftBare(s[1..]); }
  }

  /** Stripping leaves exactly the strings without outer white space alone, so twice is once. */
  lemma StripBare(s: string)
    ensures Bare(Strip(s)) && (Strip(s) == s <==> Bare(s)) && Strip(Strip(s)) == Strip(s)
  {
    TrimLeftBare(s);
    TrimRightBare(TrimLeft(s));
    BareStays(s);
    BareStays(Strip(s));
  }

  lemma BareStays(s: string)
    ensures Bare(s) ==> Strip(s) == s
  {
  }

  lemma {:induction false} LeftSlice(s: string) returns (a: nat)
    ensures a <= |s| && TrimLeft(s) == s[a..] && forall k | 0 <= k < a :: IsSpace(s[k])
  {
    a := 0;
    if s != "" && IsSpace(s[0]) {
      var b := LeftSlice(s[1..]);
      a := b + 1;
      assert forall k | 1 <= k < a :: s[k] == s[1..][k - 1];
    }
  }

  lemma {:induction false} RightSlice(s: string) returns (b: nat)
    ensures b <= |s| && TrimRight(s) == s[..b] && forall k | b <= k < |s| :: IsSpace(s[k])
  {
    b := |s|;
    if s != "" && IsSpace(s[|s| - 1]) { b := RightSlice(s[..|s| - 1]); }
  }

  /** Stripping cuts white space off both ends -- blank, the characters from tab to carriage return and the four separators -- and nothing else. */
  lemma StripExactly(s: string) returns (a: nat, b: nat)
    ensures a <= b <= |s| && Strip(s) == s[a..b]
    ensures forall k | 0 <= k < |s| && !(a <= k < b) :: s[k] as int in {9, 10, 11, 12, 13, 28, 29, 30, 31, 32}
    ensures a < b ==> s[a] as int !in {9, 10, 11, 12, 13, 28, 29, 30, 31, 32} && s[b - 1] as int !in {9, 10, 11, 12, 13, 28, 29, 30, 31, 32}
  {
    hide IsSpace, TrimLeft, TrimRight;
    forall c: char ensures IsSpace(c) <==> c as int in {9, 10, 11, 12, 13, 28, 29, 30, 31, 32} { SpaceCode(c); }
    a := LeftSlice(s);
    var t := s[a..];
    var n := RightSlice(t);
    b := a + n;
    StripBare(s);
    assert Strip(s) == t[..n] == s[a..b];
    assert forall k | n <= k < |t| :: s[a + k] == t[k];
    forall k | b <= k < |s| ensures IsSpace(s[k]) { assert s[k] == t[k - a]; }
  }

  lemma SpaceCode(c: char)
    ensures IsSpace(c) <==> c as int in {9, 10, 11, 12, 13, 28, 29, 30, 31, 32}
  {
  }

  /** Text with something else than white space at `c` is never stripped to what is before `c`. */
  lemma StripKeeps(s: string, c: nat)
    requires c < |s| && !IsSpace(s[c])
    ensures Strip(s) != s[..c]
  {
    hide IsSpace, TrimLeft, TrimRight;
    var a := LeftSlice(s);
    var t := s[a..];
    var b := RightSlice(t);
    assert Strip(s) == t[..b];
    assert a <= c;
    assert t[c - a] == s[c];
    assert c - a < b;
    StripBare(s);
    assert c > 0 ==> s[..c][0] == s[0];
  }
}
