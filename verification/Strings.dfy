/** Text as the services treat it: JavaScript's `trim`. */
module Strings {
  /** White space and line terminators (sections 12.2 and 12.3 of ECMA-262). */
  predicate IsSpace(c: char) {
    var n := c as int;
    || 9 <= n <= 13 || n == 0x20 || n == 0xA0 || n == 0x1680 || 0x2000 <= n <= 0x200A
    || n == 0x2028 || n == 0x2029 || n == 0x202F || n == 0x205F || n == 0x3000 || n == 0xFEFF
  }

  function TrimLeft(s: string): string {
    if s != "" && IsSpace(s[0]) then TrimLeft(s[1..]) else s
  }

  function TrimRight(s: string): string {
    if s != "" && IsSpace(s[|s| - 1]) then TrimRight(s[..|s| - 1]) else s
  }

  function Trim(s: string): string {
    TrimRight(TrimLeft(s))
  }

  predicate AllSpaces(s: string) {
    forall i :: 0 <= i < |s| ==> IsSpace(s[i])
  }

  lemma {:induction false} TrimLeftCuts(s: string) returns (i: nat)
    ensures i <= |s| && AllSpaces(s[..i]) && TrimLeft(s) == s[i..]
    ensures TrimLeft(s) == "" || !IsSpace(TrimLeft(s)[0])
  {
    if s == "" || !IsSpace(s[0]) {
      i := 0;
    } else {
      var j := TrimLeftCuts(s[1..]);
      i := j + 1;
      assert s[..i] == [s[0]] + s[1..][..j];
    }
  }

  lemma {:induction false} TrimRightCuts(s: string) returns (i: nat)
    ensures i <= |s| && AllSpaces(s[i..]) && TrimRight(s) == s[..i]
    ensures TrimRight(s) == "" || !IsSpace(TrimRight(s)[|TrimRight(s)| - 1])
  {
    if s == "" || !IsSpace(s[|s| - 1]) {
      i := |s|;
    } else {
      i := TrimRightCuts(s[..|s| - 1]);
      assert s[i..] == s[..|s| - 1][i..] + [s[|s| - 1]];
    }
  }

  predicate BareEnds(s: string) {
    s != "" && !IsSpace(s[0]) && !IsSpace(s[|s| - 1])
  }

  /** The text is the core between white space, which may be empty. */
  ghost predicate Padded(s: string, core: string) {
    exists left, right :: AllSpaces(left) && AllSpaces(right) && s == left + core + right
  }

  lemma {:induction false} TrimLeftSkips(left: string, s: string)
    requires AllSpaces(left) && s != "" && !IsSpace(s[0])
    ensures TrimLeft(left + s) == s
  {
    if left == "" {
      assert left + s == s;
    } else {
      TrimLeftSkips(left[1..], s);
      assert (left + s)[1..] == left[1..] + s;
    }
  }

  lemma {:induction false} TrimRightSkips(s: string, right: string)
    requires AllSpaces(right) && s != "" && !IsSpace(s[|s| - 1])
    ensures TrimRight(s + right) == s
  {
    if right == "" {
      assert s + right == s;
    } else {
      TrimRightSkips(s, right[..|right| - 1]);
      assert (s + right)[..|s + right| - 1] == s + right[..|right| - 1];
    }
  }

  /** Trimming gives a text without white space at its ends exactly when it is given that text between white space. */
  lemma TrimIffPadded(s: string, core: string)
    requires BareEnds(core)
    ensures Trim(s) == core <==> Padded(s, core)
  {
    var i := TrimLeftCuts(s);
    var j := TrimRightCuts(s[i..]);
    if Trim(s) == core {
      assert AllSpaces(s[..i]) && AllSpaces(s[i..][j..]);
      assert s == s[..i] + core + s[i..][j..];
    }
    if Padded(s, core) {
      var left, right :| AllSpaces(left) && AllSpaces(right) && s == left + core + right;
      assert s == left + (core + right);
      TrimLeftSkips(left, core + right);
      TrimRightSkips(core, right);
    }
  }
}
