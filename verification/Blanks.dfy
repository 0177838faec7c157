/** Removing the blanks around a text. */
module Blanks {

  /** The characters `str::trim` removes: Unicode's White_Space property. */
  predicate IsBlank(c: char) {
    var n := c as int;
    9 <= n <= 13 || n == 0x20 || n == 0x85 || n == 0xA0 || n == 0x1680 || 0x2000 <= n <= 0x200A
    || n == 0x2028 || n == 0x2029 || n == 0x202F || n == 0x205F || n == 0x3000
  }

  function TrimStart(s: string): (r: string)
    ensures |r| <= |s| && r == s[|s| - |r|..]
    ensures forall i :: 0 <= i < |s| - |r| ==> IsBlank(s[i])
    ensures r == [] || !IsBlank(r[0])
  {
    s[Skipped(s, 0)..]
  }

  /** Where the blanks from place `n` on end. */
  function Skipped(s: string, n: nat): (k: nat)
    requires n <= |s|
    ensures n <= k <= |s|
    ensures forall i :: n <= i < k ==> IsBlank(s[i])
    ensures k == |s| || !IsBlank(s[k])
    decreases |s| - n
  {
    if n < |s| && IsBlank(s[n]) then Skipped(s, n + 1) else n
  }

  function TrimEnd(s: string): (r: string)
    ensures |r| <= |s| && r == s[..|r|]
    ensures forall i :: |r| <= i < |s| ==> IsBlank(s[i])
    ensures r == [] || !IsBlank(r[|r| - 1])
  {
    s[..Kept(s, |s|)]
  }

  /** How much of the first `n` characters is left without the blanks behind. */
  function Kept(s: string, n: nat): (k: nat)
    requires n <= |s|
    ensures k <= n
    ensures forall i :: k <= i < n ==> IsBlank(s[i])
    ensures k == 0 || !IsBlank(s[k - 1])
  {
    if n > 0 && IsBlank(s[n - 1]) then Kept(s, n - 1) else n
  }

  function Trim(s: string): (r: string)
    ensures Trimmed(r)
    ensures forall c :: c in r ==> c in s
    ensures Trimmed(s) ==> r == s
  {
    TrimEnd(TrimStart(s))
  }

  /** Trimming takes off the blanks at both ends, and nothing else. */
  lemma TrimTakesBlanks(s: string) returns (i: nat, j: nat)
    ensures i <= j <= |s| && Trim(s) == s[i..j]
    ensures forall k :: 0 <= k < i || j <= k < |s| ==> IsBlank(s[k])
    ensures i < j ==> !IsBlank(s[i]) && !IsBlank(s[j - 1])
  {
    var start := TrimStart(s);
    i := |s| - |start|;
    j := i + |TrimEnd(start)|;
    forall k | j <= k < |s|
      ensures IsBlank(s[k])
    {
      assert s[k] == start[k - i];
    }
  }

  /** Unicode's White_Space characters, one by one. */
  lemma BlanksAre(c: char)
    ensures IsBlank(c)
       <==> c as int in {0x9, 0xA, 0xB, 0xC, 0xD, 0x20, 0x85, 0xA0, 0x1680, 0x2000, 0x2001, 0x2002, 0x2003, 0x2004,
                         0x2005, 0x2006, 0x2007, 0x2008, 0x2009, 0x200A, 0x2028, 0x2029, 0x202F, 0x205F, 0x3000}
  {
  }

  predicate Trimmed(s: string) {
    s == [] || (!IsBlank(s[0]) && !IsBlank(s[|s| - 1]))
  }
}
