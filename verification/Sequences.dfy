/** What every list here needs: dropping a front that may be too short, and regrouping. */
module Sequences {

  /** What is left after the first `n` elements; nothing when there are no more. */
  function Drop<T>(s: seq<T>, n: nat): seq<T> {
    if n <= |s| then s[n..] else []
  }

  lemma DropDrop<T>(s: seq<T>, m: nat, n: nat)
    ensures Drop(Drop(s, m), n) == Drop(s, m + n)
  {
    if m + n <= |s| {
      assert s[m..][n..] == s[m + n..];
    }
  }

  lemma Regroup<T>(a: seq<T>, b: seq<T>, c: seq<T>)
    ensures a + b + c == a + (b + c)
  {
  }

  lemma AppendNothing<T>(a: seq<T>)
    ensures a + [] == a
  {
  }
}
