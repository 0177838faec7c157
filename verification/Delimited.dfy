/** Splitting and joining on a separator: the shape of every text list on the wire. */
module Delimited {
  import opened Sequences

  /** One more element in front of split text: a new piece, or the first piece grown. */
  function Extend<T(==)>(x: T, pieces: seq<seq<T>>, sep: T): (extended: seq<seq<T>>)
    requires |pieces| >= 1
    ensures |extended| >= 1
  {
    if x == sep then [[]] + pieces else [[x] + pieces[0]] + pieces[1..]
  }

  /** `str::split`: the pieces between separators, at least one of them. */
  function Split<T(==)>(s: seq<T>, sep: T): (pieces: seq<seq<T>>)
    ensures |pieces| >= 1
  {
    if s == [] then [[]] else Extend(s[0], Split(s[1..], sep), sep)
  }

  /** `str::split_terminator`: as `Split`, without a last piece that is empty. */
  function SplitTerminator<T(==)>(s: seq<T>, sep: T): (pieces: seq<seq<T>>) {
    var pieces := Split(s, sep);
    if pieces[|pieces| - 1] == [] then pieces[..|pieces| - 1] else pieces
  }

  function Join<T>(pieces: seq<seq<T>>, sep: T): seq<T> {
    if |pieces| == 0 then []
    else if |pieces| == 1 then pieces[0]
    else pieces[0] + [sep] + Join(pieces[1..], sep)
  }

  ghost predicate Free<T(!new)>(pieces: seq<seq<T>>, sep: T) {
    forall i :: 0 <= i < |pieces| ==> sep !in pieces[i]
  }

  lemma {:induction false} SplitIsFree<T(!new)>(s: seq<T>, sep: T)
    ensures Free(Split(s, sep), sep)
  {
    if s == [] {
    } else {
      SplitIsFree(s[1..], sep);
    }
  }

  lemma JoinCons<T(!new)>(head: seq<T>, rest: seq<seq<T>>, sep: T)
    ensures Join([head] + rest, sep) == if rest == [] then head else head + ([sep] + Join(rest, sep))
  {
    assert ([head] + rest)[1..] == rest;
    Regroup(head, [sep], Join(rest, sep));
  }

  lemma JoinExtend<T(!new)>(x: T, pieces: seq<seq<T>>, sep: T)
    requires |pieces| >= 1
    ensures Join(Extend(x, pieces, sep), sep) == [x] + Join(pieces, sep)
  {
    if x == sep {
      JoinCons([], pieces, sep);
    } else {
      var head, rest := pieces[0], pieces[1..];
      JoinCons([x] + head, rest, sep);
      JoinCons(head, rest, sep);
      assert [head] + rest == pieces;
      if rest != [] {
        Regroup([x], head, [sep] + Join(rest, sep));
      }
    }
  }

  lemma {:induction false} JoinSplit<T(!new)>(s: seq<T>, sep: T)
    ensures Join(Split(s, sep), sep) == s
  {
    if s == [] {
    } else {
      JoinSplit(s[1..], sep);
      JoinExtend(s[0], Split(s[1..], sep), sep);
      assert s == [s[0]] + s[1..];
    }
  }

  lemma {:induction false} SplitFree<T(!new)>(s: seq<T>, sep: T)
    requires sep !in s
    ensures Split(s, sep) == [s]
  {
    if s == [] {
    } else {
      SplitFree(s[1..], sep);
      assert [s[0]] + s[1..] == s;
    }
  }

  lemma ExtendConcat<T(!new)>(x: T, a: seq<seq<T>>, b: seq<seq<T>>, sep: T)
    requires |a| >= 1
    ensures Extend(x, a + b, sep) == Extend(x, a, sep) + b
  {
    assert (a + b)[1..] == a[1..] + b;
  }

  /** A separator between two texts separates their pieces. */
  lemma {:induction false} SplitConcat<T(!new)>(a: seq<T>, b: seq<T>, sep: T)
    ensures Split(a + [sep] + b, sep) == Split(a, sep) + Split(b, sep)
  {
    var s := a + [sep] + b;
    if a == [] {
      assert s[1..] == b;
    } else {
      SplitConcat(a[1..], b, sep);
      assert s[1..] == a[1..] + [sep] + b;
      ExtendConcat(a[0], Split(a[1..], sep), Split(b, sep), sep);
    }
  }

  lemma {:induction false} SplitJoin<T(!new)>(pieces: seq<seq<T>>, sep: T)
    requires pieces != [] && Free(pieces, sep)
    ensures Split(Join(pieces, sep), sep) == pieces
  {
    SplitFree(pieces[0], sep);
    if |pieces| > 1 {
      SplitJoin(pieces[1..], sep);
      SplitConcat(pieces[0], Join(pieces[1..], sep), sep);
    }
  }

  lemma SplitTerminated<T(!new)>(s: seq<T>, sep: T)
    ensures Split(s + [sep], sep) == Split(s, sep) + [[]]
  {
    SplitConcat(s, [], sep);
    assert s + [sep] + [] == s + [sep];
  }

  /** Whether the last piece is empty: the text is empty or ends with the separator. */
  lemma {:induction false} LastPieceEmptyIff<T(!new)>(s: seq<T>, sep: T)
    ensures Split(s, sep)[|Split(s, sep)| - 1] == [] <==> s == [] || s[|s| - 1] == sep
  {
    if s == [] {
    } else {
      if s[|s| - 1] == sep {
        SplitTerminated(s[..|s| - 1], sep);
        assert s == s[..|s| - 1] + [sep];
      } else {
        LastPieceKeepsLast(s, sep);
      }
    }
  }

  lemma ExtendKeepsLast<T(!new)>(x: T, pieces: seq<seq<T>>, sep: T)
    requires |pieces| >= 1 && pieces[|pieces| - 1] != []
    ensures var extended := Extend(x, pieces, sep); extended[|extended| - 1] != []
  {
  }

  lemma {:induction false} LastPieceKeepsLast<T(!new)>(s: seq<T>, sep: T)
    requires s != [] && s[|s| - 1] != sep
    ensures Split(s, sep)[|Split(s, sep)| - 1] != []
  {
    if |s| > 1 {
      LastPieceKeepsLast(s[1..], sep);
      ExtendKeepsLast(s[0], Split(s[1..], sep), sep);
    }
  }

  lemma {:induction false} JoinAppendEmpty<T(!new)>(pieces: seq<seq<T>>, sep: T)
    requires pieces != []
    ensures Join(pieces + [[]], sep) == Join(pieces, sep) + [sep]
  {
    if |pieces| == 1 {
      assert (pieces + [[]])[1..] == [[]];
    } else {
      JoinAppendEmpty(pieces[1..], sep);
      assert (pieces + [[]])[1..] == pieces[1..] + [[]];
    }
  }

  // ---- texts terminated by the separator ----

  /** `join` followed by one more separator. */
  function Terminate<T>(pieces: seq<seq<T>>, sep: T): seq<T> {
    Join(pieces, sep) + [sep]
  }

  /** Terminating and splitting restores a list exactly when it has a piece and
      no piece holds the separator. */
  lemma SplitTerminateIff<T(!new)>(pieces: seq<seq<T>>, sep: T)
    ensures SplitTerminator(Terminate(pieces, sep), sep) == pieces <==> pieces != [] && Free(pieces, sep)
  {
    var joined := Join(pieces, sep);
    SplitTerminated(joined, sep);
    assert SplitTerminator(Terminate(pieces, sep), sep) == Split(joined, sep);
    SplitIsFree(joined, sep);
    if pieces != [] && Free(pieces, sep) {
      SplitJoin(pieces, sep);
    }
  }

  /** Splitting and terminating restores a text that ends with the separator,
      and completes one that does not. */
  lemma TerminateSplit<T(!new)>(s: seq<T>, sep: T)
    ensures Terminate(SplitTerminator(s, sep), sep)
         == if s != [] && s[|s| - 1] == sep then s else s + [sep]
  {
    LastPieceEmptyIff(s, sep);
    JoinSplit(s, sep);
    var pieces := Split(s, sep);
    if s == [] {
      assert pieces[..0] == [];
    } else if s[|s| - 1] == sep {
      var init := s[..|s| - 1];
      assert s == init + [sep];
      SplitTerminated(init, sep);
      JoinSplit(init, sep);
      assert SplitTerminator(s, sep) == Split(init, sep);
    }
  }
}
