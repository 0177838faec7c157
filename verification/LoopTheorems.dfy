/** What the account-info loop does, said without the loop: which frames it
    reads, what it keeps of them, and where each of them goes. */
module LoopTheorems {
  import opened Wrappers
  import opened Sequences
  import opened MachineInts
  import opened Errors
  import opened Handshake
  import opened SessionModel

  // ---- frames and their effects ----

  /** The first `n` reads of a peer; past its script, the end of the stream. */
  function FirstReads(inbound: seq<ReadOutcome>, n: nat): (taken: seq<ReadOutcome>)
    ensures |taken| == n
  {
    seq(n, i requires 0 <= i < n =>
        if i < |inbound| then inbound[i] else ReadFailed(Io(UnexpectedEof, [])))
  }

  /** The effect of a read: that of its frame, or the error that ends the loop. */
  function EffectOf(reading: Bytes -> Effect, outcome: ReadOutcome): Effect {
    match outcome
    case Frame(body) => reading(body)
    case ReadFailed(error) => Fatal(error)
  }

  function EffectsOf(reading: Bytes -> Effect, outcomes: seq<ReadOutcome>): (effects: seq<Effect>)
    ensures |effects| == |outcomes|
  {
    seq(|outcomes|, i requires 0 <= i < |outcomes| => EffectOf(reading, outcomes[i]))
  }

  function NoticesOf(effects: seq<Effect>): seq<Notice> {
    if effects == [] then []
    else NoticesOf(effects[..|effects| - 1]) + effects[|effects| - 1].Notices()
  }

  function CallsOf(effects: seq<Effect>): seq<StartupMessage> {
    if effects == [] then []
    else CallsOf(effects[..|effects| - 1]) + effects[|effects| - 1].Calls()
  }

  predicate GivesId(e: Effect) {
    e.NextId? && e.id.Some?
  }

  predicate GivesAccounts(e: Effect) {
    e.Accounts? && e.list.Some?
  }

  /** Both values are among the effects. */
  ghost predicate Known(effects: seq<Effect>) {
    && (exists i :: 0 <= i < |effects| && GivesId(effects[i]))
    && (exists i :: 0 <= i < |effects| && GivesAccounts(effects[i]))
  }

  ghost predicate Quiet(effects: seq<Effect>) {
    forall i :: 0 <= i < |effects| ==> !effects[i].Ends()
  }

  /** The id given last, if any. */
  ghost predicate IsLastId(effects: seq<Effect>, id: Option<Int32>) {
    match id
    case None => forall i :: 0 <= i < |effects| ==> !GivesId(effects[i])
    case Some(_) =>
      exists i :: 0 <= i < |effects| && effects[i] == NextId(id)
                  && forall j :: i < j < |effects| ==> !GivesId(effects[j])
  }

  /** The account list given last, if any. */
  ghost predicate IsLastAccounts(effects: seq<Effect>, list: Option<string>) {
    match list
    case None => forall i :: 0 <= i < |effects| ==> !GivesAccounts(effects[i])
    case Some(_) =>
      exists i :: 0 <= i < |effects| && effects[i] == Accounts(list)
                  && forall j :: i < j < |effects| ==> !GivesAccounts(effects[j])
  }

  ghost predicate IsLastInfo(effects: seq<Effect>, info: AccountInfo) {
    IsLastId(effects, info.nextOrderId) && IsLastAccounts(effects, info.managedAccounts)
  }

  // ---- how a loop can end ----

  const MOST_FRAMES: nat := 101

  /** The effects are those of the shortest prefix that gives both values, or of
      101 frames when no shorter prefix does; and none of them ends the loop. */
  ghost predicate ShortestStop(effects: seq<Effect>) {
    && 1 <= |effects| <= MOST_FRAMES
    && Quiet(effects)
    && (Known(effects) || |effects| == MOST_FRAMES)
    && forall m :: 0 <= m < |effects| ==> !Known(effects[..m])
  }

  /** The last effect is the first that ends the loop, before both values are given. */
  ghost predicate FirstEnd(effects: seq<Effect>) {
    && 1 <= |effects| <= MOST_FRAMES
    && Quiet(effects[..|effects| - 1])
    && effects[|effects| - 1].Ends()
    && forall m :: 0 <= m < |effects| ==> !Known(effects[..m])
  }

  /** The loop read exactly `n` times, and did what their effects say. */
  ghost predicate ReadExactly(reading: Bytes -> Effect, peer: Peer, heard: Heard, r: Received, n: nat) {
    var effects := EffectsOf(reading, FirstReads(peer.inbound, n));
    && r.peer == peer.(inbound := Drop(peer.inbound, n))
    && r.heard == Heard(heard.notices + NoticesOf(effects), heard.calls + CallsOf(effects))
    && match r.result
       case Success(info) => ShortestStop(effects) && IsLastInfo(effects, info)
       case Failure(error) => FirstEnd(effects) && effects[|effects| - 1].Yield() == Failure(error)
  }

  // ---- proofs ----

  lemma AbsorbKeepsLast(effects: seq<Effect>, info: AccountInfo, e: Effect)
    requires IsLastInfo(effects, info)
    requires !e.Ends()
    ensures IsLastInfo(effects + [e], Absorb(info, e.Yield().value))
  {
    LastIdGrows(effects, info.nextOrderId, e);
    LastAccountsGrow(effects, info.managedAccounts, e);
  }

  lemma LastIdGrows(effects: seq<Effect>, id: Option<Int32>, e: Effect)
    requires IsLastId(effects, id)
    ensures IsLastId(effects + [e], if GivesId(e) then e.id else id)
  {
    var all := effects + [e];
    if GivesId(e) {
      assert all[|effects|] == NextId(e.id);
    } else if id.Some? {
      var i :| 0 <= i < |effects| && effects[i] == NextId(id)
               && forall j :: i < j < |effects| ==> !GivesId(effects[j]);
      assert all[i] == NextId(id);
    }
  }

  lemma LastAccountsGrow(effects: seq<Effect>, list: Option<string>, e: Effect)
    requires IsLastAccounts(effects, list)
    ensures IsLastAccounts(effects + [e], if GivesAccounts(e) then e.list else list)
  {
    var all := effects + [e];
    if GivesAccounts(e) {
      assert all[|effects|] == Accounts(e.list);
    } else if list.Some? {
      var i :| 0 <= i < |effects| && effects[i] == Accounts(list)
               && forall j :: i < j < |effects| ==> !GivesAccounts(effects[j]);
      assert all[i] == Accounts(list);
    }
  }

  lemma CompleteIffKnown(effects: seq<Effect>, info: AccountInfo)
    requires IsLastInfo(effects, info)
    ensures Complete(info) <==> Known(effects)
  {
    if info.nextOrderId.Some? {
      var i :| 0 <= i < |effects| && effects[i] == NextId(info.nextOrderId);
      assert GivesId(effects[i]);
    }
    if info.managedAccounts.Some? {
      var i :| 0 <= i < |effects| && effects[i] == Accounts(info.managedAccounts);
      assert GivesAccounts(effects[i]);
    }
  }

  lemma OneMoreRead(reading: Bytes -> Effect, inbound: seq<ReadOutcome>, n: nat)
    ensures FirstReads(inbound, n + 1)[..n] == FirstReads(inbound, n)
    ensures EffectsOf(reading, FirstReads(inbound, n + 1))
         == EffectsOf(reading, FirstReads(inbound, n)) + [EffectOf(reading, FirstReads(inbound, n + 1)[n])]
  {
  }

  lemma HeardGrows(effects: seq<Effect>, e: Effect)
    ensures NoticesOf(effects + [e]) == NoticesOf(effects) + e.Notices()
    ensures CallsOf(effects + [e]) == CallsOf(effects) + e.Calls()
  {
    assert (effects + [e])[..|effects|] == effects;
  }

  /** No prefix of the effects gives both values, and one more is added. */
  lemma PrefixesGrow(effects: seq<Effect>, e: Effect)
    requires forall m :: 0 <= m <= |effects| ==> !Known(effects[..m])
    ensures forall m :: 0 <= m < |effects + [e]| ==> !Known((effects + [e])[..m])
  {
    forall m | 0 <= m < |effects + [e]|
      ensures !Known((effects + [e])[..m])
    {
      assert (effects + [e])[..m] == effects[..m];
    }
  }

  /** The peer after `n` reads. */
  function AfterReads(peer: Peer, n: nat): Peer {
    peer.(inbound := Drop(peer.inbound, n))
  }

  /** The effects of the first `n` reads. */
  function FirstEffects(reading: Bytes -> Effect, peer: Peer, n: nat): (effects: seq<Effect>)
    ensures |effects| == n
  {
    EffectsOf(reading, FirstReads(peer.inbound, n))
  }

  function HeardAfter(heard: Heard, effects: seq<Effect>): Heard {
    Heard(heard.notices + NoticesOf(effects), heard.calls + CallsOf(effects))
  }

  /** The loop, with `info`, after `k` frames that did not end it. */
  ghost predicate InLoop(effects: seq<Effect>, info: AccountInfo) {
    && |effects| <= MAX_ATTEMPTS
    && Quiet(effects) && IsLastInfo(effects, info)
    && forall m :: 0 <= m <= |effects| ==> !Known(effects[..m])
  }

  lemma ReadNext(reading: Bytes -> Effect, peer: Peer, k: nat, e: Effect)
    requires e == EffectOf(reading, FirstReads(peer.inbound, k + 1)[k])
    ensures AfterReads(peer, k).Read().1 == AfterReads(peer, k + 1)
    ensures match AfterReads(peer, k).Read().0
            case Success(body) => e == reading(body)
            case Failure(error) => e == Fatal(error)
  {
    if k < |peer.inbound| {
      assert peer.inbound[k..][1..] == peer.inbound[k + 1..];
    }
  }

  /** One turn of the loop, by the effect of the read it makes. */
  lemma TurnAt(reading: Bytes -> Effect, peer: Peer, heard: Heard, info: AccountInfo, k: nat, e: Effect)
    requires k <= MAX_ATTEMPTS
    requires e == EffectOf(reading, FirstReads(peer.inbound, k + 1)[k])
    ensures ReceiveLoop(reading, AfterReads(peer, k), heard, info, k)
         == if e.Ends() then Received(Failure(e.Yield().error), AfterReads(peer, k + 1), heard.Observe(e))
            else
              var merged := Absorb(info, e.Yield().value);
              if Stops(merged, k + 1) then Received(Success(merged), AfterReads(peer, k + 1), heard.Observe(e))
              else ReceiveLoop(reading, AfterReads(peer, k + 1), heard.Observe(e), merged, k + 1)
  {
    ReadNext(reading, peer, k, e);
    assert heard.notices + [] == heard.notices && heard.calls + [] == heard.calls;
  }

  /** What a read adds to the effects seen so far. */
  lemma EffectsGrow(reading: Bytes -> Effect, peer: Peer, heard: Heard, k: nat, e: Effect)
    requires e == EffectOf(reading, FirstReads(peer.inbound, k + 1)[k])
    ensures var seen := FirstEffects(reading, peer, k);
            && FirstEffects(reading, peer, k + 1) == seen + [e]
            && HeardAfter(heard, seen).Observe(e) == HeardAfter(heard, seen + [e])
  {
    OneMoreRead(reading, peer.inbound, k);
    HeardGrows(FirstEffects(reading, peer, k), e);
  }

  lemma EndsFirst(seen: seq<Effect>, info: AccountInfo, e: Effect)
    requires InLoop(seen, info) && e.Ends()
    ensures FirstEnd(seen + [e])
  {
    PrefixesGrow(seen, e);
    assert (seen + [e])[..|seen|] == seen;
  }

  lemma StopsShortest(seen: seq<Effect>, info: AccountInfo, e: Effect)
    requires InLoop(seen, info) && !e.Ends()
    ensures var merged := Absorb(info, e.Yield().value);
            && IsLastInfo(seen + [e], merged)
            && (Stops(merged, |seen| + 1) ==> ShortestStop(seen + [e]))
            && (!Stops(merged, |seen| + 1) ==> InLoop(seen + [e], merged))
  {
    var merged := Absorb(info, e.Yield().value);
    AbsorbKeepsLast(seen, info, e);
    CompleteIffKnown(seen + [e], merged);
    PrefixesGrow(seen, e);
    assert (seen + [e])[..|seen| + 1] == seen + [e];
  }

  /** The effect of the read that follows the first `k`. */
  function NextEffect(reading: Bytes -> Effect, peer: Peer, k: nat): Effect {
    EffectOf(reading, FirstReads(peer.inbound, k + 1)[k])
  }

  lemma LoopEnds(reading: Bytes -> Effect, peer: Peer, heard: Heard, info: AccountInfo, k: nat)
    requires k <= MAX_ATTEMPTS && InLoop(FirstEffects(reading, peer, k), info)
    requires var e := NextEffect(reading, peer, k); e.Ends() || Stops(Absorb(info, e.Yield().value), k + 1)
    ensures var start := HeardAfter(heard, FirstEffects(reading, peer, k));
            ReadExactly(reading, peer, heard, ReceiveLoop(reading, AfterReads(peer, k), start, info, k), k + 1)
  {
    var seen, e := FirstEffects(reading, peer, k), NextEffect(reading, peer, k);
    TurnAt(reading, peer, HeardAfter(heard, seen), info, k, e);
    EffectsGrow(reading, peer, heard, k, e);
    if e.Ends() {
      EndsFirst(seen, info, e);
    } else {
      StopsShortest(seen, info, e);
    }
  }

  lemma LoopGoesOn(reading: Bytes -> Effect, peer: Peer, heard: Heard, info: AccountInfo, k: nat)
    requires k <= MAX_ATTEMPTS && InLoop(FirstEffects(reading, peer, k), info)
    requires var e := NextEffect(reading, peer, k); !e.Ends() && !Stops(Absorb(info, e.Yield().value), k + 1)
    ensures var merged := Absorb(info, NextEffect(reading, peer, k).Yield().value);
            && InLoop(FirstEffects(reading, peer, k + 1), merged)
            && ReceiveLoop(reading, AfterReads(peer, k), HeardAfter(heard, FirstEffects(reading, peer, k)), info, k)
               == ReceiveLoop(reading, AfterReads(peer, k + 1),
                              HeardAfter(heard, FirstEffects(reading, peer, k + 1)), merged, k + 1)
  {
    var seen, e := FirstEffects(reading, peer, k), NextEffect(reading, peer, k);
    TurnAt(reading, peer, HeardAfter(heard, seen), info, k, e);
    EffectsGrow(reading, peer, heard, k, e);
    StopsShortest(seen, info, e);
  }

  lemma {:induction false} LoopFrom(reading: Bytes -> Effect, peer: Peer, heard: Heard, info: AccountInfo, k: nat)
    returns (n: nat)
    requires k <= MAX_ATTEMPTS && InLoop(FirstEffects(reading, peer, k), info)
    ensures var start := HeardAfter(heard, FirstEffects(reading, peer, k));
            ReadExactly(reading, peer, heard, ReceiveLoop(reading, AfterReads(peer, k), start, info, k), n)
    decreases MAX_ATTEMPTS - k
  {
    var e := NextEffect(reading, peer, k);
    if e.Ends() || Stops(Absorb(info, e.Yield().value), k + 1) {
      LoopEnds(reading, peer, heard, info, k);
      n := k + 1;
    } else {
      LoopGoesOn(reading, peer, heard, info, k);
      n := LoopFrom(reading, peer, heard, Absorb(info, e.Yield().value), k + 1);
    }
  }

  /** The loop reads a definite number of frames and does what their effects say. */
  lemma LoopMeaning(reading: Bytes -> Effect, peer: Peer, heard: Heard) returns (n: nat)
    ensures ReadExactly(reading, peer, heard, ReceiveLoop(reading, peer, heard, NO_ACCOUNT_INFO, 0), n)
  {
    assert FirstEffects(reading, peer, 0) == [];
    assert AfterReads(peer, 0) == peer;
    assert HeardAfter(heard, []) == heard;
    n := LoopFrom(reading, peer, heard, NO_ACCOUNT_INFO, 0);
  }

  // ---- the main results ----

  /** A prefix at which the loop can end says so alone: there is no other. */
  lemma EndingIsUnique(reading: Bytes -> Effect, peer: Peer, n: nat, m: nat)
    requires var a := FirstEffects(reading, peer, n); ShortestStop(a) || FirstEnd(a)
    requires var b := FirstEffects(reading, peer, m); ShortestStop(b) || FirstEnd(b)
    ensures n == m
  {
    if n < m {
      ShorterDoesNotEnd(reading, peer, n, m);
    } else if m < n {
      ShorterDoesNotEnd(reading, peer, m, n);
    }
  }

  lemma ShorterDoesNotEnd(reading: Bytes -> Effect, peer: Peer, n: nat, m: nat)
    requires n < m
    requires var b := FirstEffects(reading, peer, m); ShortestStop(b) || FirstEnd(b)
    ensures var a := FirstEffects(reading, peer, n); !ShortestStop(a) && !FirstEnd(a)
  {
    var a, b := FirstEffects(reading, peer, n), FirstEffects(reading, peer, m);
    assert b[..n] == a;
    if n > 0 {
      assert a[n - 1] == b[n - 1];
      assert FirstEnd(b) ==> b[..m - 1][n - 1] == b[n - 1];
    }
  }

  /** The loop succeeds exactly when some prefix of the frames is the shortest that
      gives both values, or is 101 frames long, with nothing in it that ends the loop.
      It then reads that prefix and no more, and keeps the last value of each kind. */
  lemma LoopSucceedsIff(reading: Bytes -> Effect, peer: Peer, heard: Heard)
    ensures var r := ReceiveLoop(reading, peer, heard, NO_ACCOUNT_INFO, 0);
            && (r.result.Success? <==> exists n :: ShortestStop(FirstEffects(reading, peer, n)))
            && forall n :: ShortestStop(FirstEffects(reading, peer, n)) ==>
                 && r.result.Success?
                 && r.peer == AfterReads(peer, n)
                 && IsLastInfo(FirstEffects(reading, peer, n), r.result.value)
  {
    var r := ReceiveLoop(reading, peer, heard, NO_ACCOUNT_INFO, 0);
    var n := LoopMeaning(reading, peer, heard);
    assert r.result.Success? ==> ShortestStop(FirstEffects(reading, peer, n));
    forall m | ShortestStop(FirstEffects(reading, peer, m))
      ensures m == n
    {
      EndingIsUnique(reading, peer, n, m);
    }
  }

  /** The loop fails with an error exactly when that is what the first read to end
      it yields, and it reads nothing after that one. */
  lemma LoopFailsIff(reading: Bytes -> Effect, peer: Peer, heard: Heard, error: Error)
    ensures var r := ReceiveLoop(reading, peer, heard, NO_ACCOUNT_INFO, 0);
            && (r.result == Failure(error) <==>
                exists n :: FirstEnd(FirstEffects(reading, peer, n))
                         && FirstEffects(reading, peer, n)[n - 1].Yield() == Failure(error))
            && forall n :: FirstEnd(FirstEffects(reading, peer, n)) ==>
                 r.result.Failure? && r.peer == AfterReads(peer, n)
  {
    var r := ReceiveLoop(reading, peer, heard, NO_ACCOUNT_INFO, 0);
    var n := LoopMeaning(reading, peer, heard);
    forall m | FirstEnd(FirstEffects(reading, peer, m))
      ensures m == n
    {
      EndingIsUnique(reading, peer, n, m);
    }
    if r.result == Failure(error) {
      assert FirstEnd(FirstEffects(reading, peer, n));
    }
  }

  /** A peer that keeps talking without giving either value brings the loop to success
      all the same, after 101 frames and with nothing known. */
  lemma TalkativePeerSucceeds(reading: Bytes -> Effect, peer: Peer, heard: Heard)
    requires var effects := FirstEffects(reading, peer, MOST_FRAMES);
             Quiet(effects) && forall i :: 0 <= i < MOST_FRAMES ==> !GivesId(effects[i]) && !GivesAccounts(effects[i])
    ensures var r := ReceiveLoop(reading, peer, heard, NO_ACCOUNT_INFO, 0);
            r.result == Success(NO_ACCOUNT_INFO) && r.peer == AfterReads(peer, MOST_FRAMES)
  {
    var effects := FirstEffects(reading, peer, MOST_FRAMES);
    assert ShortestStop(effects);
    LoopSucceedsIff(reading, peer, heard);
  }

  // ---- conservation ----

  function Count(effects: seq<Effect>, p: Effect -> bool): nat {
    if effects == [] then 0
    else Count(effects[..|effects| - 1], p) + if p(effects[|effects| - 1]) then 1 else 0
  }

  /** Every frame is account data, a notice, a callback, dropped, or the error it
      ends with: nothing is lost, and nothing is heard twice. */
  lemma {:induction false} EffectsConserved(effects: seq<Effect>)
    ensures |effects| == Count(effects, (e: Effect) => e.NextId? || e.Accounts?)
                       + |NoticesOf(effects)| + |CallsOf(effects)|
                       + Count(effects, (e: Effect) => e.Dropped?) + Count(effects, (e: Effect) => e.Fatal?)
  {
    if effects == [] {
    } else {
      EffectsConserved(effects[..|effects| - 1]);
    }
  }
}
