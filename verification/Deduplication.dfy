/** De-duplication of replicated profiles between the querier and the ingesters.

    Every ingester streams its profiles in batches; the querier merges the streams, keeps
    one copy of each profile and answers every batch with a keep vector.  The two sides
    and the wires between them form a step relation: any enabled step may come next. */
module Deduplication {
  import opened Labels
  import opened Sequences

  /** Where the querier stands with one stream. */
  datatype Control =
    | Advancing   // `Next` has been called and has not started to read
    | Receiving   // `Next` has sent its keep vector, if one was due, and waits for a batch
    | Queued      // `Next` has returned true
    | Closed      // `Next` has returned false

  datatype Stream = Stream(
    // ingester (`filterProfiles`)
    ahead: seq<ProfileKey>,      // profiles not sent yet
    batch: seq<ProfileKey>,      // the batch sent last
    awaiting: bool,              // waiting for the keep vector of the batch
    ended: bool,                 // the empty message that ends the stream has been sent
    selected: seq<ProfileKey>,   // the profiles selected for merging
    // wires
    toQuerier: seq<seq<ProfileKey>>,
    toIngester: seq<seq<bool>>,
    // querier (`mergeIterator`)
    curr: seq<ProfileKey>,
    currIdx: nat,
    keep: seq<bool>,
    keepSent: bool,
    control: Control)

  /** The querier's merge loop (`skipDuplicates`): streams in the heap, and streams popped
      because they hold the smallest profile. */
  datatype State = State(streams: seq<Stream>, heap: set<nat>, tuples: seq<nat>)

  /** The entries of `ps` whose flag is set. */
  function Pick(ps: seq<ProfileKey>, flags: seq<bool>): (r: seq<ProfileKey>)
    requires |ps| == |flags|
    ensures forall p :: p in r ==> p in ps
  {
    if ps == [] then []
    else (if flags[0] then [ps[0]] else []) + Pick(ps[1..], flags[1..])
  }

  // ----- steps of one stream -----

  /** The ingester sends the next batch, of any size from 1 up. */
  ghost predicate SendBatch(s: Stream, s': Stream, size: nat) {
    && !s.awaiting && !s.ended && 0 < size <= |s.ahead|
    && s' == s.(ahead := s.ahead[size..], batch := s.ahead[..size], awaiting := true,
                toQuerier := s.toQuerier + [s.ahead[..size]])
  }

  /** The ingester has no more profiles and sends the empty message. */
  ghost predicate SendEnd(s: Stream, s': Stream) {
    && !s.awaiting && !s.ended && s.ahead == []
    && s' == s.(ended := true, toQuerier := s.toQuerier + [[]])
  }

  /** The ingester receives a keep vector and selects the profiles it marks. */
  ghost predicate ReceiveKeep(s: Stream, s': Stream) {
    && s.awaiting && s.toIngester != [] && |s.toIngester[0]| == |s.batch|
    && s' == s.(awaiting := false, selected := s.selected + Pick(s.batch, s.toIngester[0]),
                toIngester := s.toIngester[1..])
  }

  /** `Next` inside a batch. */
  ghost predicate AdvanceInBatch(s: Stream, s': Stream) {
    && s.control == Advancing && s.currIdx < |s.curr| - 1
    && s' == s.(currIdx := s.currIdx + 1, control := Queued)
  }

  /** `Next` at the end of a batch: sends the keep vector if one is due. */
  ghost predicate SendKeep(s: Stream, s': Stream) {
    && s.control == Advancing && (s.curr == [] || s.currIdx >= |s.curr| - 1)
    && s' == s.(control := Receiving,
                toIngester := if s.keepSent then s.toIngester else s.toIngester + [s.keep])
  }

  /** `Next` receives a batch. */
  ghost predicate ReceiveBatch(s: Stream, s': Stream) {
    && s.control == Receiving && s.toQuerier != [] && s.toQuerier[0] != []
    && s' == s.(curr := s.toQuerier[0], currIdx := 0, keep := seq(|s.toQuerier[0]|, _ => false),
                keepSent := false, toQuerier := s.toQuerier[1..], control := Queued)
  }

  /** `Next` receives the empty message. */
  ghost predicate ReceiveEnd(s: Stream, s': Stream) {
    && s.control == Receiving && s.toQuerier != [] && s.toQuerier[0] == []
    && s' == s.(toQuerier := s.toQuerier[1..], control := Closed)
  }

  ghost predicate StreamStep(s: Stream, s': Stream) {
    || (exists size :: SendBatch(s, s', size))
    || SendEnd(s, s') || ReceiveKeep(s, s') || AdvanceInBatch(s, s')
    || SendKeep(s, s') || ReceiveBatch(s, s') || ReceiveEnd(s, s')
  }

  // ----- steps of the whole system -----

  /** A step of stream `i`; a stream whose `Next` has returned true goes to the heap. */
  ghost predicate LocalStep(s: State, s': State, i: nat) {
    && i < |s.streams| && |s'.streams| == |s.streams|
    && StreamStep(s.streams[i], s'.streams[i])
    && s'.streams == s.streams[i := s'.streams[i]]
    && s'.tuples == s.tuples
    && s'.heap == if s.streams[i].control != Queued && s'.streams[i].control == Queued then s.heap + {i} else s.heap
  }

  /** `requeueAsync` has returned: no call of `Next` is under way. */
  ghost predicate Settled(s: State) {
    forall i :: 0 <= i < |s.streams| ==> s.streams[i].control in {Queued, Closed}
  }

  /** The profile a queued stream stands at. */
  function At(s: Stream): ProfileKey
    requires s.currIdx < |s.curr|
  {
    s.curr[s.currIdx]
  }

  ghost predicate HeapReadable(s: State) {
    && (forall i :: i in s.heap ==> i < |s.streams| && s.streams[i].currIdx < |s.streams[i].curr|)
    && (forall k :: 0 <= k < |s.tuples| ==> s.tuples[k] < |s.streams| && s.streams[s.tuples[k]].currIdx < |s.streams[s.tuples[k]].curr|)
  }

  /** Stream `i` is at the top of the heap. */
  ghost predicate Smallest(s: State, i: nat)
    requires HeapReadable(s)
  {
    i in s.heap && forall j :: j in s.heap ==> !Before(At(s.streams[j]), At(s.streams[i]))
  }

  /** Pops the top of the heap while it equals the profile collected first. */
  ghost predicate PopEqual(s: State, s': State, i: nat) {
    && Settled(s) && HeapReadable(s) && Smallest(s, i)
    && (s.tuples == [] ==> |s.heap| > 1)
    && (s.tuples != [] ==> At(s.streams[s.tuples[0]]) == At(s.streams[i]))
    && s' == s.(heap := s.heap - {i}, tuples := s.tuples + [i])
  }

  function Keep(s: Stream): Stream
    requires s.currIdx < |s.keep|
  {
    s.(keep := s.keep[s.currIdx := true])
  }

  function AfterKeep(s: State, i: nat): Stream
    requires i < |s.streams| && s.tuples != []
    requires i == s.tuples[0] ==> s.streams[i].currIdx < |s.streams[i].keep|
  {
    if i == s.tuples[0] then Keep(s.streams[i]).(control := Advancing)
    else if i in s.tuples then s.streams[i].(control := Advancing)
    else s.streams[i]
  }

  /** Keeps the first of the collected streams and advances all of them. */
  ghost predicate KeepFirst(s: State, s': State) {
    && Settled(s) && HeapReadable(s) && s.tuples != []
    && (forall i :: i in s.heap ==> At(s.streams[i]) != At(s.streams[s.tuples[0]]))
    && s.streams[s.tuples[0]].currIdx < |s.streams[s.tuples[0]].keep|
    && s'.heap == s.heap && s'.tuples == []
    && |s'.streams| == |s.streams|
    && forall i :: 0 <= i < |s.streams| ==> s'.streams[i] == AfterKeep(s, i)
  }

  /** A single stream is left in the heap: keeps its profile and advances it. */
  ghost predicate KeepOnly(s: State, s': State, i: nat) {
    && Settled(s) && HeapReadable(s) && s.tuples == [] && s.heap == {i}
    && s.streams[i].currIdx < |s.streams[i].keep|
    && s' == s.(heap := {}, streams := s.streams[i := Keep(s.streams[i]).(control := Advancing)])
  }

  ghost predicate Step(s: State, s': State) {
    || (exists i :: LocalStep(s, s', i))
    || (exists i :: PopEqual(s, s', i))
    || KeepFirst(s, s')
    || (exists i :: KeepOnly(s, s', i))
  }

  ghost predicate Init(all: seq<seq<ProfileKey>>, s: State) {
    && |s.streams| == |all| && s.heap == {} && s.tuples == []
    && forall i :: 0 <= i < |all| ==> s.streams[i] == Stream(all[i], [], false, false, [], [], [], [], 0, [], true, Advancing)
  }

  /** A finite run. */
  ghost predicate Run(all: seq<seq<ProfileKey>>, run: seq<State>) {
    && run != [] && Init(all, run[0])
    && forall k :: 0 <= k < |run| - 1 ==> Step(run[k], run[k + 1])
  }

  /** The querier has left its loop and the ingesters have received everything. */
  ghost predicate Finished(s: State) {
    && s.heap == {} && s.tuples == []
    && forall i :: 0 <= i < |s.streams| ==> s.streams[i].control == Closed && s.streams[i].toIngester == []
  }

  // ----- what every step of one stream keeps -----

  /** The alternation of the two sides: each batch is answered by exactly one keep vector,
      of its own length, before the next batch is sent. */
  ghost predicate Alternating(s: Stream) {
    var waiting := s.control == Receiving || (s.control == Advancing && s.curr == [] && s.keepSent);
    || // the ingester's turn
       (!s.awaiting && !s.ended && s.toQuerier == [] && s.toIngester == [] && waiting)
    || // a batch is on its way
       (s.awaiting && !s.ended && s.batch != [] && s.toQuerier == [s.batch] && s.toIngester == [] && waiting)
    || // the querier works on the batch
       (s.awaiting && !s.ended && s.toQuerier == [] && s.toIngester == [] && InBatch(s))
    || // the keep vector is on its way
       (s.awaiting && !s.ended && s.toQuerier == [] && |s.toIngester| == 1
        && |s.toIngester[0]| == |s.batch| && s.control == Receiving)
    || // the empty message is on its way
       (!s.awaiting && s.ended && s.ahead == [] && s.toQuerier == [[]] && s.toIngester == [] && waiting)
    || // both sides are done
       (!s.awaiting && s.ended && s.ahead == [] && s.toQuerier == [] && s.toIngester == [] && s.control == Closed)
  }

  /** The querier works on the batch the ingester waits for; nothing from its current
      profile on has been kept yet. */
  ghost predicate InBatch(s: Stream) {
    && s.control in {Queued, Advancing} && !s.keepSent
    && s.curr == s.batch && |s.keep| == |s.batch| && s.currIdx < |s.curr|
    && (s.control == Queued ==> !s.keep[s.currIdx])
    && forall k :: s.currIdx < k < |s.keep| ==> !s.keep[k]
  }

  /** The profiles of the stream that have not gone through the merge. */
  function Unprocessed(s: Stream): seq<ProfileKey> {
    (if s.currIdx >= |s.curr| then []
     else if s.control == Queued then s.curr[s.currIdx..]
     else if s.control == Advancing then s.curr[s.currIdx + 1..]
     else [])
    + Flatten(s.toQuerier) + s.ahead
  }

  /** The profiles kept from the stream: selected by the ingester, on the wire, or marked. */
  function Kept(s: Stream): seq<ProfileKey> {
    s.selected
    + (if s.toIngester != [] && |s.toIngester[0]| == |s.batch| then Pick(s.batch, s.toIngester[0]) else [])
    + (if s.control in {Queued, Advancing} && |s.keep| == |s.curr| then Pick(s.curr, s.keep) else [])
  }

  lemma {:induction false} PickNone(ps: seq<ProfileKey>, flags: seq<bool>)
    requires |ps| == |flags| && forall k :: 0 <= k < |flags| ==> !flags[k]
    ensures Pick(ps, flags) == []
  {
    if ps != [] {
      PickNone(ps[1..], flags[1..]);
    }
  }

  /** Marking the current profile appends it to the picked ones. */
  lemma {:induction false} PickNext(ps: seq<ProfileKey>, flags: seq<bool>, idx: nat)
    requires |ps| == |flags| && idx < |ps| && forall k :: idx <= k < |flags| ==> !flags[k]
    ensures Pick(ps, flags[idx := true]) == Pick(ps, flags) + [ps[idx]]
  {
    if idx == 0 {
      PickNone(ps[1..], flags[1..]);
      assert flags[0 := true][1..] == flags[1..];
    } else {
      PickNext(ps[1..], flags[1..], idx - 1);
      assert flags[idx := true][1..] == flags[1..][idx - 1 := true];
    }
  }

  /** The step keeps the alternation, and moves profiles and keep marks along without
      losing or adding any. */
  ghost predicate Conserved(s: Stream, s': Stream) {
    && Alternating(s') && Unprocessed(s') == Unprocessed(s) && Kept(s') == Kept(s)
    && (s.control in {Queued, Closed} ==> s'.control == s.control && s'.curr == s.curr && s'.currIdx == s.currIdx)
  }

  lemma IngesterStepConserves(s: Stream, s': Stream)
    requires Alternating(s) && ((exists size :: SendBatch(s, s', size)) || SendEnd(s, s') || ReceiveKeep(s, s'))
    ensures Conserved(s, s')
  {
    hide Flatten, Pick;
    FlattenNothing();
    if size: nat :| SendBatch(s, s', size) {
      FlattenOne(s.ahead[..size]);
      assert s'.toQuerier == [s.ahead[..size]];
      assert s.ahead == s.ahead[..size] + s.ahead[size..];
    } else if SendEnd(s, s') {
      FlattenOne<ProfileKey>([]);
      assert s'.toQuerier == [[]];
    }
  }

  lemma NextStepConserves(s: Stream, s': Stream)
    requires Alternating(s) && (AdvanceInBatch(s, s') || SendKeep(s, s'))
    ensures Conserved(s, s')
  {
    hide Flatten, Pick;
    PickEmpty();
  }

  lemma ReceiveConserves(s: Stream, s': Stream)
    requires Alternating(s) && (ReceiveBatch(s, s') || ReceiveEnd(s, s'))
    ensures Conserved(s, s')
  {
    hide Flatten, Pick;
    FlattenNothing();
    FlattenOne(s.toQuerier[0]);
    if ReceiveBatch(s, s') {
      PickNone(s'.curr, s'.keep);
    }
  }

  lemma FlattenNothing()
    ensures Flatten<ProfileKey>([]) == []
  {
  }

  lemma PickEmpty()
    ensures Pick([], []) == []
  {
  }

  lemma StreamStepConserves(s: Stream, s': Stream)
    requires StreamStep(s, s') && Alternating(s)
    ensures Conserved(s, s')
  {
    hide Alternating, Conserved;
    if AdvanceInBatch(s, s') || SendKeep(s, s') {
      NextStepConserves(s, s');
    } else if ReceiveBatch(s, s') || ReceiveEnd(s, s') {
      ReceiveConserves(s, s');
    } else {
      IngesterStepConserves(s, s');
    }
  }

  // ----- what every round of the merge keeps -----

  /** The first profiles of `l`, of which `u` are still to come. */
  function Done(l: seq<ProfileKey>, u: seq<ProfileKey>): seq<ProfileKey>
    requires |u| <= |l|
  {
    l[..|l| - |u|]
  }

  /** `u` is the end of `l`. */
  ghost predicate IsRest(l: seq<ProfileKey>, u: seq<ProfileKey>) {
    |u| <= |l| && l == Done(l, u) + u
  }

  /** Every profile that went through the merge is kept at exactly one ingester, and
      comes before every profile that did not. */
  ghost predicate Merged(all: seq<seq<ProfileKey>>, u: seq<seq<ProfileKey>>, k: seq<seq<ProfileKey>>) {
    && |u| == |k| == |all|
    && (forall i :: 0 <= i < |all| ==> Ascending(all[i]) && IsRest(all[i], u[i]) && Ascending(k[i]))
    && (forall i, p :: 0 <= i < |all| && p in Done(all[i], u[i]) ==> KeptSomewhere(k, p))
    && (forall i, p :: 0 <= i < |all| && p in k[i] ==> p in Done(all[i], u[i]))
    && (forall i, j, p :: 0 <= i < |all| && 0 <= j < |all| && p in k[i] && p in k[j] ==> i == j)
    && (forall i, j, p, q :: 0 <= i < |all| && 0 <= j < |all| && p in Done(all[i], u[i]) && q in u[j] ==> Before(p, q))
  }

  ghost predicate KeptSomewhere(k: seq<seq<ProfileKey>>, p: ProfileKey) {
    exists j :: 0 <= j < |k| && p in k[j]
  }

  /** One round: the streams `t` stand at the smallest profile `v`; the copy of stream
      `first` is kept and all of them move on. */
  ghost predicate Round(u: seq<seq<ProfileKey>>, k: seq<seq<ProfileKey>>, u': seq<seq<ProfileKey>>, k': seq<seq<ProfileKey>>,
                        t: set<nat>, first: nat, v: ProfileKey) {
    && |u| == |k| == |u'| == |k'| && first in t && first < |u|
    && (forall i :: 0 <= i < |u| && i in t ==> u[i] == [v] + u'[i])
    && (forall i :: 0 <= i < |u| && i !in t ==> u'[i] == u[i] && (u[i] == [] || Before(v, u[i][0])))
    && k' == k[first := k[first] + [v]]
  }

  lemma RestStep(l: seq<ProfileKey>, u: seq<ProfileKey>, v: ProfileKey, u': seq<ProfileKey>)
    requires IsRest(l, u) && u == [v] + u'
    ensures IsRest(l, u') && Done(l, u') == Done(l, u) + [v]
  {
    assert |l| == |Done(l, u)| + 1 + |u'|;
    assert l == (Done(l, u) + [v]) + u';
  }

  lemma LaterThan(l: seq<ProfileKey>, u: seq<ProfileKey>, v: ProfileKey)
    requires Ascending(l) && IsRest(l, u) && (u == [] || Before(v, u[0]))
    ensures forall q :: q in u ==> Before(v, q)
  {
    forall q | q in u
      ensures Before(v, q)
    {
      var i :| 0 <= i < |u| && u[i] == q;
      var d := |l| - |u|;
      assert l[d] == u[0] && l[d + i] == u[i];
      BeforeIsTotalOrder(v, u[0], q);
    }
  }

  /** One stream in a round: it gives up its head `v` if it is `taken`, and what is left comes later. */
  lemma StreamInRound(l: seq<ProfileKey>, u: seq<ProfileKey>, u': seq<ProfileKey>, v: ProfileKey, taken: bool)
    requires Ascending(l) && IsRest(l, u)
    requires if taken then u == [v] + u' else u' == u && (u == [] || Before(v, u[0]))
    ensures IsRest(l, u') && Done(l, u') == Done(l, u) + (if taken then [v] else [])
    ensures forall q :: q in u' ==> Before(v, q) && q in u
  {
    if taken {
      RestStep(l, u, v, u');
      var d := |l| - |u'|;
      assert u' != [] ==> l[d - 1] == v && l[d] == u'[0];
    } else {
      assert Done(l, u) + [] == Done(l, u);
    }
    LaterThan(l, u', v);
  }

  lemma RoundKeepsOrder(all: seq<seq<ProfileKey>>, u: seq<seq<ProfileKey>>, k: seq<seq<ProfileKey>>,
                        u': seq<seq<ProfileKey>>, k': seq<seq<ProfileKey>>, t: set<nat>, first: nat, v: ProfileKey)
    requires Merged(all, u, k) && Round(u, k, u', k', t, first, v)
    ensures forall i :: 0 <= i < |all| ==> IsRest(all[i], u'[i]) && Done(all[i], u'[i]) == Done(all[i], u[i]) + (if i in t then [v] else [])
    ensures forall j, q :: 0 <= j < |all| && q in u'[j] ==> Before(v, q) && q in u[j]
    ensures forall i, p :: 0 <= i < |all| && p in Done(all[i], u[i]) ==> Before(p, v)
  {
    hide Done, Before;
    forall i | 0 <= i < |all|
      ensures IsRest(all[i], u'[i]) && Done(all[i], u'[i]) == Done(all[i], u[i]) + (if i in t then [v] else [])
      ensures forall q :: q in u'[i] ==> Before(v, q) && q in u[i]
    {
      StreamInRound(all[i], u[i], u'[i], v, i in t);
    }
    assert v in u[first];
  }

  lemma RoundKeepsMerged(all: seq<seq<ProfileKey>>, u: seq<seq<ProfileKey>>, k: seq<seq<ProfileKey>>,
                         u': seq<seq<ProfileKey>>, k': seq<seq<ProfileKey>>, t: set<nat>, first: nat, v: ProfileKey)
    requires Merged(all, u, k) && Round(u, k, u', k', t, first, v)
    ensures Merged(all, u', k')
  {
    hide Done;
    RoundKeepsOrder(all, u, k, u', k', t, first, v);
    BeforeIsTotalOrder(v, v, v);
    forall i, p | 0 <= i < |all| && p in Done(all[i], u'[i])
      ensures KeptSomewhere(k', p)
    {
      if p in Done(all[i], u[i]) {
        assert KeptSomewhere(k, p);
        var j :| 0 <= j < |k| && p in k[j];
        assert p in k'[j];
      } else {
        assert v in k'[first];
      }
    }
    assert forall p :: p in k[first] ==> Before(p, v);
  }

  // ----- the invariant of the whole system -----

  ghost function AllUnprocessed(s: State): seq<seq<ProfileKey>> {
    seq(|s.streams|, i requires 0 <= i < |s.streams| => Unprocessed(s.streams[i]))
  }

  ghost function AllKept(s: State): seq<seq<ProfileKey>> {
    seq(|s.streams|, i requires 0 <= i < |s.streams| => Kept(s.streams[i]))
  }

  /** The heap and the collected streams are exactly the queued ones, and the collected
      ones stand at the same profile, which no stream of the heap precedes. */
  ghost predicate HeapConsistent(s: State) {
    && HeapReadable(s)
    && (forall i :: i in s.heap ==> s.streams[i].control == Queued && i !in s.tuples)
    && (forall i :: i in s.tuples ==> s.streams[i].control == Queued)
    && (forall i :: 0 <= i < |s.streams| && s.streams[i].control == Queued ==> i in s.heap || i in s.tuples)
    && (s.tuples != [] ==>
          && Settled(s)
          && (forall i :: i in s.tuples ==> At(s.streams[i]) == At(s.streams[s.tuples[0]]))
          && (forall i :: i in s.heap ==> !Before(At(s.streams[i]), At(s.streams[s.tuples[0]]))))
  }

  ghost predicate Consistent(all: seq<seq<ProfileKey>>, s: State) {
    && |s.streams| == |all|
    && (forall i :: 0 <= i < |s.streams| ==> Alternating(s.streams[i]))
    && HeapConsistent(s)
    && Merged(all, AllUnprocessed(s), AllKept(s))
  }

  lemma InitConsistent(all: seq<seq<ProfileKey>>, s: State)
    requires Init(all, s) && forall i :: 0 <= i < |all| ==> Ascending(all[i])
    ensures Consistent(all, s)
  {
    forall i | 0 <= i < |all|
      ensures AllUnprocessed(s)[i] == all[i] && AllKept(s)[i] == []
    {
      PickEmpty();
    }
  }

  /** A queued stream stands at its first unprocessed profile. */
  lemma QueuedStreamAdvances(s: Stream)
    requires Alternating(s) && s.control == Queued
    ensures InBatch(s)
    ensures Unprocessed(s) == [At(s)] + Unprocessed(s.(control := Advancing))
    ensures Alternating(s.(control := Advancing)) && Kept(s.(control := Advancing)) == Kept(s)
  {
    hide Flatten, Pick;
    var rest := Flatten(s.toQuerier);
    assert s.curr[s.currIdx..] == [At(s)] + s.curr[s.currIdx + 1..];
    assert s.curr[s.currIdx..] + rest + s.ahead == [At(s)] + (s.curr[s.currIdx + 1..] + rest + s.ahead);
  }

  lemma QueuedStreamKeeps(s: Stream)
    requires Alternating(s) && s.control == Advancing && InBatch(s) && !s.keep[s.currIdx]
    ensures Alternating(Keep(s)) && Unprocessed(Keep(s)) == Unprocessed(s) && Kept(Keep(s)) == Kept(s) + [At(s)]
  {
    hide Flatten, Pick;
    PickNext(s.curr, s.keep, s.currIdx);
  }

  lemma QueuedStream(s: Stream)
    requires Alternating(s) && s.control == Queued
    ensures InBatch(s)
    ensures Unprocessed(s) == [At(s)] + Unprocessed(s.(control := Advancing))
    ensures Alternating(s.(control := Advancing)) && Kept(s.(control := Advancing)) == Kept(s)
    ensures var s' := Keep(s).(control := Advancing);
            Alternating(s') && Unprocessed(s') == Unprocessed(s.(control := Advancing)) && Kept(s') == Kept(s) + [At(s)]
  {
    hide Alternating, Unprocessed, Kept;
    QueuedStreamAdvances(s);
    QueuedStreamKeeps(s.(control := Advancing));
  }

  lemma LocalStepConsistent(all: seq<seq<ProfileKey>>, s: State, s': State, i: nat)
    requires Consistent(all, s) && LocalStep(s, s', i)
    ensures Consistent(all, s')
  {
    hide Alternating, Unprocessed, Kept, Merged, StreamStep, HeapConsistent;
    StreamStepConserves(s.streams[i], s'.streams[i]);
    assert AllUnprocessed(s') == AllUnprocessed(s);
    assert AllKept(s') == AllKept(s);
    LocalHeap(s, s', i);
  }

  lemma LocalHeap(s: State, s': State, i: nat)
    requires LocalStep(s, s', i) && HeapConsistent(s) && Alternating(s.streams[i]) && Alternating(s'.streams[i])
    ensures HeapConsistent(s')
  {
    hide Unprocessed, Kept, StreamStep, Alternating;
    StreamStepConserves(s.streams[i], s'.streams[i]);
    if s'.streams[i].control == Queued {
      QueuedStream(s'.streams[i]);
    }
  }

  lemma PopEqualConsistent(all: seq<seq<ProfileKey>>, s: State, s': State, i: nat)
    requires Consistent(all, s) && PopEqual(s, s', i)
    ensures Consistent(all, s')
  {
    hide Alternating, Unprocessed, Kept, Merged;
    assert AllUnprocessed(s') == AllUnprocessed(s);
    assert AllKept(s') == AllKept(s);
  }

  /** Keeping one of the streams `t` and advancing all of them is a round of the merge. */
  lemma KeepIsRound(all: seq<seq<ProfileKey>>, s: State, s': State, t: set<nat>, first: nat)
    requires Consistent(all, s) && Settled(s) && |s'.streams| == |s.streams| && first in t && first < |s.streams|
    requires forall i :: i in t ==> i in s.heap || i in s.tuples
    requires forall i :: i in t ==> At(s.streams[i]) == At(s.streams[first])
    requires forall i :: i in s.heap && i !in t ==> Before(At(s.streams[first]), At(s.streams[i]))
    requires forall i :: i in s.tuples ==> i in t
    requires s.streams[first].currIdx < |s.streams[first].keep|
    requires s'.streams[first] == Keep(s.streams[first]).(control := Advancing)
    requires forall i :: i in t && i != first ==> s'.streams[i] == s.streams[i].(control := Advancing)
    requires forall i :: 0 <= i < |s.streams| && i !in t ==> s'.streams[i] == s.streams[i]
    ensures forall i :: 0 <= i < |s'.streams| ==> Alternating(s'.streams[i])
    ensures Merged(all, AllUnprocessed(s'), AllKept(s'))
  {
    hide Merged, Unprocessed, Kept, Keep;
    var v := At(s.streams[first]);
    forall i | 0 <= i < |s.streams|
      ensures Alternating(s'.streams[i])
      ensures i in t ==> Unprocessed(s.streams[i]) == [v] + Unprocessed(s'.streams[i])
      ensures i !in t ==> Unprocessed(s.streams[i]) == [] || Before(v, Unprocessed(s.streams[i])[0])
      ensures Kept(s'.streams[i]) == if i == first then Kept(s.streams[i]) + [v] else Kept(s.streams[i])
    {
      if s.streams[i].control == Queued {
        QueuedStream(s.streams[i]);
      } else {
        ClosedStream(s.streams[i]);
      }
    }
    var k := AllKept(s);
    assert AllKept(s') == k[first := k[first] + [v]];
    RoundKeepsMerged(all, AllUnprocessed(s), AllKept(s), AllUnprocessed(s'), AllKept(s'), t, first, v);
  }

  lemma ClosedStream(s: Stream)
    requires Alternating(s) && s.control == Closed
    ensures Unprocessed(s) == []
  {
  }

  lemma KeepFirstConsistent(all: seq<seq<ProfileKey>>, s: State, s': State)
    requires Consistent(all, s) && KeepFirst(s, s')
    ensures Consistent(all, s')
  {
    hide Alternating, Merged;
    var t := set i | i in s.tuples;
    var first := s.tuples[0];
    forall i | i in s.heap && i !in t
      ensures Before(At(s.streams[first]), At(s.streams[i]))
    {
      BeforeIsTotalOrder(At(s.streams[i]), At(s.streams[first]), At(s.streams[i]));
    }
    assert first in s.tuples;
    KeepIsRound(all, s, s', t, first);
  }

  lemma KeepOnlyConsistent(all: seq<seq<ProfileKey>>, s: State, s': State, i: nat)
    requires Consistent(all, s) && KeepOnly(s, s', i)
    ensures Consistent(all, s')
  {
    hide Alternating, Merged;
    KeepIsRound(all, s, s', {i}, i);
  }

  lemma StepConsistent(all: seq<seq<ProfileKey>>, s: State, s': State)
    requires Consistent(all, s) && Step(s, s')
    ensures Consistent(all, s')
  {
    hide Consistent, LocalStep, PopEqual, KeepFirst, KeepOnly;
    if KeepFirst(s, s') {
      KeepFirstConsistent(all, s, s');
    } else if i: nat :| LocalStep(s, s', i) {
      LocalStepConsistent(all, s, s', i);
    } else if i: nat :| PopEqual(s, s', i) {
      PopEqualConsistent(all, s, s', i);
    } else if i: nat :| KeepOnly(s, s', i) {
      KeepOnlyConsistent(all, s, s', i);
    }
  }

  /** Every state of every run is consistent. */
  lemma {:induction false} RunConsistent(all: seq<seq<ProfileKey>>, run: seq<State>, k: nat)
    requires Run(all, run) && k < |run| && forall i :: 0 <= i < |all| ==> Ascending(all[i])
    ensures Consistent(all, run[k])
  {
    if k == 0 {
      InitConsistent(all, run[0]);
    } else {
      RunConsistent(all, run, k - 1);
      StepConsistent(all, run[k - 1], run[k]);
    }
  }

  /** Every profile present at some ingester is selected at exactly one ingester, exactly
      once, and nothing else is selected. */
  ghost predicate SelectedOnce(all: seq<seq<ProfileKey>>, s: State) {
    && |s.streams| == |all|
    && (forall i :: 0 <= i < |all| ==> Ascending(s.streams[i].selected))
    && (forall i, p :: 0 <= i < |all| && p in s.streams[i].selected ==> p in all[i])
    && (forall i, p :: 0 <= i < |all| && p in all[i] ==> SelectedSomewhere(s, p))
    && (forall i, j, p :: 0 <= i < |all| && 0 <= j < |all| && p in s.streams[i].selected && p in s.streams[j].selected ==> i == j)
  }

  ghost predicate SelectedSomewhere(s: State, p: ProfileKey) {
    exists j :: 0 <= j < |s.streams| && p in s.streams[j].selected
  }

  lemma FinishedSelectsOnce(all: seq<seq<ProfileKey>>, s: State)
    requires Consistent(all, s) && Finished(s)
    ensures SelectedOnce(all, s)
  {
    forall i | 0 <= i < |all|
      ensures AllUnprocessed(s)[i] == [] && AllKept(s)[i] == s.streams[i].selected
      ensures Done(all[i], []) == all[i]
    {
      ClosedStream(s.streams[i]);
    }
    forall i, p | 0 <= i < |all| && p in all[i]
      ensures SelectedSomewhere(s, p)
    {
      assert p in Done(all[i], AllUnprocessed(s)[i]);
      assert KeptSomewhere(AllKept(s), p);
      var j :| 0 <= j < |all| && p in AllKept(s)[j];
      assert p in s.streams[j].selected;
    }
  }

  /** Whatever the batch sizes, the order of the steps and the choice between equal
      profiles: a finished run has selected every profile exactly once. */
  lemma EveryRunSelectsOnce(all: seq<seq<ProfileKey>>, run: seq<State>)
    requires Run(all, run) && Finished(run[|run| - 1])
    requires forall i :: 0 <= i < |all| ==> Ascending(all[i])
    ensures SelectedOnce(all, run[|run| - 1])
  {
    RunConsistent(all, run, |run| - 1);
    FinishedSelectsOnce(all, run[|run| - 1]);
  }

  // ----- every run comes to an end -----

  function ControlRank(c: Control): nat {
    match c
    case Advancing => 6
    case Receiving => 4
    case Queued => 2
    case Closed => 0
  }

  /** The work left on one stream: dominated by the profiles still to come. */
  function StreamWork(s: Stream): nat {
    5 * |Unprocessed(s)| + ControlRank(s.control) + |s.ahead| + (if s.ended then 0 else 1) + |s.toIngester|
  }

  function TotalWork(streams: seq<Stream>): nat {
    if streams == [] then 0 else StreamWork(streams[0]) + TotalWork(streams[1..])
  }

  ghost function Work(s: State): nat {
    TotalWork(s.streams) + |s.heap|
  }

  lemma {:induction false} TotalWorkUpdate(streams: seq<Stream>, i: nat, x: Stream)
    requires i < |streams|
    ensures TotalWork(streams[i := x]) == TotalWork(streams) - StreamWork(streams[i]) + StreamWork(x)
  {
    if i == 0 {
      assert streams[0 := x][1..] == streams[1..];
    } else {
      assert streams[i := x][1..] == streams[1..][i - 1 := x];
      TotalWorkUpdate(streams[1..], i - 1, x);
    }
  }

  lemma {:induction false} TotalWorkLess(a: seq<Stream>, b: seq<Stream>)
    requires |a| == |b| && forall i :: 0 <= i < |a| ==> StreamWork(a[i]) <= StreamWork(b[i])
    ensures TotalWork(a) <= TotalWork(b)
    ensures forall i :: 0 <= i < |a| && StreamWork(a[i]) < StreamWork(b[i]) ==> TotalWork(a) < TotalWork(b)
  {
    if a != [] {
      TotalWorkLess(a[1..], b[1..]);
      forall i | 0 <= i < |a| && StreamWork(a[i]) < StreamWork(b[i])
        ensures TotalWork(a) < TotalWork(b)
      {
        if i > 0 {
          assert a[1..][i - 1] == a[i] && b[1..][i - 1] == b[i];
        }
      }
    }
  }

  lemma StreamStepWorks(s: Stream, s': Stream)
    requires StreamStep(s, s') && Alternating(s)
    ensures StreamWork(s') < StreamWork(s)
    ensures s.control != Queued && s'.control == Queued ==> StreamWork(s') + 1 < StreamWork(s)
  {
    hide Alternating, Unprocessed, Kept, Pick;
    StreamStepConserves(s, s');
  }

  /** Advancing a queued stream processes one profile. */
  lemma AdvanceWorks(s: Stream)
    requires Alternating(s) && s.control == Queued
    ensures InBatch(s)
    ensures StreamWork(s.(control := Advancing)) < StreamWork(s)
    ensures StreamWork(Keep(s).(control := Advancing)) < StreamWork(s)
  {
    QueuedStream(s);
  }

  lemma OnlyIsQueued(s: State, i: nat)
    requires HeapConsistent(s) && s.heap == {i}
    ensures i < |s.streams| && s.streams[i].control == Queued
  {
    assert i in s.heap;
  }

  lemma KeepFirstWorks(s: State, s': State)
    requires KeepFirst(s, s') && HeapConsistent(s) && forall i :: 0 <= i < |s.streams| ==> Alternating(s.streams[i])
    ensures TotalWork(s'.streams) < TotalWork(s.streams)
  {
    hide StreamWork, Alternating, TotalWork;
    forall i | 0 <= i < |s.streams|
      ensures StreamWork(s'.streams[i]) <= StreamWork(s.streams[i])
      ensures i == s.tuples[0] ==> StreamWork(s'.streams[i]) < StreamWork(s.streams[i])
    {
      if i in s.tuples {
        AdvanceWorks(s.streams[i]);
      }
    }
    TotalWorkLess(s'.streams, s.streams);
  }

  lemma StepWorks(all: seq<seq<ProfileKey>>, s: State, s': State)
    requires Consistent(all, s) && Step(s, s')
    ensures Work(s') < Work(s)
  {
    hide StreamWork, Alternating, Merged, StreamStep, TotalWork, HeapConsistent;
    if KeepFirst(s, s') {
      assert HeapConsistent(s);
      KeepFirstWorks(s, s');
    } else if i: nat :| KeepOnly(s, s', i) {
      OnlyIsQueued(s, i);
      AdvanceWorks(s.streams[i]);
      TotalWorkUpdate(s.streams, i, s'.streams[i]);
    } else if i: nat :| LocalStep(s, s', i) {
      StreamStepWorks(s.streams[i], s'.streams[i]);
      TotalWorkUpdate(s.streams, i, s'.streams[i]);
    }
  }

  /** The number of steps of a run is bounded by the number of profiles. */
  lemma {:induction false} RunIsBounded(all: seq<seq<ProfileKey>>, run: seq<State>, k: nat)
    requires Run(all, run) && k < |run| && forall i :: 0 <= i < |all| ==> Ascending(all[i])
    ensures k + Work(run[k]) <= Work(run[0])
  {
    hide Work, Init, Step;
    if k > 0 {
      RunIsBounded(all, run, k - 1);
      RunConsistent(all, run, k - 1);
      StepWorks(all, run[k - 1], run[k]);
    }
  }

  lemma InitialWork(all: seq<seq<ProfileKey>>, s: State)
    requires Init(all, s)
    ensures Work(s) == 6 * |Flatten(all)| + 7 * |all|
  {
    InitialStreamWork(all, s.streams);
  }

  lemma {:induction false} InitialStreamWork(all: seq<seq<ProfileKey>>, streams: seq<Stream>)
    requires |streams| == |all|
    requires forall i :: 0 <= i < |all| ==> streams[i] == Stream(all[i], [], false, false, [], [], [], [], 0, [], true, Advancing)
    ensures TotalWork(streams) == 6 * |Flatten(all)| + 7 * |all|
  {
    if all != [] {
      InitialStreamWork(all[1..], streams[1..]);
    }
  }

  // ----- no run gets stuck -----

  lemma StreamCanStep(s: Stream) returns (s': Stream)
    requires Alternating(s) && s.control !in {Queued, Closed}
    ensures StreamStep(s, s')
  {
    if s.control == Advancing {
      if s.currIdx < |s.curr| - 1 {
        s' := s.(currIdx := s.currIdx + 1, control := Queued);
        assert AdvanceInBatch(s, s');
      } else {
        s' := s.(control := Receiving, toIngester := if s.keepSent then s.toIngester else s.toIngester + [s.keep]);
        assert SendKeep(s, s');
      }
    } else if s.toQuerier != [] {
      if s.toQuerier[0] != [] {
        s' := s.(curr := s.toQuerier[0], currIdx := 0, keep := seq(|s.toQuerier[0]|, _ => false),
                 keepSent := false, toQuerier := s.toQuerier[1..], control := Queued);
        assert ReceiveBatch(s, s');
      } else {
        s' := s.(toQuerier := s.toQuerier[1..], control := Closed);
        assert ReceiveEnd(s, s');
      }
    } else if s.awaiting {
      s' := s.(awaiting := false, selected := s.selected + Pick(s.batch, s.toIngester[0]), toIngester := s.toIngester[1..]);
      assert ReceiveKeep(s, s');
    } else if s.ahead != [] {
      var size := |s.ahead|;
      s' := s.(ahead := s.ahead[size..], batch := s.ahead[..size], awaiting := true, toQuerier := s.toQuerier + [s.ahead[..size]]);
      assert SendBatch(s, s', size);
    } else {
      s' := s.(ended := true, toQuerier := s.toQuerier + [[]]);
      assert SendEnd(s, s');
    }
  }

  lemma {:induction false} SmallestExists(s: State, h: set<nat>) returns (i: nat)
    requires HeapReadable(s) && h != {} && h <= s.heap
    ensures i in h && forall j :: j in h ==> !Before(At(s.streams[j]), At(s.streams[i]))
    decreases |h|
  {
    i :| i in h;
    BeforeIsTotalOrder(At(s.streams[i]), At(s.streams[i]), At(s.streams[i]));
    if h != {i} {
      var i' := SmallestExists(s, h - {i});
      BeforeIsTotalOrder(At(s.streams[i]), At(s.streams[i']), At(s.streams[i]));
      if !Before(At(s.streams[i]), At(s.streams[i'])) {
        i := i';
      } else {
        forall j | j in h
          ensures !Before(At(s.streams[j]), At(s.streams[i]))
        {
          if j != i {
            BeforeIsTotalOrder(At(s.streams[j]), At(s.streams[i]), At(s.streams[i']));
          }
        }
      }
    }
  }

  lemma CanStepLocally(all: seq<seq<ProfileKey>>, s: State, i: nat) returns (s': State)
    requires Consistent(all, s) && i < |s.streams| && s.streams[i].control !in {Queued, Closed}
    ensures LocalStep(s, s', i)
  {
    hide Merged, Alternating, HeapConsistent, StreamStep;
    var x := StreamCanStep(s.streams[i]);
    s' := s.(streams := s.streams[i := x], heap := if x.control == Queued then s.heap + {i} else s.heap);
  }

  lemma CanKeepFirst(all: seq<seq<ProfileKey>>, s: State) returns (s': State)
    requires Consistent(all, s) && Settled(s) && s.tuples != []
    requires forall i :: i in s.heap ==> At(s.streams[i]) != At(s.streams[s.tuples[0]])
    ensures KeepFirst(s, s')
  {
    hide Merged, Alternating;
    QueuedStream(s.streams[s.tuples[0]]);
    s' := State(seq(|s.streams|, i requires 0 <= i < |s.streams| => AfterKeep(s, i)), s.heap, []);
  }

  lemma CanStartRound(all: seq<seq<ProfileKey>>, s: State) returns (s': State, i: nat)
    requires Consistent(all, s) && Settled(s) && s.tuples == [] && s.heap != {}
    ensures KeepOnly(s, s', i) || PopEqual(s, s', i)
  {
    hide Merged, Alternating;
    i := SmallestExists(s, s.heap);
    if s.heap == {i} {
      QueuedStream(s.streams[i]);
      s' := s.(heap := {}, streams := s.streams[i := Keep(s.streams[i]).(control := Advancing)]);
    } else {
      assert |s.heap - {i}| == |s.heap| - 1 && s.heap - {i} != {};
      s' := s.(heap := s.heap - {i}, tuples := s.tuples + [i]);
    }
  }

  lemma DrainedIsFinished(all: seq<seq<ProfileKey>>, s: State)
    requires Consistent(all, s) && Settled(s) && s.tuples == [] && s.heap == {}
    ensures Finished(s)
  {
    hide Merged, Alternating;
    forall i | 0 <= i < |s.streams|
      ensures s.streams[i].control == Closed && s.streams[i].toIngester == []
    {
      ClosedIsDrained(s.streams[i]);
    }
  }

  /** From every reachable state that is not finished some step is possible: the two
      sides never wait for each other, and no keep vector has the wrong length. */
  lemma CanStep(all: seq<seq<ProfileKey>>, s: State) returns (s': State)
    requires Consistent(all, s) && !Finished(s)
    ensures Step(s, s')
  {
    hide Merged, Alternating, LocalStep, PopEqual, KeepFirst, KeepOnly, Finished;
    if i :| 0 <= i < |s.streams| && s.streams[i].control !in {Queued, Closed} {
      s' := CanStepLocally(all, s, i);
    } else if s.tuples == [] {
      if s.heap == {} {
        DrainedIsFinished(all, s);
      }
      var i;
      s', i := CanStartRound(all, s);
    } else if i :| i in s.heap && At(s.streams[i]) == At(s.streams[s.tuples[0]]) {
      s' := s.(heap := s.heap - {i}, tuples := s.tuples + [i]);
      assert PopEqual(s, s', i) by { PoppingEqual(all, s, i); }
    } else {
      s' := CanKeepFirst(all, s);
    }
  }

  lemma PoppingEqual(all: seq<seq<ProfileKey>>, s: State, i: nat)
    requires Consistent(all, s) && Settled(s) && s.tuples != []
    requires i in s.heap && At(s.streams[i]) == At(s.streams[s.tuples[0]])
    ensures PopEqual(s, s.(heap := s.heap - {i}, tuples := s.tuples + [i]), i)
  {
    hide Merged, Alternating;
  }

  lemma ClosedIsDrained(s: Stream)
    requires Alternating(s) && s.control == Closed
    ensures s.toIngester == []
  {
  }
}
