/** The quorum write of the distributor: one sender per ingester, atomic counters per
    profile and per push, and the two channels the waiting call listens to.

    Every atomic operation is a step of its own; any sender may take the next step. */
module Quorum {
  import opened Sequences

  datatype Profile = Profile(minSuccess: int, maxFailures: int, succeeded: int, failed: int)

  datatype Answer = Waiting | Ok | Err

  /** What a sender does next. */
  datatype Control =
    | Counting        // count the answer for the profile at hand
    | CountFailed     // the profile exceeded its failures: count it for the push
    | SendErr         // it was the first such profile: send on `err`
    | CountPending    // the profile reached its quorum: count it for the push
    | SendDone        // it was the last such profile: send on `done`

  /** A `sendProfiles` goroutine: its profiles, the answer of its ingester, and its place. */
  datatype Sender = Sender(profiles: seq<nat>, answer: Answer, next: nat, control: Control)

  datatype State = State(
    profiles: seq<Profile>,
    senders: seq<Sender>,
    samplesPending: int,
    samplesFailed: int,
    done: nat,                // messages sent on the channel `done`
    err: nat)                 // messages sent on the channel `err`

  // ----- steps of one sender -----

  /** The ingester answers. */
  ghost predicate Answered(s: State, s': State, g: nat, a: Answer) {
    && g < |s.senders| && s.senders[g].answer == Waiting && a != Waiting
    && s' == s.(senders := s.senders[g := s.senders[g].(answer := a)])
  }

  ghost predicate AtProfile(s: State, g: nat) {
    && g < |s.senders| && s.senders[g].next < |s.senders[g].profiles|
    && s.senders[g].profiles[s.senders[g].next] < |s.profiles|
  }

  function Current(s: State, g: nat): nat
    requires g < |s.senders| && s.senders[g].next < |s.senders[g].profiles|
  {
    s.senders[g].profiles[s.senders[g].next]
  }

  function MoveOn(x: Sender): Sender {
    x.(next := x.next + 1, control := Counting)
  }

  ghost predicate CountsFailure(s: State, s': State, g: nat) {
    && AtProfile(s, g) && s.senders[g].answer == Err && s.senders[g].control == Counting
    && var i := Current(s, g);
       var p := s.profiles[i].(failed := s.profiles[i].failed + 1);
       s' == s.(profiles := s.profiles[i := p],
                senders := s.senders[g := if p.failed <= p.maxFailures then MoveOn(s.senders[g])
                                          else s.senders[g].(control := CountFailed)])
  }

  ghost predicate CountsSuccess(s: State, s': State, g: nat) {
    && AtProfile(s, g) && s.senders[g].answer == Ok && s.senders[g].control == Counting
    && var i := Current(s, g);
       var p := s.profiles[i].(succeeded := s.profiles[i].succeeded + 1);
       s' == s.(profiles := s.profiles[i := p],
                senders := s.senders[g := if p.succeeded != p.minSuccess then MoveOn(s.senders[g])
                                          else s.senders[g].(control := CountPending)])
  }

  ghost predicate CountsFailedSample(s: State, s': State, g: nat) {
    && AtProfile(s, g) && s.senders[g].control == CountFailed
    && var n := s.samplesFailed + 1;
       s' == s.(samplesFailed := n,
                senders := s.senders[g := if n == 1 then s.senders[g].(control := SendErr) else MoveOn(s.senders[g])])
  }

  ghost predicate CountsPendingSample(s: State, s': State, g: nat) {
    && AtProfile(s, g) && s.senders[g].control == CountPending
    && var n := s.samplesPending - 1;
       s' == s.(samplesPending := n,
                senders := s.senders[g := if n == 0 then s.senders[g].(control := SendDone) else MoveOn(s.senders[g])])
  }

  ghost predicate SendsErr(s: State, s': State, g: nat) {
    && AtProfile(s, g) && s.senders[g].control == SendErr
    && s' == s.(err := s.err + 1, senders := s.senders[g := MoveOn(s.senders[g])])
  }

  ghost predicate SendsDone(s: State, s': State, g: nat) {
    && AtProfile(s, g) && s.senders[g].control == SendDone
    && s' == s.(done := s.done + 1, senders := s.senders[g := MoveOn(s.senders[g])])
  }

  ghost predicate Step(s: State, s': State, g: nat) {
    || (exists a :: Answered(s, s', g, a))
    || CountsFailure(s, s', g) || CountsSuccess(s, s', g)
    || CountsFailedSample(s, s', g) || CountsPendingSample(s, s', g)
    || SendsErr(s, s', g) || SendsDone(s, s', g)
  }

  /** The senders that send profile `i`. */
  function Replicas(senders: seq<Sender>, i: nat): set<nat> {
    set g | 0 <= g < |senders| && i in senders[g].profiles
  }

  /** At least one profile; every profile goes to distinct replicas, of which it needs
      `minSuccess` and can lose `maxFailures`. */
  ghost predicate Init(s: State) {
    && s.profiles != [] && s.samplesPending == |s.profiles| && s.samplesFailed == 0 && s.done == 0 && s.err == 0
    && (forall g :: 0 <= g < |s.senders| ==>
          && s.senders[g].answer == Waiting && s.senders[g].next == 0 && s.senders[g].control == Counting
          && WellFormedList(s, g))
    && (forall i :: 0 <= i < |s.profiles| ==>
          s.profiles[i].succeeded == 0 && s.profiles[i].failed == 0 && WellFormedProfile(s, i))
  }

  ghost predicate WellFormedList(s: State, g: nat)
    requires g < |s.senders|
  {
    Distinct(s.senders[g].profiles) && forall k :: 0 <= k < |s.senders[g].profiles| ==> s.senders[g].profiles[k] < |s.profiles|
  }

  ghost predicate WellFormedProfile(s: State, i: nat)
    requires i < |s.profiles|
  {
    var p := s.profiles[i];
    p.minSuccess >= 1 && p.maxFailures >= 0 && p.minSuccess + p.maxFailures == |Replicas(s.senders, i)|
  }

  ghost predicate SomeStep(s: State, s': State) {
    exists g :: Step(s, s', g)
  }

  ghost predicate Run(run: seq<State>) {
    && run != [] && Init(run[0])
    && forall k :: 0 <= k < |run| - 1 ==> SomeStep(run[k], run[k + 1])
  }

  /** All replicas have reported and been counted. */
  ghost predicate Finished(s: State) {
    forall g :: 0 <= g < |s.senders| ==> s.senders[g].next == |s.senders[g].profiles| && (s.senders[g].profiles != [] ==>
            s.senders[g].answer != Waiting)
  }

  // ----- the invariant -----

  /** Sender `x` has counted its answer for profile `i`. */
  predicate Counted(x: Sender, i: nat)
  {
    && x.next <= |x.profiles|
    && (i in x.profiles[..x.next] || (x.control != Counting && x.next < |x.profiles| && i == x.profiles[x.next]))
  }

  ghost function CountedAs(s: State, i: nat, a: Answer): set<nat> {
    set g | 0 <= g < |s.senders| && s.senders[g].answer == a && Counted(s.senders[g], i)
  }

  ghost function Doing(s: State, c: Control): set<nat> {
    set g | 0 <= g < |s.senders| && s.senders[g].control == c
  }

  /** The profiles that reached their quorum. */
  ghost function Reached(s: State): set<nat> {
    set i | 0 <= i < |s.profiles| && s.profiles[i].succeeded >= s.profiles[i].minSuccess
  }

  ghost predicate SomeExceeded(s: State) {
    exists i :: 0 <= i < |s.profiles| && s.profiles[i].failed > s.profiles[i].maxFailures
  }

  ghost predicate SenderOk(s: State, g: nat)
    requires g < |s.senders|
  {
    var x := s.senders[g];
    && WellFormedList(s, g) && x.next <= |x.profiles|
    && (x.control != Counting ==> x.next < |x.profiles|)
    && (x.control in {CountFailed, SendErr} ==> x.answer == Err)
    && (x.control in {CountPending, SendDone} ==> x.answer == Ok)
    && (x.answer == Waiting ==> x.next == 0 && x.control == Counting)
  }

  /** The counters of each profile count the senders that have reported. */
  ghost predicate ProfilesCounted(s: State) {
    forall i :: 0 <= i < |s.profiles| ==>
      s.profiles[i].succeeded == |CountedAs(s, i, Ok)| && s.profiles[i].failed == |CountedAs(s, i, Err)|
  }

  /** The counters of the push count the profiles that reached their quorum or lost it, up to
      the senders that are about to count one; a message is sent, or about to be, exactly
      when the count says so. */
  ghost predicate Tally(s: State) {
    && s.samplesPending == |s.profiles| - |Reached(s)| + |Doing(s, CountPending)|
    && s.done + |Doing(s, SendDone)| == (if s.samplesPending == 0 then 1 else 0)
    && s.samplesPending >= 0 && s.samplesFailed >= 0
    && s.err + |Doing(s, SendErr)| == (if s.samplesFailed > 0 then 1 else 0)
    && (SomeExceeded(s) <==> s.samplesFailed > 0 || |Doing(s, CountFailed)| > 0)
  }

  ghost predicate Consistent(s: State) {
    && s.profiles != []
    && (forall g :: 0 <= g < |s.senders| ==> SenderOk(s, g))
    && (forall i :: 0 <= i < |s.profiles| ==> WellFormedProfile(s, i))
    && ProfilesCounted(s)
    && Tally(s)
  }

  lemma InitConsistent(s: State)
    requires Init(s)
    ensures Consistent(s)
  {
    forall i, a | 0 <= i < |s.profiles|
      ensures CountedAs(s, i, a) == {}
    {
    }
    assert Reached(s) == {};
    forall c | c != Counting
      ensures Doing(s, c) == {}
    {
    }
  }

  /** Moving on after the answer has been counted counts nothing new. */
  lemma MoveOnCounts(x: Sender, j: nat)
    requires x.next < |x.profiles|
    ensures Counted(MoveOn(x), j) <==> Counted(x, j) || j == x.profiles[x.next]
  {
    assert x.profiles[..x.next + 1] == x.profiles[..x.next] + [x.profiles[x.next]];
  }

  /** The profile at hand has not been counted before. */
  lemma NotYetCounted(x: Sender)
    requires Distinct(x.profiles) && x.next < |x.profiles| && x.control == Counting
    ensures !Counted(x, x.profiles[x.next])
  {
  }

  /** Only sender `g` and the counters changed. */
  ghost predicate OnlySender(s: State, s': State, g: nat) {
    && g < |s.senders| && |s'.senders| == |s.senders| && |s'.profiles| == |s.profiles|
    && (forall k :: 0 <= k < |s.senders| && k != g ==> s'.senders[k] == s.senders[k])
    && s'.senders[g].profiles == s.senders[g].profiles
    && (forall i :: 0 <= i < |s.profiles| ==>
          s'.profiles[i].minSuccess == s.profiles[i].minSuccess && s'.profiles[i].maxFailures == s.profiles[i].maxFailures)
  }

  lemma DoingStep(s: State, s': State, g: nat, c: Control)
    requires OnlySender(s, s', g)
    ensures |Doing(s', c)| ==
            |Doing(s, c)| - (if s.senders[g].control == c then 1 else 0) + (if s'.senders[g].control == c then 1 else 0)
    ensures s'.senders[g].control == c ==> g in Doing(s', c)
  {
    var rest := Doing(s, c) - {g};
    DoingIs(s, s', g, c);
    hide Doing, OnlySender;
    assert |rest + {g}| == |rest| + 1;
  }

  lemma DoingIs(s: State, s': State, g: nat, c: Control)
    requires OnlySender(s, s', g)
    ensures Doing(s, c) == if s.senders[g].control == c then Doing(s, c) - {g} + {g} else Doing(s, c) - {g}
    ensures Doing(s', c) == if s'.senders[g].control == c then Doing(s, c) - {g} + {g} else Doing(s, c) - {g}
    ensures s'.senders[g].control == c ==> g in Doing(s', c)
  {
  }

  /** Sender `g` counts its answer for profile `i`, and nothing else is counted. */
  lemma CountedStep(s: State, s': State, g: nat, i: nat, a: Answer)
    requires OnlySender(s, s', g) && s'.senders[g].answer == s.senders[g].answer
    requires !Counted(s.senders[g], i)
    requires forall j :: Counted(s'.senders[g], j) <==> Counted(s.senders[g], j) || j == i
    ensures |CountedAs(s', i, a)| == |CountedAs(s, i, a)| + if a == s.senders[g].answer then 1 else 0
    ensures forall j :: j != i ==> CountedAs(s', j, a) == CountedAs(s, j, a)
  {
    hide Counted, CountedAs;
    forall j ensures CountedAs(s', j, a) == if j == i && a == s.senders[g].answer then CountedAs(s, j, a) + {g} else CountedAs(s, j, a) {
      CountedAfter(s, s', g, i, j, a);
    }
    assert g !in CountedAs(s, i, a) by { NotCounted(s, g, i, a); }
  }

  lemma NotCounted(s: State, g: nat, i: nat, a: Answer)
    requires g < |s.senders| && !Counted(s.senders[g], i)
    ensures g !in CountedAs(s, i, a)
  {
  }

  lemma CountedAfter(s: State, s': State, g: nat, i: nat, j: nat, a: Answer)
    requires OnlySender(s, s', g) && s'.senders[g].answer == s.senders[g].answer
    requires Counted(s'.senders[g], j) <==> Counted(s.senders[g], j) || j == i
    ensures CountedAs(s', j, a) == if j == i && a == s.senders[g].answer then CountedAs(s, j, a) + {g} else CountedAs(s, j, a)
  {
    hide Counted;
  }

  /** Nothing is counted. */
  lemma NothingCounted(s: State, s': State, g: nat, a: Answer)
    requires OnlySender(s, s', g)
    requires s'.senders[g].answer == s.senders[g].answer || forall j :: !Counted(s.senders[g], j)
    requires forall j :: Counted(s'.senders[g], j) <==> Counted(s.senders[g], j)
    ensures forall j :: CountedAs(s', j, a) == CountedAs(s, j, a)
  {
  }

  /** Senders and profiles stay well formed if the changed sender is. */
  lemma StaysWellFormed(s: State, s': State, g: nat)
    requires Consistent(s) && OnlySender(s, s', g) && SenderOk(s', g)
    ensures forall k :: 0 <= k < |s'.senders| ==> SenderOk(s', k)
    ensures forall i :: 0 <= i < |s'.profiles| ==> WellFormedProfile(s', i)
  {
    forall k | 0 <= k < |s'.senders|
      ensures SenderOk(s', k)
    {
      assert SenderOk(s, k);
    }
    forall i | 0 <= i < |s'.profiles|
      ensures WellFormedProfile(s', i)
    {
      assert WellFormedProfile(s, i);
      assert Replicas(s'.senders, i) == Replicas(s.senders, i);
    }
  }

  lemma DoingSteps(s: State, s': State, g: nat)
    requires OnlySender(s, s', g)
    ensures forall c ::
      |Doing(s', c)| == |Doing(s, c)| - (if s.senders[g].control == c then 1 else 0) + (if s'.senders[g].control == c then 1 else 0)
  {
    forall c
      ensures |Doing(s', c)| ==
            |Doing(s, c)| - (if s.senders[g].control == c then 1 else 0) + (if s'.senders[g].control == c then 1 else 0)
    {
      DoingStep(s, s', g, c);
    }
  }

  lemma AnsweredConsistent(s: State, s': State, g: nat, a: Answer)
    requires Consistent(s) && Answered(s, s', g, a)
    ensures Consistent(s')
  {
    assert SenderOk(s, g) && SenderOk(s', g);
    StaysWellFormed(s, s', g);
    NothingCounted(s, s', g, Ok);
    NothingCounted(s, s', g, Err);
    DoingSteps(s, s', g);
    assert Reached(s') == Reached(s);
    assert SomeExceeded(s') <==> SomeExceeded(s);
  }

  /** Counting an answer: the counters keep counting the senders. */
  lemma CountingCounts(s: State, s': State, g: nat)
    requires Consistent(s) && (CountsFailure(s, s', g) || CountsSuccess(s, s', g))
    ensures OnlySender(s, s', g) && SenderOk(s', g) && ProfilesCounted(s')
  {
    var i := Current(s, g);
    assert SenderOk(s, g) && WellFormedList(s, g);
    NotYetCounted(s.senders[g]);
    forall j
      ensures Counted(s'.senders[g], j) <==> Counted(s.senders[g], j) || j == i
    {
      MoveOnCounts(s.senders[g], j);
    }
    CountedStep(s, s', g, i, Ok);
    CountedStep(s, s', g, i, Err);
  }

  lemma CountsFailureConsistent(s: State, s': State, g: nat)
    requires Consistent(s) && CountsFailure(s, s', g)
    ensures Consistent(s')
  {
    hide Counted, WellFormedProfile, SenderOk, ProfilesCounted;
    var i := Current(s, g);
    CountingCounts(s, s', g);
    StaysWellFormed(s, s', g);
    DoingSteps(s, s', g);
    assert Reached(s') == Reached(s);
    if s'.senders[g].control == CountFailed {
      assert s'.profiles[i].failed > s'.profiles[i].maxFailures;
    } else if SomeExceeded(s) {
      var k :| 0 <= k < |s.profiles| && s.profiles[k].failed > s.profiles[k].maxFailures;
      assert s'.profiles[k].failed > s'.profiles[k].maxFailures;
    }
  }

  lemma ReachedOne(s: State, s': State, g: nat)
    requires CountsSuccess(s, s', g)
    ensures var i := Current(s, g);
            |Reached(s')| == |Reached(s)| + if s'.profiles[i].succeeded == s'.profiles[i].minSuccess then 1 else 0
    ensures SomeExceeded(s') <==> SomeExceeded(s)
  {
    var i := Current(s, g);
    if s'.profiles[i].succeeded == s'.profiles[i].minSuccess {
      assert Reached(s') == Reached(s) + {i} && i !in Reached(s);
    } else {
      assert Reached(s') == Reached(s);
    }
    if SomeExceeded(s) {
      var k :| 0 <= k < |s.profiles| && s.profiles[k].failed > s.profiles[k].maxFailures;
      assert s'.profiles[k].failed > s'.profiles[k].maxFailures;
    }
  }

  lemma CountsSuccessConsistent(s: State, s': State, g: nat)
    requires Consistent(s) && CountsSuccess(s, s', g)
    ensures Consistent(s')
  {
    hide Counted, WellFormedProfile, SenderOk, ProfilesCounted, Reached, SomeExceeded;
    CountingCounts(s, s', g);
    StaysWellFormed(s, s', g);
    DoingSteps(s, s', g);
    ReachedOne(s, s', g);
  }

  /** After its answer has been counted, a sender only signals. */
  lemma SignallingCounts(s: State, s': State, g: nat)
    requires Consistent(s) && OnlySender(s, s', g) && s'.profiles == s.profiles && AtProfile(s, g)
    requires s.senders[g].control != Counting && s'.senders[g].answer == s.senders[g].answer
    requires s'.senders[g] == MoveOn(s.senders[g])
      || (s'.senders[g] == s.senders[g].(control := s'.senders[g].control) && s'.senders[g].control != Counting)
    requires s'.senders[g].control in {CountFailed, SendErr} ==> s.senders[g].answer == Err
    requires s'.senders[g].control in {CountPending, SendDone} ==> s.senders[g].answer == Ok
    ensures SenderOk(s', g) && ProfilesCounted(s') && Reached(s') == Reached(s)
  {
    assert SenderOk(s, g) && WellFormedList(s, g);
    forall j
      ensures Counted(s'.senders[g], j) <==> Counted(s.senders[g], j)
    {
      MoveOnCounts(s.senders[g], j);
    }
    NothingCounted(s, s', g, Ok);
    NothingCounted(s, s', g, Err);
  }

  lemma SignalConsistent(s: State, s': State, g: nat)
    requires Consistent(s)
    requires CountsFailedSample(s, s', g) || CountsPendingSample(s, s', g) || SendsErr(s, s', g) || SendsDone(s, s', g)
    ensures Consistent(s')
  {
    assert SenderOk(s, g);
    SignallingCounts(s, s', g);
    StaysWellFormed(s, s', g);
    hide Counted, WellFormedProfile, SenderOk, ProfilesCounted, Tally;
    SignalTally(s, s', g);
  }

  lemma SignalTally(s: State, s': State, g: nat)
    requires OnlySender(s, s', g) && Tally(s) && s'.profiles == s.profiles
    requires CountsFailedSample(s, s', g) || CountsPendingSample(s, s', g) || SendsErr(s, s', g) || SendsDone(s, s', g)
    ensures Tally(s')
  {
    DoingSteps(s, s', g);
    ReachedBound(s);
    assert Reached(s') == Reached(s);
    assert SomeExceeded(s') <==> SomeExceeded(s);
    DoingStep(s, s, g, s.senders[g].control);
    hide Doing, Reached, SomeExceeded;
  }

  lemma ReachedBound(s: State)
    ensures |Reached(s)| <= |s.profiles|
    ensures |Reached(s)| == |s.profiles| ==> forall i :: 0 <= i < |s.profiles| ==> i in Reached(s)
  {
    var all := Below(|s.profiles|);
    SubsetCard(Reached(s), all);
    forall i | |Reached(s)| == |s.profiles| && 0 <= i < |s.profiles|
      ensures i in Reached(s)
    {
      assert i in all;
    }
  }

  lemma StepConsistent(s: State, s': State, g: nat)
    requires Consistent(s) && Step(s, s', g)
    ensures Consistent(s')
  {
    hide Consistent;
    if a :| Answered(s, s', g, a) {
      AnsweredConsistent(s, s', g, a);
    } else if CountsFailure(s, s', g) {
      CountsFailureConsistent(s, s', g);
    } else if CountsSuccess(s, s', g) {
      CountsSuccessConsistent(s, s', g);
    } else {
      SignalConsistent(s, s', g);
    }
  }

  lemma {:induction false} RunConsistent(run: seq<State>, k: nat)
    requires Run(run) && k < |run|
    ensures Consistent(run[k])
  {
    hide Consistent, Step;
    if k == 0 {
      InitConsistent(run[0]);
    } else {
      RunConsistent(run, k - 1);
      assert SomeStep(run[k - 1], run[k]);
      var g: nat :| Step(run[k - 1], run[k], g);
      StepConsistent(run[k - 1], run[k], g);
    }
  }

  // ----- what the waiting call can rely on -----

  /** No profile has more answers than replicas. */
  lemma AnswersBounded(s: State, i: nat)
    requires Consistent(s) && i < |s.profiles|
    ensures s.profiles[i].succeeded + s.profiles[i].failed <= s.profiles[i].minSuccess + s.profiles[i].maxFailures
  {
    var ok, failed := CountedAs(s, i, Ok), CountedAs(s, i, Err);
    assert WellFormedProfile(s, i);
    forall g | g in ok + failed
      ensures g in Replicas(s.senders, i)
    {
      assert SenderOk(s, g);
    }
    SubsetCard(ok + failed, Replicas(s.senders, i));
    assert |ok + failed| == |ok| + |failed| by { assert ok !! failed; }
  }

  lemma {:induction false} SubsetCard(a: set<nat>, b: set<nat>)
    requires a <= b
    ensures |a| <= |b|
    ensures |a| == |b| ==> a == b
  {
    assert |b| == |a| + |b - a| by { assert b == a + (b - a); }
  }

  /** In every interleaving: at most one message on each channel and never on both; `done`
      means every profile reached its quorum, `err` that some profile lost it. */
  ghost predicate Safe(s: State) {
    && s.done <= 1 && s.err <= 1 && s.done + s.err <= 1
    && (s.done == 1 ==> forall i :: 0 <= i < |s.profiles| ==> s.profiles[i].succeeded >= s.profiles[i].minSuccess)
    && (s.err == 1 ==> SomeExceeded(s))
  }

  lemma ConsistentIsSafe(s: State)
    requires Consistent(s)
    ensures Safe(s)
  {
    if s.done >= 1 {
      AllReached(s);
      if SomeExceeded(s) {
        var i :| 0 <= i < |s.profiles| && s.profiles[i].failed > s.profiles[i].maxFailures;
        AnswersBounded(s, i);
        assert false;
      }
    }
  }

  lemma AllReached(s: State)
    requires Consistent(s) && s.samplesPending == 0
    ensures forall i :: 0 <= i < |s.profiles| ==> s.profiles[i].succeeded >= s.profiles[i].minSuccess
  {
    ReachedBound(s);
    forall i | 0 <= i < |s.profiles|
      ensures s.profiles[i].succeeded >= s.profiles[i].minSuccess
    {
      assert i in Reached(s);
    }
  }

  /** The numbers below `n`. */
  ghost function Below(n: nat): (r: set<nat>)
    ensures |r| == n && forall i :: i in r <==> 0 <= i < n
  {
    if n == 0 then {} else Below(n - 1) + {n - 1}
  }

  lemma EveryRunIsSafe(run: seq<State>, k: nat)
    requires Run(run) && k < |run|
    ensures Safe(run[k])
  {
    RunConsistent(run, k);
    ConsistentIsSafe(run[k]);
  }

  /** Once all replicas have reported, exactly one message has been sent: `done` if every
      profile reached its quorum, `err` otherwise. */
  lemma FinishedSendsOne(s: State)
    requires Consistent(s) && Finished(s)
    ensures s.done + s.err == 1
    ensures s.err == 1 <==> SomeExceeded(s)
  {
    forall g | 0 <= g < |s.senders|
      ensures s.senders[g].control == Counting
    {
      assert SenderOk(s, g);
    }
    assert forall c :: c != Counting ==> Doing(s, c) == {};
    ConsistentIsSafe(s);
    if !SomeExceeded(s) {
      forall i | 0 <= i < |s.profiles|
        ensures i in Reached(s)
      {
        AllAnswered(s, i);
      }
      assert Reached(s) == Below(|s.profiles|);
    }
  }

  lemma AllAnswered(s: State, i: nat)
    requires Consistent(s) && Finished(s) && i < |s.profiles|
    ensures s.profiles[i].succeeded + s.profiles[i].failed == s.profiles[i].minSuccess + s.profiles[i].maxFailures
  {
    var ok, failed := CountedAs(s, i, Ok), CountedAs(s, i, Err);
    assert WellFormedProfile(s, i);
    forall g | g in Replicas(s.senders, i)
      ensures g in ok + failed
    {
      assert SenderOk(s, g);
      assert s.senders[g].profiles[..s.senders[g].next] == s.senders[g].profiles;
    }
    SubsetCard(Replicas(s.senders, i), ok + failed);
    AnswersBounded(s, i);
    hide SenderOk, Counted;
    assert |ok + failed| == |ok| + |failed| by { assert ok !! failed; }
  }

  lemma EveryFinishedRunSendsOne(run: seq<State>)
    requires Run(run) && Finished(run[|run| - 1])
    ensures run[|run| - 1].done + run[|run| - 1].err == 1
    ensures run[|run| - 1].err == 1 <==> SomeExceeded(run[|run| - 1])
  {
    RunConsistent(run, |run| - 1);
    FinishedSendsOne(run[|run| - 1]);
  }

  // ----- grouping of the profiles by ingester -----

  /** The profiles that have `addr` among their replicas, in order. */
  function ProfilesOf(replicas: seq<seq<string>>, addr: string): (r: seq<nat>)
    ensures forall i :: i in r <==> 0 <= i < |replicas| && addr in replicas[i]
    ensures forall a :: 0 <= a < |r| ==> r[a] < |replicas|
    ensures forall a, b :: 0 <= a < b < |r| ==> r[a] < r[b]
  {
    if replicas == [] then []
    else
      var last := |replicas| - 1;
      ProfilesOf(replicas[..last], addr) + if addr in replicas[last] then [last] else []
  }

  function Listed(m: map<string, seq<nat>>, addr: string): seq<nat> {
    if addr in m then m[addr] else []
  }

  /** Appends profile `i` to the list of each of its replicas. */
  method AddToReplicas(m: map<string, seq<nat>>, i: nat, addrs: seq<string>) returns (m': map<string, seq<nat>>)
    requires forall a, b :: 0 <= a < b < |addrs| ==> addrs[a] != addrs[b]
    ensures forall addr :: Listed(m', addr) == Listed(m, addr) + if addr in addrs then [i] else []
  {
    m' := m;
    for j := 0 to |addrs|
      invariant forall addr :: Listed(m', addr) == Listed(m, addr) + if addr in addrs[..j] then [i] else []
    {
      m' := m'[addrs[j] := Listed(m', addrs[j]) + [i]];
      assert addrs[..j + 1] == addrs[..j] + [addrs[j]];
    }
    assert addrs[..|addrs|] == addrs;
  }

  /** The grouping in `Push`: every ingester gets, once and in order, the profiles it is a
      replica of. */
  method GroupByIngester(replicas: seq<seq<string>>) returns (samplesByIngester: map<string, seq<nat>>)
    requires forall i, a, b :: 0 <= i < |replicas| && 0 <= a < b < |replicas[i]| ==> replicas[i][a] != replicas[i][b]
    ensures forall addr :: Listed(samplesByIngester, addr) == ProfilesOf(replicas, addr)
  {
    samplesByIngester := map[];
    for i := 0 to |replicas|
      invariant forall addr :: Listed(samplesByIngester, addr) == ProfilesOf(replicas[..i], addr)
    {
      samplesByIngester := AddToReplicas(samplesByIngester, i, replicas[i]);
      assert replicas[..i + 1][..i] == replicas[..i];
    }
    assert replicas[..|replicas|] == replicas;
  }

  // ----- from the grouping to the protocol -----

  ghost function Positions(order: seq<string>, addrs: seq<string>): set<nat> {
    set g | 0 <= g < |order| && order[g] in addrs
  }

  /** In a list without repetition every address has one position. */
  lemma {:induction false} PositionsCount(order: seq<string>, addrs: seq<string>)
    requires Distinct(order) && Distinct(addrs) && forall a :: a in addrs ==> a in order
    ensures |Positions(order, addrs)| == |addrs|
    decreases |addrs|
  {
    if addrs == [] {
      assert Positions(order, addrs) == {};
    } else {
      var front, last := addrs[..|addrs| - 1], addrs[|addrs| - 1];
      PositionsCount(order, front);
      assert last in order;
      var g :| 0 <= g < |order| && order[g] == last;
      assert addrs == front + [last];
      hide Positions;
      PositionsMore(order, front, last, g);
    }
  }

  lemma PositionsMore(order: seq<string>, addrs: seq<string>, addr: string, g: nat)
    requires Distinct(order) && addr !in addrs && g < |order| && order[g] == addr
    ensures Positions(order, addrs + [addr]) == Positions(order, addrs) + {g} && g !in Positions(order, addrs)
  {
    forall k | 0 <= k < |order| ensures order[k] in addrs + [addr] <==> order[k] in addrs || k == g {
      assert order[k] == addr ==> k == g;
    }
  }

  /** One goroutine for every ingester, in any order. */
  method Senders(samplesByIngester: map<string, seq<nat>>) returns (senders: seq<Sender>, ghost order: seq<string>)
    ensures |senders| == |order| && Distinct(order) && forall a :: a in order <==> a in samplesByIngester
    ensures forall g :: 0 <= g < |order| ==> senders[g] == Sender(Listed(samplesByIngester, order[g]), Waiting, 0, Counting)
  {
    senders, order := [], [];
    var left := samplesByIngester.Keys;
    while left != {}
      invariant left <= samplesByIngester.Keys && |senders| == |order| && Distinct(order)
      invariant forall a :: a in samplesByIngester <==> a in order || a in left
      invariant forall a :: a in order ==> a !in left
      invariant forall g :: 0 <= g < |order| ==> senders[g] == Sender(Listed(samplesByIngester, order[g]), Waiting, 0, Counting)
    {
      var addr :| addr in left;
      senders := senders + [Sender(samplesByIngester[addr], Waiting, 0, Counting)];
      order := order + [addr];
      left := left - {addr};
    }
  }

  /** What `Push` sets up is a start of the protocol. */
  method Push(replicas: seq<seq<string>>, maxErrors: seq<nat>) returns (s: State)
    requires replicas != [] && |maxErrors| == |replicas|
    requires forall i :: 0 <= i < |replicas| ==> Distinct(replicas[i]) && maxErrors[i] < |replicas[i]|
    ensures Init(s) && |s.profiles| == |replicas|
    ensures forall i :: 0 <= i < |replicas| ==> s.profiles[i].maxFailures == maxErrors[i]
    ensures forall i :: 0 <= i < |replicas| ==> s.profiles[i].minSuccess == |replicas[i]| - maxErrors[i]
  {
    hide ProfilesOf;
    var profiles := seq(|replicas|, i requires 0 <= i < |replicas| => Profile(|replicas[i]| - maxErrors[i], maxErrors[i], 0, 0));
    var samplesByIngester := GroupByIngester(replicas);
    ghost var order;
    var senders;
    senders, order := Senders(samplesByIngester);
    s := State(profiles, senders, |profiles|, 0, 0, 0);
    forall g | 0 <= g < |senders| ensures WellFormedList(s, g) {
      assert senders[g].profiles == ProfilesOf(replicas, order[g]);
    }
    forall i | 0 <= i < |replicas| ensures WellFormedProfile(s, i) {
      SentToReplicas(replicas, samplesByIngester, senders, order, i);
    }
  }

  lemma SentToReplicas(replicas: seq<seq<string>>, m: map<string, seq<nat>>, senders: seq<Sender>, order: seq<string>, i: nat)
    requires i < |replicas| && Distinct(replicas[i]) && (forall addr :: Listed(m, addr) == ProfilesOf(replicas, addr))
    requires |senders| == |order| && Distinct(order) && forall a :: a in order <==> a in m
    requires forall g :: 0 <= g < |order| ==> senders[g].profiles == Listed(m, order[g])
    ensures |Replicas(senders, i)| == |replicas[i]|
  {
    hide ProfilesOf;
    forall g | 0 <= g < |order| ensures i in senders[g].profiles <==> order[g] in replicas[i] {
      assert senders[g].profiles == ProfilesOf(replicas, order[g]);
    }
    forall a | a in replicas[i] ensures a in order {
      assert i in ProfilesOf(replicas, a);
    }
    assert Replicas(senders, i) == Positions(order, replicas[i]);
    PositionsCount(order, replicas[i]);
  }
}
