/** What the heartbeat loop does with success and failure, over every interleaving. */
module HeartbeatRuns {
  import opened Bytes
  import opened Heartbeat
  import Ordered

  type Key = (int, nat) -> Bytes

  lemma {:induction false} RunAppend(key: Key, s: State, a: seq<Event>, b: seq<Event>)
    ensures Run(key, s, a + b) == Run(key, Run(key, s, a), b)
    decreases |a|
  {
    if a == [] {
      assert a + b == b;
    } else {
      assert (a + b)[0] == a[0] && (a + b)[1..] == a[1..] + b;
      RunAppend(key, Next(key, s, a[0]), a[1..], b);
    }
  }

  lemma RunOne(key: Key, s: State, e: Event)
    ensures Run(key, s, [e]) == Next(key, s, e)
  {
    assert [e][1..] == [];
  }

  lemma RunLast(key: Key, s: State, events: seq<Event>)
    requires events != []
    ensures var n := |events| - 1; Run(key, s, events) == Next(key, Run(key, s, events[..n]), events[n])
  {
    var n := |events| - 1;
    assert events == events[..n] + [events[n]];
    RunAppend(key, s, events[..n], [events[n]]);
    RunOne(key, Run(key, s, events[..n]), events[n]);
  }

  // ----- How many publications a beat has -----

  /** An active beat has published once for every attempt it has begun. */
  ghost predicate Counted(s: State)
  {
    forall i :: 0 <= i < |s.beats| && Active(s.beats[i]) ==> |PublishesOf(s, i)| == LastAttempt(s.beats[i].phase) + 1
  }

  lemma SamePublishes(s: State, t: State, i: nat)
    requires |s.publishes| == |t.publishes|
    requires forall k :: 0 <= k < |s.publishes| ==> s.publishes[k].beat == t.publishes[k].beat
    ensures PublishesOf(s, i) == PublishesOf(t, i)
  {
  }

  lemma Appended(s: State, t: State, p: Publish, j: nat)
    requires t.publishes == s.publishes + [p]
    ensures if p.beat == j then PublishesOf(t, j) == PublishesOf(s, j) + {|s.publishes|}
            else PublishesOf(t, j) == PublishesOf(s, j)
  {
    var n := |s.publishes|;
    assert t.publishes[n] == p && forall k :: 0 <= k < n ==> t.publishes[k] == s.publishes[k];
  }

  lemma OneMorePublish(s: State, i: nat, attempt: nat, j: nat)
    requires i < |s.beats|
    ensures var t := StartPublish(s, i, attempt);
            if j == i then |PublishesOf(t, j)| == |PublishesOf(s, j)| + 1
            else PublishesOf(t, j) == PublishesOf(s, j)
  {
    var t := StartPublish(s, i, attempt);
    Appended(s, t, t.publishes[|s.publishes|], j);
    assert |s.publishes| !in PublishesOf(s, j);
  }

  lemma SetPhaseCounted(s: State, i: nat, phase: Phase)
    requires Counted(s) && i < |s.beats| && Active(s.beats[i])
    requires phase.Over? || LastAttempt(phase) == LastAttempt(s.beats[i].phase)
    ensures Counted(SetPhase(s, i, phase)) && Counted(SetPhase(s, i, phase).(running := false))
  {
    var t := SetPhase(s, i, phase);
    forall j | 0 <= j < |t.beats| && Active(t.beats[j])
      ensures |PublishesOf(t, j)| == LastAttempt(t.beats[j].phase) + 1
      ensures |PublishesOf(t.(running := false), j)| == LastAttempt(t.beats[j].phase) + 1
    {
      SamePublishes(s, t, j);
      SamePublishes(s, t.(running := false), j);
      assert Active(s.beats[j]);
    }
  }

  lemma StartPublishCounted(s: State, i: nat, attempt: nat)
    requires Counted(s) && i < |s.beats| && Active(s.beats[i]) && attempt == LastAttempt(s.beats[i].phase) + 1
    ensures Counted(StartPublish(s, i, attempt))
  {
    var t := StartPublish(s, i, attempt);
    forall j | 0 <= j < |t.beats| && Active(t.beats[j])
      ensures |PublishesOf(t, j)| == LastAttempt(t.beats[j].phase) + 1
    {
      OneMorePublish(s, i, attempt, j);
      if j != i {
        assert t.beats[j] == s.beats[j];
      }
    }
  }

  lemma EnterAttemptCounted(s: State, i: nat, attempt: nat)
    requires Counted(s) && i < |s.beats| && Active(s.beats[i]) && attempt == LastAttempt(s.beats[i].phase) + 1
    ensures Counted(EnterAttempt(s, i, attempt))
  {
    if attempt < 2 && !s.stopped {
      StartPublishCounted(s, i, attempt);
    } else {
      SetPhaseCounted(s, i, Over);
    }
  }

  lemma AfterAttemptCounted(s: State, i: nat, attempt: nat)
    requires Counted(s) && i < |s.beats| && Active(s.beats[i]) && attempt == LastAttempt(s.beats[i].phase)
    ensures Counted(AfterAttempt(s, i, attempt))
  {
    if attempt == 0 && !s.stopped {
      SetPhaseCounted(s, i, Reprobing);
    } else {
      EnterAttemptCounted(s, i, attempt + 1);
    }
  }

  lemma ProbeCounted(s: State, i: nat, healthy: Option<bool>, logical: int)
    requires Counted(s) && At(s, i, Probing)
    ensures Counted(OnProbe(s, i, healthy, logical))
  {
    var seen := s.(beats := s.beats[i := s.beats[i].(opening := healthy, logical := logical)]);
    forall j | 0 <= j < |seen.beats| && Active(seen.beats[j])
      ensures |PublishesOf(seen, j)| == LastAttempt(seen.beats[j].phase) + 1
    {
      SamePublishes(s, seen, j);
      assert Active(s.beats[j]);
    }
    if healthy == Some(true) {
      EnterAttemptCounted(seen, i, 0);
    } else {
      SetPhaseCounted(seen, i, Over);
    }
  }

  lemma ReprobeCounted(s: State, i: nat, healthy: Option<bool>)
    requires Counted(s) && At(s, i, Reprobing)
    ensures Counted(OnReprobe(s, i, healthy))
  {
    match healthy
    case None => SetPhaseCounted(s, i, Over);
    case Some(true) => SetPhaseCounted(s, i, Delaying);
    case Some(false) => EnterAttemptCounted(s, i, 1);
  }

  lemma UnchangedCounted(s: State, t: State)
    requires Counted(s) && t.beats == s.beats && |s.publishes| == |t.publishes|
    requires forall k :: 0 <= k < |s.publishes| ==> s.publishes[k].beat == t.publishes[k].beat
    ensures Counted(t)
  {
    forall j | 0 <= j < |t.beats| && Active(t.beats[j])
      ensures |PublishesOf(t, j)| == LastAttempt(t.beats[j].phase) + 1
    {
      SamePublishes(s, t, j);
    }
  }

  lemma NoneYet(key: Key, s: State, i: nat)
    requires Invariant(key, s) && |s.beats| <= i
    ensures PublishesOf(s, i) == {}
  {
    forall k | 0 <= k < |s.publishes|
      ensures s.publishes[k].beat != i
    {
      assert PublishOk(s, k);
    }
  }

  lemma TickCounted(key: Key, s: State)
    requires Invariant(key, s) && Counted(s)
    ensures Counted(Next(key, s, Tick))
  {
    var t := Next(key, s, Tick);
    forall j | 0 <= j < |t.beats| && Active(t.beats[j])
      ensures |PublishesOf(t, j)| == LastAttempt(t.beats[j].phase) + 1
    {
      SamePublishes(s, t, j);
      if j == |s.beats| {
        NoneYet(key, s, j);
      }
    }
  }

  lemma StepCounted(key: Key, s: State, e: Event)
    requires Invariant(key, s) && Counted(s)
    ensures Counted(Next(key, s, e))
  {
    match e
    case Tick => TickCounted(key, s);
    case Stop => UnchangedCounted(s, Next(key, s, e));
    case ProbeSettles(i, healthy, logical) =>
      if At(s, i, Probing) {
        ProbeCounted(s, i, healthy, logical);
      }
    case PublishSettles(i, ok) =>
      if i < |s.beats| && s.beats[i].phase.Publishing? {
        if ok {
          SetPhaseCounted(s, i, Awaiting(s.beats[i].phase.attempt));
        } else {
          AfterAttemptCounted(s, i, s.beats[i].phase.attempt);
        }
      }
    case OutcomeSettles(i, success) =>
      if i < |s.beats| && s.beats[i].phase.Awaiting? {
        if success {
          SetPhaseCounted(s, i, Over);
        } else {
          AfterAttemptCounted(s, i, s.beats[i].phase.attempt);
        }
      }
    case ReprobeSettles(i, healthy) =>
      if At(s, i, Reprobing) {
        ReprobeCounted(s, i, healthy);
      }
    case DelayEnds(i) =>
      if At(s, i, Delaying) {
        EnterAttemptCounted(s, i, 1);
      }
    case NegotiationSettles(_, _) => UnchangedCounted(s, Next(key, s, e));
    case PublishResumes(_) => UnchangedCounted(s, Next(key, s, e));
  }

  lemma {:induction false} RunCounted(key: Key, events: seq<Event>)
    ensures Invariant(key, Run(key, INITIAL, events)) && Counted(Run(key, INITIAL, events))
    decreases |events|
  {
    if events != [] {
      var n := |events| - 1;
      RunCounted(key, events[..n]);
      RunLast(key, INITIAL, events);
      StepKeeps(key, Run(key, INITIAL, events[..n]), events[n]);
      StepCounted(key, Run(key, INITIAL, events[..n]), events[n]);
    }
  }

  // ----- A step of another beat -----

  /** The event settles something the beat may be waiting for. */
  predicate Settles(e: Event, i: nat)
  {
    (e.ProbeSettles? || e.PublishSettles? || e.OutcomeSettles? || e.ReprobeSettles? || e.DelayEnds?) && e.beat == i
  }

  lemma AttemptFrame(s: State, j: nat, attempt: nat, i: nat)
    requires i < |s.beats| && j < |s.beats| && i != j
    ensures var t := EnterAttempt(s, j, attempt);
            |t.beats| == |s.beats| && t.beats[i] == s.beats[i] && PublishesOf(t, i) == PublishesOf(s, i)
  {
    if attempt < 2 && !s.stopped {
      OneMorePublish(s, j, attempt, i);
    } else {
      SamePublishes(s, EndBeat(s, j), i);
    }
  }

  lemma AfterFrame(s: State, j: nat, attempt: nat, i: nat)
    requires i < |s.beats| && j < |s.beats| && i != j
    ensures var t := AfterAttempt(s, j, attempt);
            |t.beats| == |s.beats| && t.beats[i] == s.beats[i] && PublishesOf(t, i) == PublishesOf(s, i)
  {
    if attempt == 0 && !s.stopped {
      SamePublishes(s, SetPhase(s, j, Reprobing), i);
    } else {
      AttemptFrame(s, j, attempt + 1, i);
    }
  }

  lemma ProbeFrame(s: State, j: nat, healthy: Option<bool>, logical: int, i: nat)
    requires i < |s.beats| && j < |s.beats| && i != j
    ensures var t := OnProbe(s, j, healthy, logical);
            |t.beats| == |s.beats| && t.beats[i] == s.beats[i] && PublishesOf(t, i) == PublishesOf(s, i)
  {
    var seen := s.(beats := s.beats[j := s.beats[j].(opening := healthy, logical := logical)]);
    SamePublishes(s, seen, i);
    if healthy == Some(true) {
      AttemptFrame(seen, j, 0, i);
    } else {
      SamePublishes(seen, EndBeat(seen, j), i);
    }
  }

  /** Events of other beats, and of the loop, leave a beat and its publications as they are. */
  lemma BeatFrame(key: Key, s: State, e: Event, i: nat)
    requires i < |s.beats| && !Settles(e, i)
    ensures var t := Next(key, s, e);
            i < |t.beats| && t.beats[i] == s.beats[i] && PublishesOf(t, i) == PublishesOf(s, i)
  {
    match e
    case ProbeSettles(j, healthy, logical) =>
      if At(s, j, Probing) {
        ProbeFrame(s, j, healthy, logical, i);
      }
    case PublishSettles(j, ok) =>
      if j < |s.beats| && s.beats[j].phase.Publishing? {
        if ok {
          SamePublishes(s, SetPhase(s, j, Awaiting(s.beats[j].phase.attempt)), i);
        } else {
          AfterFrame(s, j, s.beats[j].phase.attempt, i);
        }
      }
    case OutcomeSettles(j, success) =>
      if j < |s.beats| && s.beats[j].phase.Awaiting? {
        if success {
          SamePublishes(s, EndBeat(s, j), i);
        } else {
          AfterFrame(s, j, s.beats[j].phase.attempt, i);
        }
      }
    case ReprobeSettles(j, healthy) =>
      if At(s, j, Reprobing) {
        if healthy == Some(false) {
          AttemptFrame(s, j, 1, i);
        } else {
          SamePublishes(s, OnReprobe(s, j, healthy), i);
        }
      }
    case DelayEnds(j) =>
      if At(s, j, Delaying) {
        AttemptFrame(s, j, 1, i);
      }
    case _ => SamePublishes(s, Next(key, s, e), i);
  }

  // ----- Success is final -----

  lemma OverStep(key: Key, s: State, e: Event, i: nat)
    requires At(s, i, Over)
    ensures At(Next(key, s, e), i, Over) && PublishesOf(Next(key, s, e), i) == PublishesOf(s, i)
  {
    if Settles(e, i) {
      assert Next(key, s, e) == s;
    } else {
      BeatFrame(key, s, e, i);
    }
  }

  /** A beat that is over never publishes again. */
  lemma {:induction false} OverStays(key: Key, s: State, events: seq<Event>, i: nat)
    requires At(s, i, Over)
    ensures At(Run(key, s, events), i, Over) && PublishesOf(Run(key, s, events), i) == PublishesOf(s, i)
    decreases |events|
  {
    if events != [] {
      OverStep(key, s, events[0], i);
      OverStays(key, Next(key, s, events[0]), events[1..], i);
    }
  }

  lemma Split(key: Key, before: seq<Event>, e: Event, after: seq<Event>)
    ensures Run(key, INITIAL, before + [e] + after) == Run(key, Next(key, Run(key, INITIAL, before), e), after)
  {
    RunAppend(key, INITIAL, before + [e], after);
    RunAppend(key, INITIAL, before, [e]);
    RunOne(key, Run(key, INITIAL, before), e);
  }

  /** Once an attempt of a beat settles with success, no later event adds a publication of that beat. */
  lemma SuccessIsFinal(key: Key, before: seq<Event>, i: nat, after: seq<Event>)
    requires var s := Run(key, INITIAL, before); i < |s.beats| && s.beats[i].phase.Awaiting?
    ensures var s, t := Run(key, INITIAL, before), Run(key, INITIAL, before + [OutcomeSettles(i, true)] + after);
            At(t, i, Over) && PublishesOf(t, i) == PublishesOf(s, i)
  {
    var s := Run(key, INITIAL, before);
    var ended := Next(key, s, OutcomeSettles(i, true));
    Split(key, before, OutcomeSettles(i, true), after);
    SamePublishes(s, ended, i);
    OverStays(key, ended, after, i);
  }

  // ----- A retry means a failure -----

  /** The event is the failure of the beat's first attempt: its request is rejected or times out, or its outcome is no
      success. */
  predicate Fails(s: State, e: Event, i: nat)
  {
    || (At(s, i, Publishing(0)) && e == PublishSettles(i, false))
    || (At(s, i, Awaiting(0)) && e == OutcomeSettles(i, false))
  }

  ghost predicate FirstAttemptFailed(key: Key, events: seq<Event>, i: nat)
  {
    exists n :: 0 <= n < |events| && Fails(Run(key, INITIAL, events[..n]), events[n], i)
  }

  /** The beat is past its first attempt, or has published a second one. */
  ghost predicate Retrying(s: State, i: nat)
  {
    || (i < |s.beats| && s.beats[i].phase in {Reprobing, Delaying, Publishing(1), Awaiting(1)})
    || HasSecond(s, i)
  }

  ghost predicate HasSecond(s: State, i: nat)
  {
    exists k :: 0 <= k < |s.publishes| && s.publishes[k].beat == i && s.publishes[k].attempt == 1
  }

  lemma StepSecond(key: Key, s: State, e: Event, i: nat)
    requires Invariant(key, s) && !Retrying(s, i)
    ensures !HasSecond(Next(key, s, e), i)
  {
    var t := Next(key, s, e);
    if k :| 0 <= k < |t.publishes| && t.publishes[k].beat == i && t.publishes[k].attempt == 1 {
      if k < |s.publishes| {
        assert s.publishes[k].beat == i && s.publishes[k].attempt == 1;
      }
    }
  }

  lemma StepRetries(key: Key, s: State, e: Event, i: nat)
    requires Invariant(key, s) && !Retrying(s, i) && Retrying(Next(key, s, e), i)
    ensures Fails(s, e, i)
  {
    StepSecond(key, s, e, i);
    if i < |s.beats| && !Settles(e, i) {
      BeatFrame(key, s, e, i);
    } else {
      assert i < |s.beats| ==> LastAttempt(s.beats[i].phase) <= 1;
    }
  }

  lemma FailureStaysKnown(key: Key, events: seq<Event>, i: nat)
    requires events != [] && FirstAttemptFailed(key, events[..|events| - 1], i)
    ensures FirstAttemptFailed(key, events, i)
  {
    var front := events[..|events| - 1];
    var n :| 0 <= n < |front| && Fails(Run(key, INITIAL, front[..n]), front[n], i);
    assert events[..n] == front[..n] && events[n] == front[n];
  }

  lemma {:induction false} RetryingFailed(key: Key, events: seq<Event>, i: nat)
    requires Retrying(Run(key, INITIAL, events), i)
    ensures FirstAttemptFailed(key, events, i)
    decreases |events|
  {
    if events != [] {
      var n := |events| - 1;
      var s := Run(key, INITIAL, events[..n]);
      RunLast(key, INITIAL, events);
      if Retrying(s, i) {
        RetryingFailed(key, events[..n], i);
        FailureStaysKnown(key, events, i);
      } else {
        RunCounted(key, events[..n]);
        StepRetries(key, s, events[n], i);
      }
    }
  }

  lemma TwoMembers(x: set<nat>) returns (k: nat, l: nat)
    requires |x| >= 2
    ensures k in x && l in x && k != l
  {
    k := Ordered.Member(x);
    assert |x - {k}| == |x| - 1;
    l := Ordered.Member(x - {k});
  }

  lemma TwoHaveSecond(key: Key, s: State, i: nat)
    requires Invariant(key, s) && |PublishesOf(s, i)| >= 2
    ensures HasSecond(s, i)
  {
    var k, l := TwoMembers(PublishesOf(s, i));
    assert PublishOk(s, k) && PublishOk(s, l);
    assert s.publishes[if k < l then l else k].attempt == 1;
  }

  /** A beat with two publications failed its first attempt. */
  lemma RetryMeansFailure(key: Key, events: seq<Event>, i: nat)
    requires |PublishesOf(Run(key, INITIAL, events), i)| >= 2
    ensures FirstAttemptFailed(key, events, i)
  {
    RunCounted(key, events);
    TwoHaveSecond(key, Run(key, INITIAL, events), i);
    RetryingFailed(key, events, i);
  }

  // ----- A failure leads to a retry -----

  /** The event does not settle what the beat is waiting for. */
  predicate Elsewhere(e: Event, i: nat, phase: Phase)
  {
    match phase
    case Reprobing => !(e.ReprobeSettles? && e.beat == i)
    case Delaying => !(e.DelayEnds? && e.beat == i)
    case _ => false
  }

  lemma WaitingStep(key: Key, s: State, e: Event, i: nat, phase: Phase)
    requires At(s, i, phase) && Elsewhere(e, i, phase)
    ensures At(Next(key, s, e), i, phase) && PublishesOf(Next(key, s, e), i) == PublishesOf(s, i)
  {
    if Settles(e, i) {
      assert Next(key, s, e) == s;
    } else {
      BeatFrame(key, s, e, i);
    }
  }

  lemma {:induction false} WaitingStays(key: Key, s: State, events: seq<Event>, i: nat, phase: Phase)
    requires At(s, i, phase) && forall k :: 0 <= k < |events| ==> Elsewhere(events[k], i, phase)
    ensures At(Run(key, s, events), i, phase) && PublishesOf(Run(key, s, events), i) == PublishesOf(s, i)
    decreases |events|
  {
    if events != [] {
      WaitingStep(key, s, events[0], i, phase);
      WaitingStays(key, Next(key, s, events[0]), events[1..], i, phase);
    }
  }

  lemma {:induction false} StopStays(key: Key, s: State, events: seq<Event>)
    requires s.stopped
    ensures Run(key, s, events).stopped
    decreases |events|
  {
    if events != [] {
      StopStays(key, Next(key, s, events[0]), events[1..]);
    }
  }

  /** The failure of a first attempt, unless stopped, leaves the beat probing again with one publication. */
  lemma FailureReprobes(key: Key, before: seq<Event>, e: Event, i: nat)
    requires var s := Run(key, INITIAL, before); Fails(s, e, i) && !s.stopped
    ensures var t := Next(key, Run(key, INITIAL, before), e); At(t, i, Reprobing) && |PublishesOf(t, i)| == 1
  {
    RunCounted(key, before);
    var s := Run(key, INITIAL, before);
    SamePublishes(s, Next(key, s, e), i);
  }

  lemma RetryPublishes(key: Key, s: State, i: nat)
    requires i < |s.beats| && !s.stopped && |PublishesOf(s, i)| == 1
    ensures |PublishesOf(EnterAttempt(s, i, 1), i)| == 2
  {
    OneMorePublish(s, i, 1, i);
  }

  /** The rest of the beat: other events while the second probe is out, the probe settles, and when it is healthy other
      events while the delay runs, and its end. */
  function Retry(i: nat, middle: seq<Event>, healthy: bool, gap: seq<Event>): seq<Event>
  {
    middle + [ReprobeSettles(i, Some(healthy))] + if healthy then gap + [DelayEnds(i)] else []
  }

  lemma RunRetry(key: Key, t: State, i: nat, middle: seq<Event>, healthy: bool, gap: seq<Event>)
    ensures var settled := Next(key, Run(key, t, middle), ReprobeSettles(i, Some(healthy)));
            Run(key, t, Retry(i, middle, healthy, gap))
              == if healthy then Next(key, Run(key, settled, gap), DelayEnds(i)) else settled
  {
    var probe := ReprobeSettles(i, Some(healthy));
    var rest := if healthy then gap + [DelayEnds(i)] else [];
    RunAppend(key, t, middle + [probe], rest);
    RunAppend(key, t, middle, [probe]);
    RunOne(key, Run(key, t, middle), probe);
    if healthy {
      var settled := Next(key, Run(key, t, middle), probe);
      RunAppend(key, settled, gap, [DelayEnds(i)]);
      RunOne(key, Run(key, settled, gap), DelayEnds(i));
    }
  }

  lemma RetryFromReprobe(key: Key, t: State, i: nat, middle: seq<Event>, healthy: bool, gap: seq<Event>)
    requires At(t, i, Reprobing) && |PublishesOf(t, i)| == 1
    requires forall k :: 0 <= k < |middle| ==> Elsewhere(middle[k], i, Reprobing)
    requires forall k :: 0 <= k < |gap| ==> Elsewhere(gap[k], i, Delaying)
    requires !Run(key, t, Retry(i, middle, healthy, gap)).stopped
    ensures |PublishesOf(Run(key, t, Retry(i, middle, healthy, gap)), i)| == 2
  {
    var probed := Run(key, t, middle);
    RunRetry(key, t, i, middle, healthy, gap);
    WaitingStays(key, t, middle, i, Reprobing);
    if healthy {
      var delaying := Next(key, probed, ReprobeSettles(i, Some(true)));
      SamePublishes(probed, delaying, i);
      WaitingStays(key, delaying, gap, i, Delaying);
      var waited := Run(key, delaying, gap);
      if waited.stopped {
        StopStays(key, waited, [DelayEnds(i)]);
        RunOne(key, waited, DelayEnds(i));
      }
      RetryPublishes(key, waited, i);
    } else {
      RetryPublishes(key, probed, i);
    }
  }

  /** When a first attempt fails and the loop is not stopped, a settled second probe, and its delay when healthy, leave
      exactly two publications of the beat, whatever else happens in between. */
  lemma FailureIsRetried(key: Key, before: seq<Event>, e: Event, i: nat, middle: seq<Event>, healthy: bool,
                         gap: seq<Event>)
    requires Fails(Run(key, INITIAL, before), e, i)
    requires forall k :: 0 <= k < |middle| ==> Elsewhere(middle[k], i, Reprobing)
    requires forall k :: 0 <= k < |gap| ==> Elsewhere(gap[k], i, Delaying)
    requires !Run(key, INITIAL, before + [e] + Retry(i, middle, healthy, gap)).stopped
    ensures |PublishesOf(Run(key, INITIAL, before + [e] + Retry(i, middle, healthy, gap)), i)| == 2
  {
    var s := Run(key, INITIAL, before);
    var t := Next(key, s, e);
    Split(key, before, e, Retry(i, middle, healthy, gap));
    if t.stopped {
      StopStays(key, t, Retry(i, middle, healthy, gap));
    }
    FailureReprobes(key, before, e, i);
    RetryFromReprobe(key, t, i, middle, healthy, gap);
  }

  // ----- Beats start and publish -----

  /** A tick starts a beat exactly when the loop is neither stopped nor busy with one. */
  lemma TickStartsBeat(key: Key, events: seq<Event>)
    ensures var s := Run(key, INITIAL, events);
            |Next(key, s, Tick).beats| == if !s.stopped && ActiveBeats(s) == {} then |s.beats| + 1 else |s.beats|
  {
    RunCounted(key, events);
    var s := Run(key, INITIAL, events);
    if ActiveBeats(s) == {} {
      assert forall i :: 0 <= i < |s.beats| && Active(s.beats[i]) ==> i in ActiveBeats(s);
    } else {
      var i :| i in ActiveBeats(s);
      assert Active(s.beats[i]);
    }
  }

  /** A beat whose opening probe settles publishes once when it is healthy and the loop not stopped, under the logical
      beat read then; otherwise it is over without a publication. */
  lemma ProbeDecides(key: Key, before: seq<Event>, i: nat, healthy: Option<bool>, logical: int)
    requires At(Run(key, INITIAL, before), i, Probing)
    ensures var s := Run(key, INITIAL, before);
            var t := Next(key, s, ProbeSettles(i, healthy, logical));
            && t.beats[i].opening == healthy && t.beats[i].logical == logical
            && (if healthy == Some(true) && !s.stopped
                then At(t, i, Publishing(0)) && |PublishesOf(t, i)| == 1
                     && forall k :: k in PublishesOf(t, i) ==> t.publishes[k].logical == logical
                else At(t, i, Over) && PublishesOf(t, i) == {})
  {
    RunCounted(key, before);
    var s := Run(key, INITIAL, before);
    var seen := s.(beats := s.beats[i := s.beats[i].(opening := healthy, logical := logical)]);
    assert PublishesOf(s, i) == {};
    SamePublishes(s, seen, i);
    if healthy == Some(true) && !s.stopped {
      OneMorePublish(seen, i, 0, i);
      StepKeeps(key, s, ProbeSettles(i, healthy, logical));
      var t := Next(key, s, ProbeSettles(i, healthy, logical));
      assert forall k :: k in PublishesOf(t, i) ==> PublishOk(t, k);
    } else {
      SamePublishes(s, Next(key, s, ProbeSettles(i, healthy, logical)), i);
    }
  }

  /** A publication never waits on a negotiation that was rejected before it began. */
  lemma FreshNegotiation(key: Key, events: seq<Event>, i: nat, attempt: nat)
    requires i < |Run(key, INITIAL, events).beats|
    ensures var t := StartPublish(Run(key, INITIAL, events), i, attempt);
            var p := t.publishes[|t.publishes| - 1];
            p.phase.Negotiating? && p.phase.promise < |t.promises| && !t.promises[p.phase.promise].Rejected?
  {
    RunCounted(key, events);
  }
}
