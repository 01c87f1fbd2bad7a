/** The on-chain heartbeat loop as a state machine whose steps are the pieces of code between awaits. */
module Heartbeat {
  import opened Bytes

  // ----- State -----

  /** Where one call of the beat function is suspended. */
  datatype Phase = Probing | Publishing(attempt: nat) | Awaiting(attempt: nat) | Reprobing | Delaying | Over

  /** One call that got past the guards: its opening probe and, once probed, its logical beat. */
  datatype Beat = Beat(phase: Phase, opening: Option<bool>, logical: int)

  datatype PublishPhase = Negotiating(promise: nat) | Posted(key: Bytes) | Dropped

  /** One call of the publication client; it may outlive the attempt that started it. */
  datatype Publish = Publish(beat: nat, attempt: nat, logical: int, phase: PublishPhase)

  datatype Promise = Pending | Resolved(schema: nat) | Rejected

  datatype State = State(stopped: bool, running: bool, beats: seq<Beat>, publishes: seq<Publish>,
                         promises: seq<Promise>, negotiated: Option<nat>)

  /** Whatever can happen next; probes and negotiations may also throw, and a publication settles by timeout too. */
  datatype Event =
    | Tick
    | Stop
    | ProbeSettles(beat: nat, healthy: Option<bool>, logical: int)
    | PublishSettles(beat: nat, ok: bool)
    | OutcomeSettles(beat: nat, success: bool)
    | ReprobeSettles(beat: nat, healthy: Option<bool>)
    | DelayEnds(beat: nat)
    | NegotiationSettles(promise: nat, schema: Option<nat>)
    | PublishResumes(publish: nat)

  const INITIAL := State(false, false, [], [], [], None)

  // ----- Steps -----

  predicate At(s: State, i: nat, phase: Phase)
  {
    i < |s.beats| && s.beats[i].phase == phase
  }

  function SetPhase(s: State, i: nat, phase: Phase): State
    requires i < |s.beats|
  {
    s.(beats := s.beats[i := s.beats[i].(phase := phase)])
  }

  /** The finally block. */
  function EndBeat(s: State, i: nat): State
    requires i < |s.beats|
  {
    SetPhase(s, i, Over).(running := false)
  }

  /** Reuse the negotiation in progress or start one. */
  function Negotiate(s: State): (State, nat)
  {
    if s.negotiated.Some? then (s, s.negotiated.value)
    else (s.(promises := s.promises + [Pending], negotiated := Some(|s.promises|)), |s.promises|)
  }

  function StartPublish(s: State, i: nat, attempt: nat): State
    requires i < |s.beats|
  {
    var (next, promise) := Negotiate(s);
    SetPhase(next, i, Publishing(attempt)).(publishes :=
                                            s.publishes + [Publish(i, attempt, s.beats[i].logical,
                                                                   Negotiating(promise))])
  }

  /** The head of the attempt loop. */
  function EnterAttempt(s: State, i: nat, attempt: nat): State
    requires i < |s.beats|
  {
    if attempt < 2 && !s.stopped then StartPublish(s, i, attempt) else EndBeat(s, i)
  }

  /** The tail of the attempt loop: probe again after the first attempt, then go round. */
  function AfterAttempt(s: State, i: nat, attempt: nat): State
    requires i < |s.beats|
  {
    if attempt == 0 && !s.stopped then SetPhase(s, i, Reprobing) else EnterAttempt(s, i, attempt + 1)
  }

  function OnProbe(s: State, i: nat, healthy: Option<bool>, logical: int): State
    requires i < |s.beats|
  {
    var seen := s.(beats := s.beats[i := s.beats[i].(opening := healthy, logical := logical)]);
    if healthy == Some(true) then EnterAttempt(seen, i, 0) else EndBeat(seen, i)
  }

  function OnReprobe(s: State, i: nat, healthy: Option<bool>): State
    requires i < |s.beats|
  {
    match healthy
    case None => EndBeat(s, i)
    case Some(true) => SetPhase(s, i, Delaying)
    case Some(false) => EnterAttempt(s, i, 1)
  }

  function OnNegotiation(s: State, j: nat, schema: Option<nat>): State
    requires j < |s.promises|
  {
    match schema
    case Some(v) => s.(promises := s.promises[j := Resolved(v)])
    case None => s.(promises := s.promises[j := Rejected], negotiated := None)
  }

  /** After the negotiation the request goes out under a key derived from the logical beat and the body. */
  function OnResume(key: (int, nat) -> Bytes, s: State, k: nat): State
    requires k < |s.publishes|
  {
    var p := s.publishes[k];
    if p.phase.Negotiating? && p.phase.promise < |s.promises| then
      match s.promises[p.phase.promise]
      case Pending => s
      case Resolved(v) => s.(publishes := s.publishes[k := p.(phase := Posted(key(p.logical, v)))])
      case Rejected => s.(publishes := s.publishes[k := p.(phase := Dropped)])
    else s
  }

  function Next(key: (int, nat) -> Bytes, s: State, e: Event): State
  {
    match e
    case Tick =>
      if s.stopped || s.running then s else s.(running := true, beats := s.beats + [Beat(Probing, None, 0)])
    case Stop => s.(stopped := true)
    case ProbeSettles(i, healthy, logical) => if At(s, i, Probing) then OnProbe(s, i, healthy, logical) else s
    case PublishSettles(i, ok) =>
      if i < |s.beats| && s.beats[i].phase.Publishing? then
        var attempt := s.beats[i].phase.attempt;
        if ok then SetPhase(s, i, Awaiting(attempt)) else AfterAttempt(s, i, attempt)
      else s
    case OutcomeSettles(i, success) =>
      if i < |s.beats| && s.beats[i].phase.Awaiting? then
        if success then EndBeat(s, i) else AfterAttempt(s, i, s.beats[i].phase.attempt)
      else s
    case ReprobeSettles(i, healthy) => if At(s, i, Reprobing) then OnReprobe(s, i, healthy) else s
    case DelayEnds(i) => if At(s, i, Delaying) then EnterAttempt(s, i, 1) else s
    case NegotiationSettles(j, schema) =>
      if j < |s.promises| && s.promises[j].Pending? then OnNegotiation(s, j, schema) else s
    case PublishResumes(k) => if k < |s.publishes| then OnResume(key, s, k) else s
  }

  function Run(key: (int, nat) -> Bytes, s: State, events: seq<Event>): State
    decreases |events|
  {
    if events == [] then s else Run(key, Next(key, s, events[0]), events[1..])
  }

  // ----- The invariant -----

  predicate Active(b: Beat)
  {
    !b.phase.Over?
  }

  /** At most one beat is active, and the flag says whether one is. */
  ghost predicate Serialized(s: State)
  {
    && (forall i, j :: 0 <= i < |s.beats| && 0 <= j < |s.beats| && Active(s.beats[i]) && Active(s.beats[j]) ==> i == j)
    && (s.running <==> exists i :: 0 <= i < |s.beats| && Active(s.beats[i]))
  }

  /** The last attempt a beat can have started in a phase. */
  function LastAttempt(phase: Phase): int
  {
    match phase
    case Probing => -1
    case Publishing(a) => a
    case Awaiting(a) => a
    case Reprobing => 0
    case Delaying => 0
    case Over => 1
  }

  ghost predicate PublishOk(s: State, k: nat)
    requires k < |s.publishes|
  {
    var p := s.publishes[k];
    && p.beat < |s.beats| && s.beats[p.beat].opening == Some(true) && p.logical == s.beats[p.beat].logical
    && p.attempt <= 1 && p.attempt <= LastAttempt(s.beats[p.beat].phase)
  }

  /** Every publication belongs to a beat that probed healthy, and successive ones of a beat are successive attempts. */
  ghost predicate Publications(s: State)
  {
    && (forall k :: 0 <= k < |s.publishes| ==> PublishOk(s, k))
    && (forall k, l :: 0 <= k < l < |s.publishes| && s.publishes[k].beat == s.publishes[l].beat ==>
        s.publishes[k].attempt < s.publishes[l].attempt)
  }

  /** A negotiation that has not been rejected is the cached one, and every request went out under its schema. */
  ghost predicate Negotiations(key: (int, nat) -> Bytes, s: State)
  {
    && (s.negotiated.Some? ==> s.negotiated.value < |s.promises| && !s.promises[s.negotiated.value].Rejected?)
    && (forall j :: 0 <= j < |s.promises| && !s.promises[j].Rejected? ==> s.negotiated == Some(j))
    && (forall k :: 0 <= k < |s.publishes| && s.publishes[k].phase.Posted? ==>
          s.negotiated.Some? && s.promises[s.negotiated.value].Resolved?
          && s.publishes[k].phase.key == key(s.publishes[k].logical, s.promises[s.negotiated.value].schema))
  }

  /** Beats past their probe found the prover healthy, and attempts are numbered zero and one. */
  ghost predicate Attempts(s: State)
  {
    forall i :: 0 <= i < |s.beats| ==>
      LastAttempt(s.beats[i].phase) <= 1
      && (s.beats[i].phase.Probing? || s.beats[i].phase.Over? || s.beats[i].opening == Some(true))
  }

  ghost predicate Invariant(key: (int, nat) -> Bytes, s: State)
  {
    Serialized(s) && Publications(s) && Negotiations(key, s) && Attempts(s)
  }

  // ----- Preservation -----

  lemma SetPhaseKeeps(key: (int, nat) -> Bytes, s: State, i: nat, phase: Phase)
    requires Invariant(key, s) && i < |s.beats| && Active(s.beats[i]) && !phase.Over?
             && s.beats[i].opening == Some(true)
    requires LastAttempt(s.beats[i].phase) <= LastAttempt(phase) <= 1
    ensures Invariant(key, SetPhase(s, i, phase))
  {
    var t := SetPhase(s, i, phase);
    assert Active(t.beats[i]);
    assert forall j :: 0 <= j < |s.beats| && j != i ==> t.beats[j] == s.beats[j];
    forall k | 0 <= k < |t.publishes|
      ensures PublishOk(t, k)
    {
      assert PublishOk(s, k);
    }
  }

  lemma EndBeatKeeps(key: (int, nat) -> Bytes, s: State, i: nat)
    requires Invariant(key, s) && i < |s.beats| && Active(s.beats[i])
    ensures Invariant(key, EndBeat(s, i))
  {
    var t := EndBeat(s, i);
    assert forall j :: 0 <= j < |s.beats| && j != i ==> t.beats[j] == s.beats[j];
    assert forall j :: 0 <= j < |t.beats| ==> !Active(t.beats[j]);
    forall k | 0 <= k < |t.publishes|
      ensures PublishOk(t, k)
    {
      assert PublishOk(s, k);
    }
  }

  lemma StartPublishKeeps(key: (int, nat) -> Bytes, s: State, i: nat, attempt: nat)
    requires Invariant(key, s) && i < |s.beats| && Active(s.beats[i]) && s.beats[i].opening == Some(true)
    requires LastAttempt(s.beats[i].phase) < attempt <= 1
    ensures Invariant(key, StartPublish(s, i, attempt))
  {
    var t := StartPublish(s, i, attempt);
    assert Active(t.beats[i]);
    assert forall j :: 0 <= j < |s.beats| && j != i ==> t.beats[j] == s.beats[j];
    forall k | 0 <= k < |t.publishes|
      ensures PublishOk(t, k) && (k < |s.publishes| && t.publishes[k].beat == i ==> t.publishes[k].attempt < attempt)
    {
      if k < |s.publishes| {
        assert PublishOk(s, k);
      }
    }
  }

  lemma EnterAttemptKeeps(key: (int, nat) -> Bytes, s: State, i: nat, attempt: nat)
    requires Invariant(key, s) && i < |s.beats| && Active(s.beats[i]) && s.beats[i].opening == Some(true)
    requires LastAttempt(s.beats[i].phase) < attempt
    ensures Invariant(key, EnterAttempt(s, i, attempt))
  {
    if attempt < 2 && !s.stopped {
      StartPublishKeeps(key, s, i, attempt);
    } else {
      EndBeatKeeps(key, s, i);
    }
  }

  lemma AfterAttemptKeeps(key: (int, nat) -> Bytes, s: State, i: nat, attempt: nat)
    requires Invariant(key, s) && i < |s.beats| && Active(s.beats[i]) && s.beats[i].opening == Some(true)
    requires LastAttempt(s.beats[i].phase) == attempt
    ensures Invariant(key, AfterAttempt(s, i, attempt))
  {
    if attempt == 0 && !s.stopped {
      SetPhaseKeeps(key, s, i, Reprobing);
    } else {
      EnterAttemptKeeps(key, s, i, attempt + 1);
    }
  }

  lemma ProbeKeeps(key: (int, nat) -> Bytes, s: State, i: nat, healthy: Option<bool>, logical: int)
    requires Invariant(key, s) && At(s, i, Probing)
    ensures Invariant(key, OnProbe(s, i, healthy, logical))
  {
    var seen := s.(beats := s.beats[i := s.beats[i].(opening := healthy, logical := logical)]);
    assert Active(seen.beats[i]);
    assert forall j :: 0 <= j < |s.beats| && j != i ==> seen.beats[j] == s.beats[j];
    forall k | 0 <= k < |seen.publishes|
      ensures PublishOk(seen, k)
    {
      assert PublishOk(s, k);
    }
    if healthy == Some(true) {
      EnterAttemptKeeps(key, seen, i, 0);
    } else {
      EndBeatKeeps(key, seen, i);
    }
  }

  lemma ReprobeKeeps(key: (int, nat) -> Bytes, s: State, i: nat, healthy: Option<bool>)
    requires Invariant(key, s) && At(s, i, Reprobing)
    ensures Invariant(key, OnReprobe(s, i, healthy))
  {
    match healthy
    case None => EndBeatKeeps(key, s, i);
    case Some(true) => SetPhaseKeeps(key, s, i, Delaying);
    case Some(false) => EnterAttemptKeeps(key, s, i, 1);
  }

  lemma NegotiationKeeps(key: (int, nat) -> Bytes, s: State, j: nat, schema: Option<nat>)
    requires Invariant(key, s) && j < |s.promises| && s.promises[j].Pending?
    ensures Invariant(key, OnNegotiation(s, j, schema))
  {
    var t := OnNegotiation(s, j, schema);
    forall k | 0 <= k < |t.publishes|
      ensures PublishOk(t, k)
    {
      assert PublishOk(s, k);
    }
  }

  lemma ResumeKeeps(key: (int, nat) -> Bytes, s: State, k: nat)
    requires Invariant(key, s) && k < |s.publishes|
    ensures Invariant(key, OnResume(key, s, k))
  {
    var t := OnResume(key, s, k);
    forall l | 0 <= l < |t.publishes|
      ensures PublishOk(t, l)
    {
      assert PublishOk(s, l);
    }
  }

  lemma TickKeeps(key: (int, nat) -> Bytes, s: State)
    requires Invariant(key, s) && !s.running
    ensures Invariant(key, s.(running := true, beats := s.beats + [Beat(Probing, None, 0)]))
  {
    var t := s.(running := true, beats := s.beats + [Beat(Probing, None, 0)]);
    assert Active(t.beats[|s.beats|]);
    forall k | 0 <= k < |t.publishes|
      ensures PublishOk(t, k)
    {
      assert PublishOk(s, k);
    }
  }

  lemma StopKeeps(key: (int, nat) -> Bytes, s: State)
    requires Invariant(key, s)
    ensures Invariant(key, s.(stopped := true))
  {
    var t := s.(stopped := true);
    forall k | 0 <= k < |t.publishes|
      ensures PublishOk(t, k)
    {
      assert PublishOk(s, k);
    }
  }

  /** Every step keeps the invariant. */
  lemma StepKeeps(key: (int, nat) -> Bytes, s: State, e: Event)
    requires Invariant(key, s)
    ensures Invariant(key, Next(key, s, e))
  {
    match e
    case Tick =>
      if !(s.stopped || s.running) {
        TickKeeps(key, s);
      }
    case Stop => StopKeeps(key, s);
    case ProbeSettles(i, healthy, logical) =>
      if At(s, i, Probing) {
        ProbeKeeps(key, s, i, healthy, logical);
      }
    case PublishSettles(i, ok) =>
      if i < |s.beats| && s.beats[i].phase.Publishing? {
        if ok {
          SetPhaseKeeps(key, s, i, Awaiting(s.beats[i].phase.attempt));
        } else {
          AfterAttemptKeeps(key, s, i, s.beats[i].phase.attempt);
        }
      }
    case OutcomeSettles(i, success) =>
      if i < |s.beats| && s.beats[i].phase.Awaiting? {
        if success {
          EndBeatKeeps(key, s, i);
        } else {
          AfterAttemptKeeps(key, s, i, s.beats[i].phase.attempt);
        }
      }
    case ReprobeSettles(i, healthy) =>
      if At(s, i, Reprobing) {
        ReprobeKeeps(key, s, i, healthy);
      }
    case DelayEnds(i) =>
      if At(s, i, Delaying) {
        EnterAttemptKeeps(key, s, i, 1);
      }
    case NegotiationSettles(j, schema) =>
      if j < |s.promises| && s.promises[j].Pending? {
        NegotiationKeeps(key, s, j, schema);
      }
    case PublishResumes(k) =>
      if k < |s.publishes| {
        ResumeKeeps(key, s, k);
      }
  }

  /** The invariant holds after every interleaving of ticks, settlements, timeouts and stop. */
  lemma {:induction false} EveryRunKeeps(key: (int, nat) -> Bytes, s: State, events: seq<Event>)
    requires Invariant(key, s)
    ensures Invariant(key, Run(key, s, events))
    decreases |events|
  {
    if events != [] {
      StepKeeps(key, s, events[0]);
      EveryRunKeeps(key, Next(key, s, events[0]), events[1..]);
    }
  }

  // ----- What the invariant means -----

  function ActiveBeats(s: State): set<nat>
  {
    set i | 0 <= i < |s.beats| && Active(s.beats[i])
  }

  function PublishesOf(s: State, beat: nat): set<nat>
  {
    set k | 0 <= k < |s.publishes| && s.publishes[k].beat == beat
  }

  lemma AtMostOne(x: set<nat>)
    requires forall i, j :: i in x && j in x ==> i == j
    ensures |x| <= 1
  {
    if i :| i in x {
      assert x == {i};
    }
  }

  lemma AtMostTwo(x: set<nat>, f: nat -> nat)
    requires forall i :: i in x ==> f(i) <= 1
    requires forall i, j :: i in x && j in x && f(i) == f(j) ==> i == j
    ensures |x| <= 2
  {
    var zeros, ones := set i | i in x && f(i) == 0, set i | i in x && f(i) == 1;
    AtMostOne(zeros);
    AtMostOne(ones);
    assert x == zeros + ones;
  }

  /** In every reachable state at most one beat is active; every publication belongs to a beat whose opening probe was
      true; a beat has published at most twice; and its publications share one logical beat and one idempotency key. */
  lemma HeartbeatSafety(key: (int, nat) -> Bytes, events: seq<Event>)
    ensures var s := Run(key, INITIAL, events);
            && |ActiveBeats(s)| <= 1
            && (forall k :: 0 <= k < |s.publishes| ==>
                s.publishes[k].beat < |s.beats| && s.beats[s.publishes[k].beat].opening == Some(true))
            && (forall i: nat :: |PublishesOf(s, i)| <= 2)
            && (forall k, l | 0 <= k < |s.publishes| && 0 <= l < |s.publishes| ::
                  s.publishes[k].beat == s.publishes[l].beat ==>
                    && s.publishes[k].logical == s.publishes[l].logical
                    && (s.publishes[k].phase.Posted? && s.publishes[l].phase.Posted? ==>
                          s.publishes[k].phase.key == s.publishes[l].phase.key))
  {
    EveryRunKeeps(key, INITIAL, events);
    var s := Run(key, INITIAL, events);
    AtMostOne(ActiveBeats(s));
    forall k | 0 <= k < |s.publishes|
      ensures s.publishes[k].beat < |s.beats| && s.beats[s.publishes[k].beat].opening == Some(true)
              && s.publishes[k].attempt <= 1
      ensures s.publishes[k].logical == s.beats[s.publishes[k].beat].logical
    {
      assert PublishOk(s, k);
    }
    forall i: nat
      ensures |PublishesOf(s, i)| <= 2
    {
      var attempt := (k: nat) => if k < |s.publishes| then s.publishes[k].attempt else 0;
      assert forall k :: k in PublishesOf(s, i) ==> attempt(k) == s.publishes[k].attempt;
      AtMostTwo(PublishesOf(s, i), attempt);
    }
  }

  // ----- After stop -----

  lemma StoppedStep(key: (int, nat) -> Bytes, s: State, e: Event)
    requires s.stopped
    ensures Next(key, s, e).stopped && |Next(key, s, e).publishes| == |s.publishes|
            && |Next(key, s, e).beats| == |s.beats|
  {
  }

  /** Once stopped, no interleaving starts another publication or another beat. */
  lemma {:induction false} NothingAfterStop(key: (int, nat) -> Bytes, s: State, events: seq<Event>)
    requires s.stopped
    ensures var t := Run(key, s, events);
            t.stopped && |t.publishes| == |s.publishes| && |t.beats| == |s.beats|
    decreases |events|
  {
    if events != [] {
      StoppedStep(key, s, events[0]);
      NothingAfterStop(key, Next(key, s, events[0]), events[1..]);
    }
  }

  // ----- The second probe -----

  /** The probe after a failed first attempt decides only whether to wait: with or without it the retry publishes,
      unless the loop was stopped. */
  lemma SecondProbeGatesOnlyTheDelay(key: (int, nat) -> Bytes, s: State, i: nat)
    requires At(s, i, Reprobing) && !s.stopped
    ensures var unhealthy := Next(key, s, ReprobeSettles(i, Some(false)));
            var healthy := Next(key, Next(key, s, ReprobeSettles(i, Some(true))), DelayEnds(i));
            unhealthy == healthy == StartPublish(s, i, 1) && |unhealthy.publishes| == |s.publishes| + 1
  {
    var waiting := Next(key, s, ReprobeSettles(i, Some(true)));
    assert waiting == SetPhase(s, i, Delaying);
    assert StartPublish(waiting, i, 1).beats == StartPublish(s, i, 1).beats;
  }
}
