/** Workers running `runWorker` against the network gate, in any interleaving, and
    what every such run keeps. */
module NetworkWorkers {
  import opened Basics
  import opened NetworkGate

  const VK_SLOTS := 2

  /** What is left of the loop body after the permit is released. */
  datatype Rest = Leave | Retry | FetchFailed | SessionEnded

  /** Where a worker stands in runWorker. */
  datatype Pc =
    | Staggering
    | AtGate                                                    // loop top
    | Parked(channel: nat, timer: Option<int>, since: nat)      // `since`: generation when it parked
    | WantVk(permit: Permit)
    | Fetching(permit: Permit)                                  // holds a vkSemaphore token
    | Fetched(permit: Permit, ok: bool)
    | Connecting(permit: Permit)                                // runWithCreds
    | Releasing(permit: Permit, rest: Rest)
    | Deciding(probe: bool, rest: Rest)
    | Delay
    | Exited

  datatype Worker = Worker(pc: Pc, taken: nat, returned: nat)

  datatype World = World(
    gate: Gate,
    clock: int,
    ctxDone: bool,
    workers: seq<Worker>,
    vk: nat,                      // tokens in vkSemaphore
    otherVk: nat,                 // of these, held by the startup prefetch
    lastClaim: Option<int>)       // latest probe claim since the rate limit was last reset

  datatype Action =
    | Tick(t: int)
    | Validate(validated: bool)
    | Prove(generation: nat)
    | NewGeneration
    | CancelCtx
    | OtherTakesVk
    | OtherReturnsVk
    | OfWorker(w: nat, e: WorkerEvent)

  datatype WorkerEvent =
    | StaggerOver
    | EnterGate
    | WakeByChannel
    | WakeByTimer
    | TakeVk
    | FetchReturns(ok: bool)
    | AfterFetch
    | SessionReturns
    | Release
    | Decide
    | DelayOver
    | ObserveCtx

  function Start(workers: nat, now: int, otherVk: nat): World
    requires otherVk <= VK_SLOTS
  {
    World(InitialGate, now, false, seq(workers, _ => Worker(Staggering, 0, 0)), otherVk, otherVk, None)
  }

  /** Control flow of one worker: its next program counter, given the gate, the
      clock and the context. `EnterGate` and `Release` are in EntryPc and Step. */
  function NextPc(pc: Pc, e: WorkerEvent, gate: Gate, clock: int, ctxDone: bool): Option<Pc> {
    match (pc, e)
    case (Staggering, StaggerOver) => Some(AtGate)
    case (Parked(c, t, g), WakeByChannel) => if c in gate.closed then Some(AtGate) else None
    case (Parked(c, t, g), WakeByTimer) => if t.Some? && t.value <= clock then Some(AtGate) else None
    case (WantVk(p), TakeVk) => Some(Fetching(p))
    case (Fetching(p), FetchReturns(ok)) => Some(Fetched(p, ok))
    case (Fetched(p, ok), AfterFetch) =>
      if !ok then Some(Releasing(p, FetchFailed))
      else if !p.probe && !Available(gate, clock) then Some(Releasing(p, Retry))
      else Some(Connecting(p))
    case (Connecting(p), SessionReturns) => Some(Releasing(p, SessionEnded))
    case (Deciding(probe, rest), Decide) =>
      Some(match rest
           case Leave => Exited
           case Retry => AtGate
           case FetchFailed =>
             if ctxDone then Exited else if !probe && !Available(gate, clock) then AtGate else Delay
           case SessionEnded =>
             if ctxDone then Exited else if !Available(gate, clock) then AtGate else Delay)
    case (Delay, DelayOver) => Some(AtGate)
    case (Staggering, ObserveCtx) => if ctxDone then Some(Exited) else None
    case (Parked(c, t, g), ObserveCtx) => if ctxDone then Some(Exited) else None
    case (WantVk(p), ObserveCtx) => if ctxDone then Some(Releasing(p, Leave)) else None
    case (Delay, ObserveCtx) => if ctxDone then Some(Exited) else None
    case _ => None
  }

  function EntryPc(entry: Entry, generation: nat): Pc {
    match entry
    case Granted(p) => WantVk(p)
    case Park(c, t) => Parked(c, t, generation)
  }

  function VkAfter(vk: nat, e: WorkerEvent): nat {
    if e.TakeVk? then vk + 1 else if e.FetchReturns? && vk > 0 then vk - 1 else vk
  }

  /** One step of worker `w`. */
  function WorkerStep(s: World, w: nat, e: WorkerEvent): Option<World> {
    if w >= |s.workers| then None
    else
      var k := s.workers[w];
      match e
      case EnterGate =>
        if !k.pc.AtGate? then None
        else
          var (gate, entry) := TryPermit(s.gate, s.clock, true);
          Some(s.(gate := gate,
                  workers := s.workers[w := Worker(EntryPc(entry, s.gate.generation),
                                                   k.taken + (if entry.Granted? then 1 else 0), k.returned)],
                  lastClaim := if entry.Granted? && entry.permit.probe then Some(s.clock) else s.lastClaim))
      case Release =>
        if !k.pc.Releasing? then None
        else
          Some(s.(gate := ReleasePermit(s.gate, k.pc.permit),
                  workers := s.workers[w := Worker(Deciding(k.pc.permit.probe, k.pc.rest), k.taken, k.returned + 1)]))
      case _ =>
        if NextPc(k.pc, e, s.gate, s.clock, s.ctxDone).None? then None
        else if e.TakeVk? && s.vk >= VK_SLOTS then None
        else if e.FetchReturns? && s.vk == 0 then None
        else
          Some(s.(vk := VkAfter(s.vk, e),
                  workers := s.workers[w := k.(pc := NextPc(k.pc, e, s.gate, s.clock, s.ctxDone).value)]))
  }

  function Step(s: World, a: Action): Option<World> {
    match a
    case Tick(t) => if t >= s.clock then Some(s.(clock := t)) else None
    case Validate(v) =>
      Some(s.(gate := SetAvailable(s.gate, s.clock, v), lastClaim := if v then None else s.lastClaim))
    case Prove(g) =>
      Some(s.(gate := MarkProven(s.gate, s.clock, g),
              lastClaim := if g == s.gate.generation then None else s.lastClaim))
    case NewGeneration => Some(s.(gate := BeginGeneration(s.gate), lastClaim := None))
    case CancelCtx => Some(s.(ctxDone := true))
    case OtherTakesVk => if s.vk < VK_SLOTS then Some(s.(vk := s.vk + 1, otherVk := s.otherVk + 1)) else None
    case OtherReturnsVk =>
      if s.otherVk > 0 && s.vk > 0 then Some(s.(vk := s.vk - 1, otherVk := s.otherVk - 1)) else None
    case OfWorker(w, e) => WorkerStep(s, w, e)
  }

  // ---------------------------------------------------------------- the invariant

  function PermitOf(k: Worker): Option<Permit> {
    match k.pc
    case WantVk(p) => Some(p)
    case Fetching(p) => Some(p)
    case Fetched(p, _) => Some(p)
    case Connecting(p) => Some(p)
    case Releasing(p, _) => Some(p)
    case _ => None
  }

  predicate HoldsProbe(k: Worker, id: nat) {
    PermitOf(k) == Some(Permit(true, id))
  }

  predicate HoldsVk(k: Worker) {
    k.pc.Fetching?
  }

  ghost predicate ChannelInv(s: World) {
    && (forall c :: c in s.gate.closed <==> 0 <= c < s.gate.channel)
    && (forall w :: 0 <= w < |s.workers| && s.workers[w].pc.Parked? ==> s.workers[w].pc.channel <= s.gate.channel)
  }

  /** Worker `k` is blocked on the channel nobody has closed yet. */
  predicate Blocked(k: Worker, g: Gate) {
    k.pc.Parked? && k.pc.channel == g.channel
  }

  ghost predicate WakeInv(s: World) {
    Available(s.gate, s.clock) ==> forall w :: 0 <= w < |s.workers| ==> !Blocked(s.workers[w], s.gate)
  }

  ghost predicate ProbeInv(s: World) {
    && (forall w, id: nat :: 0 <= w < |s.workers| && HoldsProbe(s.workers[w], id) ==> id <= s.gate.probeId)
    && (forall v, w, id: nat ::
          0 <= v < |s.workers| && 0 <= w < |s.workers| && HoldsProbe(s.workers[v], id) && HoldsProbe(s.workers[w], id)
          ==> v == w)
    && (s.gate.busy ==> exists w :: 0 <= w < |s.workers| && HoldsProbe(s.workers[w], s.gate.probeId))
  }

  ghost predicate TimeInv(s: World) {
    && (s.lastClaim.Some? ==> s.lastClaim.value <= s.clock)
    && s.gate.nextProbe == (if s.lastClaim.Some? then Some(s.lastClaim.value + PROBE_INTERVAL) else None)
    && (s.gate.provenUntil.Some? ==> s.gate.provenUntil.value <= s.clock + PROOF_TTL)
    && (forall w :: 0 <= w < |s.workers| && s.workers[w].pc.Parked? && s.workers[w].pc.timer.Some? ==>
          s.workers[w].pc.timer.value <= s.clock + PROBE_INTERVAL)
  }

  ghost predicate CoverInv(s: World) {
    forall w :: 0 <= w < |s.workers| && Blocked(s.workers[w], s.gate) ==>
      && s.workers[w].pc.since <= s.gate.generation
      && (s.workers[w].pc.timer.None? && s.workers[w].pc.since == s.gate.generation ==> s.gate.busy)
  }

  ghost predicate BalanceInv(s: World) {
    && (forall w :: 0 <= w < |s.workers| ==>
          s.workers[w].taken == s.workers[w].returned + (if PermitOf(s.workers[w]).Some? then 1 else 0))
    && s.vk == s.otherVk + Tally(s.workers, HoldsVk) && s.vk <= VK_SLOTS
  }

  ghost predicate Inv(s: World) {
    ChannelInv(s) && WakeInv(s) && ProbeInv(s) && TimeInv(s) && CoverInv(s) && BalanceInv(s)
  }

  // ---------------------------------------------------------------- preservation

  lemma StartInv(workers: nat, now: int, otherVk: nat)
    requires otherVk <= VK_SLOTS
    ensures Inv(Start(workers, now, otherVk))
  {
    TallyBounds(Start(workers, now, otherVk).workers, HoldsVk);
  }

  lemma GateStepKeepsChannels(s: World, w: nat, e: WorkerEvent)
    requires ChannelInv(s) && WorkerStep(s, w, e).Some? && (e.EnterGate? || e.Release?)
    ensures ChannelInv(WorkerStep(s, w, e).value)
  {
  }

  lemma GateStepKeepsWake(s: World, w: nat, e: WorkerEvent)
    requires ChannelInv(s) && WakeInv(s) && WorkerStep(s, w, e).Some? && (e.EnterGate? || e.Release?)
    ensures WakeInv(WorkerStep(s, w, e).value)
  {
  }

  lemma GateStepKeepsTime(s: World, w: nat, e: WorkerEvent)
    requires TimeInv(s) && WorkerStep(s, w, e).Some? && (e.EnterGate? || e.Release?)
    ensures TimeInv(WorkerStep(s, w, e).value)
  {
  }

  /** What a worker does inside the gate's critical sections keeps the gate's part. */
  lemma GateStepKeepsGate(s: World, w: nat, e: WorkerEvent)
    requires ChannelInv(s) && WakeInv(s) && TimeInv(s) && CoverInv(s)
    requires WorkerStep(s, w, e).Some? && (e.EnterGate? || e.Release?)
    ensures var t := WorkerStep(s, w, e).value; ChannelInv(t) && WakeInv(t) && TimeInv(t) && CoverInv(t)
  {
    GateStepKeepsChannels(s, w, e);
    GateStepKeepsWake(s, w, e);
    GateStepKeepsTime(s, w, e);
    GateStepKeepsCover(s, w, e);
  }

  lemma GateStepKeepsCover(s: World, w: nat, e: WorkerEvent)
    requires ChannelInv(s) && CoverInv(s) && WorkerStep(s, w, e).Some? && (e.EnterGate? || e.Release?)
    ensures CoverInv(WorkerStep(s, w, e).value)
  {
  }

  /** Outside the gate's critical sections a worker keeps the permit it has. */
  lemma PermitKept(pc: Pc, e: WorkerEvent, gate: Gate, clock: int, ctxDone: bool)
    requires NextPc(pc, e, gate, clock, ctxDone).Some?
    ensures var next := NextPc(pc, e, gate, clock, ctxDone).value;
      && PermitOf(Worker(next, 0, 0)) == PermitOf(Worker(pc, 0, 0))
      && (pc.Fetching? <==> e.FetchReturns?) && (next.Fetching? <==> e.TakeVk?)
      && !next.Parked?
  {
  }

  /** A step of worker `w` away from the gate: only its own record and the
      credential semaphore change. */
  ghost predicate Away(s: World, t: World, w: nat, e: WorkerEvent) {
    && w < |s.workers| == |t.workers|
    && var k, l := s.workers[w], t.workers[w];
    && t == s.(workers := s.workers[w := l], vk := VkAfter(s.vk, e))
    && PermitOf(l) == PermitOf(k) && l.taken == k.taken && l.returned == k.returned && !l.pc.Parked?
    && (HoldsVk(k) <==> e.FetchReturns?) && (HoldsVk(l) <==> e.TakeVk?)
    && (e.TakeVk? ==> s.vk < VK_SLOTS) && (e.FetchReturns? ==> s.vk > 0)
  }

  lemma StepIsAway(s: World, w: nat, e: WorkerEvent)
    requires WorkerStep(s, w, e).Some? && !e.EnterGate? && !e.Release?
    ensures Away(s, WorkerStep(s, w, e).value, w, e)
  {
    PermitKept(s.workers[w].pc, e, s.gate, s.clock, s.ctxDone);
  }

  lemma AwayKeepsProbe(s: World, t: World, w: nat, e: WorkerEvent)
    requires ProbeInv(s) && Away(s, t, w, e)
    ensures ProbeInv(t)
  {
    assert forall v, id: nat :: 0 <= v < |s.workers| ==> HoldsProbe(t.workers[v], id) == HoldsProbe(s.workers[v], id);
    if s.gate.busy {
      var v :| 0 <= v < |s.workers| && HoldsProbe(s.workers[v], s.gate.probeId);
      assert HoldsProbe(t.workers[v], t.gate.probeId);
    }
  }

  lemma AwayKeepsInv(s: World, t: World, w: nat, e: WorkerEvent)
    requires Inv(s) && Away(s, t, w, e)
    ensures Inv(t)
  {
    AwayKeepsProbe(s, t, w, e);
    TallyUpdate(s.workers, w, t.workers[w], HoldsVk);
  }

  lemma GateStepKeepsBalance(s: World, w: nat, e: WorkerEvent)
    requires BalanceInv(s) && WorkerStep(s, w, e).Some? && (e.EnterGate? || e.Release?)
    ensures BalanceInv(WorkerStep(s, w, e).value)
  {
    TallyUpdate(s.workers, w, WorkerStep(s, w, e).value.workers[w], HoldsVk);
  }

  lemma EnterKeepsProbe(s: World, w: nat)
    requires ProbeInv(s) && WorkerStep(s, w, EnterGate).Some?
    ensures ProbeInv(WorkerStep(s, w, EnterGate).value)
  {
    var t := WorkerStep(s, w, EnterGate).value;
    if t.gate == s.gate && s.gate.busy {
      var v :| 0 <= v < |s.workers| && HoldsProbe(s.workers[v], s.gate.probeId);
      assert HoldsProbe(t.workers[v], t.gate.probeId);
    } else if t.gate.busy {
      assert HoldsProbe(t.workers[w], t.gate.probeId);
    }
  }

  lemma ReleaseKeepsProbe(s: World, w: nat)
    requires ProbeInv(s) && WorkerStep(s, w, Release).Some?
    ensures ProbeInv(WorkerStep(s, w, Release).value)
  {
    var t := WorkerStep(s, w, Release).value;
    if t.gate.busy {
      var v :| 0 <= v < |s.workers| && HoldsProbe(s.workers[v], s.gate.probeId);
      assert HoldsProbe(t.workers[v], t.gate.probeId);
    }
  }

  lemma WorkerKeepsInv(s: World, w: nat, e: WorkerEvent)
    requires Inv(s) && WorkerStep(s, w, e).Some?
    ensures Inv(WorkerStep(s, w, e).value)
  {
    match e
    case EnterGate =>
      GateStepKeepsGate(s, w, e);
      GateStepKeepsBalance(s, w, e);
      EnterKeepsProbe(s, w);
    case Release =>
      GateStepKeepsGate(s, w, e);
      GateStepKeepsBalance(s, w, e);
      ReleaseKeepsProbe(s, w);
    case _ =>
      StepIsAway(s, w, e);
      AwayKeepsInv(s, WorkerStep(s, w, e).value, w, e);
  }

  lemma ValidateKeepsInv(s: World, v: bool)
    requires Inv(s)
    ensures Inv(Step(s, Validate(v)).value)
  {
  }

  lemma ProveKeepsInv(s: World, g: nat)
    requires Inv(s)
    ensures Inv(Step(s, Prove(g)).value)
  {
  }

  lemma NewGenerationKeepsInv(s: World)
    requires Inv(s)
    ensures Inv(Step(s, NewGeneration).value)
  {
  }

  lemma SurroundingsKeepInv(s: World, a: Action)
    requires Inv(s) && Step(s, a).Some? && (a.Tick? || a.CancelCtx? || a.OtherTakesVk? || a.OtherReturnsVk?)
    ensures Inv(Step(s, a).value)
  {
  }

  lemma StepKeepsInv(s: World, a: Action)
    requires Inv(s) && Step(s, a).Some?
    ensures Inv(Step(s, a).value)
  {
    match a
    case OfWorker(w, e) => WorkerKeepsInv(s, w, e);
    case Validate(v) => ValidateKeepsInv(s, v);
    case Prove(g) => ProveKeepsInv(s, g);
    case NewGeneration => NewGenerationKeepsInv(s);
    case _ => SurroundingsKeepInv(s, a);
  }

  lemma RunKeepsInv(s: World, schedule: seq<Action>)
    requires Inv(s) && Run(Step, s, schedule).Some?
    ensures Inv(Run(Step, s, schedule).value)
  {
    forall t, a | Inv(t) && Step(t, a).Some? ensures Inv(Step(t, a).value) {
      StepKeepsInv(t, a);
    }
    RunKeeps(Step, t => Inv(t), s, schedule);
  }
}
