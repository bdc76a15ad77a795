/** What the gate and its workers guarantee in every run. */
module NetworkResults {
  import opened Arithmetic
  import opened Basics
  import opened NetworkGate
  import opened NetworkWorkers

  ghost predicate Reached(workers: nat, now: int, otherVk: nat, schedule: seq<Action>, s: World) {
    otherVk <= VK_SLOTS && Run(Step, Start(workers, now, otherVk), schedule) == Some(s)
  }

  lemma ReachedInv(workers: nat, now: int, otherVk: nat, schedule: seq<Action>, s: World)
    requires Reached(workers, now, otherVk, schedule, s)
    ensures Inv(s)
  {
    StartInv(workers, now, otherVk);
    RunKeepsInv(Start(workers, now, otherVk), schedule);
  }

  // ---------------------------------------------------------------- the probe

  /** While a probe is marked busy, exactly one worker holds the permit for it. */
  lemma ProbeHasOneHolder(workers: nat, now: int, otherVk: nat, schedule: seq<Action>, s: World)
    requires Reached(workers, now, otherVk, schedule, s) && s.gate.busy
    ensures exists w ::
      && 0 <= w < |s.workers| && HoldsProbe(s.workers[w], s.gate.probeId)
      && (forall v :: 0 <= v < |s.workers| && HoldsProbe(s.workers[v], s.gate.probeId) ==> v == w)
  {
    ReachedInv(workers, now, otherVk, schedule, s);
  }

  /** Releasing a permit that is not the current probe's leaves the gate as it is,
      so the current probe stays with its holder; releasing the current one frees
      the probe and closes the channel blocked workers wait on. */
  lemma ReleaseIsExact(workers: nat, now: int, otherVk: nat, schedule: seq<Action>, s: World, w: nat)
    requires Reached(workers, now, otherVk, schedule, s)
    requires WorkerStep(s, w, Release).Some?
    ensures var t := WorkerStep(s, w, Release).value;
      if s.gate.busy && HoldsProbe(s.workers[w], s.gate.probeId)
      then !t.gate.busy && s.gate.channel in t.gate.closed
      else t.gate == s.gate && forall v, id: nat :: 0 <= v < |s.workers| && v != w ==>
             HoldsProbe(t.workers[v], id) == HoldsProbe(s.workers[v], id)
  {
    ReachedInv(workers, now, otherVk, schedule, s);
  }

  /** Step `a` makes a worker the holder of a fresh probe. */
  predicate ClaimsProbe(s: World, a: Action) {
    && a.OfWorker? && a.e.EnterGate? && a.w < |s.workers| && s.workers[a.w].pc.AtGate?
    && !Available(s.gate, s.clock) && MayProbe(s.gate, s.clock)
  }

  /** Validation, an accepted proof, or a new generation: what lifts the rate limit. */
  predicate LiftsLimit(s: World, a: Action) {
    a == Validate(true) || a == Prove(s.gate.generation) || a.NewGeneration?
  }

  lemma {:induction false} PrefixRuns(s: World, schedule: seq<Action>, k: nat)
    requires Run(Step, s, schedule).Some? && k <= |schedule|
    ensures Run(Step, s, schedule[..k]).Some?
  {
    if k == |schedule| {
      assert schedule[..k] == schedule;
    } else {
      var n := |schedule| - 1;
      PrefixRuns(s, schedule[..n], k);
      assert schedule[..n][..k] == schedule[..k];
    }
  }

  /** The world in which action `k` of the schedule happens. */
  function At(s: World, schedule: seq<Action>, k: nat): Option<World>
    requires k <= |schedule|
  {
    Run(Step, s, schedule[..k])
  }

  lemma AtNext(s: World, schedule: seq<Action>, k: nat)
    requires k < |schedule| && At(s, schedule, k + 1).Some?
    ensures At(s, schedule, k).Some? && Step(At(s, schedule, k).value, schedule[k]) == At(s, schedule, k + 1)
  {
    assert schedule[..k + 1][..k] == schedule[..k];
  }

  /** Nothing lifts the limit strictly between actions `j` and `k`. */
  ghost predicate NothingLifts(s: World, schedule: seq<Action>, j: nat, k: nat)
    requires k <= |schedule|
  {
    k <= j + 1
    || (NothingLifts(s, schedule, j, k - 1) && At(s, schedule, k - 1).Some?
        && !LiftsLimit(At(s, schedule, k - 1).value, schedule[k - 1]))
  }

  lemma {:induction false} NothingLiftsBetween(s: World, schedule: seq<Action>, j: nat, k: nat)
    requires k <= |schedule|
    requires forall i :: j < i < k ==> At(s, schedule, i).Some? && !LiftsLimit(At(s, schedule, i).value, schedule[i])
    ensures NothingLifts(s, schedule, j, k)
  {
    if k > j + 1 {
      NothingLiftsBetween(s, schedule, j, k - 1);
    }
  }

  lemma TimeAt(s: World, schedule: seq<Action>, k: nat)
    requires Inv(s) && k <= |schedule| && At(s, schedule, k).Some?
    ensures TimeInv(At(s, schedule, k).value)
  {
    RunKeepsInv(s, schedule[..k]);
  }

  lemma ClaimIsStamped(s: World, a: Action)
    requires ClaimsProbe(s, a) && Step(s, a).Some?
    ensures Step(s, a).value.lastClaim == Some(s.clock)
  {
  }

  lemma StepKeepsClaim(s: World, a: Action, t0: int)
    requires Step(s, a).Some? && TimeInv(s) && !LiftsLimit(s, a)
    requires s.lastClaim.Some? && s.lastClaim.value >= t0
    ensures Step(s, a).value.lastClaim.Some? && Step(s, a).value.lastClaim.value >= t0
  {
  }

  /** The latest claim is at `t0` or later. */
  predicate ClaimedSince(w: Option<World>, t0: int) {
    w.Some? && w.value.lastClaim.Some? && w.value.lastClaim.value >= t0
  }

  lemma ClaimStaysRemembered(s: World, schedule: seq<Action>, k: nat, t0: int)
    requires Inv(s) && k < |schedule| && Run(Step, s, schedule).Some?
    requires ClaimedSince(At(s, schedule, k), t0) && !LiftsLimit(At(s, schedule, k).value, schedule[k])
    ensures ClaimedSince(At(s, schedule, k + 1), t0)
  {
    PrefixRuns(s, schedule, k + 1);
    AtNext(s, schedule, k);
    TimeAt(s, schedule, k);
    StepKeepsClaim(At(s, schedule, k).value, schedule[k], t0);
  }

  lemma ClaimIsRemembered(s: World, schedule: seq<Action>, j: nat)
    requires j < |schedule| && Run(Step, s, schedule).Some?
    requires At(s, schedule, j).Some? && ClaimsProbe(At(s, schedule, j).value, schedule[j])
    ensures ClaimedSince(At(s, schedule, j + 1), At(s, schedule, j).value.clock)
  {
    PrefixRuns(s, schedule, j + 1);
    AtNext(s, schedule, j);
    ClaimIsStamped(At(s, schedule, j).value, schedule[j]);
  }

  lemma {:induction false} ClaimRemembered(s: World, schedule: seq<Action>, j: nat, k: nat, t0: int)
    requires Inv(s) && j < k <= |schedule| && Run(Step, s, schedule).Some?
    requires ClaimedSince(At(s, schedule, j + 1), t0) && NothingLifts(s, schedule, j, k)
    ensures ClaimedSince(At(s, schedule, k), t0)
  {
    if k > j + 1 {
      ClaimRemembered(s, schedule, j, k - 1, t0);
      ClaimStaysRemembered(s, schedule, k - 1, t0);
    }
  }

  /** Two probe claims with no validation, accepted proof or new generation between
      them are at least a minute apart, whatever else happens in between. */
  lemma ProbesAreSpaced(s: World, schedule: seq<Action>, j: nat, k: nat)
    requires Inv(s) && j < k < |schedule| && Run(Step, s, schedule).Some?
    requires At(s, schedule, j).Some? && ClaimsProbe(At(s, schedule, j).value, schedule[j])
    requires At(s, schedule, k).Some? && ClaimsProbe(At(s, schedule, k).value, schedule[k])
    requires forall i :: j < i < k ==> At(s, schedule, i).Some? && !LiftsLimit(At(s, schedule, i).value, schedule[i])
    ensures At(s, schedule, k).value.clock >= At(s, schedule, j).value.clock + 60 * SECOND
  {
    NothingLiftsBetween(s, schedule, j, k);
    ClaimIsRemembered(s, schedule, j);
    ClaimRemembered(s, schedule, j, k, At(s, schedule, j).value.clock);
    TimeAt(s, schedule, k);
  }

  // ---------------------------------------------------------------- permits

  /** A worker owes the gate a release exactly while it is between taking a permit
      and giving it back: on every path out it has released all it took, and while
      it runs at most one is out. */
  lemma PermitsAreReturned(workers: nat, now: int, otherVk: nat, schedule: seq<Action>, s: World, w: nat)
    requires Reached(workers, now, otherVk, schedule, s) && w < |s.workers|
    ensures s.workers[w].returned <= s.workers[w].taken <= s.workers[w].returned + 1
    ensures s.workers[w].pc.AtGate? || s.workers[w].pc.Parked? || s.workers[w].pc.Delay? || s.workers[w].pc.Exited? ==>
      s.workers[w].taken == s.workers[w].returned
    ensures s.workers[w].taken > s.workers[w].returned ==> PermitOf(s.workers[w]).Some?
  {
    ReachedInv(workers, now, otherVk, schedule, s);
  }

  /** The credential semaphore holds one token for each worker inside fetchCreds
      and for each prefetch, never more than two; giving one back never blocks. */
  lemma VkTokensBalance(workers: nat, now: int, otherVk: nat, schedule: seq<Action>, s: World, w: nat)
    requires Reached(workers, now, otherVk, schedule, s) && w < |s.workers|
    ensures s.vk == s.otherVk + Tally(s.workers, HoldsVk) && s.vk <= 2
    ensures s.workers[w].pc.Fetching? ==> forall ok :: WorkerStep(s, w, FetchReturns(ok)).Some?
  {
    ReachedInv(workers, now, otherVk, schedule, s);
    TallyBounds(s.workers, HoldsVk);
  }

  // ---------------------------------------------------------------- broadcasts

  /** Each step closes no channel, or the current one, which was never closed. */
  lemma ChannelsCloseOnce(workers: nat, now: int, otherVk: nat, schedule: seq<Action>, s: World, a: Action)
    requires Reached(workers, now, otherVk, schedule, s) && Step(s, a).Some?
    ensures var t := Step(s, a).value;
      if t.gate.channel == s.gate.channel then t.gate.closed == s.gate.closed
      else && s.gate.channel !in s.gate.closed && t.gate.closed == s.gate.closed + {s.gate.channel}
           && t.gate.channel !in t.gate.closed
  {
    ReachedInv(workers, now, otherVk, schedule, s);
  }

  /** A step that takes the gate from closed to open closes the channel every
      blocked worker waits on, so each of them can wake. */
  lemma OpeningWakesAll(workers: nat, now: int, otherVk: nat, schedule: seq<Action>, s: World, a: Action, w: nat)
    requires Reached(workers, now, otherVk, schedule, s) && Step(s, a).Some? && w < |s.workers|
    requires !Available(s.gate, s.clock) && Available(Step(s, a).value.gate, Step(s, a).value.clock)
    ensures s.gate.channel in Step(s, a).value.gate.closed
    ensures s.workers[w].pc.Parked? ==> WorkerStep(Step(s, a).value, w, WakeByChannel).Some?
  {
    ReachedInv(workers, now, otherVk, schedule, s);
    StepKeepsInv(s, a);
    OpeningSignals(s, a);
  }

  lemma OpeningSignals(s: World, a: Action)
    requires Step(s, a).Some?
    requires !Available(s.gate, s.clock) && Available(Step(s, a).value.gate, Step(s, a).value.clock)
    ensures s.gate.channel in Step(s, a).value.gate.closed
    ensures Step(s, a).value.workers == s.workers
  {
  }

  /** No wakeup is lost: whenever the gate is open, every parked worker can go on. */
  lemma NoLostWakeup(workers: nat, now: int, otherVk: nat, schedule: seq<Action>, s: World, w: nat)
    requires Reached(workers, now, otherVk, schedule, s) && w < |s.workers|
    requires Available(s.gate, s.clock) && s.workers[w].pc.Parked?
    ensures WorkerStep(s, w, WakeByChannel).Some?
  {
    ReachedInv(workers, now, otherVk, schedule, s);
  }

  /** The proof of TURN reachability changes only by a proof that carries the
      current generation, or by the start of a new generation. */
  lemma OnlyCurrentProofCounts(s: World, a: Action)
    requires Step(s, a).Some? && Step(s, a).value.gate.provenUntil != s.gate.provenUntil
    ensures a == Prove(s.gate.generation) || a.NewGeneration?
  {
  }

  /** A token from an earlier generation is refused for the rest of the run. */
  lemma {:induction false} StaleTokenIsRefused(s: World, schedule: seq<Action>, token: nat)
    requires Run(Step, s, schedule).Some? && token < s.gate.generation
    ensures var t := Run(Step, s, schedule).value;
      t.gate.generation >= s.gate.generation && MarkProven(t.gate, t.clock, token) == t.gate
  {
    if schedule != [] {
      var k := |schedule| - 1;
      StaleTokenIsRefused(s, schedule[..k], token);
      GenerationGrows(Run(Step, s, schedule[..k]).value, schedule[k]);
    }
  }

  lemma GenerationGrows(s: World, a: Action)
    requires Step(s, a).Some?
    ensures if a.NewGeneration? then Step(s, a).value.gate.generation > s.gate.generation
            else Step(s, a).value.gate.generation == s.gate.generation
  {
  }

  // ---------------------------------------------------------------- who wakes a parked worker

  /** Worker `w` is blocked without a timer and no probe is running whose release
      would wake it. */
  predicate Uncovered(s: World, w: nat) {
    w < |s.workers| && Blocked(s.workers[w], s.gate) && s.workers[w].pc.timer.None? && !s.gate.busy
  }

  /** A step leaves a worker without anybody to wake it exactly if it starts a new
      generation while that worker waits, without a timer, for the running probe. */
  lemma StrandedExactly(workers: nat, now: int, otherVk: nat, schedule: seq<Action>, s: World, a: Action, w: nat)
    requires Reached(workers, now, otherVk, schedule, s) && Step(s, a).Some?
    ensures Uncovered(Step(s, a).value, w) && !Uncovered(s, w)
      <==> a.NewGeneration? && w < |s.workers| && Blocked(s.workers[w], s.gate)
           && s.workers[w].pc.timer.None? && s.gate.busy
  {
    ReachedInv(workers, now, otherVk, schedule, s);
    if a.OfWorker? && !Uncovered(s, w) {
      WorkerStrandsNobody(s, a.w, a.e, w);
    }
  }

  lemma WorkerStrandsNobody(s: World, v: nat, e: WorkerEvent, w: nat)
    requires Inv(s) && WorkerStep(s, v, e).Some? && !Uncovered(s, w)
    ensures !Uncovered(WorkerStep(s, v, e).value, w)
  {
    if !e.EnterGate? && !e.Release? {
      StepIsAway(s, v, e);
    }
  }

  /** A run in which that happens: the second worker stays blocked on an open
      channel, without a timer, though a probe could be claimed. */
  lemma StrandingRun() returns (schedule: seq<Action>, s: World)
    ensures Reached(2, 0, 0, schedule, s) && Uncovered(s, 1) && MayProbe(s.gate, s.clock)
    ensures forall e :: WorkerStep(s, 1, e).None?
  {
    var a0 := Validate(false);
    var a1 := OfWorker(0, StaggerOver);
    var a2 := OfWorker(0, EnterGate);
    var a3 := OfWorker(1, StaggerOver);
    var a4 := OfWorker(1, EnterGate);
    var s0 := Start(2, 0, 0);
    var s1 := Step(s0, a0).value;
    var s2 := Step(s1, a1).value;
    var s3 := Step(s2, a2).value;
    var s4 := Step(s3, a3).value;
    var s5 := Step(s4, a4).value;
    s := Step(s5, NewGeneration).value;
    RunNext(Step, s0, [], a0, s1);
    schedule := [] + [a0];
    RunNext(Step, s0, schedule, a1, s2);
    schedule := schedule + [a1];
    RunNext(Step, s0, schedule, a2, s3);
    schedule := schedule + [a2];
    RunNext(Step, s0, schedule, a3, s4);
    schedule := schedule + [a3];
    RunNext(Step, s0, schedule, a4, s5);
    schedule := schedule + [a4];
    RunNext(Step, s0, schedule, NewGeneration, s);
    schedule := schedule + [NewGeneration];
  }

  /** A parked worker that has a timer is woken by it within a minute. */
  lemma TimersAreShort(workers: nat, now: int, otherVk: nat, schedule: seq<Action>, s: World, w: nat)
    requires Reached(workers, now, otherVk, schedule, s) && w < |s.workers|
    requires s.workers[w].pc.Parked? && s.workers[w].pc.timer.Some?
    ensures WorkerStep(s.(clock := s.clock + 60 * SECOND), w, WakeByTimer).Some?
  {
    ReachedInv(workers, now, otherVk, schedule, s);
  }
}
