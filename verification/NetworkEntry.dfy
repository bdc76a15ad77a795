/** Who passes the gate, read off the history of a run alone: whether it is open, which
    probe is running, and how long ago the last one was claimed. */
module NetworkEntry {
  import opened Arithmetic
  import opened Basics
  import opened NetworkGate
  import opened NetworkWorkers
  import opened NetworkResults
  import opened NetworkHistory

  // ---------------------------------------------------------------- claims

  /** Worker `w` goes from the loop top to a probe permit. */
  predicate GetsProbe(s: World, t: World, w: nat) {
    && w < |s.workers| && w < |t.workers| && s.workers[w].pc.AtGate?
    && t.workers[w].pc.WantVk? && t.workers[w].pc.permit.probe
  }

  /** Action `k` gives its worker a probe. */
  ghost predicate Claim(s: World, schedule: seq<Action>, k: nat)
    requires k < |schedule|
  {
    && schedule[k].OfWorker? && At(s, schedule, k).Some? && At(s, schedule, k + 1).Some?
    && GetsProbe(At(s, schedule, k).value, At(s, schedule, k + 1).value, schedule[k].w)
  }

  /** Since claim `k` nothing up to action `n` has lifted the rate limit. */
  ghost predicate ClaimStands(s: World, schedule: seq<Action>, k: nat, n: nat)
    requires n <= |schedule|
  {
    k < n && Claim(s, schedule, k) && NothingLifts(s, schedule, k, n)
  }

  /** The probe of claim `k` is running: its worker has not released it either. */
  ghost predicate Running(s: World, schedule: seq<Action>, k: nat, n: nat)
    requires n <= |schedule|
  {
    ClaimStands(s, schedule, k, n) && forall j :: k < j < n ==> schedule[j] != OfWorker(schedule[k].w, Release)
  }

  ghost predicate ProbeRuns(s: World, schedule: seq<Action>, n: nat)
    requires n <= |schedule|
  {
    exists k: nat :: Running(s, schedule, k, n)
  }

  /** A standing claim was made less than a minute before `now`. */
  ghost predicate ClaimedLately(s: World, schedule: seq<Action>, n: nat, now: int)
    requires n <= |schedule|
  {
    exists k: nat :: ClaimStands(s, schedule, k, n) && now < At(s, schedule, k).value.clock + 60 * SECOND
  }

  // ---------------------------------------------------------------- one step

  /** What a step does to the probe: a claim, a lifted limit, a release, or nothing. */
  lemma StepTouchesProbe(s: World, a: Action)
    requires Step(s, a).Some? && ProbeInv(s)
    ensures var t := Step(s, a).value;
      if a.OfWorker? && GetsProbe(s, t, a.w) then
        && !LiftsLimit(s, a) && !a.e.Release?
        && !s.gate.busy && t.gate.busy && t.gate.nextProbe == Some(s.clock + 60 * SECOND)
        && t.workers[a.w].pc.permit.id == t.gate.probeId
      else if LiftsLimit(s, a) then
        !t.gate.busy && t.gate.nextProbe.None?
      else
        && t.gate.nextProbe == s.gate.nextProbe && t.gate.probeId == s.gate.probeId
        && t.gate.busy == (s.gate.busy && !(a.OfWorker? && a.e.Release? && HoldsProbe(s.workers[a.w], s.gate.probeId)))
  {
  }

  lemma StepKeepsHolder(s: World, a: Action, w: nat, id: nat)
    requires Step(s, a).Some? && w < |s.workers| && HoldsProbe(s.workers[w], id) && a != OfWorker(w, Release)
    ensures var t := Step(s, a).value; |t.workers| == |s.workers| && HoldsProbe(t.workers[w], id)
    ensures a.OfWorker? && GetsProbe(s, Step(s, a).value, a.w) ==> a.w != w
  {
  }

  lemma StandsNext(s: World, schedule: seq<Action>, k: nat, n: nat)
    requires n < |schedule| && At(s, schedule, n).Some? && At(s, schedule, n + 1).Some?
    ensures ClaimStands(s, schedule, k, n + 1) <==>
      if k == n then Claim(s, schedule, n)
      else ClaimStands(s, schedule, k, n) && !LiftsLimit(At(s, schedule, n).value, schedule[n])
  {
  }

  lemma RunningNext(s: World, schedule: seq<Action>, k: nat, n: nat)
    requires n < |schedule| && At(s, schedule, n).Some? && At(s, schedule, n + 1).Some?
    ensures Running(s, schedule, k, n + 1) <==>
      if k == n then Claim(s, schedule, n)
      else && Running(s, schedule, k, n) && !LiftsLimit(At(s, schedule, n).value, schedule[n])
           && schedule[n] != OfWorker(schedule[k].w, Release)
  {
    StandsNext(s, schedule, k, n);
  }

  lemma StandingIsEarlier(s: World, schedule: seq<Action>, k: nat, n: nat)
    requires n <= |schedule| && At(s, schedule, n).Some? && ClaimStands(s, schedule, k, n)
    ensures At(s, schedule, k).Some? && At(s, schedule, k).value.clock <= At(s, schedule, n).value.clock
  {
    ClockNeverGoesBack(s, schedule, k, n);
  }

  // ---------------------------------------------------------------- the rate limit

  /** The limit stored in the gate is that of the youngest standing claim. */
  ghost predicate LimitIsYoungest(s: World, schedule: seq<Action>, n: nat)
    requires n <= |schedule| && At(s, schedule, n).Some?
  {
    var p := At(s, schedule, n).value.gate.nextProbe;
    && (p.Some? ==> exists k: nat ::
          ClaimStands(s, schedule, k, n) && At(s, schedule, k).value.clock + 60 * SECOND == p.value)
    && (forall k: nat :: ClaimStands(s, schedule, k, n) ==>
          p.Some? && At(s, schedule, k).value.clock + 60 * SECOND <= p.value)
  }

  lemma StandingIsWithin(s: World, schedule: seq<Action>, n: nat, k: nat)
    requires n < |schedule| && At(s, schedule, n).Some? && At(s, schedule, n + 1).Some?
    requires ProbeInv(At(s, schedule, n).value) && LimitIsYoungest(s, schedule, n)
    requires ClaimStands(s, schedule, k, n + 1)
    ensures var p := At(s, schedule, n + 1).value.gate.nextProbe;
      p.Some? && At(s, schedule, k).value.clock + 60 * SECOND <= p.value
  {
    AtNext(s, schedule, n);
    StepTouchesProbe(At(s, schedule, n).value, schedule[n]);
    StandsNext(s, schedule, k, n);
    if k < n {
      StandingIsEarlier(s, schedule, k, n);
    }
  }

  lemma LimitIsAClaims(s: World, schedule: seq<Action>, n: nat) returns (k: nat)
    requires n < |schedule| && At(s, schedule, n).Some? && At(s, schedule, n + 1).Some?
    requires ProbeInv(At(s, schedule, n).value) && LimitIsYoungest(s, schedule, n)
    requires At(s, schedule, n + 1).value.gate.nextProbe.Some?
    ensures ClaimStands(s, schedule, k, n + 1)
    ensures At(s, schedule, k).value.clock + 60 * SECOND == At(s, schedule, n + 1).value.gate.nextProbe.value
  {
    AtNext(s, schedule, n);
    StepTouchesProbe(At(s, schedule, n).value, schedule[n]);
    k := n;
    if !Claim(s, schedule, n) {
      k :| ClaimStands(s, schedule, k, n)
        && At(s, schedule, k).value.clock + 60 * SECOND == At(s, schedule, n).value.gate.nextProbe.value;
    }
    StandsNext(s, schedule, k, n);
  }

  lemma LimitNext(s: World, schedule: seq<Action>, n: nat)
    requires n < |schedule| && At(s, schedule, n).Some? && At(s, schedule, n + 1).Some?
    requires ProbeInv(At(s, schedule, n).value) && LimitIsYoungest(s, schedule, n)
    ensures LimitIsYoungest(s, schedule, n + 1)
  {
    forall k: nat | ClaimStands(s, schedule, k, n + 1)
      ensures var p := At(s, schedule, n + 1).value.gate.nextProbe;
        p.Some? && At(s, schedule, k).value.clock + 60 * SECOND <= p.value
    {
      StandingIsWithin(s, schedule, n, k);
    }
    if At(s, schedule, n + 1).value.gate.nextProbe.Some? {
      var k := LimitIsAClaims(s, schedule, n);
    }
  }

  lemma {:induction false} NextProbeIsYoungest(s: World, schedule: seq<Action>, n: nat)
    requires Inv(s) && s.gate.nextProbe == None && n <= |schedule| && At(s, schedule, n).Some?
    ensures LimitIsYoungest(s, schedule, n)
  {
    if n > 0 {
      AtNext(s, schedule, n - 1);
      NextProbeIsYoungest(s, schedule, n - 1);
      RunKeepsInv(s, schedule[..n - 1]);
      LimitNext(s, schedule, n - 1);
    }
  }

  // ---------------------------------------------------------------- the running probe

  /** The gate counts a probe as busy exactly while one is running, and the worker that
      claimed it holds its permit. */
  ghost predicate BusyIsRunning(s: World, schedule: seq<Action>, n: nat)
    requires n <= |schedule| && At(s, schedule, n).Some?
  {
    var w := At(s, schedule, n).value;
    && (w.gate.busy ==> ProbeRuns(s, schedule, n))
    && (forall k: nat :: Running(s, schedule, k, n) ==>
          w.gate.busy && schedule[k].w < |w.workers| && HoldsProbe(w.workers[schedule[k].w], w.gate.probeId))
  }

  /** Only the worker of the running probe holds the current permit. */
  lemma HolderIsRunner(s: World, schedule: seq<Action>, n: nat, k: nat, v: nat)
    requires n <= |schedule| && At(s, schedule, n).Some? && BusyIsRunning(s, schedule, n)
    requires Inv(At(s, schedule, n).value) && Running(s, schedule, k, n)
    ensures var w := At(s, schedule, n).value;
      v < |w.workers| && HoldsProbe(w.workers[v], w.gate.probeId) ==> v == schedule[k].w
  {
  }

  lemma StillRuns(s: World, schedule: seq<Action>, n: nat, k: nat)
    requires n < |schedule| && At(s, schedule, n).Some? && At(s, schedule, n + 1).Some?
    requires Inv(At(s, schedule, n).value) && BusyIsRunning(s, schedule, n)
    requires Running(s, schedule, k, n + 1)
    ensures var w := At(s, schedule, n + 1).value;
      w.gate.busy && schedule[k].w < |w.workers| && HoldsProbe(w.workers[schedule[k].w], w.gate.probeId)
  {
    AtNext(s, schedule, n);
    var w, a := At(s, schedule, n).value, schedule[n];
    RunningNext(s, schedule, k, n);
    StepTouchesProbe(w, a);
    if k < n {
      StepKeepsHolder(w, a, schedule[k].w, w.gate.probeId);
      if a.OfWorker? && a.w < |w.workers| {
        HolderIsRunner(s, schedule, n, k, a.w);
      }
    }
  }

  lemma BusyNext(s: World, schedule: seq<Action>, n: nat)
    requires n < |schedule| && At(s, schedule, n).Some? && At(s, schedule, n + 1).Some?
    requires Inv(At(s, schedule, n).value) && BusyIsRunning(s, schedule, n)
    ensures BusyIsRunning(s, schedule, n + 1)
  {
    AtNext(s, schedule, n);
    var w, a := At(s, schedule, n).value, schedule[n];
    StepTouchesProbe(w, a);
    forall k: nat | Running(s, schedule, k, n + 1)
      ensures var v := At(s, schedule, n + 1).value;
        v.gate.busy && schedule[k].w < |v.workers| && HoldsProbe(v.workers[schedule[k].w], v.gate.probeId)
    {
      StillRuns(s, schedule, n, k);
    }
    if At(s, schedule, n + 1).value.gate.busy {
      var k: nat := n;
      if !Claim(s, schedule, n) {
        k :| Running(s, schedule, k, n);
      }
      RunningNext(s, schedule, k, n);
    }
  }

  lemma {:induction false} RunningIsBusy(s: World, schedule: seq<Action>, n: nat)
    requires Inv(s) && !s.gate.busy && n <= |schedule| && At(s, schedule, n).Some?
    ensures BusyIsRunning(s, schedule, n)
  {
    if n > 0 {
      AtNext(s, schedule, n - 1);
      RunningIsBusy(s, schedule, n - 1);
      RunKeepsInv(s, schedule[..n - 1]);
      BusyNext(s, schedule, n - 1);
    }
  }

  // ---------------------------------------------------------------- results

  /** The gate is open, by what the host and the proofs of the run say. */
  ghost predicate Open(s: World, schedule: seq<Action>, now: int) {
    LastValidated(schedule, |schedule|) || ProvenAt(s, schedule, |schedule|, now)
  }

  lemma GateIsHistory(workers: nat, now: int, otherVk: nat, schedule: seq<Action>, s: World)
    requires Reached(workers, now, otherVk, schedule, s)
    ensures var start := Start(workers, now, otherVk);
      && At(start, schedule, |schedule|) == Some(s)
      && (Available(s.gate, s.clock) <==> Open(start, schedule, s.clock))
      && (s.gate.busy <==> ProbeRuns(start, schedule, |schedule|))
      && LimitIsYoungest(start, schedule, |schedule|)
  {
    var start, n := Start(workers, now, otherVk), |schedule|;
    assert schedule[..n] == schedule;
    StartInv(workers, now, otherVk);
    OpenExactly(workers, now, otherVk, schedule, s);
    NextProbeIsYoungest(start, schedule, n);
    RunningIsBusy(start, schedule, n);
  }

  lemma {:induction false} NothingLiftsEarlier(s: World, schedule: seq<Action>, k: nat, m: nat, n: nat)
    requires m <= n <= |schedule| && NothingLifts(s, schedule, k, n)
    ensures NothingLifts(s, schedule, k, m)
    decreases n
  {
    if m < n {
      NothingLiftsEarlier(s, schedule, k, m, n - 1);
    }
  }

  /** Never do two probes run at once. */
  lemma OneProbeAtATime(workers: nat, now: int, otherVk: nat, schedule: seq<Action>, s: World, j: nat, k: nat)
    requires Reached(workers, now, otherVk, schedule, s)
    requires Running(Start(workers, now, otherVk), schedule, j, |schedule|)
    requires Running(Start(workers, now, otherVk), schedule, k, |schedule|)
    ensures j == k
  {
    if j < k {
      NoSecondClaim(workers, now, otherVk, schedule, j, k);
    } else if k < j {
      NoSecondClaim(workers, now, otherVk, schedule, k, j);
    }
  }

  lemma NoSecondClaim(workers: nat, now: int, otherVk: nat, schedule: seq<Action>, j: nat, k: nat)
    requires otherVk <= VK_SLOTS && j < k < |schedule|
    requires Running(Start(workers, now, otherVk), schedule, j, |schedule|)
    ensures !Claim(Start(workers, now, otherVk), schedule, k)
  {
    var start := Start(workers, now, otherVk);
    if Claim(start, schedule, k) {
      NothingLiftsEarlier(start, schedule, j, k, |schedule|);
      assert Running(start, schedule, j, k);
      StartInv(workers, now, otherVk);
      RunningIsBusy(start, schedule, k);
      AtNext(start, schedule, k);
      RunKeepsInv(start, schedule[..k]);
      StepTouchesProbe(At(start, schedule, k).value, schedule[k]);
    }
  }

  /** Worker `w` passes or parks by the state of the gate alone. */
  lemma EntryByGate(s: World, w: nat)
    requires w < |s.workers| && s.workers[w].pc.AtGate?
    ensures var t := WorkerStep(s, w, EnterGate);
      && t.Some? && |t.value.workers| == |s.workers|
      && var pc := t.value.workers[w].pc;
         var limited := s.gate.nextProbe.Some? && s.clock < s.gate.nextProbe.value;
         if Available(s.gate, s.clock) then pc.WantVk? && !pc.permit.probe
         else if !s.gate.busy && !limited then pc.WantVk? && pc.permit.probe
         else pc.Parked? && pc.channel == s.gate.channel
              && pc.timer == if s.gate.busy then None else s.gate.nextProbe
  {
  }

  /** In every run a worker at the gate gets an ordinary permit exactly if the gate is
      open; a probe exactly if it is closed, no probe runs and none was claimed in the
      last minute; and otherwise parks, with a timer exactly if no probe runs, set to a
      minute after the last claim. */
  lemma EntryExactly(workers: nat, now: int, otherVk: nat, schedule: seq<Action>, s: World, w: nat)
    requires Reached(workers, now, otherVk, schedule, s) && w < |s.workers| && s.workers[w].pc.AtGate?
    ensures Step(s, OfWorker(w, EnterGate)).Some? && w < |Step(s, OfWorker(w, EnterGate)).value.workers|
    ensures var start, pc := Start(workers, now, otherVk), Step(s, OfWorker(w, EnterGate)).value.workers[w].pc;
      && (pc.WantVk? && !pc.permit.probe <==> Open(start, schedule, s.clock))
      && (pc.WantVk? && pc.permit.probe <==>
            && !Open(start, schedule, s.clock) && !ProbeRuns(start, schedule, |schedule|)
            && !ClaimedLately(start, schedule, |schedule|, s.clock))
      && (!pc.WantVk? ==> pc.Parked? && (pc.timer.None? <==> ProbeRuns(start, schedule, |schedule|)))
    ensures var start, pc := Start(workers, now, otherVk), Step(s, OfWorker(w, EnterGate)).value.workers[w].pc;
      pc.Parked? && pc.timer.Some? ==>
        && s.clock < pc.timer.value
        && (exists k: nat ::
              ClaimStands(start, schedule, k, |schedule|) && LastClaimAt(start, schedule, k, pc.timer.value))
        && (forall k: nat :: ClaimStands(start, schedule, k, |schedule|) ==>
              At(start, schedule, k).value.clock + 60 * SECOND <= pc.timer.value)
  {
    GateIsHistory(workers, now, otherVk, schedule, s);
    EntryByGate(s, w);
    LatelyIsLimited(Start(workers, now, otherVk), schedule, s);
  }

  ghost predicate LastClaimAt(s: World, schedule: seq<Action>, k: nat, timer: int)
    requires k <= |schedule|
  {
    At(s, schedule, k).Some? && At(s, schedule, k).value.clock + 60 * SECOND == timer
  }

  lemma LatelyIsLimited(start: World, schedule: seq<Action>, s: World)
    requires At(start, schedule, |schedule|) == Some(s) && LimitIsYoungest(start, schedule, |schedule|)
    ensures s.gate.nextProbe.Some? && s.clock < s.gate.nextProbe.value
       <==> ClaimedLately(start, schedule, |schedule|, s.clock)
    ensures s.gate.nextProbe.Some? ==> exists k: nat ::
      ClaimStands(start, schedule, k, |schedule|) && LastClaimAt(start, schedule, k, s.gate.nextProbe.value)
  {
    if s.gate.nextProbe.Some? {
      var k: nat :| ClaimStands(start, schedule, k, |schedule|)
        && At(start, schedule, k).value.clock + 60 * SECOND == s.gate.nextProbe.value;
      assert LastClaimAt(start, schedule, k, s.gate.nextProbe.value);
    }
  }

  /** After its credentials arrived a worker goes on to connect exactly if it holds a
      probe or the gate is still open; otherwise it gives the permit back and starts
      over. */
  lemma ConnectsExactly(workers: nat, now: int, otherVk: nat, schedule: seq<Action>, s: World, w: nat)
    requires Reached(workers, now, otherVk, schedule, s) && w < |s.workers| && s.workers[w].pc.Fetched?
    ensures Step(s, OfWorker(w, AfterFetch)).Some?
    ensures var p, ok := s.workers[w].pc.permit, s.workers[w].pc.ok;
      var t := Step(s, OfWorker(w, AfterFetch)).value;
      && t.gate == s.gate && w < |t.workers|
      && t.workers[w].pc == if !ok then Releasing(p, FetchFailed)
                            else if p.probe || Open(Start(workers, now, otherVk), schedule, s.clock) then Connecting(p)
                            else Releasing(p, Retry)
  {
    GateIsHistory(workers, now, otherVk, schedule, s);
  }

  /** After a failed fetch or an ended session a worker leaves exactly if the context is
      done, and waits out its retry delay exactly if the gate is open or, after a fetch
      that failed, it had been probing; else it is back at the gate at once. */
  lemma DelaysExactly(workers: nat, now: int, otherVk: nat, schedule: seq<Action>, s: World, w: nat)
    requires Reached(workers, now, otherVk, schedule, s) && w < |s.workers| && s.workers[w].pc.Deciding?
    ensures Step(s, OfWorker(w, Decide)).Some?
    ensures var open := Open(Start(workers, now, otherVk), schedule, s.clock);
      var probe, rest := s.workers[w].pc.probe, s.workers[w].pc.rest;
      var t := Step(s, OfWorker(w, Decide)).value;
      && t.gate == s.gate && w < |t.workers|
      && t.workers[w].pc == if rest.Leave? || (!rest.Retry? && s.ctxDone) then Exited
                            else if !rest.Retry? && (open || (rest.FetchFailed? && probe)) then Delay
                            else AtGate
  {
    GateIsHistory(workers, now, otherVk, schedule, s);
  }

  /** A worker gets one of the two fetch tokens exactly if one is free, and a fetch that
      returns leads, whatever comes of it, to the recheck. */
  lemma FetchesExactly(workers: nat, now: int, otherVk: nat, schedule: seq<Action>, s: World, w: nat, ok: bool)
    requires Reached(workers, now, otherVk, schedule, s) && w < |s.workers|
    ensures s.workers[w].pc.WantVk? ==> (Step(s, OfWorker(w, TakeVk)).Some? <==> s.vk < 2)
    ensures s.workers[w].pc.WantVk? && s.vk < 2 ==>
      var t := Step(s, OfWorker(w, TakeVk)).value;
      t.vk == s.vk + 1 && w < |t.workers| && t.workers[w].pc == Fetching(s.workers[w].pc.permit)
    ensures s.workers[w].pc.Fetching? ==>
      && Step(s, OfWorker(w, FetchReturns(ok))).Some?
      && w < |Step(s, OfWorker(w, FetchReturns(ok))).value.workers|
      && Step(s, OfWorker(w, FetchReturns(ok))).value.workers[w].pc == Fetched(s.workers[w].pc.permit, ok)
  {
    ReachedInv(workers, now, otherVk, schedule, s);
    TallyBounds(s.workers, HoldsVk);
  }

  /** From the end of its session a worker, left to itself, gives its permit back and
      leaves if the context is done, waits out a delay if the gate is open, and otherwise
      is back at the gate. */
  lemma AfterSession(workers: nat, now: int, otherVk: nat, schedule: seq<Action>, s: World, w: nat) returns (t: World)
    requires Reached(workers, now, otherVk, schedule, s) && w < |s.workers| && s.workers[w].pc.Connecting?
    ensures Run(Step, s, [OfWorker(w, SessionReturns), OfWorker(w, Release), OfWorker(w, Decide)]) == Some(t)
    ensures w < |t.workers| && t.workers[w].taken == t.workers[w].returned
    ensures t.workers[w].pc == if s.ctxDone then Exited
                               else if Open(Start(workers, now, otherVk), schedule, s.clock) then Delay
                               else AtGate
  {
    ReachedInv(workers, now, otherVk, schedule, s);
    GateIsHistory(workers, now, otherVk, schedule, s);
    t := ThreeSteps(s, w, SessionReturns);
  }

  /** From a failed fetch it does the same, but waits out the delay after a probe too. */
  lemma AfterFailedFetch(workers: nat, now: int, otherVk: nat, schedule: seq<Action>, s: World, w: nat)
    returns (t: World)
    requires Reached(workers, now, otherVk, schedule, s) && w < |s.workers|
    requires s.workers[w].pc.Fetched? && !s.workers[w].pc.ok
    ensures Run(Step, s, [OfWorker(w, AfterFetch), OfWorker(w, Release), OfWorker(w, Decide)]) == Some(t)
    ensures w < |t.workers| && t.workers[w].taken == t.workers[w].returned
    ensures t.workers[w].pc == if s.ctxDone then Exited
                               else if s.workers[w].pc.permit.probe
                                       || Open(Start(workers, now, otherVk), schedule, s.clock)
                               then Delay
                               else AtGate
  {
    ReachedInv(workers, now, otherVk, schedule, s);
    GateIsHistory(workers, now, otherVk, schedule, s);
    t := ThreeSteps(s, w, AfterFetch);
  }

  /** The first two of these steps: the permit is back, the gate as open as before. */
  lemma GivesBack(s: World, w: nat, e: WorkerEvent) returns (a: World, b: World)
    requires BalanceInv(s) && w < |s.workers|
    requires if e.SessionReturns? then s.workers[w].pc.Connecting?
             else e.AfterFetch? && s.workers[w].pc.Fetched? && !s.workers[w].pc.ok
    ensures Step(s, OfWorker(w, e)) == Some(a) && Step(a, OfWorker(w, Release)) == Some(b)
    ensures w < |b.workers| && b.workers[w].taken == b.workers[w].returned
    ensures b.ctxDone == s.ctxDone && Available(b.gate, b.clock) == Available(s.gate, s.clock)
    ensures b.workers[w].pc
         == Deciding(s.workers[w].pc.permit.probe, if e.SessionReturns? then SessionEnded else FetchFailed)
  {
    a := Step(s, OfWorker(w, e)).value;
    b := Step(a, OfWorker(w, Release)).value;
  }

  lemma ThreeSteps(s: World, w: nat, e: WorkerEvent) returns (t: World)
    requires BalanceInv(s) && w < |s.workers|
    requires if e.SessionReturns? then s.workers[w].pc.Connecting?
             else e.AfterFetch? && s.workers[w].pc.Fetched? && !s.workers[w].pc.ok
    ensures Run(Step, s, [OfWorker(w, e), OfWorker(w, Release), OfWorker(w, Decide)]) == Some(t)
    ensures w < |t.workers| && t.workers[w].taken == t.workers[w].returned
    ensures t.workers[w].pc == if s.ctxDone then Exited
                               else if Available(s.gate, s.clock) || (e.AfterFetch? && s.workers[w].pc.permit.probe)
                               then Delay
                               else AtGate
  {
    var a, b := GivesBack(s, w, e);
    t := DecidesTo(b, w);
    RunOfThree(Step, s, a, b, t, OfWorker(w, e), OfWorker(w, Release), OfWorker(w, Decide));
  }

  lemma DecidesTo(s: World, w: nat) returns (t: World)
    requires w < |s.workers| && s.workers[w].pc.Deciding?
    requires s.workers[w].pc.rest.SessionEnded? || s.workers[w].pc.rest.FetchFailed?
    ensures Step(s, OfWorker(w, Decide)) == Some(t) && w < |t.workers|
    ensures t.workers[w].taken == s.workers[w].taken && t.workers[w].returned == s.workers[w].returned
    ensures t.workers[w].pc == if s.ctxDone then Exited
                               else if (s.workers[w].pc.rest.FetchFailed? && s.workers[w].pc.probe)
                                       || Available(s.gate, s.clock)
                               then Delay
                               else AtGate
  {
    t := Step(s, OfWorker(w, Decide)).value;
  }

  /** A worker that waits leaves on account of the context exactly if it is done, and
      gives back what it holds. */
  lemma LeavesOnCancel(s: World, w: nat)
    requires w < |s.workers|
    ensures var pc := s.workers[w].pc;
      Step(s, OfWorker(w, ObserveCtx)).Some? <==> s.ctxDone && (pc.Staggering? || pc.Parked? || pc.WantVk? || pc.Delay?)
    ensures Step(s, OfWorker(w, ObserveCtx)).Some? ==>
      Step(s, OfWorker(w, ObserveCtx)).value.workers
      == s.workers[w := s.workers[w].(pc := if s.workers[w].pc.WantVk? then Releasing(s.workers[w].pc.permit, Leave)
                                            else Exited)]
  {
  }

  /** A step wakes the waiters exactly if it opens the gate or releases the running
      probe. */
  lemma SignalsExactly(workers: nat, now: int, otherVk: nat, schedule: seq<Action>, s: World, a: Action)
    requires Reached(workers, now, otherVk, schedule, s) && Step(s, a).Some?
    ensures var t := Step(s, a).value;
      t.gate.channel != s.gate.channel
      <==> || (!Available(s.gate, s.clock) && Available(t.gate, t.clock))
           || exists k: nat ::
                Running(Start(workers, now, otherVk), schedule, k, |schedule|) && a == OfWorker(schedule[k].w, Release)
  {
    var start, n := Start(workers, now, otherVk), |schedule|;
    ReachedInv(workers, now, otherVk, schedule, s);
    GateIsHistory(workers, now, otherVk, schedule, s);
    StartInv(workers, now, otherVk);
    RunningIsBusy(start, schedule, n);
    SignalsByGate(s, a);
    if a.OfWorker? && a.e.Release? && a.w < |s.workers| && s.gate.busy && HoldsProbe(s.workers[a.w], s.gate.probeId) {
      var k: nat :| Running(start, schedule, k, n);
      HolderIsRunner(start, schedule, n, k, a.w);
    }
  }

  lemma SignalsByGate(s: World, a: Action)
    requires Inv(s) && Step(s, a).Some?
    ensures var t := Step(s, a).value;
      t.gate.channel != s.gate.channel
      <==> || (!Available(s.gate, s.clock) && Available(t.gate, t.clock))
           || (a.OfWorker? && a.e.Release? && a.w < |s.workers| && s.gate.busy
               && HoldsProbe(s.workers[a.w], s.gate.probeId))
  {
  }
}
