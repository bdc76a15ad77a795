/** How a TURN race ends: failover happens, contexts are cancelled for a reason, and
    errors are counted in the order they were reported. */
module TurnRaceOutcomes {
  import opened Basics
  import opened TurnRace
  import opened TurnRaceProofs
  import opened TurnRaceResults

  /** The claimer of the session has told the other dials to stop. */
  ghost predicate ClaimAnnounced(s: State) {
    exists i :: 0 <= i < |s.dials| && Claims(s.dials[i].pc) && !s.dials[i].pc.Cancelling?
  }

  ghost predicate Outcomes(s: State) {
    && (s.main == Returned(CtxErr) ==> s.ctxDone)
    && (s.errCount > 0 ==> s.main.FanningOut? || s.launched == |s.dials|)
  }

  ghost predicate CancelInv(s: State) {
    s.raceCancelled <==> ClaimAnnounced(s) || s.main.Returned?
  }

  lemma DialKeepsOutcomes(s: State, i: nat, e: DialEvent)
    requires Outcomes(s) && DialStep(s, i, e).Some?
    ensures Outcomes(DialStep(s, i, e).value)
  {
  }

  lemma DriveKeepsOutcomes(s: State, a: Action)
    requires Shape(s) && Outcomes(s) && Drive(s, a).Some?
    ensures Outcomes(Drive(s, a).value)
  {
  }

  lemma BackgroundKeepsOutcomes(s: State, a: Action)
    requires Outcomes(s) && Background(s, a).Some?
    ensures Outcomes(Background(s, a).value)
  {
  }

  lemma StepKeepsOutcomes(s: State, a: Action)
    requires Shape(s) && Outcomes(s) && Step(s, a).Some?
    ensures Outcomes(Step(s, a).value)
  {
    if a.OfDial? {
      DialKeepsOutcomes(s, a.i, a.e);
    } else if Drive(s, a).Some? {
      DriveKeepsOutcomes(s, a);
    } else {
      BackgroundKeepsOutcomes(s, a);
    }
  }

  lemma DialKeepsCancel(s: State, i: nat, e: DialEvent)
    requires CancelInv(s) && DialStep(s, i, e).Some?
    ensures CancelInv(DialStep(s, i, e).value)
  {
    var t := DialStep(s, i, e).value;
    if e.CancelRace? {
      assert Claims(t.dials[i].pc) && !t.dials[i].pc.Cancelling?;
    } else {
      OwnKeepsClaim(s.dials[i], e);
      SameClaims(s, t);
    }
  }

  lemma OwnKeepsClaim(d: Dial, e: DialEvent)
    requires Own(d, e).Some? && !e.CancelRace?
    ensures var pc := Own(d, e).value.pc; Claims(pc) && !pc.Cancelling? <==> Claims(d.pc) && !d.pc.Cancelling?
  {
  }

  lemma SameClaims(s: State, t: State)
    requires |t.dials| == |s.dials|
    requires forall j :: 0 <= j < |s.dials| ==>
      (Claims(t.dials[j].pc) && !t.dials[j].pc.Cancelling? <==> Claims(s.dials[j].pc) && !s.dials[j].pc.Cancelling?)
    ensures ClaimAnnounced(t) <==> ClaimAnnounced(s)
  {
    if ClaimAnnounced(s) {
      var i :| 0 <= i < |s.dials| && Claims(s.dials[i].pc) && !s.dials[i].pc.Cancelling?;
      assert Claims(t.dials[i].pc) && !t.dials[i].pc.Cancelling?;
    }
  }

  lemma DriveKeepsCancel(s: State, a: Action)
    requires Shape(s) && CancelInv(s) && Drive(s, a).Some?
    ensures CancelInv(Drive(s, a).value)
  {
    var t := Drive(s, a).value;
    SameClaims(s, t);
  }

  lemma BackgroundKeepsCancel(s: State, a: Action)
    requires CancelInv(s) && Background(s, a).Some?
    ensures CancelInv(Background(s, a).value)
  {
    var t := Background(s, a).value;
    SameClaims(s, t);
  }

  lemma StepKeepsCancel(s: State, a: Action)
    requires Inv(s) && CancelInv(s) && Step(s, a).Some?
    ensures CancelInv(Step(s, a).value)
  {
    if a.OfDial? {
      DialKeepsCancel(s, a.i, a.e);
    } else if Drive(s, a).Some? {
      DriveKeepsCancel(s, a);
    } else {
      BackgroundKeepsCancel(s, a);
    }
  }

  lemma ReachedOutcomes(n: nat, otherSlots: nat, schedule: seq<Action>, s: State)
    requires Reached(n, otherSlots, schedule, s)
    ensures Inv(s) && Outcomes(s) && CancelInv(s)
  {
    StartInv(n, otherSlots);
    forall t, a | Inv(t) && Outcomes(t) && CancelInv(t) && Step(t, a).Some?
      ensures Inv(Step(t, a).value) && Outcomes(Step(t, a).value) && CancelInv(Step(t, a).value)
    {
      StepKeepsInv(t, a);
      StepKeepsOutcomes(t, a);
      StepKeepsCancel(t, a);
    }
    RunKeeps(Step, t => Inv(t) && Outcomes(t) && CancelInv(t), Start(n, otherSlots), schedule);
  }

  // ---------------------------------------------------------------- failover

  /** Every candidate server is dialed, and the attempt waits for a result again. */
  ghost predicate AllDialed(s: State) {
    s.main.Selecting? && s.launched == |s.dials| && forall i :: 0 <= i < |s.dials| ==> !s.dials[i].pc.NotLaunched?
  }

  /** Once an error was received, the attempt is launching the failover servers or has
      launched them all; it never goes on, or returns, without them. */
  lemma ErrorMeansFailover(n: nat, otherSlots: nat, schedule: seq<Action>, s: State)
    requires Reached(n, otherSlots, schedule, s) && s.errCount > 0
    ensures s.main.FanningOut? ||
      (s.launched == |s.dials| && forall i :: 0 <= i < |s.dials| ==> !s.dials[i].pc.NotLaunched?)
  {
    ReachedOutcomes(n, otherSlots, schedule, s);
  }

  /** A received error, while some candidate was never dialed, is followed by steps of
      this goroutine alone after which all are dialed. */
  lemma FailoverHappens(n: nat, otherSlots: nat, schedule: seq<Action>, s: State)
    returns (own: seq<Action>, t: State)
    requires Reached(n, otherSlots, schedule, s) && Step(s, ReceiveError).Some?
    requires exists i :: 0 <= i < |s.dials| && s.dials[i].pc.NotLaunched?
    ensures s.launched <= |s.dials| && own == seq(|s.dials| - s.launched, _ => LaunchNext) + [FanOutDone]
    ensures Run(Step, Step(s, ReceiveError).value, own) == Some(t) && AllDialed(t)
  {
    ReachedOutcomes(n, otherSlots, schedule, s);
    StepKeepsInv(s, ReceiveError);
    StepKeepsOutcomes(s, ReceiveError);
    ErrorStartsFanOut(s);
    own, t := LaunchesAll(Step(s, ReceiveError).value);
  }

  lemma ErrorStartsFanOut(s: State)
    requires Shape(s) && ErrorInv(s) && Step(s, ReceiveError).Some?
    requires Outcomes(Step(s, ReceiveError).value) && s.launched < |s.dials|
    ensures var t := Step(s, ReceiveError).value;
      t.main.FanningOut? && t.launched == s.launched && t.dials == s.dials
  {
  }

  lemma {:induction false} LaunchesAll(s: State) returns (own: seq<Action>, t: State)
    requires Shape(s) && s.main.FanningOut?
    ensures own == seq(|s.dials| - s.launched, _ => LaunchNext) + [FanOutDone]
    ensures Run(Step, s, own) == Some(t) && AllDialed(t)
    decreases |s.dials| - s.launched
  {
    if s.launched == |s.dials| {
      t := Step(s, FanOutDone).value;
      RunNext(Step, s, [], FanOutDone, t);
      own := [] + [FanOutDone];
    } else {
      var u := Step(s, LaunchNext).value;
      var rest;
      rest, t := LaunchesAll(u);
      RunNext(Step, s, [], LaunchNext, u);
      RunOn(Step, s, [] + [LaunchNext], u, rest);
      own := [] + [LaunchNext] + rest;
    }
  }

  /** The select takes any case that is ready and no other: a winner starts the session
      with it, an error is counted, and a done context ends the attempt with the reaper at
      work. */
  lemma SelectIsReady(s: State)
    requires s.main.Selecting?
    ensures Step(s, ReceiveWinner).Some? <==> s.winCh != []
    ensures s.winCh != [] ==> Step(s, ReceiveWinner).value.main == Session(s.winCh[0])
    ensures Step(s, ReceiveError).Some? <==> s.errCh != []
    ensures s.errCh != [] ==> Step(s, ReceiveError).value.errCount == s.errCount + 1
    ensures Step(s, ObserveCtx).Some? <==> s.ctxDone
    ensures s.ctxDone ==>
      Step(s, ObserveCtx).value.main == Returned(CtxErr) && Step(s, ObserveCtx).value.reaper.Waiting?
  {
  }

  // ---------------------------------------------------------------- contexts

  /** The attempt returns a context error only if its context is done. */
  lemma CtxErrMeansCancelled(n: nat, otherSlots: nat, schedule: seq<Action>, s: State)
    requires Reached(n, otherSlots, schedule, s) && s.main == Returned(CtxErr)
    ensures s.ctxDone
  {
    ReachedOutcomes(n, otherSlots, schedule, s);
  }

  /** The race's own context is cancelled exactly when a dial has claimed the session
      and said so, or the attempt has returned. */
  lemma RaceCancelledExactly(n: nat, otherSlots: nat, schedule: seq<Action>, s: State)
    requires Reached(n, otherSlots, schedule, s)
    ensures s.raceCancelled <==>
      s.main.Returned? || exists i :: 0 <= i < |s.dials| && Claims(s.dials[i].pc) && !s.dials[i].pc.Cancelling?
  {
    ReachedOutcomes(n, otherSlots, schedule, s);
  }

  /** A dial stops waiting for an allocate slot by taking one of the three, or because
      its context is done. */
  lemma SlotWaitEnds(n: nat, otherSlots: nat, schedule: seq<Action>, s: State, i: nat, e: DialEvent)
    requires Reached(n, otherSlots, schedule, s) && i < |s.dials| && s.dials[i].pc.AwaitingSlot?
    requires Step(s, OfDial(i, e)).Some?
    ensures var t := Step(s, OfDial(i, e)).value;
      && |t.dials| == |s.dials|
      && if t.dials[i].pc.Allocating? then s.slots < 3 && t.slots == s.slots + 1
         else t.dials[i].pc.ClosingClient? && t.slots == s.slots && (s.ctxDone || s.raceCancelled)
  {
  }

  /** Never more than three allocations are under way, other streams' included. */
  lemma ThreeAllocations(n: nat, otherSlots: nat, schedule: seq<Action>, s: State)
    requires Reached(n, otherSlots, schedule, s)
    ensures s.otherSlots + Tally(s.dials, HoldsSlot) <= 3
  {
    ReachedOutcomes(n, otherSlots, schedule, s);
  }

  /** The session, and the result it ends with, belong to the dial that won, and a dial
      that lost did so after the winner was delivered. */
  lemma SessionIsWinners(n: nat, otherSlots: nat, schedule: seq<Action>, s: State)
    requires Reached(n, otherSlots, schedule, s)
    ensures InSession(s.main) ==>
      var w := if s.main.Returned? then s.main.result.winner else s.main.winner;
      w < |s.dials| && Claims(s.dials[w].pc)
    ensures forall i :: 0 <= i < |s.dials| && LostRace(s.dials[i].pc) ==>
      exists w :: 0 <= w < |s.dials| && (s.dials[w].pc == Leaving(Won) || s.dials[w].pc == Finished(Won))
  {
    ReachedOutcomes(n, otherSlots, schedule, s);
    WinnerClaims(s);
  }

  lemma WinnerClaims(s: State)
    requires Inv(s)
    ensures InSession(s.main) ==>
      Delivered(s) && s.once.runner == if s.main.Returned? then s.main.result.winner else s.main.winner
    ensures Delivered(s) ==> s.once.runner < |s.dials| && Claims(s.dials[s.once.runner].pc)
  {
  }

  /** An attempt begins with the assigned server's dial under way and nothing else. */
  lemma StartIsFresh(n: nat, otherSlots: nat)
    requires 0 < n && otherSlots <= ALLOC_SLOTS
    ensures var s := Start(n, otherSlots);
      && |s.dials| == n && s.launched == 1 && s.main.Selecting? && s.once.Fresh?
      && !s.ctxDone && !s.raceCancelled && s.winCh == [] && s.errCh == [] && s.errCount == 0
      && s.slots == s.otherSlots == otherSlots && s.reaper.Idle? && s.watch.WatchOff?
      && forall i :: 0 <= i < n ==> s.dials[i].pc == (if i == 0 then Dialing else NotLaunched)
  {
  }

  // ---------------------------------------------------------------- failed calls

  /** A call of the dial goroutine that returned an error. */
  predicate FailedCall(e: DialEvent) {
    (e.Dialed? || e.ClientMade? || e.Listened? || e.AllocateReturned?) && !e.ok
  }

  predicate OnErrorPath(pc: DialPc) {
    || pc == ReturningSlot(false) || pc.ClosingClient? || pc.ClosingRaw? || pc.Reporting?
    || pc == Leaving(Failed) || pc == Finished(Failed)
  }

  lemma OwnErrorPath(d: Dial, e: DialEvent)
    requires Own(d, e).Some?
    ensures FailedCall(e) || OnErrorPath(d.pc) ==> OnErrorPath(Own(d, e).value.pc)
    ensures !FailedCall(e) && !e.AbortSlot? && !OnErrorPath(d.pc) ==> !OnErrorPath(Own(d, e).value.pc)
  {
  }

  predicate StaysOrStarts(before: DialPc, after: DialPc) {
    after == before || (before.NotLaunched? && after.Dialing?)
  }

  lemma DialMovesDial(s: State, j: nat, e: DialEvent, i: nat)
    requires DialStep(s, j, e).Some? && i < |s.dials|
    ensures var t := DialStep(s, j, e).value;
      && |t.dials| == |s.dials|
      && if i == j then Own(s.dials[i], e) == Some(t.dials[i]) else t.dials[i] == s.dials[i]
  {
  }

  lemma ClosesMoveNothing(s: State, i: nat)
    requires i < |s.dials|
    ensures SessionClose(s).Some? ==>
      var t := SessionClose(s).value; |t.dials| == |s.dials| && t.dials[i].pc == s.dials[i].pc
    ensures ReapClose(s).Some? ==>
      var t := ReapClose(s).value; |t.dials| == |s.dials| && t.dials[i].pc == s.dials[i].pc
  {
  }

  lemma DriveMovesDial(s: State, a: Action, i: nat)
    requires Shape(s) && Drive(s, a).Some? && i < |s.dials|
    ensures var t := Drive(s, a).value;
      |t.dials| == |s.dials| && StaysOrStarts(s.dials[i].pc, t.dials[i].pc)
  {
    if a.SessionStep? {
      ClosesMoveNothing(s, i);
    } else {
      OtherDrivesMoveDial(s, a, i);
    }
  }

  lemma OtherDrivesMoveDial(s: State, a: Action, i: nat)
    requires Shape(s) && Drive(s, a).Some? && i < |s.dials| && !a.SessionStep?
    ensures var t := Drive(s, a).value;
      |t.dials| == |s.dials| && StaysOrStarts(s.dials[i].pc, t.dials[i].pc)
  {
  }

  lemma BackgroundMovesDial(s: State, a: Action, i: nat)
    requires Background(s, a).Some? && i < |s.dials|
    ensures var t := Background(s, a).value; |t.dials| == |s.dials| && t.dials[i].pc == s.dials[i].pc
  {
    ClosesMoveNothing(s, i);
  }

  /** The dial of the event moves by its own code; the others keep their places. */
  lemma StepMovesDial(s: State, a: Action, i: nat)
    requires Shape(s) && Step(s, a).Some? && i < |s.dials|
    ensures var t := Step(s, a).value;
      && |t.dials| == |s.dials|
      && if a.OfDial? && a.i == i then Own(s.dials[i], a.e) == Some(t.dials[i])
         else StaysOrStarts(s.dials[i].pc, t.dials[i].pc)
  {
    if a.OfDial? {
      DialMovesDial(s, a.i, a.e, i);
    } else if Drive(s, a).Some? {
      DriveMovesDial(s, a, i);
    } else {
      BackgroundMovesDial(s, a, i);
    }
  }

  /** The schedule has a failed call of dial `i`, or dial `i` gave up waiting for a slot. */
  predicate CallFailed(schedule: seq<Action>, i: nat) {
    exists k :: 0 <= k < |schedule| && schedule[k].OfDial? && schedule[k].i == i
                && (FailedCall(schedule[k].e) || schedule[k].e.AbortSlot?)
  }

  lemma CallFailedNext(schedule: seq<Action>, i: nat)
    requires schedule != []
    ensures var k := |schedule| - 1;
      var a := schedule[k];
      CallFailed(schedule, i) <==>
        CallFailed(schedule[..k], i) || (a.OfDial? && a.i == i && (FailedCall(a.e) || a.e.AbortSlot?))
  {
    var k := |schedule| - 1;
    if CallFailed(schedule[..k], i) {
      var j :| 0 <= j < k && schedule[..k][j].OfDial? && schedule[..k][j].i == i
               && (FailedCall(schedule[..k][j].e) || schedule[..k][j].e.AbortSlot?);
      assert schedule[j] == schedule[..k][j];
    }
    if CallFailed(schedule, i) {
      var j :| 0 <= j < |schedule| && schedule[j].OfDial? && schedule[j].i == i
               && (FailedCall(schedule[j].e) || schedule[j].e.AbortSlot?);
      assert j < k ==> schedule[..k][j] == schedule[j];
    }
  }

  /** In every run a dial is on its way to report an error, or has, exactly if one of its
      calls failed or it gave up waiting for a slot; so only a dial whose every call
      succeeded can claim the session. */
  lemma {:induction false} FailsExactly(n: nat, otherSlots: nat, schedule: seq<Action>, s: State, i: nat)
    requires Reached(n, otherSlots, schedule, s) && i < n
    ensures i < |s.dials| && (OnErrorPath(s.dials[i].pc) <==> CallFailed(schedule, i))
  {
    if schedule != [] {
      var k := |schedule| - 1;
      var p := Run(Step, Start(n, otherSlots), schedule[..k]).value;
      FailsExactly(n, otherSlots, schedule[..k], p, i);
      ReachedInv(n, otherSlots, schedule[..k], p);
      CallFailedNext(schedule, i);
      FailsNext(p, schedule[k], i);
    }
  }

  lemma FailsNext(s: State, a: Action, i: nat)
    requires Shape(s) && Step(s, a).Some? && i < |s.dials|
    ensures |Step(s, a).value.dials| == |s.dials|
    ensures OnErrorPath(Step(s, a).value.dials[i].pc)
       <==> OnErrorPath(s.dials[i].pc) || (a.OfDial? && a.i == i && (FailedCall(a.e) || a.e.AbortSlot?))
  {
    StepMovesDial(s, a, i);
    if a.OfDial? && a.i == i {
      OwnErrorPath(s.dials[i], a.e);
      OwnAborts(s.dials[i], a.e);
    }
  }

  lemma OwnAborts(d: Dial, e: DialEvent)
    requires Own(d, e).Some?
    ensures e.AbortSlot? ==> OnErrorPath(Own(d, e).value.pc)
  {
  }

  // ---------------------------------------------------------------- errors

  /** The dials that reported an error, in the order they did. */
  function Reports(schedule: seq<Action>): seq<nat> {
    if schedule == [] then []
    else
      var last := schedule[|schedule| - 1];
      Reports(schedule[..|schedule| - 1]) + if last.OfDial? && last.e.Report? then [last.i] else []
  }

  ghost predicate InOrder(s: State, reports: seq<nat>) {
    && s.errCount <= |reports| && s.errCh == reports[s.errCount..]
    && s.lastErr == if s.errCount == 0 then None else Some(reports[s.errCount - 1])
  }

  predicate Untouched(s: State, t: State) {
    t.errCh == s.errCh && t.errCount == s.errCount && t.lastErr == s.lastErr
  }

  lemma DialErrors(s: State, i: nat, e: DialEvent)
    requires DialStep(s, i, e).Some?
    ensures var t := DialStep(s, i, e).value;
      if e.Report? then t.errCh == s.errCh + [i] && t.errCount == s.errCount && t.lastErr == s.lastErr
      else Untouched(s, t)
  {
  }

  lemma DriveErrors(s: State, a: Action)
    requires Drive(s, a).Some?
    ensures var t := Drive(s, a).value;
      if a.ReceiveError? then
        s.errCh != [] && t.errCh == s.errCh[1..] && t.errCount == s.errCount + 1 && t.lastErr == Some(s.errCh[0])
      else Untouched(s, t)
  {
  }

  lemma BackgroundErrors(s: State, a: Action)
    requires Background(s, a).Some?
    ensures Untouched(s, Background(s, a).value)
  {
  }

  lemma ReceiveInOrder(s: State, t: State, reports: seq<nat>)
    requires InOrder(s, reports) && s.errCh != [] && t.errCh == s.errCh[1..]
    requires t.errCount == s.errCount + 1 && t.lastErr == Some(s.errCh[0])
    ensures InOrder(t, reports)
  {
    assert reports[s.errCount..][1..] == reports[s.errCount + 1..];
  }

  lemma StepKeepsOrder(s: State, a: Action, reports: seq<nat>)
    requires InOrder(s, reports) && Step(s, a).Some?
    ensures InOrder(Step(s, a).value, reports + if a.OfDial? && a.e.Report? then [a.i] else [])
  {
    if a.OfDial? {
      DialErrors(s, a.i, a.e);
      assert reports + [] == reports;
      assert (reports + [a.i])[s.errCount..] == reports[s.errCount..] + [a.i];
    } else {
      assert reports + [] == reports;
      if Drive(s, a).Some? {
        DriveErrors(s, a);
        if a.ReceiveError? {
          ReceiveInOrder(s, Drive(s, a).value, reports);
        }
      } else {
        BackgroundErrors(s, a);
      }
    }
  }

  lemma {:induction false} RunInOrder(s: State, schedule: seq<Action>)
    requires InOrder(s, []) && Run(Step, s, schedule).Some?
    ensures InOrder(Run(Step, s, schedule).value, Reports(schedule))
  {
    if schedule != [] {
      var k := |schedule| - 1;
      RunInOrder(s, schedule[..k]);
      StepKeepsOrder(Run(Step, s, schedule[..k]).value, schedule[k], Reports(schedule[..k]));
    }
  }

  /** Errors are received in the order they are reported, and the one returned with
      "all servers failed" is the last received. */
  lemma ErrorsInOrder(n: nat, otherSlots: nat, schedule: seq<Action>, s: State)
    requires Reached(n, otherSlots, schedule, s)
    ensures s.errCount <= |Reports(schedule)| && s.errCh == Reports(schedule)[s.errCount..]
    ensures s.lastErr == if s.errCount == 0 then None else Some(Reports(schedule)[s.errCount - 1])
  {
    RunInOrder(Start(n, otherSlots), schedule);
  }
}
