/** The results about the TURN race that hold after every schedule. */
module TurnRaceResults {
  import opened Basics
  import opened TurnRace
  import opened TurnRaceProofs

  /** `s` is reached from a fresh attempt on `n` servers by `schedule`. */
  ghost predicate Reached(n: nat, otherSlots: nat, schedule: seq<Action>, s: State) {
    0 < n && otherSlots <= ALLOC_SLOTS && Run(Step, Start(n, otherSlots), schedule) == Some(s)
  }

  lemma ReachedInv(n: nat, otherSlots: nat, schedule: seq<Action>, s: State)
    requires Reached(n, otherSlots, schedule, s)
    ensures Inv(s)
  {
    StartInv(n, otherSlots);
    RunKeepsInv(Start(n, otherSlots), schedule);
  }

  // ---------------------------------------------------------------- one winner

  lemma OneClaim(n: nat, otherSlots: nat, schedule: seq<Action>, s: State, i: nat, j: nat)
    requires Reached(n, otherSlots, schedule, s) && i < |s.dials| && j < |s.dials|
    requires Claims(s.dials[i].pc) && Claims(s.dials[j].pc)
    ensures i == j
  {
    ReachedInv(n, otherSlots, schedule, s);
  }

  // ---------------------------------------------------------------- ownership

  datatype Party = DialGoroutine | Mailbox | SessionOwner | Reaper

  ghost predicate AnyOpen(d: Dial) {
    d.raw.Open? || d.client.Open? || d.relay.Open?
  }

  ghost predicate DialResponsible(pc: DialPc) {
    !pc.NotLaunched? && !pc.Dialing? && !pc.Reporting? && !pc.LeavingOnce? && !pc.Leaving? && !pc.Finished?
  }

  /** Who must close what dial `i` opened, read off each party's own local state. */
  ghost predicate Responsible(s: State, i: nat, p: Party)
    requires i < |s.dials|
  {
    match p
    case DialGoroutine => DialResponsible(s.dials[i].pc)
    case Mailbox => i in s.winCh
    case SessionOwner =>
      (s.main.Session? || s.main.SessionRelayClosed? || s.main.SessionClientClosed?) && s.main.winner == i
    case Reaper => (s.reaper.ReapRelay? || s.reaper.ReapClient? || s.reaper.ReapRaw?) && s.reaper.winner == i
  }

  ghost function Owners(s: State, i: nat): set<Party>
    requires i < |s.dials|
  {
    set p: Party | p in {DialGoroutine, Mailbox, SessionOwner, Reaper} && Responsible(s, i, p)
  }

  lemma OwnerOfUnclaimed(s: State, i: nat)
    requires Inv(s) && i < |s.dials| && !Claims(s.dials[i].pc)
    ensures Owners(s, i) == if AnyOpen(s.dials[i]) then {DialGoroutine} else {}
  {
    assert HandlesFit(s.dials[i]);
    assert Delivered(s) ==> s.once.runner != i;
    assert !Responsible(s, i, Mailbox) && !Responsible(s, i, SessionOwner) && !Responsible(s, i, Reaper);
  }

  lemma OwnerOfClaimer(s: State, i: nat)
    requires Inv(s) && i < |s.dials| && Claims(s.dials[i].pc)
    ensures AnyOpen(s.dials[i]) <==> exists p :: Owners(s, i) == {p}
    ensures !AnyOpen(s.dials[i]) <==> Owners(s, i) == {}
  {
    assert HandlesFit(s.dials[i]) && s.once.runner == i;
    var os := Owners(s, i);
    if !Delivered(s) {
      assert os == {DialGoroutine};
    } else if s.winCh != [] {
      assert os == {Mailbox};
    } else if s.main.Session? || s.main.SessionRelayClosed? || s.main.SessionClientClosed? {
      assert os == {SessionOwner};
    } else if Reaping(s.reaper) {
      assert os == {Reaper};
    } else {
      assert os == {};
    }
  }

  /** Every allocation with something open has exactly one party that must close
      it, and no party is left with nothing to close; what sits in the mailbox is
      still going to be received by the session or drained by the reaper. */
  lemma SingleOwner(n: nat, otherSlots: nat, schedule: seq<Action>, s: State, i: nat)
    requires Reached(n, otherSlots, schedule, s) && i < |s.dials|
    ensures AnyOpen(s.dials[i]) <==> exists p :: Owners(s, i) == {p}
    ensures !AnyOpen(s.dials[i]) <==> Owners(s, i) == {}
    ensures Mailbox in Owners(s, i) ==>
      s.main.Selecting? || s.main.FanningOut? || s.reaper.Waiting? || s.reaper.Draining?
  {
    ReachedInv(n, otherSlots, schedule, s);
    if Claims(s.dials[i].pc) {
      OwnerOfClaimer(s, i);
    } else {
      OwnerOfUnclaimed(s, i);
    }
  }

  /** Every goroutine of the attempt has ended. */
  ghost predicate Quiescent(s: State) {
    && AllExited(s)
    && s.main.Returned?
    && (s.reaper.Idle? || s.reaper.Done?)
    && !s.watch.Watching?
  }

  /** When all goroutines have ended nothing is open, the mailbox is empty, and
      the attempt holds no slot of the allocate semaphore. */
  lemma NothingLeaks(n: nat, otherSlots: nat, schedule: seq<Action>, s: State)
    requires Reached(n, otherSlots, schedule, s) && Quiescent(s)
    ensures forall i :: 0 <= i < |s.dials| ==> !AnyOpen(s.dials[i])
    ensures s.winCh == [] && s.slots == s.otherSlots
  {
    ReachedInv(n, otherSlots, schedule, s);
    QuietSlots(s);
    QuietMailbox(s);
    forall i | 0 <= i < |s.dials| ensures !AnyOpen(s.dials[i]) {
      assert HandlesFit(s.dials[i]);
      QuietDial(s, i);
    }
  }

  lemma QuietSlots(s: State)
    requires Shape(s) && SlotInv(s) && AllExited(s)
    ensures s.slots == s.otherSlots
  {
    TallyBounds(s.dials, HoldsSlot);
  }

  lemma QuietMailbox(s: State)
    requires OnceInv(s) && PlaceInv(s) && ReaperInv(s) && Quiescent(s)
    ensures s.winCh == []
  {
  }

  lemma QuietDial(s: State, i: nat)
    requires Shape(s) && OnceInv(s) && PlaceInv(s) && ReaperInv(s) && Quiescent(s)
    requires i < |s.dials| && HandlesFit(s.dials[i])
    ensures !AnyOpen(s.dials[i])
  {
  }

  // ---------------------------------------------------------------- channels

  /** No goroutine ever blocks sending an error or the winner, nor taking its own
      token back out of the semaphore. */
  lemma SendsNeverBlock(n: nat, otherSlots: nat, schedule: seq<Action>, s: State, i: nat)
    requires Reached(n, otherSlots, schedule, s) && i < |s.dials|
    ensures s.dials[i].pc.Reporting? ==> Step(s, OfDial(i, Report)).Some?
    ensures s.dials[i].pc.Delivering? ==> Step(s, OfDial(i, Deliver)).Some?
    ensures s.dials[i].pc.ReturningSlot? ==> Step(s, OfDial(i, ReturnSlot)).Some?
  {
    ReachedSendsFit(n, otherSlots, schedule, s, i);
    FittingSendsGo(s, i);
  }

  lemma ReachedSendsFit(n: nat, otherSlots: nat, schedule: seq<Action>, s: State, i: nat)
    requires Reached(n, otherSlots, schedule, s) && i < |s.dials|
    ensures s.dials[i].pc.Reporting? ==> |s.errCh| < |s.dials|
    ensures s.dials[i].pc.Delivering? ==> s.winCh == []
    ensures s.dials[i].pc.ReturningSlot? ==> s.slots > 0
  {
    ReachedInv(n, otherSlots, schedule, s);
    SendsFit(s, i);
  }

  lemma FittingSendsGo(s: State, i: nat)
    requires i < |s.dials|
    ensures s.dials[i].pc.Reporting? && |s.errCh| < |s.dials| ==> Step(s, OfDial(i, Report)).Some?
    ensures s.dials[i].pc.Delivering? && s.winCh == [] ==> Step(s, OfDial(i, Deliver)).Some?
    ensures s.dials[i].pc.ReturningSlot? && s.slots > 0 ==> Step(s, OfDial(i, ReturnSlot)).Some?
  {
  }

  lemma SendsFit(s: State, i: nat)
    requires Inv(s) && i < |s.dials|
    ensures s.dials[i].pc.Reporting? ==> |s.errCh| < |s.dials|
    ensures s.dials[i].pc.Delivering? ==> s.winCh == []
    ensures s.dials[i].pc.ReturningSlot? ==> s.slots > 0
  {
    TallyBounds(s.dials, HoldsSlot);
    TallyBounds(s.dials, HasReported);
  }

  // ---------------------------------------------------------------- results of the call

  /** "All servers failed" is returned only after every address was dialed and
      every dial reported its error, and then there is no winner. */
  lemma AllFailedMeansAll(n: nat, otherSlots: nat, schedule: seq<Action>, s: State)
    requires Reached(n, otherSlots, schedule, s) && s.main == Returned(AllFailed)
    ensures s.launched == |s.dials|
    ensures forall i :: 0 <= i < |s.dials| ==> HasReported(s.dials[i]) && !AnyOpen(s.dials[i])
    ensures s.once.Fresh? && s.lastErr.Some?
  {
    ReachedInv(n, otherSlots, schedule, s);
    TallyBounds(s.dials, HasReported);
    forall i | 0 <= i < |s.dials| ensures HasReported(s.dials[i]) && !AnyOpen(s.dials[i]) {
      assert HandlesFit(s.dials[i]);
    }
  }

  /** The failover servers are dialed only after the assigned one reported. */
  lemma FailoverOnlyAfterError(n: nat, otherSlots: nat, schedule: seq<Action>, s: State)
    requires Reached(n, otherSlots, schedule, s) && 1 < s.launched
    ensures s.errCount > 0 && s.lastErr.Some?
  {
    ReachedInv(n, otherSlots, schedule, s);
  }

  /** The select loop cannot wait for ever: once every launched dialer is past its
      send, a winner or an error is there to be received. */
  lemma SelectIsFed(s: State)
    requires Inv(s) && s.main.Selecting?
    requires forall i :: 0 <= i < s.launched ==> s.dials[i].pc.Leaving? || s.dials[i].pc.Finished?
    ensures s.winCh != [] || s.errCh != []
  {
    if s.winCh == [] && s.errCh == [] {
      TallyBounds(s.dials, HasReported);
      assert false;
    }
  }

  // ---------------------------------------------------------------- progress

  /** Dial `i` waits for a slot, every slot is held by other streams, and nothing
      has told it to give up. */
  ghost predicate StarvedByOthers(s: State, i: nat) {
    && i < |s.dials| && s.dials[i].pc.AwaitingSlot?
    && s.otherSlots == ALLOC_SLOTS && !s.raceCancelled && !s.ctxDone
  }

  /** Actions of this attempt's own goroutines, as opposed to its surroundings. */
  predicate OfThisAttempt(a: Action) {
    !a.CancelCtx? && !a.OthersTakeSlot? && !a.OthersReturnSlot?
  }

  /** The event each program counter is waiting to perform. */
  function NextEvent(d: Dial, once: Once, slotFree: bool): DialEvent {
    match d.pc
    case Dialing => Dialed(true)
    case Connecting => ClientMade(true)
    case Listening => Listened(true)
    case AwaitingSlot => if slotFree then TakeSlot else AbortSlot
    case Allocating => AllocateReturned(true)
    case ReturningSlot(_) => ReturnSlot
    case ClosingClient | ClosingRaw => CloseOnError
    case Reporting => Report
    case Allocated => if once.Fresh? then EnterOnce else SkipOnce
    case Cancelling => CancelRace
    case Delivering => Deliver
    case LeavingOnce => LeaveOnce
    case Leaving(_) => Exit
    case _ => CloseSurplus
  }

  lemma NextEventFits(d: Dial, once: Once, slotFree: bool)
    requires !d.pc.NotLaunched? && !d.pc.Finished?
    ensures Own(d, NextEvent(d, once, slotFree)).Some?
  {
  }

  /** A dial that is launched and not finished can move, or waits for a slot or
      for the `once` function of another dial. */
  lemma DialCanMove(s: State, i: nat) returns (e: DialEvent)
    requires Inv(s) && i < s.launched && !s.dials[i].pc.Finished?
    requires !(s.dials[i].pc.AwaitingSlot? && s.slots == ALLOC_SLOTS && !s.raceCancelled && !s.ctxDone)
    requires !(s.dials[i].pc.Allocated? && s.once.Running?)
    ensures DialStep(s, i, e).Some?
  {
    SendsFit(s, i);
    var d := s.dials[i];
    e := NextEvent(d, s.once, s.slots < ALLOC_SLOTS);
    NextEventFits(d, s.once, s.slots < ALLOC_SLOTS);
    assert Allowed(s, e) by {
      match d.pc
      case AwaitingSlot =>
      case ReturningSlot(_) =>
      case Reporting =>
      case Allocated =>
      case Delivering =>
      case _ =>
    }
  }

  /** Some dial of the attempt holds a slot if others do not hold them all. */
  lemma SlotHolder(s: State) returns (i: nat)
    requires SlotInv(s) && s.otherSlots < s.slots
    ensures i < |s.dials| && HoldsSlot(s.dials[i])
  {
    TallyBounds(s.dials, HoldsSlot);
    i :| i < |s.dials| && HoldsSlot(s.dials[i]);
  }

  /** Some dial can move, if one is unfinished and none is starved by others. */
  lemma SomeDialCanMove(s: State, i: nat) returns (a: Action)
    requires Inv(s) && i < s.launched && !s.dials[i].pc.Finished? && !StarvedByOthers(s, i)
    ensures a.OfDial? && Step(s, a).Some?
  {
    var j := i;
    if s.dials[i].pc.Allocated? && s.once.Running? {
      j := s.once.runner;
    } else if s.dials[i].pc.AwaitingSlot? && s.slots == ALLOC_SLOTS && !s.raceCancelled && !s.ctxDone {
      j := SlotHolder(s);
    }
    var e := DialCanMove(s, j);
    a := OfDial(j, e);
  }

  /** No deadlock: unless the attempt is over, or a dial is waiting for slots that
      other streams hold, one of its goroutines can act. */
  lemma NoDeadlock(n: nat, otherSlots: nat, schedule: seq<Action>, s: State) returns (a: Action)
    requires Reached(n, otherSlots, schedule, s)
    requires !Quiescent(s) && forall i :: 0 <= i < |s.dials| ==> !StarvedByOthers(s, i)
    ensures OfThisAttempt(a) && Step(s, a).Some?
  {
    ReachedInv(n, otherSlots, schedule, s);
    if i: nat :| i < s.launched && !s.dials[i].pc.Finished? {
      a := SomeDialCanMove(s, i);
    } else {
      a := OthersCanMove(s);
    }
  }

  lemma OthersCanMove(s: State) returns (a: Action)
    requires Inv(s) && AllExited(s) && !Quiescent(s)
    ensures OfThisAttempt(a) && Step(s, a).Some?
  {
    match s.main
    case Selecting =>
      SelectIsFed(s);
      a := if s.winCh != [] then ReceiveWinner else ReceiveError;
    case FanningOut => a := if s.launched < |s.dials| then LaunchNext else FanOutDone;
    case Session(_) | SessionRelayClosed(_) | SessionClientClosed(_) =>
      a := SessionStep;
    case Returned(_) =>
      a := if s.watch.Watching? then WatcherStops
           else if s.reaper.Waiting? then ReapWaitOver
           else if s.reaper.Draining? then ReapReceive
           else ReapStep;
  }

  // ---------------------------------------------------------------- termination

  function PcWork(pc: DialPc): nat {
    match pc
    case NotLaunched => 18
    case Dialing => 17
    case Connecting => 16
    case Listening => 15
    case AwaitingSlot => 14
    case Allocating => 13
    case ReturningSlot(_) => 12
    case Allocated => 11
    case Cancelling => 10
    case Delivering => 9
    case LeavingOnce => 8
    case SurplusRelay => 7
    case SurplusClient => 6
    case SurplusRaw => 5
    case ClosingClient => 4
    case ClosingRaw => 3
    case Reporting => 2
    case Leaving(_) => 1
    case Finished(_) => 0
  }

  function DialsWork(ds: seq<Dial>): nat {
    if ds == [] then 0 else PcWork(ds[0].pc) + DialsWork(ds[1..])
  }

  lemma {:induction false} DialsWorkUpdate(ds: seq<Dial>, i: nat, d: Dial)
    requires i < |ds|
    ensures DialsWork(ds[i := d]) + PcWork(ds[i].pc) == DialsWork(ds) + PcWork(d.pc)
  {
    if i == 0 {
      assert ds[i := d][1..] == ds[1..];
    } else {
      assert ds[i := d][1..] == ds[1..][i - 1 := d];
      DialsWorkUpdate(ds[1..], i - 1, d);
    }
  }

  lemma {:induction false} DialsWorkBound(ds: seq<Dial>)
    ensures DialsWork(ds) <= 18 * |ds|
  {
    if ds != [] {
      DialsWorkBound(ds[1..]);
    }
  }

  function MainWork(m: MainPc): nat {
    match m
    case Selecting => 10
    case FanningOut => 11
    case Session(_) => 5
    case SessionRelayClosed(_) => 4
    case SessionClientClosed(_) => 3
    case Returned(_) => 0
  }

  function ReaperWork(r: ReaperPc): nat {
    match r
    case Idle | Done => 0
    case Waiting => 5
    case Draining => 4
    case ReapRelay(_) => 3
    case ReapClient(_) => 2
    case ReapRaw(_) => 1
  }

  /** Steps this attempt's goroutines can still take, at most. */
  function Work(s: State): int {
    DialsWork(s.dials) + 2 * (|s.dials| - s.errCount) + MainWork(s.main) + ReaperWork(s.reaper)
      + (if s.watch.Watching? then 1 else 0)
  }

  lemma WorkNonNegative(s: State)
    requires ErrorInv(s)
    ensures Work(s) >= 0
  {
    TallyBounds(s.dials, HasReported);
  }

  lemma OwnWork(d: Dial, e: DialEvent)
    requires Own(d, e).Some?
    ensures PcWork(Own(d, e).value.pc) < PcWork(d.pc)
  {
  }

  lemma CloseWork(s: State, w: nat, d: Dial)
    requires w < |s.dials| && d.pc == s.dials[w].pc
    ensures DialsWork(s.dials[w := d]) == DialsWork(s.dials)
  {
    DialsWorkUpdate(s.dials, w, d);
  }

  lemma SessionCloseWork(s: State)
    requires SessionClose(s).Some?
    ensures Work(SessionClose(s).value) < Work(s)
  {
    var t := SessionClose(s).value;
    CloseWork(s, s.main.winner, t.dials[s.main.winner]);
  }

  lemma WatcherWork(s: State)
    requires Drive(s, WatcherClosesRelay).Some?
    ensures Work(Drive(s, WatcherClosesRelay).value) < Work(s)
  {
    CloseWork(s, s.watch.winner, s.dials[s.watch.winner].(relay := Closed));
  }

  lemma ReapCloseWork(s: State)
    requires ReapClose(s).Some?
    ensures Work(ReapClose(s).value) < Work(s)
  {
    var t := ReapClose(s).value;
    CloseWork(s, s.reaper.winner, t.dials[s.reaper.winner]);
  }

  lemma DriveWork(s: State, a: Action)
    requires Shape(s) && Drive(s, a).Some? && !a.SessionStep? && !a.WatcherClosesRelay?
    ensures Work(Drive(s, a).value) < Work(s)
  {
    if a.LaunchNext? {
      DialsWorkUpdate(s.dials, s.launched, Launched);
    }
  }

  lemma DialStepWork(s: State, i: nat, e: DialEvent)
    requires DialStep(s, i, e).Some?
    ensures Work(DialStep(s, i, e).value) < Work(s)
  {
    OwnWork(s.dials[i], e);
    DialsWorkUpdate(s.dials, i, Own(s.dials[i], e).value);
  }

  lemma StepWork(s: State, a: Action)
    requires Shape(s) && Step(s, a).Some?
    ensures if OfThisAttempt(a) then Work(Step(s, a).value) < Work(s) else Work(Step(s, a).value) == Work(s)
  {
    if a.OfDial? {
      DialStepWork(s, a.i, a.e);
    } else if Drive(s, a).Some? {
      MainWorkFalls(s, a);
    } else {
      BackgroundWork(s, a);
    }
  }

  lemma MainWorkFalls(s: State, a: Action)
    requires Shape(s) && Drive(s, a).Some?
    ensures OfThisAttempt(a) && Work(Drive(s, a).value) < Work(s)
  {
    match a
    case SessionStep => SessionCloseWork(s);
    case WatcherClosesRelay => WatcherWork(s);
    case _ => DriveWork(s, a);
  }

  lemma BackgroundWork(s: State, a: Action)
    requires Background(s, a).Some?
    ensures if OfThisAttempt(a) then Work(Background(s, a).value) < Work(s) else Work(Background(s, a).value) == Work(s)
  {
    if a.ReapStep? {
      ReapCloseWork(s);
    }
  }

  function CountOwn(schedule: seq<Action>): nat {
    if schedule == [] then 0
    else CountOwn(schedule[..|schedule| - 1]) + (if OfThisAttempt(schedule[|schedule| - 1]) then 1 else 0)
  }

  /** Whatever the schedule, the attempt's goroutines take at most 20n + 10 steps
      between them; with NoDeadlock and NothingLeaks, every attempt ends with all
      of its resources released. */
  lemma {:induction false} BoundedWork(n: nat, otherSlots: nat, schedule: seq<Action>)
    requires 0 < n && otherSlots <= ALLOC_SLOTS && Run(Step, Start(n, otherSlots), schedule).Some?
    ensures CountOwn(schedule) + Work(Run(Step, Start(n, otherSlots), schedule).value) <= 20 * n + 10
    ensures CountOwn(schedule) <= 20 * n + 10
  {
    var s := Run(Step, Start(n, otherSlots), schedule).value;
    ReachedInv(n, otherSlots, schedule, s);
    WorkNonNegative(s);
    if schedule == [] {
      DialsWorkBound(Start(n, otherSlots).dials);
    } else {
      var k := |schedule| - 1;
      BoundedWork(n, otherSlots, schedule[..k]);
      var p := Run(Step, Start(n, otherSlots), schedule[..k]).value;
      ReachedInv(n, otherSlots, schedule[..k], p);
      StepWork(p, schedule[k]);
    }
  }
}
