/** The TURN race as one object whose fields are the variables the goroutines
    share; each method is one goroutine's next piece of code. */
module TurnRaceObject {
  import opened Basics
  import opened TurnRace
  import opened TurnRaceProofs

  // ---------------------------------------------------------------- the dial goroutine's own code

  /** What dialAndAllocate does next, by where it stands. */
  method DialAndAllocateCode(d: Dial, e: DialEvent) returns (moved: bool, n: Dial)
    ensures moved ==> Own(d, e) == Some(n)
    ensures InDialAndAllocate(d.pc) && !moved ==> Own(d, e).None?
  {
    n := d;
    moved := true;
    match d.pc {
    case Dialing =>                                       // DialContext
      if !e.Dialed? { return false, d; }
      if e.ok {
        n := n.(raw := Open, pc := Connecting);
      } else {
        n := n.(pc := Reporting);
      }
    case Connecting =>                                    // turn.NewClient
      if !e.ClientMade? { return false, d; }
      if e.ok {
        n := n.(client := Open, pc := Listening);
      } else {
        n := n.(pc := ClosingRaw);
      }
    case Listening =>                                     // client.Listen
      if !e.Listened? { return false, d; }
      if e.ok {
        n := n.(pc := AwaitingSlot);
      } else {
        n := n.(pc := ClosingClient);
      }
    case AwaitingSlot =>                                  // select
      if e.TakeSlot? {
        n := n.(pc := Allocating);
      } else if e.AbortSlot? {
        n := n.(pc := ClosingClient);
      } else {
        return false, d;
      }
    case Allocating =>                                    // client.Allocate
      if !e.AllocateReturned? { return false, d; }
      n := n.(relay := Unopened);
      if e.ok {
        n := n.(relay := Open);
      }
      n := n.(pc := ReturningSlot(e.ok));
    case ReturningSlot(granted) =>                        // <-allocSemaphore
      if !e.ReturnSlot? { return false, d; }
      if granted {
        n := n.(pc := Allocated);
      } else {
        n := n.(pc := ClosingClient);
      }
    case ClosingClient =>                                 // client.Close
      if !e.CloseOnError? { return false, d; }
      n := n.(client := Closed, pc := ClosingRaw);
    case ClosingRaw =>                                    // raw.Close
      if !e.CloseOnError? { return false, d; }
      n := n.(raw := Closed, pc := Reporting);
    case _ =>
      return false, d;
    }
  }

  predicate InDialAndAllocate(pc: DialPc) {
    pc.Dialing? || pc.Connecting? || pc.Listening? || pc.AwaitingSlot? || pc.Allocating? || pc.ReturningSlot?
    || pc.ClosingClient? || pc.ClosingRaw?
  }

  /** What the launched function does next, once dialAndAllocate has returned. */
  method LaunchedCode(d: Dial, e: DialEvent) returns (moved: bool, n: Dial)
    ensures moved ==> Own(d, e) == Some(n)
    ensures !InDialAndAllocate(d.pc) && !moved ==> Own(d, e).None?
  {
    n := d;
    moved := true;
    match d.pc {
    case Reporting =>                                     // errCh <- err
      if !e.Report? { return false, d; }
      n := n.(pc := Leaving(Failed));
    case Allocated =>                                     // once.Do
      if e.EnterOnce? {
        n := n.(pc := Cancelling);
      } else if e.SkipOnce? {
        n := n.(pc := SurplusRelay);
      } else {
        return false, d;
      }
    case Cancelling =>                                    // cancelRace
      if !e.CancelRace? { return false, d; }
      n := n.(pc := Delivering);
    case Delivering =>                                    // winCh <- winner
      if !e.Deliver? { return false, d; }
      n := n.(pc := LeavingOnce);
    case LeavingOnce =>
      if !e.LeaveOnce? { return false, d; }
      n := n.(pc := Leaving(Won));
    case SurplusRelay =>                                  // relay.Close
      if !e.CloseSurplus? { return false, d; }
      n := n.(relay := Closed, pc := SurplusClient);
    case SurplusClient =>                                 // client.Close
      if !e.CloseSurplus? { return false, d; }
      n := n.(client := Closed, pc := SurplusRaw);
    case SurplusRaw =>                                    // raw.Close
      if !e.CloseSurplus? { return false, d; }
      n := n.(raw := Closed, pc := Leaving(Lost));
    case Leaving(outcome) =>                              // wg.Done
      if !e.Exit? { return false, d; }
      n := n.(pc := Finished(outcome));
    case _ =>
      return false, d;
    }
  }

  method OwnCode(d: Dial, e: DialEvent) returns (moved: bool, n: Dial)
    ensures moved <==> Own(d, e).Some?
    ensures moved ==> Own(d, e) == Some(n)
  {
    if InDialAndAllocate(d.pc) {
      moved, n := DialAndAllocateCode(d, e);
    } else {
      moved, n := LaunchedCode(d, e);
    }
  }

  // ---------------------------------------------------------------- the dial goroutine from start to end

  /** What a dial goroutine has done so far. */
  datatype Trace = Beginning | After(past: Trace, event: DialEvent)

  /** The dial after its events, if each could happen. */
  function Traced(done: Trace): Option<Dial> {
    match done
    case Beginning => Some(Launched)
    case After(past, e) => if Traced(past).None? then None else Own(Traced(past).value, e)
  }

  predicate StandsAt(done: Trace, pc: DialPc, raw: Handle, client: Handle, relay: Handle) {
    Traced(done) == Some(Dial(pc, raw, client, relay))
  }

  /** The calls of one dial: does each succeed, is a slot had before the race is
      cancelled, and is this dial the first to enter the once. */
  datatype Calls = Calls(dialed: bool, clientMade: bool, listened: bool, slotHad: bool, granted: bool, first: bool)

  /** dialAndAllocate from its first line to its return. On an error it has closed
      whatever it opened; on success its caller has all three handles. */
  method DialAndAllocate(c: Calls) returns (ok: bool, raw: Handle, client: Handle, relay: Handle, ghost done: Trace)
    ensures ok <==> c.dialed && c.clientMade && c.listened && c.slotHad && c.granted
    ensures ok ==> raw == client == relay == Open
    ensures !ok ==> !raw.Open? && !client.Open? && !relay.Open?
    ensures Traced(done) == Some(Dial(if ok then Allocated else Reporting, raw, client, relay))
  {
    raw, client, relay, done := Unopened, Unopened, Unopened, Beginning;
    done := After(done, Dialed(c.dialed));
    if !c.dialed {
      return false, raw, client, relay, done;
    }
    raw := Open;
    assert StandsAt(done, Connecting, raw, client, relay);
    done := After(done, ClientMade(c.clientMade));
    if !c.clientMade {
      assert StandsAt(done, ClosingRaw, raw, client, relay);
      raw := Closed;
      done := After(done, CloseOnError);
      return false, raw, client, relay, done;
    }
    client := Open;
    assert StandsAt(done, Listening, raw, client, relay);
    done := After(done, Listened(c.listened));
    if !c.listened {
      done := CloseBoth(done, client, raw, relay);
      client := Closed;
      raw := Closed;
      return false, raw, client, relay, done;
    }
    assert StandsAt(done, AwaitingSlot, raw, client, relay);
    if !c.slotHad {
      done := After(done, AbortSlot);
      done := CloseBoth(done, client, raw, relay);
      client := Closed;
      raw := Closed;
      return false, raw, client, relay, done;
    }
    done := After(done, TakeSlot);
    assert StandsAt(done, Allocating, raw, client, relay);
    done := After(done, AllocateReturned(c.granted));
    if c.granted {
      relay := Open;
    }
    assert StandsAt(done, ReturningSlot(c.granted), raw, client, relay);
    done := After(done, ReturnSlot);
    if !c.granted {
      done := CloseBoth(done, client, raw, relay);
      client := Closed;
      raw := Closed;
      return false, raw, client, relay, done;
    }
    return true, raw, client, relay, done;
  }

  /** client.Close, then raw.Close. */
  lemma CloseBoth(done: Trace, client: Handle, raw: Handle, relay: Handle) returns (after: Trace)
    requires Traced(done) == Some(Dial(ClosingClient, raw, client, relay))
    ensures Traced(after) == Some(Dial(Reporting, Closed, Closed, relay))
  {
    after := After(done, CloseOnError);
    assert StandsAt(after, ClosingRaw, raw, Closed, relay);
    after := After(after, CloseOnError);
  }

  /** The launched goroutine from start to end: it finishes having failed with nothing
      open, lost with everything it had allocated closed, or won with everything open
      for the receiver of the winner. */
  method LaunchedGoroutine(c: Calls)
    returns (outcome: Outcome, raw: Handle, client: Handle, relay: Handle, ghost done: Trace)
    ensures Traced(done) == Some(Dial(Finished(outcome), raw, client, relay))
    ensures outcome == if !(c.dialed && c.clientMade && c.listened && c.slotHad && c.granted) then Failed
                       else if c.first then Won else Lost
    ensures if outcome == Won then raw == client == relay == Open else !raw.Open? && !client.Open? && !relay.Open?
  {
    var ok;
    ok, raw, client, relay, done := DialAndAllocate(c);
    if !ok {
      done := ReportsError(done, raw, client, relay);
      return Failed, raw, client, relay, done;
    }
    var claimed := false;
    if c.first {
      claimed := true;
      done := Delivers(done);
      outcome := Won;
    }
    if !claimed {
      relay := Closed;
      client := Closed;
      raw := Closed;
      done := ClosesSurplus(done);
      outcome := Lost;
    }
  }

  /** errCh <- err; wg.Done. */
  lemma ReportsError(done: Trace, raw: Handle, client: Handle, relay: Handle) returns (after: Trace)
    requires Traced(done) == Some(Dial(Reporting, raw, client, relay))
    ensures Traced(after) == Some(Dial(Finished(Failed), raw, client, relay))
  {
    after := After(done, Report);
    assert StandsAt(after, Leaving(Failed), raw, client, relay);
    after := After(after, Exit);
  }

  /** The function inside the once; wg.Done. */
  lemma Delivers(done: Trace) returns (after: Trace)
    requires Traced(done) == Some(Dial(Allocated, Open, Open, Open))
    ensures Traced(after) == Some(Dial(Finished(Won), Open, Open, Open))
  {
    after := After(done, EnterOnce);
    assert StandsAt(after, Cancelling, Open, Open, Open);
    after := After(after, CancelRace);
    assert StandsAt(after, Delivering, Open, Open, Open);
    after := After(after, Deliver);
    assert StandsAt(after, LeavingOnce, Open, Open, Open);
    after := After(after, LeaveOnce);
    assert StandsAt(after, Leaving(Won), Open, Open, Open);
    after := After(after, Exit);
  }

  /** relay.Close, client.Close, raw.Close; wg.Done. */
  lemma ClosesSurplus(done: Trace) returns (after: Trace)
    requires Traced(done) == Some(Dial(Allocated, Open, Open, Open))
    ensures Traced(after) == Some(Dial(Finished(Lost), Closed, Closed, Closed))
  {
    after := After(done, SkipOnce);
    assert StandsAt(after, SurplusRelay, Open, Open, Open);
    after := After(after, CloseSurplus);
    assert StandsAt(after, SurplusClient, Open, Open, Closed);
    after := After(after, CloseSurplus);
    assert StandsAt(after, SurplusRaw, Open, Closed, Closed);
    after := After(after, CloseSurplus);
    assert StandsAt(after, Leaving(Lost), Closed, Closed, Closed);
    after := After(after, Exit);
  }

  // ---------------------------------------------------------------- the shared variables

  predicate OnOnce(e: DialEvent) {
    e.EnterOnce? || e.SkipOnce? || e.CancelRace? || e.LeaveOnce?
  }

  class Race {
    var dials: seq<Dial>
    var once: Once
    var raceCancelled: bool
    var ctxDone: bool
    var winCh: seq<nat>
    var errCh: seq<nat>
    var slots: nat
    var otherSlots: nat
    var main: MainPc
    var launched: nat
    var fannedOut: bool
    var errCount: nat
    var lastErr: Option<nat>
    var reaper: ReaperPc
    var watch: WatchPc

    function Now(): State
      reads this
    {
      State(dials, once, raceCancelled, ctxDone, winCh, errCh, slots, otherSlots, main, launched,
            fannedOut, errCount, lastErr, reaper, watch)
    }

    constructor (n: nat, otherSlots: nat)
      requires 0 < n && otherSlots <= ALLOC_SLOTS
      ensures Now() == Start(n, otherSlots)
    {
      this.dials := [Launched] + seq(n - 1, _ => Unlaunched);
      this.once := Fresh;
      this.raceCancelled, this.ctxDone := false, false;
      this.winCh, this.errCh := [], [];
      this.slots, this.otherSlots := otherSlots, otherSlots;
      this.main := Selecting;
      this.launched, this.fannedOut := 1, n == 1;
      this.errCount, this.lastErr := 0, None;
      this.reaper, this.watch := Idle, WatchOff;
    }

    /** A channel operation of a dial, if the channel allows it. */
    method TouchChannel(i: nat, e: DialEvent) returns (ok: bool)
      requires !OnOnce(e)
      modifies `slots, `errCh, `winCh
      ensures ok <==> Allowed(old(Now()), e)
      ensures Now() == if ok then Shared(old(Now()), i, e) else old(Now())
    {
      ok := true;
      match e {
      case TakeSlot =>
        if slots >= ALLOC_SLOTS { return false; }
        slots := slots + 1;
      case AbortSlot =>
        if !raceCancelled && !ctxDone { return false; }
      case ReturnSlot =>
        if slots == 0 { return false; }
        slots := slots - 1;
      case Report =>
        if |errCh| >= |dials| { return false; }
        errCh := errCh + [i];
      case Deliver =>
        if |winCh| >= 1 { return false; }
        winCh := winCh + [i];
      case _ =>
      }
    }

    /** A dial's way into, through and out of the once. */
    method TouchOnce(i: nat, e: DialEvent) returns (ok: bool)
      requires OnOnce(e)
      modifies `once, `raceCancelled
      ensures ok <==> Allowed(old(Now()), e)
      ensures Now() == if ok then Shared(old(Now()), i, e) else old(Now())
    {
      ok := true;
      match e {
      case EnterOnce =>
        if !once.Fresh? { return false; }
        once := Running(i);
      case SkipOnce =>
        if !once.Spent? { return false; }
      case CancelRace =>
        raceCancelled := true;
      case LeaveOnce =>
        once := Spent(i);
      }
    }

    /** The shared operation of a dial's step, if the shared objects allow it. */
    method TouchShared(i: nat, e: DialEvent) returns (ok: bool)
      modifies `slots, `errCh, `once, `raceCancelled, `winCh
      ensures ok <==> Allowed(old(Now()), e)
      ensures Now() == if ok then Shared(old(Now()), i, e) else old(Now())
    {
      if OnOnce(e) {
        ok := TouchOnce(i, e);
      } else {
        ok := TouchChannel(i, e);
      }
    }

    /** One step of dial goroutine `i`: a call or a close of its own, or an operation
        on the shared objects. */
    method AdvanceDial(i: nat, e: DialEvent) returns (moved: bool)
      modifies this
      ensures moved <==> DialStep(old(Now()), i, e).Some?
      ensures if moved then Now() == DialStep(old(Now()), i, e).value else Now() == old(Now())
    {
      if i >= |dials| {
        return false;
      }
      var d: Dial;
      moved, d := OwnCode(dials[i], e);
      if moved {
        moved := TouchShared(i, e);
      }
      if moved {
        dials := dials[i := d];
      }
    }

    /** `case err := <-errCh` of the select loop. */
    method HandleError() returns (ready: bool)
      modifies this
      ensures ready <==> Step(old(Now()), ReceiveError).Some?
      ensures if ready then Now() == Step(old(Now()), ReceiveError).value else Now() == old(Now())
    {
      if !main.Selecting? || errCh == [] {
        return false;
      }
      lastErr, errCh := Some(errCh[0]), errCh[1..];
      errCount := errCount + 1;
      if !fannedOut {
        main := FanningOut;
      } else if errCount == launched {
        main, raceCancelled := Returned(AllFailed), true;
      }
      ready := true;
    }

    /** `case w := <-winCh` of the select loop: the session takes the allocation. */
    method HandleWinner() returns (ready: bool)
      modifies this
      ensures ready <==> Step(old(Now()), ReceiveWinner).Some?
      ensures if ready then Now() == Step(old(Now()), ReceiveWinner).value else Now() == old(Now())
    {
      if !main.Selecting? || winCh == [] {
        return false;
      }
      main, watch, winCh := Session(winCh[0]), Watching(winCh[0]), winCh[1..];
      ready := true;
    }

    /** `case <-ctx.Done()` of the select loop: leave, and let reapRace clean up. */
    method HandleCtxDone() returns (ready: bool)
      modifies this
      ensures ready <==> Step(old(Now()), ObserveCtx).Some?
      ensures if ready then Now() == Step(old(Now()), ObserveCtx).value else Now() == old(Now())
    {
      if !main.Selecting? || !ctxDone {
        return false;
      }
      raceCancelled := true;
      reaper := Waiting;
      main := Returned(CtxErr);
      ready := true;
    }

    /** The loop of fanOut, with no other goroutine scheduled in between. */
    method FanOut()
      requires main.FanningOut? && launched <= |dials|
      modifies this
      ensures Now() == FannedOut(old(Now()))
    {
      ghost var ds, k := dials, launched;
      while launched < |dials|
        modifies `dials, `launched
        invariant k <= launched <= |ds| == |dials|
        invariant dials[launched..] == ds[launched..]
        invariant dials[..launched] == ds[..k] + seq(launched - k, _ => Launched)
      {
        ghost var was := dials;
        dials := dials[launched := Launched];
        launched := launched + 1;
        assert dials[..launched] == was[..launched - 1] + [Launched];
        assert dials[launched..] == was[launched - 1..][1..];
      }
      assert dials == dials[..launched];
      main, fannedOut := Selecting, true;
    }

    /** reapRace after wg.Wait: a non-blocking receive, then the three closes. */
    method Reap()
      requires reaper.Waiting? && forall w :: w in winCh ==> w < |dials|
      modifies this
      ensures Now() == Reaped(old(Now()))
    {
      if winCh != [] {
        var w := winCh[0];
        assert w in winCh;
        winCh := winCh[1..];
        dials := dials[w := dials[w].(relay := Closed)];
        dials := dials[w := dials[w].(client := Closed)];
        dials := dials[w := dials[w].(raw := Closed)];
      }
      reaper := Done;
    }
  }

  /** All remaining candidates dialing, and back in the select loop. */
  function FannedOut(s: State): State
    requires s.launched <= |s.dials|
  {
    s.(dials := s.dials[..s.launched] + seq(|s.dials| - s.launched, _ => Launched),
       launched := |s.dials|, fannedOut := true, main := Selecting)
  }

  lemma LaunchedOn(s: State)
    requires s.launched < |s.dials|
    ensures FannedOut(LaunchState(s)) == FannedOut(s)
  {
    assert FannedOut(LaunchState(s)).dials == FannedOut(s).dials;
  }

  /** The loop of fanOut is a run of LaunchNext actions ending in FanOutDone. */
  lemma {:induction false} FanOutIsRun(s: State) returns (schedule: seq<Action>)
    requires s.main.FanningOut? && s.launched <= |s.dials|
    ensures schedule == seq(|s.dials| - s.launched, _ => LaunchNext) + [FanOutDone]
    ensures Run(Step, s, schedule) == Some(FannedOut(s))
    decreases |s.dials| - s.launched
  {
    if s.launched == |s.dials| {
      assert FannedOut(s).dials == s.dials;
      schedule := [] + [FanOutDone];
      RunNext(Step, s, [], FanOutDone, FannedOut(s));
    } else {
      LaunchedOn(s);
      var rest := FanOutIsRun(LaunchState(s));
      RunNext(Step, s, [], LaunchNext, LaunchState(s));
      RunOn(Step, s, [] + [LaunchNext], LaunchState(s), rest);
      schedule := [] + [LaunchNext] + rest;
    }
  }

  /** So it keeps what every run keeps. */
  lemma FanOutKeepsInv(s: State)
    requires Inv(s) && s.main.FanningOut?
    ensures Inv(FannedOut(s))
  {
    var schedule := FanOutIsRun(s);
    RunKeepsInv(s, schedule);
  }

  function Reaped(s: State): State
    requires s.reaper.Waiting? && forall w :: w in s.winCh ==> w < |s.dials|
  {
    if s.winCh == [] then s.(reaper := Done)
    else
      var w := s.winCh[0];
      assert w in s.winCh;
      s.(winCh := s.winCh[1..], reaper := Done,
         dials := s.dials[w := s.dials[w].(relay := Closed, client := Closed, raw := Closed)])
  }

  lemma ReapSteps(s: State, w: nat) returns (t: State, u: State, v: State)
    requires s.reaper == ReapRelay(w) && w < |s.dials|
    ensures Step(s, ReapStep) == Some(t) && Step(t, ReapStep) == Some(u) && Step(u, ReapStep) == Some(v)
    ensures v == s.(reaper := Done,
                    dials := s.dials[w := s.dials[w].(relay := Closed, client := Closed, raw := Closed)])
  {
    t := Step(s, ReapStep).value;
    u := Step(t, ReapStep).value;
    v := Step(u, ReapStep).value;
  }

  lemma ReceiveSteps(s: State) returns (t: State, u: State)
    requires s.reaper.Waiting? && AllExited(s)
    ensures Step(s, ReapWaitOver) == Some(t) && Step(t, ReapReceive) == Some(u)
    ensures u == if s.winCh == [] then s.(reaper := Done)
                 else s.(winCh := s.winCh[1..], reaper := ReapRelay(s.winCh[0]))
  {
    t := s.(reaper := Draining);
    u := Step(t, ReapReceive).value;
  }

  /** The reaper's code is a run of its steps, once it has waited for the dialers. */
  lemma ReapedIsRun(s: State) returns (schedule: seq<Action>)
    requires s.reaper.Waiting? && AllExited(s) && forall w :: w in s.winCh ==> w < |s.dials|
    ensures schedule == [ReapWaitOver, ReapReceive] + if s.winCh == [] then [] else [ReapStep, ReapStep, ReapStep]
    ensures Run(Step, s, schedule) == Some(Reaped(s))
  {
    var t, u := ReceiveSteps(s);
    RunNext(Step, s, [], ReapWaitOver, t);
    RunNext(Step, s, [] + [ReapWaitOver], ReapReceive, u);
    schedule := [] + [ReapWaitOver] + [ReapReceive];
    if s.winCh != [] {
      assert s.winCh[0] in s.winCh;
      var x, y, z := ReapSteps(u, s.winCh[0]);
      RunNext(Step, s, schedule, ReapStep, x);
      RunNext(Step, s, schedule + [ReapStep], ReapStep, y);
      RunNext(Step, s, schedule + [ReapStep] + [ReapStep], ReapStep, z);
      schedule := schedule + [ReapStep] + [ReapStep] + [ReapStep];
    }
  }

  /** Once every dialer has exited, one non-blocking receive is enough: nothing the
      attempt ever opened is left open. */
  lemma ReapedIsClean(s: State)
    requires Inv(s) && s.reaper.Waiting? && AllExited(s)
    ensures forall w :: w in s.winCh ==> w < |s.dials|
    ensures var t := Reaped(s); t.winCh == [] && forall i :: 0 <= i < |t.dials| ==>
      !t.dials[i].raw.Open? && !t.dials[i].client.Open? && !t.dials[i].relay.Open?
  {
    WaitingMailbox(s);
    forall i | 0 <= i < |s.dials| && i !in s.winCh
      ensures !s.dials[i].raw.Open? && !s.dials[i].client.Open? && !s.dials[i].relay.Open?
    {
      assert HandlesFit(s.dials[i]);
      ExitedDial(s, i);
    }
  }

  lemma WaitingMailbox(s: State)
    requires OnceInv(s) && PlaceInv(s) && ReaperInv(s) && s.reaper.Waiting?
    ensures s.winCh == if Delivered(s) then [s.once.runner] else []
    ensures Delivered(s) ==> s.once.runner < |s.dials|
  {
  }

  lemma ExitedDial(s: State, i: nat)
    requires Shape(s) && OnceInv(s) && AllExited(s) && i < |s.dials| && HandlesFit(s.dials[i])
    requires !(Delivered(s) && s.once.runner == i)
    ensures !s.dials[i].raw.Open? && !s.dials[i].client.Open? && !s.dials[i].relay.Open?
  {
  }
}
