/** One TURN connection attempt: `runWithCreds`, its dial goroutines, the
    session it hands the allocation to, and `reapRace`.

    Every goroutine is a program counter; one action is one channel operation,
    one `sync.Once` entry, one context cancellation or one `Close`. The other
    streams of the process appear only as tokens in the shared allocate
    semaphore. */
module TurnRace {
  import opened Basics

  /** A resource of an attempt: the dialed socket, the TURN client or the relay. */
  datatype Handle = Unopened | Open | Closed

  datatype Outcome = Failed | Won | Lost

  /** Where a dial goroutine stands. */
  datatype DialPc =
    | NotLaunched
    | Dialing                          // DialContext
    | Connecting                       // turn.NewClient
    | Listening                        // client.Listen
    | AwaitingSlot                     // select on allocSemaphore / ctx
    | Allocating                       // client.Allocate, one slot held
    | ReturningSlot(granted: bool)    // <-allocSemaphore
    | ClosingClient                    // error path: client.Close
    | ClosingRaw                       // error path: raw.Close
    | Reporting                        // errCh <- err
    | Allocated                        // about to call once.Do
    | Cancelling                       // inside once: cancelRace
    | Delivering                       // inside once: winCh <- winner
    | LeavingOnce                      // once.Do returns
    | SurplusRelay                     // loser: relay.Close
    | SurplusClient                    // loser: client.Close
    | SurplusRaw                       // loser: raw.Close
    | Leaving(outcome: Outcome)        // wg.Done
    | Finished(outcome: Outcome)

  datatype Dial = Dial(pc: DialPc, raw: Handle, client: Handle, relay: Handle)

  /** `sync.Once`: untouched, its function running in dial `runner`, or spent by it. */
  datatype Once = Fresh | Running(runner: nat) | Spent(runner: nat)

  datatype Result = SessionOver(winner: nat) | AllFailed | CtxErr

  /** The goroutine that called `runWithCreds`. */
  datatype MainPc =
    | Selecting
    | FanningOut                       // inside fanOut, next to launch: `launched`
    | Session(winner: nat)             // runSession
    | SessionRelayClosed(winner: nat)
    | SessionClientClosed(winner: nat)
    | Returned(result: Result)

  datatype ReaperPc =
    | Idle
    | Waiting                          // wg.Wait
    | Draining                         // non-blocking receive from winCh
    | ReapRelay(winner: nat)
    | ReapClient(winner: nat)
    | ReapRaw(winner: nat)
    | Done

  /** The goroutine of runSession that closes a blackholed relay. */
  datatype WatchPc = WatchOff | Watching(winner: nat) | WatchOver

  datatype State = State(
    dials: seq<Dial>,
    once: Once,
    raceCancelled: bool,
    ctxDone: bool,
    winCh: seq<nat>,                   // capacity 1
    errCh: seq<nat>,                   // capacity |dials|
    slots: nat,                        // tokens in allocSemaphore
    otherSlots: nat,                   // of these, held by other streams
    main: MainPc,
    launched: nat,
    fannedOut: bool,
    errCount: nat,
    lastErr: Option<nat>,
    reaper: ReaperPc,
    watch: WatchPc)

  const ALLOC_SLOTS := 3

  /** What a dial goroutine does next; `ok` is the outcome of the call it makes. */
  datatype DialEvent =
    | Dialed(ok: bool)
    | ClientMade(ok: bool)
    | Listened(ok: bool)
    | TakeSlot
    | AbortSlot
    | AllocateReturned(ok: bool)
    | ReturnSlot
    | CloseOnError
    | Report
    | EnterOnce
    | SkipOnce
    | CancelRace
    | Deliver
    | LeaveOnce
    | CloseSurplus
    | Exit

  datatype Action =
    | OfDial(i: nat, e: DialEvent)
    | ReceiveWinner
    | ReceiveError
    | ObserveCtx
    | LaunchNext
    | FanOutDone
    | SessionStep
    | WatcherClosesRelay
    | WatcherStops
    | ReapWaitOver
    | ReapReceive
    | ReapStep
    | CancelCtx
    | OthersTakeSlot
    | OthersReturnSlot

  const Unlaunched := Dial(NotLaunched, Unopened, Unopened, Unopened)
  const Launched := Dial(Dialing, Unopened, Unopened, Unopened)

  /** `runWithCreds` just after `launch(addrs[0])`, with `n` candidate servers. */
  function Start(n: nat, otherSlots: nat): State
    requires 0 < n && otherSlots <= ALLOC_SLOTS
  {
    State([Launched] + seq(n - 1, _ => Unlaunched), Fresh, false, false, [], [],
          otherSlots, otherSlots, Selecting, 1, n == 1, 0, None, Idle, WatchOff)
  }

  // ---------------------------------------------------------------- dials

  /** The dial's own part of a step: its program counter and its handles. */
  function Own(d: Dial, e: DialEvent): Option<Dial> {
    match e
    case Dialed(ok) =>
      if !d.pc.Dialing? then None
      else Some(if ok then d.(pc := Connecting, raw := Open) else d.(pc := Reporting))
    case ClientMade(ok) =>
      if !d.pc.Connecting? then None
      else Some(if ok then d.(pc := Listening, client := Open) else d.(pc := ClosingRaw))
    case Listened(ok) =>
      if !d.pc.Listening? then None else Some(d.(pc := if ok then AwaitingSlot else ClosingClient))
    case TakeSlot =>
      if !d.pc.AwaitingSlot? then None else Some(d.(pc := Allocating))
    case AbortSlot =>
      if !d.pc.AwaitingSlot? then None else Some(d.(pc := ClosingClient))
    case AllocateReturned(ok) =>
      if !d.pc.Allocating? then None
      else Some(d.(pc := ReturningSlot(ok), relay := if ok then Open else Unopened))
    case ReturnSlot =>
      if !d.pc.ReturningSlot? then None else Some(d.(pc := if d.pc.granted then Allocated else ClosingClient))
    case CloseOnError =>
      if d.pc.ClosingClient? then Some(d.(pc := ClosingRaw, client := Closed))
      else if d.pc.ClosingRaw? then Some(d.(pc := Reporting, raw := Closed))
      else None
    case Report =>
      if !d.pc.Reporting? then None else Some(d.(pc := Leaving(Failed)))
    case EnterOnce =>
      if !d.pc.Allocated? then None else Some(d.(pc := Cancelling))
    case SkipOnce =>
      if !d.pc.Allocated? then None else Some(d.(pc := SurplusRelay))
    case CancelRace =>
      if !d.pc.Cancelling? then None else Some(d.(pc := Delivering))
    case Deliver =>
      if !d.pc.Delivering? then None else Some(d.(pc := LeavingOnce))
    case LeaveOnce =>
      if !d.pc.LeavingOnce? then None else Some(d.(pc := Leaving(Won)))
    case CloseSurplus =>
      if d.pc.SurplusRelay? then Some(d.(pc := SurplusClient, relay := Closed))
      else if d.pc.SurplusClient? then Some(d.(pc := SurplusRaw, client := Closed))
      else if d.pc.SurplusRaw? then Some(d.(pc := Leaving(Lost), raw := Closed))
      else None
    case Exit =>
      if !d.pc.Leaving? then None else Some(d.(pc := Finished(d.pc.outcome)))
  }

  /** What the shared objects must allow: room in a channel or the semaphore, a
      cancelled context, the state of the `sync.Once`. */
  predicate Allowed(s: State, e: DialEvent) {
    match e
    case TakeSlot => s.slots < ALLOC_SLOTS
    case AbortSlot => s.raceCancelled || s.ctxDone
    case ReturnSlot => s.slots > 0
    case Report => |s.errCh| < |s.dials|
    case EnterOnce => s.once.Fresh?
    case SkipOnce => s.once.Spent?
    case Deliver => |s.winCh| < 1
    case _ => true
  }

  /** The effect of dial `i`'s step on the shared objects. */
  function Shared(s: State, i: nat, e: DialEvent): State {
    match e
    case TakeSlot => s.(slots := s.slots + 1)
    case ReturnSlot => if s.slots > 0 then s.(slots := s.slots - 1) else s
    case Report => s.(errCh := s.errCh + [i])
    case EnterOnce => s.(once := Running(i))
    case CancelRace => s.(raceCancelled := true)
    case Deliver => s.(winCh := s.winCh + [i])
    case LeaveOnce => s.(once := Spent(i))
    case _ => s
  }

  function DialStep(s: State, i: nat, e: DialEvent): Option<State> {
    if i < |s.dials| && Allowed(s, e) && Own(s.dials[i], e).Some? then
      Some(Shared(s, i, e).(dials := s.dials[i := Own(s.dials[i], e).value]))
    else None
  }

  function Put(s: State, i: nat, d: Dial): State
    requires i < |s.dials|
  {
    s.(dials := s.dials[i := d])
  }

  // ---------------------------------------------------------------- main

  /** What `case err := <-errCh` does with a received error. */
  function OnError(s: State): State
    requires s.errCh != []
  {
    var t := s.(errCh := s.errCh[1..], lastErr := Some(s.errCh[0]), errCount := s.errCount + 1);
    if !s.fannedOut then t.(main := FanningOut)
    else if t.errCount == s.launched then t.(main := Returned(AllFailed), raceCancelled := true)
    else t
  }

  /** The deferred closes of runSession, one handle a step: relay, client, raw. */
  function SessionClose(s: State): Option<State> {
    match s.main
    case Session(w) =>
      if w < |s.dials| then
        Some(Put(s, w, s.dials[w].(relay := Closed)).(main := SessionRelayClosed(w)))
      else None
    case SessionRelayClosed(w) =>
      if w < |s.dials| then
        Some(Put(s, w, s.dials[w].(client := Closed)).(main := SessionClientClosed(w)))
      else None
    case SessionClientClosed(w) =>
      if w < |s.dials| then
        Some(Put(s, w, s.dials[w].(raw := Closed)).(main := Returned(SessionOver(w)), raceCancelled := true))
      else None
    case _ => None
  }

  /** A step of the goroutine running runWithCreds. */
  function Drive(s: State, a: Action): Option<State> {
    match a
    case ReceiveWinner =>
      if s.main.Selecting? && s.winCh != [] then
        Some(s.(winCh := s.winCh[1..], main := Session(s.winCh[0]), watch := Watching(s.winCh[0])))
      else None
    case ReceiveError =>
      if s.main.Selecting? && s.errCh != [] then Some(OnError(s)) else None
    case ObserveCtx =>
      if s.main.Selecting? && s.ctxDone then
        Some(s.(main := Returned(CtxErr), raceCancelled := true, reaper := Waiting))
      else None
    case LaunchNext =>
      if s.main.FanningOut? && s.launched < |s.dials| then
        Some(Put(s, s.launched, Launched).(launched := s.launched + 1))
      else None
    case FanOutDone =>
      if s.main.FanningOut? && s.launched == |s.dials| then
        Some(s.(main := Selecting, fannedOut := true))
      else None
    case SessionStep => SessionClose(s)
    case WatcherClosesRelay =>
      if s.watch.Watching? && s.watch.winner < |s.dials| then
        Some(Put(s, s.watch.winner, s.dials[s.watch.winner].(relay := Closed)).(watch := WatchOver))
      else None
    case WatcherStops =>
      if s.watch.Watching? && (s.ctxDone || !s.main.Session?) then Some(s.(watch := WatchOver)) else None
    case _ => None
  }

  // ---------------------------------------------------------------- reaper and environment

  predicate AllExited(s: State) {
    forall i :: 0 <= i < |s.dials| && i < s.launched ==> s.dials[i].pc.Finished?
  }

  /** The closes of reapRace, one handle a step: relay, client, raw. */
  function ReapClose(s: State): Option<State> {
    match s.reaper
    case ReapRelay(w) =>
      if w < |s.dials| then
        Some(Put(s, w, s.dials[w].(relay := Closed)).(reaper := ReapClient(w)))
      else None
    case ReapClient(w) =>
      if w < |s.dials| then
        Some(Put(s, w, s.dials[w].(client := Closed)).(reaper := ReapRaw(w)))
      else None
    case ReapRaw(w) =>
      if w < |s.dials| then
        Some(Put(s, w, s.dials[w].(raw := Closed)).(reaper := Done))
      else None
    case _ => None
  }

  function Background(s: State, a: Action): Option<State> {
    match a
    case ReapWaitOver =>
      if s.reaper.Waiting? && AllExited(s) then Some(s.(reaper := Draining)) else None
    case ReapReceive =>
      if s.reaper.Draining? then
        Some(if s.winCh != [] then s.(winCh := s.winCh[1..], reaper := ReapRelay(s.winCh[0])) else s.(reaper := Done))
      else None
    case ReapStep => ReapClose(s)
    case CancelCtx => Some(s.(ctxDone := true))
    case OthersTakeSlot =>
      if s.slots < ALLOC_SLOTS then Some(s.(slots := s.slots + 1, otherSlots := s.otherSlots + 1)) else None
    case OthersReturnSlot =>
      if s.otherSlots > 0 && s.slots > 0 then
        Some(s.(slots := s.slots - 1, otherSlots := s.otherSlots - 1))
      else None
    case _ => None
  }

  /** The whole transition function: `None` where the action cannot happen. */
  function Step(s: State, a: Action): Option<State> {
    match a
    case OfDial(i, e) => DialStep(s, i, e)
    case ReapWaitOver | ReapReceive | ReapStep | CancelCtx | OthersTakeSlot | OthersReturnSlot => Background(s, a)
    case _ => Drive(s, a)
  }

}
