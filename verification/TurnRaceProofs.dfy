/** What every schedule of the TURN race keeps, and the ownership and progress
    results that follow. */
module TurnRaceProofs {
  import opened Basics
  import opened TurnRace

  // ---------------------------------------------------------------- the invariant

  /** The claimer of the session, if its `once.Do` function has started. */
  ghost predicate Claims(pc: DialPc) {
    pc.Cancelling? || pc.Delivering? || pc.LeavingOnce? || pc == Leaving(Won) || pc == Finished(Won)
  }

  predicate HasReported(d: Dial) {
    d.pc == Leaving(Failed) || d.pc == Finished(Failed)
  }

  predicate HoldsSlot(d: Dial) {
    d.pc.Allocating? || d.pc.ReturningSlot?
  }

  /** Which handles a dial has while it alone is responsible for them. */
  ghost predicate HandlesFit(d: Dial) {
    match d.pc
    case NotLaunched | Dialing => d.raw.Unopened? && d.client.Unopened? && d.relay.Unopened?
    case Connecting => d.raw.Open? && d.client.Unopened? && d.relay.Unopened?
    case Listening | AwaitingSlot | Allocating | ClosingClient => d.raw.Open? && d.client.Open? && d.relay.Unopened?
    case ReturningSlot(ok) => d.raw.Open? && d.client.Open? && d.relay == if ok then Open else Unopened
    case ClosingRaw => d.raw.Open? && !d.client.Open? && d.relay.Unopened?
    case Reporting => !d.raw.Open? && !d.client.Open? && d.relay.Unopened?
    case Allocated | Cancelling | Delivering | SurplusRelay => d.raw.Open? && d.client.Open? && d.relay.Open?
    case SurplusClient => d.raw.Open? && d.client.Open? && d.relay.Closed?
    case SurplusRaw => d.raw.Open? && d.client.Closed? && d.relay.Closed?
    case LeavingOnce => true
    case Leaving(o) => SettledFit(d, o)
    case Finished(o) => SettledFit(d, o)
  }

  ghost predicate SettledFit(d: Dial, o: Outcome) {
    match o
    case Failed => !d.raw.Open? && !d.client.Open? && d.relay.Unopened?
    case Lost => d.raw.Closed? && d.client.Closed? && d.relay.Closed?
    case Won => true
  }

  ghost predicate Delivered(s: State) {
    s.once.Spent? || (s.once.Running? && s.once.runner < |s.dials| && s.dials[s.once.runner].pc.LeavingOnce?)
  }

  /** `h` is open, except that the session's watcher may already have closed it. */
  ghost predicate OpenOrWatched(h: Handle, s: State) {
    h.Open? || (h.Closed? && s.watch.WatchOver?)
  }

  /** The delivered allocation `i` is in exactly one place: the mailbox, the
      session, or the reaper; and its handles fit that place. */
  ghost predicate WinnerPlaced(s: State, i: nat)
    requires i < |s.dials|
  {
    var d := s.dials[i];
    match s.main
    case Selecting | FanningOut =>
      s.winCh == [i] && d.raw.Open? && d.client.Open? && d.relay.Open?
    case Session(w) =>
      s.winCh == [] && w == i && d.raw.Open? && d.client.Open? && OpenOrWatched(d.relay, s)
    case SessionRelayClosed(w) =>
      s.winCh == [] && w == i && d.raw.Open? && d.client.Open? && d.relay.Closed?
    case SessionClientClosed(w) =>
      s.winCh == [] && w == i && d.raw.Open? && d.client.Closed? && d.relay.Closed?
    case Returned(SessionOver(w)) =>
      s.winCh == [] && w == i && d.raw.Closed? && d.client.Closed? && d.relay.Closed?
    case Returned(AllFailed) => false
    case Returned(CtxErr) => ReaperHas(s, i)
  }

  ghost predicate ReaperHas(s: State, i: nat)
    requires i < |s.dials|
  {
    var d := s.dials[i];
    match s.reaper
    case Idle => false
    case Waiting | Draining => s.winCh == [i] && d.raw.Open? && d.client.Open? && d.relay.Open?
    case ReapRelay(w) => s.winCh == [] && w == i && d.raw.Open? && d.client.Open? && d.relay.Open?
    case ReapClient(w) => s.winCh == [] && w == i && d.raw.Open? && d.client.Open? && d.relay.Closed?
    case ReapRaw(w) => s.winCh == [] && w == i && d.raw.Open? && d.client.Closed? && d.relay.Closed?
    case Done => s.winCh == [] && d.raw.Closed? && d.client.Closed? && d.relay.Closed?
  }

  ghost predicate InSession(m: MainPc) {
    m.Session? || m.SessionRelayClosed? || m.SessionClientClosed? || (m.Returned? && m.result.SessionOver?)
  }

  ghost predicate Reaping(r: ReaperPc) {
    r.ReapRelay? || r.ReapClient? || r.ReapRaw?
  }

  ghost predicate NothingDelivered(s: State) {
    s.winCh == [] && !InSession(s.main) && !Reaping(s.reaper)
  }

  ghost predicate Shape(s: State) {
    && 1 <= s.launched <= |s.dials|
    && (forall i :: 0 <= i < |s.dials| ==> (s.dials[i].pc.NotLaunched? <==> i >= s.launched))
    && (s.fannedOut ==> s.launched == |s.dials|)
    && (!s.fannedOut && !s.main.FanningOut? ==> s.launched == 1 && 1 < |s.dials|)
    && (s.main.FanningOut? ==> !s.fannedOut)
  }

  ghost predicate HandlesInv(s: State) {
    forall i :: 0 <= i < |s.dials| ==> HandlesFit(s.dials[i])
  }

  /** A dial that found the session already claimed. */
  ghost predicate LostRace(pc: DialPc) {
    pc.SurplusRelay? || pc.SurplusClient? || pc.SurplusRaw? || pc == Leaving(Lost) || pc == Finished(Lost)
  }

  ghost predicate OnceInv(s: State) {
    && (forall i :: 0 <= i < |s.dials| && LostRace(s.dials[i].pc) ==> s.once.Spent?)
    && (s.once.Fresh? || s.once.runner < |s.dials|)
    && (forall i :: 0 <= i < |s.dials| && Claims(s.dials[i].pc) ==> !s.once.Fresh? && s.once.runner == i)
    && (s.once.Running? ==> var pc := s.dials[s.once.runner].pc; pc.Cancelling? || pc.Delivering? || pc.LeavingOnce?)
    && (s.once.Spent? ==> var pc := s.dials[s.once.runner].pc; pc == Leaving(Won) || pc == Finished(Won))
  }

  ghost predicate PlaceInv(s: State)
    requires OnceInv(s)
  {
    && (if Delivered(s) then WinnerPlaced(s, s.once.runner) else NothingDelivered(s))
    && (s.watch.WatchOff? <==> !InSession(s.main))
    && (s.watch.Watching? ==> !s.once.Fresh? && s.watch.winner == s.once.runner)
  }

  ghost predicate ReaperInv(s: State) {
    && (s.reaper.Idle? <==> s.main != Returned(CtxErr))
    && (!s.reaper.Idle? && !s.reaper.Waiting? ==> AllExited(s))
  }

  ghost predicate ErrorInv(s: State) {
    && s.errCount + |s.errCh| == Tally(s.dials, HasReported)
    && (forall k :: 0 <= k < |s.errCh| ==> s.errCh[k] < |s.dials| && HasReported(s.dials[s.errCh[k]]))
    && (s.lastErr.Some? <==> s.errCount > 0)
    && (s.lastErr.Some? ==> s.lastErr.value < |s.dials| && HasReported(s.dials[s.lastErr.value]))
    && (1 < s.launched ==> s.errCount > 0)
    && (s.main.Selecting? ==> s.errCount < s.launched && (!s.fannedOut ==> s.errCount == 0))
    && (s.main.FanningOut? ==> s.errCount == 1 && 1 < |s.dials|)
    && (s.main == Returned(AllFailed) ==> s.errCount == |s.dials|)
  }

  ghost predicate SlotInv(s: State) {
    && s.slots == s.otherSlots + Tally(s.dials, HoldsSlot)
    && s.slots <= ALLOC_SLOTS
  }

  ghost predicate Inv(s: State) {
    Shape(s) && HandlesInv(s) && OnceInv(s) && PlaceInv(s) && ReaperInv(s) && ErrorInv(s) && SlotInv(s)
  }

  // ---------------------------------------------------------------- preservation

  lemma StartPlaces(n: nat, otherSlots: nat)
    requires 0 < n && otherSlots <= ALLOC_SLOTS
    ensures var s := Start(n, otherSlots); Shape(s) && HandlesInv(s) && OnceInv(s) && PlaceInv(s) && ReaperInv(s)
  {
  }

  lemma StartTallies(n: nat, otherSlots: nat)
    requires 0 < n && otherSlots <= ALLOC_SLOTS
    ensures ErrorInv(Start(n, otherSlots)) && SlotInv(Start(n, otherSlots))
  {
    var ds := Start(n, otherSlots).dials;
    TallyBounds(ds, HasReported);
    TallyBounds(ds, HoldsSlot);
  }

  lemma StartInv(n: nat, otherSlots: nat)
    requires 0 < n && otherSlots <= ALLOC_SLOTS
    ensures Inv(Start(n, otherSlots))
  {
    StartPlaces(n, otherSlots);
    StartTallies(n, otherSlots);
  }

  /** The two states differ at most in contexts, errors and slots. */
  ghost predicate SamePlaces(s: State, t: State) {
    && t.dials == s.dials && t.once == s.once && t.winCh == s.winCh && t.main == s.main
    && t.launched == s.launched && t.fannedOut == s.fannedOut && t.reaper == s.reaper && t.watch == s.watch
  }

  lemma AlikeKeepsPlaces(s: State, t: State)
    requires Shape(s) && HandlesInv(s) && OnceInv(s) && PlaceInv(s) && ReaperInv(s) && SamePlaces(s, t)
    ensures Shape(t) && HandlesInv(t) && OnceInv(t) && PlaceInv(t) && ReaperInv(t)
  {
  }

  /** The two states agree on what the error count is about. */
  ghost predicate SameErrors(s: State, t: State) {
    && t.dials == s.dials && t.errCh == s.errCh && t.errCount == s.errCount && t.lastErr == s.lastErr
    && t.launched == s.launched && t.fannedOut == s.fannedOut && t.main == s.main
  }

  lemma AlikeKeepsErrors(s: State, t: State)
    requires ErrorInv(s) && SameErrors(s, t)
    ensures ErrorInv(t)
  {
  }

  /** A step of dial `i` that touches only its own handles, its own error report
      and its own slot, and neither claims the session nor exits. */
  ghost predicate Local(s: State, t: State, i: nat) {
    && i < |s.dials| == |t.dials|
    && var c, d := s.dials[i], t.dials[i];
    && t == s.(dials := s.dials[i := d], slots := t.slots, errCh := t.errCh)
    && !Claims(c.pc) && !c.pc.NotLaunched? && !c.pc.Finished? && !HasReported(c)
    && !Claims(d.pc) && !d.pc.NotLaunched? && HandlesFit(d) && (LostRace(d.pc) ==> s.once.Spent?)
    && t.errCh == (if HasReported(d) then s.errCh + [i] else s.errCh)
    && t.slots + Unit(HoldsSlot(c)) == s.slots + Unit(HoldsSlot(d)) && t.slots <= ALLOC_SLOTS
  }

  lemma LocalKeepsPlaces(s: State, t: State, i: nat)
    requires Shape(s) && HandlesInv(s) && OnceInv(s) && PlaceInv(s) && ReaperInv(s) && Local(s, t, i)
    ensures Shape(t) && HandlesInv(t) && OnceInv(t) && PlaceInv(t) && ReaperInv(t)
  {
    assert s.once.Fresh? || s.once.runner != i;
    assert i < s.launched;
  }

  lemma LocalKeepsTallies(s: State, t: State, i: nat)
    requires ErrorInv(s) && SlotInv(s) && Local(s, t, i)
    ensures ErrorInv(t) && SlotInv(t)
  {
    TallyUpdate(s.dials, i, t.dials[i], HasReported);
    TallyUpdate(s.dials, i, t.dials[i], HoldsSlot);
  }

  lemma LocalKeepsInv(s: State, t: State, i: nat)
    requires Inv(s) && Local(s, t, i)
    ensures Inv(t)
  {
    LocalKeepsPlaces(s, t, i);
    LocalKeepsTallies(s, t, i);
  }

  /** The events that stay within one dial. */
  predicate StaysLocal(e: DialEvent) {
    !e.EnterOnce? && !e.CancelRace? && !e.Deliver? && !e.LeaveOnce? && !e.Exit?
  }

  lemma OwnFits(d: Dial, e: DialEvent)
    requires HandlesFit(d) && Own(d, e).Some?
    ensures HandlesFit(Own(d, e).value)
  {
    if e.Dialed? || e.ClientMade? || e.Listened? || e.TakeSlot? || e.AbortSlot?
       || e.AllocateReturned? || e.ReturnSlot? {
      DialingFits(d, e);
    } else {
      EndingFits(d, e);
    }
  }

  lemma DialingFits(d: Dial, e: DialEvent)
    requires e.Dialed? || e.ClientMade? || e.Listened? || e.TakeSlot? || e.AbortSlot?
             || e.AllocateReturned? || e.ReturnSlot?
    requires HandlesFit(d) && Own(d, e).Some?
    ensures HandlesFit(Own(d, e).value)
  {
  }

  lemma EndingFits(d: Dial, e: DialEvent)
    requires e.CloseOnError? || e.Report? || e.EnterOnce? || e.SkipOnce? || e.CancelRace? || e.Deliver? || e.LeaveOnce?
      || e.CloseSurplus? || e.Exit?
    requires HandlesFit(d) && Own(d, e).Some?
    ensures HandlesFit(Own(d, e).value)
  {
  }

  /** What a local event does to the classes of program counters the invariant
      speaks of. */
  lemma OwnIsLocal(c: Dial, e: DialEvent)
    requires Own(c, e).Some? && StaysLocal(e)
    ensures var d := Own(c, e).value;
      && !Claims(c.pc) && !c.pc.NotLaunched? && !c.pc.Finished? && !HasReported(c)
      && !Claims(d.pc) && !d.pc.NotLaunched?
      && (LostRace(d.pc) ==> LostRace(c.pc) || e.SkipOnce?)
      && (HasReported(d) <==> e.Report?)
      && (HoldsSlot(c) <==> e.ReturnSlot? || e.AllocateReturned?)
      && (HoldsSlot(d) <==> e.TakeSlot? || e.AllocateReturned?)
  {
  }

  lemma LocalEvent(s: State, i: nat, e: DialEvent)
    requires HandlesInv(s) && OnceInv(s) && s.slots <= ALLOC_SLOTS && DialStep(s, i, e).Some? && StaysLocal(e)
    ensures Local(s, DialStep(s, i, e).value, i)
  {
    OwnFits(s.dials[i], e);
    OwnIsLocal(s.dials[i], e);
    var d := Own(s.dials[i], e).value;
    var t := DialStep(s, i, e).value;
    assert t == s.(dials := s.dials[i := d], slots := t.slots, errCh := t.errCh);
    assert LostRace(d.pc) ==> s.once.Spent?;
  }

  // The five events that touch the once, the mailbox or the wait group.

  lemma ClaimerPlace(s: State, i: nat)
    requires OnceInv(s) && i < |s.dials| && Claims(s.dials[i].pc)
    ensures !s.once.Fresh? && s.once.runner == i
  {
  }

  lemma OwnCounts(d: Dial, e: DialEvent)
    requires Own(d, e).Some? && !StaysLocal(e)
    ensures HasReported(Own(d, e).value) == HasReported(d) && HoldsSlot(Own(d, e).value) == HoldsSlot(d)
  {
  }

  lemma SameCounts(s: State, t: State, i: nat, d: Dial)
    requires ErrorInv(s) && SlotInv(s) && i < |s.dials| && t.dials == s.dials[i := d]
    requires HasReported(d) == HasReported(s.dials[i]) && HoldsSlot(d) == HoldsSlot(s.dials[i])
    requires t.errCh == s.errCh && t.errCount == s.errCount && t.lastErr == s.lastErr && t.main == s.main
    requires t.launched == s.launched && t.fannedOut == s.fannedOut
    requires t.slots == s.slots && t.otherSlots == s.otherSlots
    ensures ErrorInv(t) && SlotInv(t)
  {
    TallyUpdate(s.dials, i, d, HasReported);
    TallyUpdate(s.dials, i, d, HoldsSlot);
  }

  lemma SharedEventTallies(s: State, i: nat, e: DialEvent)
    requires ErrorInv(s) && SlotInv(s) && DialStep(s, i, e).Some? && !StaysLocal(e)
    ensures ErrorInv(DialStep(s, i, e).value) && SlotInv(DialStep(s, i, e).value)
  {
    OwnCounts(s.dials[i], e);
    SameCounts(s, DialStep(s, i, e).value, i, Own(s.dials[i], e).value);
  }

  lemma SharedEventShape(s: State, i: nat, e: DialEvent)
    requires Shape(s) && HandlesInv(s) && DialStep(s, i, e).Some? && !StaysLocal(e)
    ensures Shape(DialStep(s, i, e).value) && HandlesInv(DialStep(s, i, e).value)
  {
    OwnFits(s.dials[i], e);
  }

  lemma SharedEventReaper(s: State, i: nat, e: DialEvent)
    requires Shape(s) && ReaperInv(s) && DialStep(s, i, e).Some? && !StaysLocal(e)
    ensures ReaperInv(DialStep(s, i, e).value)
  {
    assert i < s.launched;
  }

  lemma SharedEventOnce(s: State, i: nat, e: DialEvent)
    requires OnceInv(s) && DialStep(s, i, e).Some? && !StaysLocal(e)
    ensures OnceInv(DialStep(s, i, e).value)
  {
    assert Claims(s.dials[i].pc) ==> !s.once.Fresh? && s.once.runner == i;
  }

  lemma DeliverKeepsPlace(s: State, i: nat)
    requires Inv(s) && DialStep(s, i, Deliver).Some?
    requires OnceInv(DialStep(s, i, Deliver).value)
    ensures PlaceInv(DialStep(s, i, Deliver).value)
  {
    assert HandlesFit(s.dials[i]) && i < s.launched;
    TallyRoom(s.dials, i, HasReported);
    DeliveredIsPlaced(s, i);
  }

  lemma DeliveredIsPlaced(s: State, i: nat)
    requires OnceInv(s) && PlaceInv(s) && ReaperInv(s) && DialStep(s, i, Deliver).Some?
    requires HandlesFit(s.dials[i]) && i < s.launched && s.main != Returned(AllFailed)
    requires OnceInv(DialStep(s, i, Deliver).value)
    ensures PlaceInv(DialStep(s, i, Deliver).value)
  {
    ClaimerPlace(s, i);
  }

  lemma SharedEventPlace(s: State, i: nat, e: DialEvent)
    requires Inv(s) && DialStep(s, i, e).Some? && !StaysLocal(e)
    requires OnceInv(DialStep(s, i, e).value)
    ensures PlaceInv(DialStep(s, i, e).value)
  {
    if e.Deliver? {
      DeliverKeepsPlace(s, i);
    } else {
      assert HandlesFit(s.dials[i]) && i < s.launched;
      OtherEventKeepsPlace(s, i, e);
    }
  }

  lemma OtherEventKeepsPlace(s: State, i: nat, e: DialEvent)
    requires OnceInv(s) && PlaceInv(s) && DialStep(s, i, e).Some? && !StaysLocal(e) && !e.Deliver?
    requires HandlesFit(s.dials[i]) && OnceInv(DialStep(s, i, e).value)
    ensures PlaceInv(DialStep(s, i, e).value)
  {
    OtherEventStays(s, i, e);
    StayingKeepsPlace(s, DialStep(s, i, e).value);
  }

  /** Where the delivered allocation is, and its handles, do not change. */
  ghost predicate WinnerStays(s: State, t: State) {
    && t.winCh == s.winCh && t.main == s.main && t.reaper == s.reaper && t.watch == s.watch
    && (Delivered(s) <==> Delivered(t))
    && (!s.once.Fresh? ==> !t.once.Fresh? && t.once.runner == s.once.runner)
    && (Delivered(s) && s.once.runner < |s.dials| && s.once.runner < |t.dials| ==>
          var c, d := s.dials[s.once.runner], t.dials[s.once.runner];
          c.raw == d.raw && c.client == d.client && c.relay == d.relay)
  }

  lemma OtherEventStays(s: State, i: nat, e: DialEvent)
    requires OnceInv(s) && DialStep(s, i, e).Some? && !StaysLocal(e) && !e.Deliver?
    ensures WinnerStays(s, DialStep(s, i, e).value)
  {
    assert Claims(s.dials[i].pc) ==> !s.once.Fresh? && s.once.runner == i;
  }

  lemma StayingKeepsPlace(s: State, t: State)
    requires OnceInv(s) && OnceInv(t) && PlaceInv(s) && WinnerStays(s, t)
    ensures PlaceInv(t)
  {
  }

  lemma DialKeepsInv(s: State, i: nat, e: DialEvent)
    requires Inv(s) && DialStep(s, i, e).Some?
    ensures Inv(DialStep(s, i, e).value)
  {
    if StaysLocal(e) {
      LocalEvent(s, i, e);
      LocalKeepsInv(s, DialStep(s, i, e).value, i);
    } else {
      SharedEventTallies(s, i, e);
      SharedEventShape(s, i, e);
      SharedEventReaper(s, i, e);
      SharedEventOnce(s, i, e);
      SharedEventPlace(s, i, e);
    }
  }

  // The goroutine of runWithCreds.

  lemma OnErrorKeepsInv(s: State)
    requires Inv(s) && s.main.Selecting? && s.errCh != []
    ensures Inv(OnError(s))
  {
    OnErrorKeepsPlaces(s);
    OnErrorKeepsTallies(s);
  }

  lemma OnErrorKeepsPlaces(s: State)
    requires Shape(s) && HandlesInv(s) && OnceInv(s) && PlaceInv(s) && ReaperInv(s)
    requires ErrorInv(s) && s.main.Selecting? && s.errCh != []
    ensures var t := OnError(s); Shape(t) && HandlesInv(t) && OnceInv(t) && PlaceInv(t) && ReaperInv(t)
  {
    OnErrorKeepsShape(s);
    if OnError(s).main == Returned(AllFailed) {
      AllReportedNoneClaims(s);
    }
    OnErrorKeepsPlace(s);
  }

  lemma OnErrorKeepsShape(s: State)
    requires Shape(s) && HandlesInv(s) && OnceInv(s) && ReaperInv(s)
    requires s.main.Selecting? && s.errCh != []
    ensures var t := OnError(s); Shape(t) && HandlesInv(t) && OnceInv(t) && ReaperInv(t)
  {
  }

  lemma OnErrorKeepsPlace(s: State)
    requires OnceInv(s) && PlaceInv(s) && s.main.Selecting? && s.errCh != []
    requires OnError(s).main == Returned(AllFailed) ==> !Delivered(s)
    requires OnceInv(OnError(s))
    ensures PlaceInv(OnError(s))
  {
  }

  /** If the last error brings the count to all launched dials, none has the session. */
  lemma AllReportedNoneClaims(s: State)
    requires Shape(s) && OnceInv(s) && ErrorInv(s)
    requires s.main.Selecting? && s.errCh != [] && OnError(s).main == Returned(AllFailed)
    ensures !Delivered(s)
  {
    TallyBounds(s.dials, HasReported);
    if !s.once.Fresh? {
      assert HasReported(s.dials[s.once.runner]);
    }
  }

  lemma OnErrorKeepsTallies(s: State)
    requires Shape(s) && ErrorInv(s) && SlotInv(s) && s.main.Selecting? && s.errCh != []
    ensures ErrorInv(OnError(s)) && SlotInv(OnError(s))
  {
    var t := OnError(s);
    TallyBounds(s.dials, HasReported);
    assert forall k :: 0 <= k < |t.errCh| ==> t.errCh[k] == s.errCh[k + 1];
  }

  function LaunchState(s: State): State
    requires s.launched < |s.dials|
  {
    Put(s, s.launched, Launched).(launched := s.launched + 1)
  }

  lemma LaunchKeepsPlaces(s: State)
    requires Shape(s) && HandlesInv(s) && OnceInv(s) && PlaceInv(s) && ReaperInv(s)
    requires s.main.FanningOut? && s.launched < |s.dials|
    ensures var t := LaunchState(s); Shape(t) && HandlesInv(t) && OnceInv(t) && PlaceInv(t) && ReaperInv(t)
  {
  }

  lemma LaunchKeepsTallies(s: State)
    requires Shape(s) && ErrorInv(s) && SlotInv(s) && s.main.FanningOut? && s.launched < |s.dials|
    ensures ErrorInv(LaunchState(s)) && SlotInv(LaunchState(s))
  {
    TallyUpdate(s.dials, s.launched, Launched, HasReported);
    TallyUpdate(s.dials, s.launched, Launched, HoldsSlot);
  }

  lemma LaunchKeepsInv(s: State)
    requires Inv(s) && Drive(s, LaunchNext).Some?
    ensures Inv(Drive(s, LaunchNext).value)
  {
    LaunchKeepsPlaces(s);
    LaunchKeepsTallies(s);
    assert Drive(s, LaunchNext).value == LaunchState(s);
  }

  ghost predicate Waits(m: MainPc) {
    m.Selecting? || m.FanningOut? || m == Returned(AllFailed)
  }

  /** A handle of dial `w` is closed from outside the dial, and a goroutine that
      does not wait for errors moves on. */
  ghost predicate HandleMoves(s: State, t: State, w: nat) {
    && w < |s.dials| == |t.dials| && t.dials == s.dials[w := t.dials[w]] && t.dials[w].pc == s.dials[w].pc
    && t.once == s.once && t.winCh == s.winCh && t.errCh == s.errCh && t.slots == s.slots
    && t.otherSlots == s.otherSlots && t.launched == s.launched && t.fannedOut == s.fannedOut
    && t.errCount == s.errCount && t.lastErr == s.lastErr
    && (s.main == t.main || !(Waits(s.main) || Waits(t.main)))
  }

  /** Closing a handle of the delivered allocation from outside its dial leaves
      everything but its place untouched. */
  lemma WinnerHandleMove(s: State, t: State, w: nat)
    requires Shape(s) && HandlesInv(s) && OnceInv(s) && ErrorInv(s) && SlotInv(s)
    requires Delivered(s) && w == s.once.runner && HandleMoves(s, t, w)
    ensures Shape(t) && HandlesInv(t) && OnceInv(t) && ErrorInv(t) && SlotInv(t) && Delivered(t)
    ensures AllExited(s) ==> AllExited(t)
  {
    MoveKeepsShape(s, t, w);
    SameCounts(s, t.(main := s.main), w, t.dials[w]);
  }

  lemma MoveKeepsShape(s: State, t: State, w: nat)
    requires Shape(s) && HandlesInv(s) && OnceInv(s) && Delivered(s) && w == s.once.runner && HandleMoves(s, t, w)
    ensures Shape(t) && HandlesInv(t) && OnceInv(t) && Delivered(t)
    ensures AllExited(s) ==> AllExited(t)
  {
  }

  lemma PutMoves(s: State, w: nat, d: Dial, main: MainPc, reaper: ReaperPc)
    requires w < |s.dials| && d.pc == s.dials[w].pc && (s.main == main || !(Waits(s.main) || Waits(main)))
    ensures HandleMoves(s, Put(s, w, d).(main := main, reaper := reaper), w)
  {
  }

  lemma SessionCloseMoves(s: State)
    requires SessionClose(s).Some? && s.main.winner < |s.dials|
    ensures HandleMoves(s, SessionClose(s).value, s.main.winner)
  {
    var t, w := SessionClose(s).value, s.main.winner;
    PutMoves(s, w, t.dials[w], t.main, t.reaper);
  }

  lemma SessionCloseReaper(s: State)
    requires SessionClose(s).Some? && ReaperInv(s) && (AllExited(s) ==> AllExited(SessionClose(s).value))
    ensures ReaperInv(SessionClose(s).value)
  {
  }

  lemma ReapCloseMoves(s: State)
    requires ReapClose(s).Some? && s.reaper.winner < |s.dials|
    ensures HandleMoves(s, ReapClose(s).value, s.reaper.winner)
  {
    var t, w := ReapClose(s).value, s.reaper.winner;
    PutMoves(s, w, t.dials[w], t.main, t.reaper);
  }

  lemma ReapCloseReaper(s: State)
    requires ReapClose(s).Some? && ReaperInv(s) && (AllExited(s) ==> AllExited(ReapClose(s).value))
    ensures ReaperInv(ReapClose(s).value)
  {
  }

  lemma SessionClosePlace(s: State)
    requires OnceInv(s) && PlaceInv(s) && SessionClose(s).Some?
    requires Delivered(s) && s.main.winner == s.once.runner
    requires OnceInv(SessionClose(s).value) && Delivered(SessionClose(s).value)
    ensures PlaceInv(SessionClose(s).value)
  {
    WinnerStaysPlaced(s);
  }

  lemma WinnerStaysPlaced(s: State)
    requires s.once.Running? || s.once.Spent?
    requires s.once.runner < |s.dials| && WinnerPlaced(s, s.once.runner)
    requires SessionClose(s).Some? && s.main.winner == s.once.runner
    ensures WinnerPlaced(SessionClose(s).value, s.once.runner)
  {
  }

  lemma SessionCloseRest(s: State)
    requires Shape(s) && HandlesInv(s) && OnceInv(s) && ErrorInv(s) && SlotInv(s) && ReaperInv(s)
    requires SessionClose(s).Some? && Delivered(s) && s.main.winner == s.once.runner
    ensures var t := SessionClose(s).value;
      Shape(t) && HandlesInv(t) && OnceInv(t) && ErrorInv(t) && SlotInv(t) && ReaperInv(t) && Delivered(t)
  {
    SessionCloseMoves(s);
    WinnerHandleMove(s, SessionClose(s).value, s.main.winner);
    SessionCloseReaper(s);
  }

  lemma SessionIsDelivered(s: State)
    requires OnceInv(s) && PlaceInv(s) && SessionClose(s).Some?
    ensures Delivered(s) && s.main.winner == s.once.runner
  {
  }

  lemma SessionCloseKeepsInv(s: State)
    requires Inv(s) && SessionClose(s).Some?
    ensures Inv(SessionClose(s).value)
  {
    SessionIsDelivered(s);
    SessionCloseRest(s);
    SessionClosePlace(s);
  }

  lemma WatcherKeepsInv(s: State)
    requires Inv(s) && Drive(s, WatcherClosesRelay).Some?
    ensures Inv(Drive(s, WatcherClosesRelay).value)
  {
    assert Delivered(s) && s.watch.winner == s.once.runner;
    var w := s.watch.winner;
    WinnerHandleMove(s, Drive(s, WatcherClosesRelay).value, w);
  }

  lemma ReceiveKeepsInv(s: State, a: Action)
    requires Inv(s) && Drive(s, a).Some?
    requires a.ReceiveWinner? || a.ObserveCtx? || a.FanOutDone? || a.WatcherStops?
    ensures Inv(Drive(s, a).value)
  {
    MainMoveKeepsRest(s, a);
    MainMoveKeepsReaper(s, a);
    MainMoveKeepsPlace(s, a);
  }

  lemma MainMoveKeepsRest(s: State, a: Action)
    requires Shape(s) && HandlesInv(s) && OnceInv(s) && ErrorInv(s) && SlotInv(s) && Drive(s, a).Some?
    requires a.ReceiveWinner? || a.ObserveCtx? || a.FanOutDone? || a.WatcherStops?
    ensures var t := Drive(s, a).value; Shape(t) && HandlesInv(t) && OnceInv(t) && ErrorInv(t) && SlotInv(t)
  {
    MainMoveKeepsShape(s, a);
    MainMoveKeepsTallies(s, a);
  }

  lemma MainMoveKeepsShape(s: State, a: Action)
    requires Shape(s) && HandlesInv(s) && OnceInv(s) && Drive(s, a).Some?
    requires a.ReceiveWinner? || a.ObserveCtx? || a.FanOutDone? || a.WatcherStops?
    ensures var t := Drive(s, a).value; Shape(t) && HandlesInv(t) && OnceInv(t)
  {
  }

  lemma MainMoveKeepsTallies(s: State, a: Action)
    requires Shape(s) && ErrorInv(s) && SlotInv(s) && Drive(s, a).Some?
    requires a.ReceiveWinner? || a.ObserveCtx? || a.FanOutDone? || a.WatcherStops?
    ensures ErrorInv(Drive(s, a).value) && SlotInv(Drive(s, a).value)
  {
  }

  lemma MainMoveKeepsReaper(s: State, a: Action)
    requires ReaperInv(s) && Drive(s, a).Some?
    requires a.ReceiveWinner? || a.ObserveCtx? || a.FanOutDone? || a.WatcherStops?
    ensures ReaperInv(Drive(s, a).value)
  {
  }

  lemma MainMoveKeepsPlace(s: State, a: Action)
    requires OnceInv(s) && PlaceInv(s) && ReaperInv(s) && Drive(s, a).Some?
    requires a.ReceiveWinner? || a.ObserveCtx? || a.FanOutDone? || a.WatcherStops?
    requires OnceInv(Drive(s, a).value)
    ensures PlaceInv(Drive(s, a).value)
  {
  }

  lemma ReapClosePlace(s: State)
    requires OnceInv(s) && PlaceInv(s) && ReaperInv(s) && ReapClose(s).Some?
    requires Delivered(s) && s.reaper.winner == s.once.runner
    requires OnceInv(ReapClose(s).value) && Delivered(ReapClose(s).value)
    ensures PlaceInv(ReapClose(s).value)
  {
    assert ReaperHas(s, s.once.runner);
  }

  lemma ReapCloseRest(s: State)
    requires Shape(s) && HandlesInv(s) && OnceInv(s) && ErrorInv(s) && SlotInv(s) && ReaperInv(s)
    requires ReapClose(s).Some? && Delivered(s) && s.reaper.winner == s.once.runner
    ensures var t := ReapClose(s).value;
      Shape(t) && HandlesInv(t) && OnceInv(t) && ErrorInv(t) && SlotInv(t) && ReaperInv(t) && Delivered(t)
  {
    ReapCloseMoves(s);
    WinnerHandleMove(s, ReapClose(s).value, s.reaper.winner);
    ReapCloseReaper(s);
  }

  lemma ReapIsDelivered(s: State)
    requires OnceInv(s) && PlaceInv(s) && ReaperInv(s) && ReapClose(s).Some?
    ensures Delivered(s) && s.reaper.winner == s.once.runner
  {
  }

  lemma ReapCloseKeepsInv(s: State)
    requires Inv(s) && ReapClose(s).Some?
    ensures Inv(ReapClose(s).value)
  {
    ReapIsDelivered(s);
    ReapCloseRest(s);
    ReapClosePlace(s);
  }

  lemma ReapWaitKeepsInv(s: State)
    requires Inv(s) && Background(s, ReapWaitOver).Some?
    ensures Inv(Background(s, ReapWaitOver).value)
  {
  }

  /** When the reaper drains, every dialer has exited, so a mailbox that is empty
      will stay empty and one that is not holds the winner's allocation. */
  lemma DrainSees(s: State)
    requires OnceInv(s) && PlaceInv(s) && ReaperInv(s) && s.reaper.Draining?
    ensures s.main == Returned(CtxErr)
    ensures if s.winCh == [] then !Delivered(s) else Delivered(s) && s.winCh == [s.once.runner]
  {
  }

  lemma ReapReceivePlace(s: State)
    requires OnceInv(s) && PlaceInv(s) && ReaperInv(s) && Background(s, ReapReceive).Some?
    ensures OnceInv(Background(s, ReapReceive).value) && PlaceInv(Background(s, ReapReceive).value)
    ensures ReaperInv(Background(s, ReapReceive).value)
  {
    DrainSees(s);
  }

  lemma ReapReceiveKeepsInv(s: State)
    requires Inv(s) && Background(s, ReapReceive).Some?
    ensures Inv(Background(s, ReapReceive).value)
  {
    var t := Background(s, ReapReceive).value;
    ReapReceivePlace(s);
    assert t == s.(winCh := t.winCh, reaper := t.reaper);
    assert Shape(t) && HandlesInv(t);
    assert ErrorInv(t) && SlotInv(t);
  }

  lemma EnvironmentKeepsInv(s: State, a: Action)
    requires Inv(s) && Background(s, a).Some? && (a.CancelCtx? || a.OthersTakeSlot? || a.OthersReturnSlot?)
    ensures Inv(Background(s, a).value)
  {
    var t := Background(s, a).value;
    AlikeKeepsPlaces(s, t);
    AlikeKeepsErrors(s, t);
  }

  /** Every action, from every goroutine, keeps the invariant. */
  lemma StepKeepsInv(s: State, a: Action)
    requires Inv(s) && Step(s, a).Some?
    ensures Inv(Step(s, a).value)
  {
    if a.OfDial? {
      DialKeepsInv(s, a.i, a.e);
    } else if Drive(s, a).Some? {
      DriveKeepsInv(s, a);
    } else {
      BackgroundKeepsInv(s, a);
    }
  }

  lemma DriveKeepsInv(s: State, a: Action)
    requires Inv(s) && Drive(s, a).Some?
    ensures Inv(Drive(s, a).value)
  {
    match a
    case ReceiveError => OnErrorKeepsInv(s);
    case LaunchNext => LaunchKeepsInv(s);
    case SessionStep => SessionCloseKeepsInv(s);
    case WatcherClosesRelay => WatcherKeepsInv(s);
    case _ => ReceiveKeepsInv(s, a);
  }

  lemma BackgroundKeepsInv(s: State, a: Action)
    requires Inv(s) && Background(s, a).Some?
    ensures Inv(Background(s, a).value)
  {
    match a
    case ReapStep => ReapCloseKeepsInv(s);
    case ReapWaitOver => ReapWaitKeepsInv(s);
    case ReapReceive => ReapReceiveKeepsInv(s);
    case _ => EnvironmentKeepsInv(s, a);
  }

  lemma RunKeepsInv(s: State, schedule: seq<Action>)
    requires Inv(s) && Run(Step, s, schedule).Some?
    ensures Inv(Run(Step, s, schedule).value)
  {
    forall t, a | Inv(t) && Step(t, a).Some? ensures Inv(Step(t, a).value) {
      StepKeepsInv(t, a);
    }
    RunKeeps(Step, t => Inv(t), s, schedule);
  }
}
