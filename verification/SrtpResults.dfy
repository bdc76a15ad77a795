/** Both deadline mechanisms keep what the read loop relies on, in every run. */
module SrtpResults {
  import opened Basics
  import opened SrtpDeadline

  // ---------------------------------------------------------------- what readers rely on

  /** Every channel but the newest has been closed, and the newest is closed only
      once the deadline has passed. */
  ghost predicate GoodView(v: View) {
    && v.made == (if v.dlCh.Some? then v.dlCh.value + 1 else 0)
    && (forall c :: c in v.closed ==> c < v.made)
    && (forall c :: 0 <= c < v.made && c + 1 != v.made ==> c in v.closed)
    && (v.dlCh.Some? && v.dlCh.value in v.closed ==> Expired(v))
  }

  /** A reader has lost at most one turn to each channel made before the one it
      holds (or will get). */
  predicate GoodReader(v: View, r: Reader) {
    match r.pc
    case AtTop => r.spurious == 0 || r.spurious < v.made
    case TimedOut => r.spurious == 0 || r.spurious < v.made
    case Blocked(c) => c < v.made && r.spurious <= c
    case Woken(c) => c < v.made && r.spurious <= c && c in v.closed
  }

  ghost predicate Grows(v: View, w: View) {
    v.made <= w.made && v.closed <= w.closed
  }

  lemma ReadStepKeeps(v: View, r: Reader, e: ReadEvent)
    requires GoodView(v) && GoodReader(v, r) && ReadStep(v, r, e).Some?
    ensures var (w, q) := ReadStep(v, r, e).value; GoodView(w) && GoodReader(w, q) && Grows(v, w)
  {
  }

  ghost predicate ReadersInv<M>(v: View, s: System<M>) {
    && (forall i :: 0 <= i < |s.readers| ==> GoodReader(v, s.readers[i]))
    && v.made <= s.sets + 1
  }

  // ---------------------------------------------------------------- wrappedConn

  ghost predicate ConnGood(m: Conn) {
    && GoodView(m.view)
    && !m.panicked
    && (m.dlClosed <==> m.view.dlCh.Some? && m.view.dlCh.value in m.view.closed)
    && (m.view.dlCh.None? ==> m.view.dlExp.None?)
    && (m.view.dlExp.Some? && !m.dlClosed ==> ConnFirePending(m))
  }

  /** A fire that will close the current channel is on its way: the timer is set for
      the deadline or later, or a call started after the deadline waits for the lock. */
  predicate ConnFirePending(m: Conn)
    requires m.view.dlExp.Some?
  {
    (m.timer.Some? && m.timer.value >= m.view.dlExp.value) || (m.inflight > 0 && Expired(m.view))
  }

  ghost predicate ConnInv(s: System<Conn>) {
    ConnGood(s.mech) && ReadersInv(s.mech.view, s)
  }

  lemma SetConnGood(m: Conn, t: Option<int>, late: nat)
    requires ConnGood(m)
    ensures var n := SetConn(m, t, late); ConnGood(n) && Grows(m.view, n.view) && n.view.made <= m.view.made + 1
    ensures m.view.dlCh.None? ==> SetConn(m, t, late).view.made == 1
  {
  }

  lemma FireConnGood(m: Conn)
    requires ConnGood(m) && m.inflight > 0
    ensures ConnGood(FireConn(m)) && Grows(m.view, FireConn(m).view) && FireConn(m).view.made == m.view.made
  {
  }

  lemma ConnStepKeepsInv(s: System<Conn>, a: Action)
    requires ConnInv(s) && ConnStep(s, a).Some?
    ensures ConnInv(ConnStep(s, a).value)
  {
    match a
    case SetDeadline(t, late) => SetConnGood(s.mech, t, late);
    case Fire(_) => FireConnGood(s.mech);
    case OfReader(i, e) => ReadStepKeeps(s.mech.view, s.readers[i], e);
    case _ =>
  }

  // ---------------------------------------------------------------- packetConnAdapter

  ghost predicate AdapterGood(m: Adapter) {
    && GoodView(m.view)
    && !m.panicked
    && (forall c :: c in m.timers || c in m.inflight ==> c < m.view.made)
    && (m.view.dlCh.None? ==> m.view.dlExp.None?)
    && (m.view.dlCh.Some? && m.view.dlCh.value in m.timers ==>
          m.view.dlExp.Some? && m.timers[m.view.dlCh.value] >= m.view.dlExp.value)
    && (m.view.dlCh.Some? && m.view.dlCh.value in m.inflight ==> Expired(m.view))
    && (m.view.dlExp.Some? && m.view.dlCh.value !in m.view.closed ==> AdapterFirePending(m))
  }

  /** A callback that captured the current channel is on its way. */
  predicate AdapterFirePending(m: Adapter)
    requires m.view.dlExp.Some? && m.view.dlCh.Some?
  {
    var c := m.view.dlCh.value;
    (c in m.timers && m.timers[c] >= m.view.dlExp.value) || (c in m.inflight && Expired(m.view))
  }

  ghost predicate AdapterInv(s: System<Adapter>) {
    AdapterGood(s.mech) && ReadersInv(s.mech.view, s)
  }

  lemma SetAdapterGood(m: Adapter, t: Option<int>, late: nat)
    requires AdapterGood(m)
    ensures var n := SetAdapter(m, t, late); AdapterGood(n) && Grows(m.view, n.view) && n.view.made == m.view.made + 1
  {
  }

  lemma FireAdapterGood(m: Adapter, c: nat)
    requires AdapterGood(m) && c in m.inflight
    ensures var n := FireAdapter(m, c); AdapterGood(n) && Grows(m.view, n.view) && n.view.made == m.view.made
  {
  }

  lemma AdapterStepKeepsInv(s: System<Adapter>, a: Action)
    requires AdapterInv(s) && AdapterStep(s, a).Some?
    ensures AdapterInv(AdapterStep(s, a).value)
  {
    match a
    case SetDeadline(t, late) => SetAdapterGood(s.mech, t, late);
    case Fire(c) => FireAdapterGood(s.mech, c);
    case OfReader(i, e) => ReadStepKeeps(s.mech.view, s.readers[i], e);
    case _ =>
  }

  // ---------------------------------------------------------------- runs

  function NewView(clock: int): View {
    View(clock, None, None, 0, {})
  }

  function NewConn(clock: int, readers: nat): System<Conn> {
    System(Conn(NewView(clock), false, None, 0, false), seq(readers, _ => Reader(AtTop, 0)), 0)
  }

  function NewAdapter(clock: int, readers: nat): System<Adapter> {
    System(Adapter(NewView(clock), map[], {}, false), seq(readers, _ => Reader(AtTop, 0)), 0)
  }

  lemma ConnRunInv(clock: int, readers: nat, schedule: seq<Action>, s: System<Conn>)
    requires Run(ConnStep, NewConn(clock, readers), schedule) == Some(s)
    ensures ConnInv(s)
  {
    forall t, a | ConnInv(t) && ConnStep(t, a).Some? ensures ConnInv(ConnStep(t, a).value) {
      ConnStepKeepsInv(t, a);
    }
    RunKeeps(ConnStep, t => ConnInv(t), NewConn(clock, readers), schedule);
  }

  lemma AdapterRunInv(clock: int, readers: nat, schedule: seq<Action>, s: System<Adapter>)
    requires Run(AdapterStep, NewAdapter(clock, readers), schedule) == Some(s)
    ensures AdapterInv(s)
  {
    forall t, a | AdapterInv(t) && AdapterStep(t, a).Some? ensures AdapterInv(AdapterStep(t, a).value) {
      AdapterStepKeepsInv(t, a);
    }
    RunKeeps(AdapterStep, t => AdapterInv(t), NewAdapter(clock, readers), schedule);
  }

  // ---------------------------------------------------------------- results

  /** In every run no deadline channel is closed twice, and a reader woken by the
      channel that is still current finds the deadline really expired. */
  lemma ConnClosesSoundly(clock: int, readers: nat, schedule: seq<Action>, s: System<Conn>)
    requires Run(ConnStep, NewConn(clock, readers), schedule) == Some(s)
    ensures !s.mech.panicked
    ensures s.mech.view.dlCh.Some? && s.mech.view.dlCh.value in s.mech.view.closed ==> Expired(s.mech.view)
    ensures forall i :: 0 <= i < |s.readers| && s.readers[i].pc.Woken?
                        && s.mech.view.dlCh == Some(s.readers[i].pc.ch) ==>
      Expired(s.mech.view)
  {
    ConnRunInv(clock, readers, schedule, s);
    assert forall i :: 0 <= i < |s.readers| ==> GoodReader(s.mech.view, s.readers[i]);
  }

  lemma AdapterClosesSoundly(clock: int, readers: nat, schedule: seq<Action>, s: System<Adapter>)
    requires Run(AdapterStep, NewAdapter(clock, readers), schedule) == Some(s)
    ensures !s.mech.panicked
    ensures s.mech.view.dlCh.Some? && s.mech.view.dlCh.value in s.mech.view.closed ==> Expired(s.mech.view)
    ensures forall i :: 0 <= i < |s.readers| && s.readers[i].pc.Woken?
                        && s.mech.view.dlCh == Some(s.readers[i].pc.ch) ==>
      Expired(s.mech.view)
  {
    AdapterRunInv(clock, readers, schedule, s);
    assert forall i :: 0 <= i < |s.readers| ==> GoodReader(s.mech.view, s.readers[i]);
  }

  /** The deadline set last in a schedule, if any was and it was not a reset. */
  function LastDeadline(schedule: seq<Action>): Option<int> {
    if schedule == [] then None
    else
      var last := schedule[|schedule| - 1];
      if last.SetDeadline? then last.deadline else LastDeadline(schedule[..|schedule| - 1])
  }

  lemma ConnStepDeadline(s: System<Conn>, a: Action)
    requires ConnStep(s, a).Some?
    ensures ConnStep(s, a).value.mech.view.dlExp == if a.SetDeadline? then a.deadline else s.mech.view.dlExp
  {
  }

  lemma {:induction false} ConnKeepsDeadline(clock: int, readers: nat, schedule: seq<Action>, s: System<Conn>)
    requires Run(ConnStep, NewConn(clock, readers), schedule) == Some(s)
    ensures s.mech.view.dlExp == LastDeadline(schedule)
  {
    if schedule != [] {
      var k := |schedule| - 1;
      var p := Run(ConnStep, NewConn(clock, readers), schedule[..k]).value;
      ConnKeepsDeadline(clock, readers, schedule[..k], p);
      ConnStepDeadline(p, schedule[k]);
    }
  }

  /** A woken reader times out exactly if the deadline set last, in the whole run,
      has been reached; superseded deadlines and stale fires do not count. */
  lemma ConnTimesOutExactly(clock: int, readers: nat, schedule: seq<Action>, s: System<Conn>, i: nat)
    requires Run(ConnStep, NewConn(clock, readers), schedule) == Some(s)
    requires i < |s.readers| && s.readers[i].pc.Woken?
    ensures ConnStep(s, OfReader(i, Check)).Some?
    ensures ConnStep(s, OfReader(i, Check)).value.readers[i].pc.TimedOut?
      <==> LastDeadline(schedule).Some? && LastDeadline(schedule).value <= s.mech.view.clock
  {
    ConnKeepsDeadline(clock, readers, schedule, s);
  }

  lemma AdapterStepDeadline(s: System<Adapter>, a: Action)
    requires AdapterStep(s, a).Some?
    ensures AdapterStep(s, a).value.mech.view.dlExp == if a.SetDeadline? then a.deadline else s.mech.view.dlExp
  {
  }

  lemma {:induction false} AdapterKeepsDeadline(clock: int, readers: nat, schedule: seq<Action>, s: System<Adapter>)
    requires Run(AdapterStep, NewAdapter(clock, readers), schedule) == Some(s)
    ensures s.mech.view.dlExp == LastDeadline(schedule)
  {
    if schedule != [] {
      var k := |schedule| - 1;
      var p := Run(AdapterStep, NewAdapter(clock, readers), schedule[..k]).value;
      AdapterKeepsDeadline(clock, readers, schedule[..k], p);
      AdapterStepDeadline(p, schedule[k]);
    }
  }

  lemma AdapterTimesOutExactly(clock: int, readers: nat, schedule: seq<Action>, s: System<Adapter>, i: nat)
    requires Run(AdapterStep, NewAdapter(clock, readers), schedule) == Some(s)
    requires i < |s.readers| && s.readers[i].pc.Woken?
    ensures AdapterStep(s, OfReader(i, Check)).Some?
    ensures AdapterStep(s, OfReader(i, Check)).value.readers[i].pc.TimedOut?
      <==> LastDeadline(schedule).Some? && LastDeadline(schedule).value <= s.mech.view.clock
  {
    AdapterKeepsDeadline(clock, readers, schedule, s);
  }

  /** How often a schedule sets a deadline. */
  function SetsIn(schedule: seq<Action>): nat {
    if schedule == [] then 0
    else SetsIn(schedule[..|schedule| - 1]) + (if schedule[|schedule| - 1].SetDeadline? then 1 else 0)
  }

  lemma {:induction false} ConnSets(clock: int, readers: nat, schedule: seq<Action>, s: System<Conn>)
    requires Run(ConnStep, NewConn(clock, readers), schedule) == Some(s)
    ensures s.sets == SetsIn(schedule)
  {
    if schedule != [] {
      var k := |schedule| - 1;
      ConnSets(clock, readers, schedule[..k], Run(ConnStep, NewConn(clock, readers), schedule[..k]).value);
    }
  }

  lemma {:induction false} AdapterSets(clock: int, readers: nat, schedule: seq<Action>, s: System<Adapter>)
    requires Run(AdapterStep, NewAdapter(clock, readers), schedule) == Some(s)
    ensures s.sets == SetsIn(schedule)
  {
    if schedule != [] {
      var k := |schedule| - 1;
      AdapterSets(clock, readers, schedule[..k], Run(AdapterStep, NewAdapter(clock, readers), schedule[..k]).value);
    }
  }

  /** A read that begins after the deadline's channel was closed times out in three steps. */
  lemma ConnLateReadTimesOut(clock: int, readers: nat, schedule: seq<Action>, s: System<Conn>, i: nat)
      returns (end: System<Conn>)
    requires Run(ConnStep, NewConn(clock, readers), schedule) == Some(s) && i < |s.readers| && s.readers[i].pc.AtTop?
    requires s.mech.view.dlCh.Some? && s.mech.view.dlCh.value in s.mech.view.closed
    ensures Run(ConnStep, s, [OfReader(i, EnterSelect), OfReader(i, Wake), OfReader(i, Check)]) == Some(end)
    ensures i < |end.readers| && end.readers[i].pc.TimedOut?
  {
    ConnRunInv(clock, readers, schedule, s);
    var t := ConnStep(s, OfReader(i, EnterSelect)).value;
    var u := ConnStep(t, OfReader(i, Wake)).value;
    end := ConnStep(u, OfReader(i, Check)).value;
    RunOfThree(ConnStep, s, t, u, end, OfReader(i, EnterSelect), OfReader(i, Wake), OfReader(i, Check));
  }

  lemma AdapterLateReadTimesOut(clock: int, readers: nat, schedule: seq<Action>, s: System<Adapter>, i: nat)
      returns (end: System<Adapter>)
    requires Run(AdapterStep, NewAdapter(clock, readers), schedule) == Some(s) && i < |s.readers|
    requires s.readers[i].pc.AtTop?
    requires s.mech.view.dlCh.Some? && s.mech.view.dlCh.value in s.mech.view.closed
    ensures Run(AdapterStep, s, [OfReader(i, EnterSelect), OfReader(i, Wake), OfReader(i, Check)]) == Some(end)
    ensures i < |end.readers| && end.readers[i].pc.TimedOut?
  {
    AdapterRunInv(clock, readers, schedule, s);
    var t := AdapterStep(s, OfReader(i, EnterSelect)).value;
    var u := AdapterStep(t, OfReader(i, Wake)).value;
    end := AdapterStep(u, OfReader(i, Check)).value;
    RunOfThree(AdapterStep, s, t, u, end, OfReader(i, EnterSelect), OfReader(i, Wake), OfReader(i, Check));
  }

  /** A reader is never stuck: it can enter its select, take a packet while it is blocked,
      check when it was woken, and read again after a timeout. */
  lemma ReaderCanMove(v: View, r: Reader)
    ensures var e := match r.pc case AtTop => EnterSelect case Blocked(_) => Receive case Woken(_) => Check
                                case TimedOut => ReadAgain;
      && ReadStep(v, r, e).Some?
      && (r.pc.Blocked? || r.pc.TimedOut? ==> ReadStep(v, r, e) == Some((v, r.(pc := AtTop))))
    ensures !r.pc.Blocked? ==> ReadStep(v, r, Receive).None?
  {
  }

  /** The read loop cannot spin: over a whole run a reader takes at most one fruitless
      turn for each time a deadline was set. */
  lemma ConnReaderCannotSpin(clock: int, readers: nat, schedule: seq<Action>, s: System<Conn>, i: nat)
    requires Run(ConnStep, NewConn(clock, readers), schedule) == Some(s) && i < |s.readers|
    ensures s.readers[i].spurious <= SetsIn(schedule)
  {
    ConnSets(clock, readers, schedule, s);
    ConnRunInv(clock, readers, schedule, s);
    assert GoodReader(s.mech.view, s.readers[i]);
  }

  lemma AdapterReaderCannotSpin(clock: int, readers: nat, schedule: seq<Action>, s: System<Adapter>, i: nat)
    requires Run(AdapterStep, NewAdapter(clock, readers), schedule) == Some(s) && i < |s.readers|
    ensures s.readers[i].spurious <= SetsIn(schedule)
  {
    AdapterSets(clock, readers, schedule, s);
    AdapterRunInv(clock, readers, schedule, s);
    assert GoodReader(s.mech.view, s.readers[i]);
  }

  /** How much later than asked the timer of the deadline set last may fire. */
  function LastLate(schedule: seq<Action>): nat {
    if schedule == [] then 0
    else
      var last := schedule[|schedule| - 1];
      if last.SetDeadline? then last.late else LastLate(schedule[..|schedule| - 1])
  }

  function Later(a: int, b: int): int {
    if a < b then b else a
  }

  /** A timer is due when the deadline set last asked for it. */
  predicate DueFor(due: int, deadline: Option<int>, late: nat) {
    deadline.Some? && due == deadline.value + late
  }

  lemma ConnStepTimer(s: System<Conn>, a: Action, deadline: Option<int>, late: nat)
    requires ConnStep(s, a).Some? && (s.mech.timer.Some? ==> DueFor(s.mech.timer.value, deadline, late))
    ensures var t := ConnStep(s, a).value;
      t.mech.timer.Some? ==>
        DueFor(t.mech.timer.value,
               if a.SetDeadline? then a.deadline else deadline, if a.SetDeadline? then a.late else late)
  {
  }

  /** The reusable timer, when it runs, is that of the deadline set last. */
  lemma {:induction false} ConnTimerIsPrompt(clock: int, readers: nat, schedule: seq<Action>, s: System<Conn>)
    requires Run(ConnStep, NewConn(clock, readers), schedule) == Some(s)
    ensures s.mech.timer.Some? ==> DueFor(s.mech.timer.value, LastDeadline(schedule), LastLate(schedule))
  {
    if schedule != [] {
      var k := |schedule| - 1;
      var p := Run(ConnStep, NewConn(clock, readers), schedule[..k]).value;
      ConnTimerIsPrompt(clock, readers, schedule[..k], p);
      ConnStepTimer(p, schedule[k], LastDeadline(schedule[..k]), LastLate(schedule[..k]));
    }
  }

  predicate CurrentDue(m: Adapter, deadline: Option<int>, late: nat) {
    m.view.dlCh.Some? && m.view.dlCh.value in m.timers ==> DueFor(m.timers[m.view.dlCh.value], deadline, late)
  }

  lemma AdapterStepTimer(s: System<Adapter>, a: Action, deadline: Option<int>, late: nat)
    requires AdapterInv(s) && AdapterStep(s, a).Some? && CurrentDue(s.mech, deadline, late)
    ensures CurrentDue(AdapterStep(s, a).value.mech,
                       if a.SetDeadline? then a.deadline else deadline, if a.SetDeadline? then a.late else late)
  {
  }

  /** The timer of the adapter's current channel is that of the deadline set last. */
  lemma {:induction false} AdapterTimerIsPrompt(clock: int, readers: nat, schedule: seq<Action>, s: System<Adapter>)
    requires Run(AdapterStep, NewAdapter(clock, readers), schedule) == Some(s)
    ensures CurrentDue(s.mech, LastDeadline(schedule), LastLate(schedule))
  {
    if schedule != [] {
      var k := |schedule| - 1;
      var p := Run(AdapterStep, NewAdapter(clock, readers), schedule[..k]).value;
      AdapterTimerIsPrompt(clock, readers, schedule[..k], p);
      AdapterRunInv(clock, readers, schedule[..k], p);
      AdapterStepTimer(p, schedule[k], LastDeadline(schedule[..k]), LastLate(schedule[..k]));
    }
  }

  /** Setting a deadline that has passed wakes every blocked reader at once, and those
      that check then time out. */
  lemma ConnPastDeadlineWakes(clock: int, readers: nat, schedule: seq<Action>, s: System<Conn>, t: int, late: nat,
                              i: nat)
    requires Run(ConnStep, NewConn(clock, readers), schedule) == Some(s)
    requires t <= s.mech.view.clock && i < |s.readers| && s.readers[i].pc.Blocked?
    ensures var u := ConnStep(s, SetDeadline(Some(t), late)).value;
      && u.readers == s.readers && s.readers[i].pc.ch in u.mech.view.closed && Expired(u.mech.view)
      && u.mech.view.dlCh.Some? && u.mech.view.dlCh.value in u.mech.view.closed
  {
    ConnRunInv(clock, readers, schedule, s);
    assert GoodReader(s.mech.view, s.readers[i]);
  }

  lemma AdapterPastDeadlineWakes(clock: int, readers: nat, schedule: seq<Action>, s: System<Adapter>, t: int, late: nat,
                                 i: nat)
    requires Run(AdapterStep, NewAdapter(clock, readers), schedule) == Some(s)
    requires t <= s.mech.view.clock && i < |s.readers| && s.readers[i].pc.Blocked?
    ensures var u := AdapterStep(s, SetDeadline(Some(t), late)).value;
      && u.readers == s.readers && s.readers[i].pc.ch in u.mech.view.closed && Expired(u.mech.view)
      && u.mech.view.dlCh.Some? && u.mech.view.dlCh.value in u.mech.view.closed
  {
    AdapterRunInv(clock, readers, schedule, s);
    assert GoodReader(s.mech.view, s.readers[i]);
  }

  /** Letting the clock reach the timer and the runtime start its function. */
  lemma ConnTimerStarts(s: System<Conn>, i: nat) returns (rest: seq<Action>, end: System<Conn>)
    requires ConnInv(s) && i < |s.readers| && s.readers[i].pc.Blocked? && s.readers[i].pc.ch !in s.mech.view.closed
    requires s.mech.view.dlExp.Some?
    ensures Run(ConnStep, s, rest) == Some(end) && ConnInv(end) && end.readers == s.readers
    ensures end.mech.inflight > 0 && Expired(end.mech.view) && end.mech.view.closed == s.mech.view.closed
    ensures end.mech.view.clock == s.mech.view.clock
      || (s.mech.timer.Some? && end.mech.view.clock == Later(s.mech.timer.value, s.mech.view.clock))
    ensures forall a :: a in rest ==> a.Tick? || a.TimerDue?
  {
    var m := s.mech;
    assert GoodReader(m.view, s.readers[i]);
    if m.inflight > 0 && Expired(m.view) {
      rest, end := [], s;
    } else {
      var due := Tick(if m.timer.value > m.view.clock then m.timer.value else m.view.clock);
      var mid := ConnStep(s, due).value;
      RunNext(ConnStep, s, [], due, mid);
      ConnStepKeepsInv(s, due);
      end := ConnStep(mid, TimerDue(0)).value;
      RunNext(ConnStep, s, [] + [due], TimerDue(0), end);
      ConnStepKeepsInv(mid, TimerDue(0));
      rest := [] + [due] + [TimerDue(0)];
    }
  }

  /** The started function closes the channel the reader holds, and the reader times
      out. */
  lemma ConnFireWakes(s: System<Conn>, i: nat) returns (end: System<Conn>)
    requires ConnInv(s) && i < |s.readers| && s.readers[i].pc.Blocked? && s.readers[i].pc.ch !in s.mech.view.closed
    requires s.mech.inflight > 0 && Expired(s.mech.view)
    ensures Run(ConnStep, s, [Fire(0), OfReader(i, Wake), OfReader(i, Check)]) == Some(end)
    ensures i < |end.readers| && end.readers[i].pc.TimedOut?
  {
    assert GoodReader(s.mech.view, s.readers[i]);
    var s3 := ConnStep(s, Fire(0)).value;
    RunNext(ConnStep, s, [], Fire(0), s3);
    var s4 := ConnStep(s3, OfReader(i, Wake)).value;
    RunNext(ConnStep, s, [] + [Fire(0)], OfReader(i, Wake), s4);
    end := ConnStep(s4, OfReader(i, Check)).value;
    RunNext(ConnStep, s, [] + [Fire(0)] + [OfReader(i, Wake)], OfReader(i, Check), end);
    assert [] + [Fire(0)] + [OfReader(i, Wake)] + [OfReader(i, Check)]
        == [Fire(0), OfReader(i, Wake), OfReader(i, Check)];
  }

  /** A reader blocked on an open channel while a deadline is armed is blocked on the
      current channel, and a fire is on its way: letting the clock reach the timer
      and the pending call run ends in the reader timing out, by the deadline set last
      and what its timer may be late, or at once. */
  lemma ConnDeadlineWakes(clock: int, readers: nat, schedule: seq<Action>, s: System<Conn>, i: nat)
      returns (timer: seq<Action>, mid: System<Conn>, end: System<Conn>)
    requires Run(ConnStep, NewConn(clock, readers), schedule) == Some(s)
    requires i < |s.readers| && s.readers[i].pc.Blocked? && s.readers[i].pc.ch !in s.mech.view.closed
    requires s.mech.view.dlExp.Some?
    ensures s.mech.view.dlCh == Some(s.readers[i].pc.ch) && ConnFirePending(s.mech)
    ensures Run(ConnStep, s, timer) == Some(mid) && forall a :: a in timer ==> a.Tick? || a.TimerDue?
    ensures LastDeadline(schedule).Some?
    ensures mid.mech.view.clock <= Later(s.mech.view.clock, LastDeadline(schedule).value + LastLate(schedule))
    ensures Run(ConnStep, mid, [Fire(0), OfReader(i, Wake), OfReader(i, Check)]) == Some(end)
    ensures i < |end.readers| && end.readers[i].pc.TimedOut?
  {
    ConnRunInv(clock, readers, schedule, s);
    assert GoodReader(s.mech.view, s.readers[i]);
    ConnKeepsDeadline(clock, readers, schedule, s);
    ConnTimerIsPrompt(clock, readers, schedule, s);
    timer, mid := ConnTimerStarts(s, i);
    end := ConnFireWakes(mid, i);
  }

  lemma AdapterTimerStarts(s: System<Adapter>, i: nat, c: nat) returns (rest: seq<Action>, end: System<Adapter>)
    requires AdapterInv(s) && i < |s.readers| && s.readers[i].pc == Blocked(c) && c !in s.mech.view.closed
    requires s.mech.view.dlExp.Some?
    ensures Run(AdapterStep, s, rest) == Some(end) && AdapterInv(end) && end.readers == s.readers
    ensures c in end.mech.inflight && Expired(end.mech.view) && end.mech.view.closed == s.mech.view.closed
    ensures end.mech.view.clock == s.mech.view.clock
      || (c in s.mech.timers && end.mech.view.clock == Later(s.mech.timers[c], s.mech.view.clock))
    ensures forall a :: a in rest ==> a.Tick? || a.TimerDue?
  {
    var m := s.mech;
    assert GoodReader(m.view, s.readers[i]);
    if c in m.inflight {
      rest, end := [], s;
    } else {
      var due := Tick(if m.timers[c] > m.view.clock then m.timers[c] else m.view.clock);
      var mid := AdapterStep(s, due).value;
      RunNext(AdapterStep, s, [], due, mid);
      AdapterStepKeepsInv(s, due);
      end := AdapterStep(mid, TimerDue(c)).value;
      RunNext(AdapterStep, s, [] + [due], TimerDue(c), end);
      AdapterStepKeepsInv(mid, TimerDue(c));
      rest := [] + [due] + [TimerDue(c)];
    }
  }

  lemma AdapterFireWakes(s: System<Adapter>, i: nat, c: nat) returns (end: System<Adapter>)
    requires AdapterInv(s) && i < |s.readers| && s.readers[i].pc == Blocked(c) && c !in s.mech.view.closed
    requires c in s.mech.inflight && Expired(s.mech.view)
    ensures Run(AdapterStep, s, [Fire(c), OfReader(i, Wake), OfReader(i, Check)]) == Some(end)
    ensures i < |end.readers| && end.readers[i].pc.TimedOut?
  {
    assert GoodReader(s.mech.view, s.readers[i]);
    var s3 := AdapterStep(s, Fire(c)).value;
    RunNext(AdapterStep, s, [], Fire(c), s3);
    var s4 := AdapterStep(s3, OfReader(i, Wake)).value;
    RunNext(AdapterStep, s, [] + [Fire(c)], OfReader(i, Wake), s4);
    end := AdapterStep(s4, OfReader(i, Check)).value;
    RunNext(AdapterStep, s, [] + [Fire(c)] + [OfReader(i, Wake)], OfReader(i, Check), end);
    assert [] + [Fire(c)] + [OfReader(i, Wake)] + [OfReader(i, Check)]
        == [Fire(c), OfReader(i, Wake), OfReader(i, Check)];
  }

  lemma AdapterDeadlineWakes(clock: int, readers: nat, schedule: seq<Action>, s: System<Adapter>, i: nat, c: nat)
      returns (timer: seq<Action>, mid: System<Adapter>, end: System<Adapter>)
    requires Run(AdapterStep, NewAdapter(clock, readers), schedule) == Some(s)
    requires i < |s.readers| && s.readers[i].pc == Blocked(c) && c !in s.mech.view.closed
    requires s.mech.view.dlExp.Some?
    ensures s.mech.view.dlCh == Some(c) && AdapterFirePending(s.mech)
    ensures Run(AdapterStep, s, timer) == Some(mid) && forall a :: a in timer ==> a.Tick? || a.TimerDue?
    ensures LastDeadline(schedule).Some?
    ensures mid.mech.view.clock <= Later(s.mech.view.clock, LastDeadline(schedule).value + LastLate(schedule))
    ensures Run(AdapterStep, mid, [Fire(c), OfReader(i, Wake), OfReader(i, Check)]) == Some(end)
    ensures i < |end.readers| && end.readers[i].pc.TimedOut?
  {
    AdapterRunInv(clock, readers, schedule, s);
    assert GoodReader(s.mech.view, s.readers[i]);
    AdapterKeepsDeadline(clock, readers, schedule, s);
    AdapterTimerIsPrompt(clock, readers, schedule, s);
    timer, mid := AdapterTimerStarts(s, i, c);
    end := AdapterFireWakes(mid, i, c);
  }
}
