/** Read deadlines of the SRTP transport: the two deadline mechanisms
    (`packetConnAdapter`, `wrappedConn`) as critical sections over their fields, and
    the read loop both share. A channel is the number of channels made before it. */
module SrtpDeadline {
  import opened Basics

  /** What a read loop can observe of a deadline mechanism. */
  datatype View = View(clock: int, dlExp: Option<int>, dlCh: Option<nat>, made: nat, closed: set<nat>)

  predicate Expired(v: View) {
    v.dlExp.Some? && v.dlExp.value <= v.clock
  }

  /** deadlineCh: the current channel, made on first use. */
  function WithChannel(v: View): View {
    if v.dlCh.Some? then v else v.(dlCh := Some(v.made), made := v.made + 1)
  }

  function Close(v: View, c: nat): View {
    v.(closed := v.closed + {c})
  }

  function Fresh(v: View): View {
    v.(dlCh := Some(v.made), made := v.made + 1)
  }

  // ---------------------------------------------------------------- wrappedConn

  /** `timer`: when the reusable timer is due; `inflight`: fireDeadline calls that
      have started but not yet taken the lock; `panicked`: a closed channel was
      closed again. */
  datatype Conn = Conn(view: View, dlClosed: bool, timer: Option<int>, inflight: nat, panicked: bool)

  function CloseConn(s: Conn): Conn
    requires s.view.dlCh.Some?
  {
    s.(view := Close(s.view, s.view.dlCh.value), dlClosed := true,
       panicked := s.panicked || s.view.dlCh.value in s.view.closed)
  }

  /** setDl; the timer may fire `late` after the instant asked for. */
  function SetConn(s: Conn, t: Option<int>, late: nat): Conn {
    var a := s.(view := s.view.(dlExp := t));
    var b := if a.view.dlCh.None? || a.dlClosed then a.(view := Fresh(a.view), dlClosed := false) else a;
    if t.None? then b.(timer := None)
    else if t.value <= b.view.clock then CloseConn(b).(timer := None)
    else b.(timer := Some(t.value + late))
  }

  /** fireDeadline, once it holds the lock. */
  function FireConn(s: Conn): Conn {
    var a := s.(inflight := if s.inflight > 0 then s.inflight - 1 else 0);
    if Expired(s.view) && s.view.dlCh.Some? && !s.dlClosed then CloseConn(a) else a
  }

  class WrappedConn {
    var dlExp: Option<int>
    var dlCh: Option<nat>
    var dlClosed: bool
    var dlTimer: Option<int>
    var made: nat
    ghost var inflight: nat
    ghost var closed: set<nat>
    ghost var panicked: bool

    ghost function Now(clock: int): Conn
      reads this
    {
      Conn(View(clock, dlExp, dlCh, made, closed), dlClosed, dlTimer, inflight, panicked)
    }

    method CloseChannel(c: nat)
      modifies `closed, `panicked
      ensures closed == old(closed) + {c} && panicked == (old(panicked) || c in old(closed))
    {
      panicked := panicked || c in closed;
      closed := closed + {c};
    }

    method SetDl(clock: int, t: Option<int>, late: nat)
      modifies this
      ensures Now(clock) == SetConn(old(Now(clock)), t, late)
    {
      dlExp := t;
      if dlCh.None? || dlClosed {
        dlCh, made := Some(made), made + 1;
        dlClosed := false;
      }
      if t.None? {
        dlTimer := None;
        return;
      }
      if t.value <= clock {
        CloseChannel(dlCh.value);
        dlClosed := true;
        dlTimer := None;
        return;
      }
      dlTimer := Some(t.value + late);
    }

    method FireDeadline(clock: int)
      requires inflight > 0
      modifies this
      ensures Now(clock) == FireConn(old(Now(clock)))
    {
      inflight := inflight - 1;
      if dlExp.None? || clock < dlExp.value {
        return;
      }
      if dlCh.Some? && !dlClosed {
        CloseChannel(dlCh.value);
        dlClosed := true;
      }
    }

    method DeadlineCh(clock: int) returns (c: nat)
      modifies this
      ensures dlCh == Some(c)
      ensures Now(clock) == old(Now(clock)).(view := WithChannel(old(Now(clock)).view),
                                             dlClosed := old(dlCh).Some? && old(dlClosed))
    {
      if dlCh.None? {
        dlCh, made := Some(made), made + 1;
        dlClosed := false;
      }
      c := dlCh.value;
    }

    method DeadlineExpired(clock: int) returns (e: bool)
      ensures e == Expired(Now(clock).view)
    {
      e := dlExp.Some? && dlExp.value <= clock;
    }
  }

  // ---------------------------------------------------------------- packetConnAdapter

  /** `timers`: when the pending one-shot timer of each channel is due;
      `inflight`: channels whose timer callback has started but not yet locked. */
  datatype Adapter = Adapter(view: View, timers: map<nat, int>, inflight: set<nat>, panicked: bool)

  function CloseAdapter(s: Adapter, c: nat): Adapter {
    s.(view := Close(s.view, c), panicked := s.panicked || c in s.view.closed)
  }

  function SetAdapter(s: Adapter, t: Option<int>, late: nat): Adapter {
    var a := if s.view.dlCh.Some? && s.view.dlCh.value !in s.view.closed then CloseAdapter(s, s.view.dlCh.value) else s;
    var b := a.(view := Fresh(a.view).(dlExp := t));
    if t.None? then b
    else if t.value <= b.view.clock then CloseAdapter(b, s.view.made)
    else b.(timers := b.timers[s.view.made := t.value + late])
  }

  /** The timer callback for channel `c`, once it holds the lock. */
  function FireAdapter(s: Adapter, c: nat): Adapter {
    var a := s.(inflight := s.inflight - {c});
    if s.view.dlCh != Some(c) || c in s.view.closed then a else CloseAdapter(a, c)
  }

  class PacketConnAdapter {
    var dlExp: Option<int>
    var dlCh: Option<nat>
    var made: nat
    ghost var timers: map<nat, int>
    ghost var inflight: set<nat>
    var closed: set<nat>
    ghost var panicked: bool

    ghost function Now(clock: int): Adapter
      reads this
    {
      Adapter(View(clock, dlExp, dlCh, made, closed), timers, inflight, panicked)
    }

    method CloseChannel(c: nat)
      modifies `closed, `panicked
      ensures closed == old(closed) + {c} && panicked == (old(panicked) || c in old(closed))
    {
      panicked := panicked || c in closed;
      closed := closed + {c};
    }

    method SetDl(clock: int, t: Option<int>, late: nat)
      modifies this
      ensures Now(clock) == SetAdapter(old(Now(clock)), t, late)
    {
      if dlCh.Some? {
        // select on the channel: closed already, or close it now
        if dlCh.value !in closed {
          CloseChannel(dlCh.value);
        }
      }
      dlCh, made := Some(made), made + 1;
      dlExp := t;
      if t.Some? {
        if t.value <= clock {
          CloseChannel(dlCh.value);
          return;
        }
        timers := timers[dlCh.value := t.value + late];
      }
    }

    method OnTimer(clock: int, ch: nat)
      modifies this
      ensures Now(clock) == FireAdapter(old(Now(clock)), ch)
    {
      inflight := inflight - {ch};
      if dlCh != Some(ch) {
        return;
      }
      if ch !in closed {
        CloseChannel(ch);
      }
    }
  }

  // ---------------------------------------------------------------- the read loop

  /** A goroutine in Read / ReadFrom. `spurious` counts the turns of the loop taken
      because the deadline channel was closed though no deadline had expired. */
  datatype ReaderPc = AtTop | Blocked(ch: nat) | Woken(ch: nat) | TimedOut

  datatype Reader = Reader(pc: ReaderPc, spurious: nat)

  datatype ReadEvent = EnterSelect | Receive | Wake | Check | ReadAgain

  /** A step of a reader, with what it does to the view (only EnterSelect does). */
  function ReadStep(v: View, r: Reader, e: ReadEvent): Option<(View, Reader)> {
    match e
    case EnterSelect =>
      if r.pc.AtTop? then Some((WithChannel(v), r.(pc := Blocked(WithChannel(v).dlCh.value)))) else None
    case Receive => if r.pc.Blocked? then Some((v, r.(pc := AtTop))) else None
    case Wake => if r.pc.Blocked? && r.pc.ch in v.closed then Some((v, r.(pc := Woken(r.pc.ch)))) else None
    case Check =>
      if !r.pc.Woken? then None
      else Some((v, if Expired(v) then r.(pc := TimedOut) else Reader(AtTop, r.spurious + 1)))
    case ReadAgain => if r.pc.TimedOut? then Some((v, r.(pc := AtTop))) else None
  }

  datatype Action =
    | Tick(t: int)
    | SetDeadline(deadline: Option<int>, late: nat)
    | TimerDue(c: nat)                 // the runtime starts a due timer's function
    | Fire(c: nat)                     // that function takes the lock
    | OfReader(i: nat, e: ReadEvent)

  /** A mechanism, its readers, and how often a deadline was set. */
  datatype System<M> = System(mech: M, readers: seq<Reader>, sets: nat)

  function ConnStep(s: System<Conn>, a: Action): Option<System<Conn>> {
    var m := s.mech;
    match a
    case Tick(t) => if t >= m.view.clock then Some(s.(mech := m.(view := m.view.(clock := t)))) else None
    case SetDeadline(t, late) => Some(s.(mech := SetConn(m, t, late), sets := s.sets + 1))
    case TimerDue(_) =>
      if m.timer.Some? && m.timer.value <= m.view.clock then
        Some(s.(mech := m.(timer := None, inflight := m.inflight + 1)))
      else None
    case Fire(_) => if m.inflight > 0 then Some(s.(mech := FireConn(m))) else None
    case OfReader(i, e) =>
      if i < |s.readers| && ReadStep(m.view, s.readers[i], e).Some? then
        var (v, r) := ReadStep(m.view, s.readers[i], e).value;
        Some(s.(mech := m.(view := v), readers := s.readers[i := r]))
      else None
  }

  function AdapterStep(s: System<Adapter>, a: Action): Option<System<Adapter>> {
    var m := s.mech;
    match a
    case Tick(t) => if t >= m.view.clock then Some(s.(mech := m.(view := m.view.(clock := t)))) else None
    case SetDeadline(t, late) => Some(s.(mech := SetAdapter(m, t, late), sets := s.sets + 1))
    case TimerDue(c) =>
      if c in m.timers && m.timers[c] <= m.view.clock then
        Some(s.(mech := m.(timers := m.timers - {c}, inflight := m.inflight + {c})))
      else None
    case Fire(c) => if c in m.inflight then Some(s.(mech := FireAdapter(m, c))) else None
    case OfReader(i, e) =>
      if i < |s.readers| && ReadStep(m.view, s.readers[i], e).Some? then
        var (v, r) := ReadStep(m.view, s.readers[i], e).value;
        Some(s.(mech := m.(view := v), readers := s.readers[i := r]))
      else None
  }
}
