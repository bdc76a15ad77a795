/** Keepalive timing and the per-stream liveness loop.

    Instants are nanoseconds since an epoch that lies on the 25 s grid: both Go's
    zero time, which `Truncate` counts from, and the Unix epoch do. */
module Keepalive {
  import opened Arithmetic
  import opened Basics

  const INTERVAL := 25 * SECOND
  const SPREAD := 2 * SECOND
  const DEAD_TIMEOUT := 90 * SECOND
  const SEND_RETRY := 5 * SECOND
  const FREEZE_SLACK := 20 * SECOND

  // ---------------------------------------------------------------- phase

  /** Go's `/`: truncates toward zero. */
  function Quo(a: int, b: int): int
    requires b > 0
  {
    if a >= 0 then a / b else -(-a / b)
  }

  function KeepalivePhase(streamId: int, total: int): int {
    if total <= 1 || streamId <= 0 then 0
    else Quo(Signed64(SPREAD * (streamId % total)), total)
  }

  lemma QuotientsSeparate(a: nat, b: nat, n: nat)
    requires n > 0 && a + n <= b
    ensures a / n < b / n
  {
  }

  lemma QuotientBelow(a: nat, n: nat, c: nat)
    requires n > 0 && a < c * n
    ensures a / n < c
  {
  }

  lemma RemainderOfSmall(i: nat, n: nat)
    requires i < n
    ensures i % n == i
  {
  }

  lemma FitsInt64(x: nat)
    requires x < TWO63
    ensures Signed64(x) == x
  {
  }

  lemma PhaseFormula(i: nat, total: nat)
    requires i < total <= 2_000_000_000
    ensures KeepalivePhase(i, total) == (if total == 1 then 0 else 2 * SECOND * i / total)
  {
    if total > 1 && i > 0 {
      RemainderOfSmall(i, total);
      FitsInt64(SPREAD * i);
    } else if total > 1 {
      assert SPREAD * 0 / total == 0;
    }
  }

  lemma QuotientsApart(a: nat, b: nat, n: nat, c: nat)
    requires n > 0 && a + n <= b < c * n
    ensures 0 <= a / n < b / n < c
  {
    QuotientsSeparate(a, b, n);
    QuotientBelow(b, n, c);
  }

  lemma SlotsApart(i: nat, j: nat, total: nat, c: nat)
    requires i < j < total <= c
    ensures 0 <= c * i / total < c * j / total < c
  {
    Scaled(i, j, c);
    Scaled(j, total, c);
    QuotientsApart(c * i, c * j, total, c);
  }

  /** Every stream has a slot of its own inside the 2 s window. */
  lemma PhasesAreDistinctSlots(i: nat, j: nat, total: nat)
    requires i < j < total <= 2_000_000_000
    ensures 0 <= KeepalivePhase(i, total) < KeepalivePhase(j, total) < 2 * SECOND
  {
    SlotsApart(i, j, total, SPREAD);
    PhaseFormula(i, total);
    PhaseFormula(j, total);
  }

  /** Each phase lies inside the window, for a single stream too. */
  lemma PhaseInWindow(i: nat, total: nat)
    requires i < total <= 2_000_000_000
    ensures 0 <= KeepalivePhase(i, total) < SPREAD
  {
    PhaseFormula(i, total);
    var a := SPREAD * i;
    assert a < SPREAD * total;
    QuotientBelow(a, total, SPREAD);
  }

  /** With more streams than nanoseconds in the window, streams 0 and 1 share a slot. */
  lemma FirstSlotsCollide(total: nat)
    requires total > 2_000_000_000
    ensures KeepalivePhase(0, total) == KeepalivePhase(1, total)
  {
    RemainderOfSmall(1, total);
    FitsInt64(SPREAD);
    assert SPREAD / total == 0;
  }

  /** Slots stay distinct exactly up to one stream per nanosecond of the window. */
  lemma PhasesDistinctExactly(total: nat)
    ensures (forall i, j :: 0 <= i < j < total ==> KeepalivePhase(i, total) != KeepalivePhase(j, total))
      <==> total <= 2_000_000_000
  {
    if total <= 2_000_000_000 {
      forall i, j | 0 <= i < j < total ensures KeepalivePhase(i, total) != KeepalivePhase(j, total) {
        PhasesAreDistinctSlots(i, j, total);
      }
    } else {
      FirstSlotsCollide(total);
    }
  }

  // ---------------------------------------------------------------- grid

  function NextGrid(now: int, phase: int): int {
    var next := now - now % INTERVAL + phase;
    if next <= now then next + INTERVAL else next
  }

  /** The next grid point is the least instant after `now` that is congruent to the
      phase, so it is at most one interval away, and the one after it is exactly one
      interval later. */
  lemma GridIsLeast(now: int, phase: int)
    requires 0 <= phase < INTERVAL
    ensures now < NextGrid(now, phase) <= now + 25 * SECOND
    ensures NextGrid(now, phase) % (25 * SECOND) == phase
    ensures forall t :: now < t && t % (25 * SECOND) == phase ==> NextGrid(now, phase) <= t
    ensures NextGrid(NextGrid(now, phase), phase) == NextGrid(now, phase) + 25 * SECOND
  {
    var next := NextGrid(now, phase);
    forall t | now < t && t % INTERVAL == phase ensures next <= t {
      assert t == INTERVAL * (t / INTERVAL) + phase;
    }
  }

  /** A stream that arms anywhere between two of its grid points is next due at the
      later one: its keepalive gap is one interval however late it woke. */
  lemma GridCadence(g: int, now: int, phase: int)
    requires 0 <= phase < INTERVAL && g % INTERVAL == phase && g <= now < g + INTERVAL
    ensures NextGrid(now, phase) == g + INTERVAL
  {
    GridIsLeast(now, phase);
    assert (g + INTERVAL) % INTERVAL == phase;
  }

  // ---------------------------------------------------------------- streamActivity

  datatype Reason = GridWake | RetryWake | DeadCheckWake

  function NextDeadline(lastRx: int, phase: int, now: int, retryAt: Option<int>): (int, Reason) {
    var grid := (NextGrid(now, phase), GridWake);
    var probe := if retryAt.Some? && retryAt.value < grid.0 then (retryAt.value, RetryWake) else grid;
    if lastRx + DEAD_TIMEOUT < probe.0 then (lastRx + DEAD_TIMEOUT, DeadCheckWake) else probe
  }

  function RxAge(lastRx: int, now: int): int {
    if now < lastRx then 0 else now - lastRx
  }

  class StreamActivity {
    var lastRx: int
    const phase: int

    constructor (now: int, phase: int)
      ensures lastRx == now && this.phase == phase
    {
      this.lastRx := now;
      this.phase := phase;
    }

    method NoteRx(now: int)
      modifies this
      ensures lastRx == now
    {
      lastRx := now;
    }

    method ResetLiveness(now: int)
      modifies this
      ensures lastRx == now
    {
      lastRx := now;
    }

    method ArmDeadline(now: int, retryAt: Option<int>) returns (deadline: int, reason: Reason)
      ensures (deadline, reason) == NextDeadline(lastRx, phase, now, retryAt)
    {
      deadline, reason := NextGrid(now, phase), GridWake;
      if retryAt.Some? && retryAt.value < deadline {
        deadline, reason := retryAt.value, RetryWake;
      }
      var deadDeadline := lastRx + DEAD_TIMEOUT;
      if deadDeadline < deadline {
        deadline, reason := deadDeadline, DeadCheckWake;
      }
    }

    method Age(now: int) returns (age: int)
      ensures age == RxAge(lastRx, now)
    {
      age := now - lastRx;
      if age < 0 {
        age := 0;
      }
    }
  }

  // ---------------------------------------------------------------- the loop

  /** One turn of the loop as its surroundings decide it: the clock readings, the RX
      timestamps other goroutines store in each gap between the loop's own accesses
      to `lastRx`, whether the context is cancelled, and whether `send` succeeds. What
      is stored after the last access of a turn that goes on is in the next turn's
      `rxBeforeArm`; a fatal turn has no next one, hence `rxBeforeReport`. */
  datatype Turn = Turn(
    armNow: int,
    rxBeforeArm: seq<int>,      // before nextDeadline loads lastRx
    before: int,
    cancelled: bool,
    wakeNow: int,
    rxBeforeAge: seq<int>,      // before rxAge loads lastRx
    rxBeforeReset: seq<int>,    // before a freeze reset stores lastRx
    rxBeforeReport: seq<int>,   // after rxAge loaded lastRx, before a death is reported
    sendOk: bool)

  datatype Verdict = Running | Dead | Cancelled

  datatype Loop = Loop(lastRx: int, retryAt: Option<int>, tick: nat, verdict: Verdict)

  function Latest(lastRx: int, rx: seq<int>): int {
    if rx == [] then lastRx else rx[|rx| - 1]
  }

  /** Value `nextDeadline` loads, and the deadline it arms, in a turn from `s`. */
  function Armed(s: Loop, phase: int, t: Turn): (int, Reason) {
    NextDeadline(Latest(s.lastRx, t.rxBeforeArm), phase, t.armNow, s.retryAt)
  }

  /** Value `rxAge` loads in a turn from `s`. */
  function Loaded(s: Loop, t: Turn): int {
    Latest(Latest(s.lastRx, t.rxBeforeArm), t.rxBeforeAge)
  }

  predicate Frozen(t: Turn) {
    t.wakeNow - t.before > INTERVAL + FREEZE_SLACK
  }

  /** The turn ends with a call of `send`. */
  predicate Sends(s: Loop, phase: int, t: Turn) {
    !t.cancelled
    && (Frozen(t) || (RxAge(Loaded(s, t), t.wakeNow) < DEAD_TIMEOUT && !Armed(s, phase, t).1.DeadCheckWake?))
  }

  function AfterSend(s: Loop, lastRx: int, t: Turn): Loop {
    s.(lastRx := lastRx, tick := s.tick + 1, retryAt := if t.sendOk then None else Some(t.wakeNow + SEND_RETRY))
  }

  function TurnStep(s: Loop, phase: int, t: Turn): Loop {
    var armed := Latest(s.lastRx, t.rxBeforeArm);
    if t.cancelled then s.(lastRx := armed, verdict := Cancelled)
    else if Frozen(t) then AfterSend(s, t.wakeNow, t)
    else if RxAge(Loaded(s, t), t.wakeNow) >= DEAD_TIMEOUT then
      s.(lastRx := Latest(Loaded(s, t), t.rxBeforeReport), verdict := Dead)
    else if Armed(s, phase, t).1.DeadCheckWake? then s.(lastRx := Loaded(s, t))
    else AfterSend(s, Loaded(s, t), t)
  }

  function RunTurns(s: Loop, phase: int, turns: seq<Turn>): Loop
    decreases |turns|
  {
    if turns == [] || !s.verdict.Running? then s else RunTurns(TurnStep(s, phase, turns[0]), phase, turns[1..])
  }

  /** Stores of the RX goroutine that land in one gap. */
  method StoreAll(activity: StreamActivity, rx: seq<int>)
    modifies activity
    ensures activity.lastRx == Latest(old(activity.lastRx), rx)
  {
    for i := 0 to |rx|
      invariant activity.lastRx == Latest(old(activity.lastRx), rx[..i])
    {
      activity.NoteRx(rx[i]);
    }
    assert rx[..|rx|] == rx;
  }

  /** runKeepalive, driven turn by turn; it stops early only with a verdict. */
  method RunKeepalive(activity: StreamActivity, turns: seq<Turn>) returns (verdict: Verdict, ticks: nat)
    modifies activity
    ensures var end := RunTurns(Loop(old(activity.lastRx), None, 0, Running), activity.phase, turns);
      verdict == end.verdict && ticks == end.tick && activity.lastRx == end.lastRx
  {
    var retryAt: Option<int> := None;
    ticks, verdict := 0, Running;
    var k := 0;
    while k < |turns| && verdict.Running?
      invariant k <= |turns|
      invariant RunTurns(Loop(activity.lastRx, retryAt, ticks, verdict), activity.phase, turns[k..])
             == RunTurns(Loop(old(activity.lastRx), None, 0, Running), activity.phase, turns)
      decreases |turns| - k
    {
      var t := turns[k];
      assert turns[k..][1..] == turns[k + 1..];
      k := k + 1;
      StoreAll(activity, t.rxBeforeArm);
      var deadline, reason := activity.ArmDeadline(t.armNow, retryAt);
      if t.cancelled {
        verdict := Cancelled;
        break;
      }
      StoreAll(activity, t.rxBeforeAge);
      var age := activity.Age(t.wakeNow);
      if t.wakeNow - t.before > INTERVAL + FREEZE_SLACK {
        StoreAll(activity, t.rxBeforeReset);
        activity.ResetLiveness(t.wakeNow);
        ticks := ticks + 1;
        retryAt := if t.sendOk then None else Some(t.wakeNow + SEND_RETRY);
        continue;
      }
      if age >= DEAD_TIMEOUT {
        StoreAll(activity, t.rxBeforeReport);
        verdict := Dead;
        break;
      }
      if reason.DeadCheckWake? {
        continue;
      }
      ticks := ticks + 1;
      retryAt := if t.sendOk then None else Some(t.wakeNow + SEND_RETRY);
    }
  }
}
