/** What the liveness loop guarantees, for every script of its surroundings. */
module KeepaliveResults {
  import opened Arithmetic
  import opened Basics
  import opened Keepalive

  /** The clock readings of a turn are in order and the timer does not fire early. */
  predicate Possible(s: Loop, phase: int, t: Turn) {
    t.armNow <= t.before <= t.wakeNow && Armed(s, phase, t).0 <= t.wakeNow
  }

  // ---------------------------------------------------------------- one turn

  /** The deadline is the earliest of the grid point, a pending retry and 90 s after the
      RX stamp seen; the dead check is its reason exactly if it is strictly first. */
  lemma DeadlineExactly(seen: int, phase: int, now: int, retryAt: Option<int>)
    ensures var (d, reason) := NextDeadline(seen, phase, now, retryAt);
      var grid := NextGrid(now, phase);
      if seen + 90 * SECOND < grid && (retryAt.Some? ==> seen + 90 * SECOND < retryAt.value) then
        d == seen + 90 * SECOND && reason.DeadCheckWake?
      else if retryAt.Some? && retryAt.value < grid then d == retryAt.value && reason.RetryWake?
      else d == grid && reason.GridWake?
  {
  }

  /** What a turn does, in seconds: having slept more than 45 it restarts the clock and
      sends, whatever the age; else it dies at an age of 90 or more; else it sends unless
      it woke for the dead check, which goes back to arming. */
  lemma TurnExactly(s: Loop, phase: int, t: Turn)
    requires s.verdict.Running? && !t.cancelled
    ensures var n := TurnStep(s, phase, t);
      var sent := n.tick == s.tick + 1 && n.retryAt == if t.sendOk then None else Some(t.wakeNow + 5 * SECOND);
      var silent := n.tick == s.tick && n.retryAt == s.retryAt;
      var age := t.wakeNow - Loaded(s, t);
      if t.wakeNow - t.before > 45 * SECOND then n.verdict.Running? && n.lastRx == t.wakeNow && sent
      else if age >= 90 * SECOND then n.verdict.Dead? && n.lastRx == Latest(Loaded(s, t), t.rxBeforeReport) && silent
      else n.verdict.Running? && n.lastRx == Loaded(s, t)
           && if NextDeadline(Latest(s.lastRx, t.rxBeforeArm), phase, t.armNow, s.retryAt).1.DeadCheckWake? then silent
              else sent
  {
  }

  /** A cancelled turn ends the loop without sending. */
  lemma CancelledExactly(s: Loop, phase: int, t: Turn)
    requires s.verdict.Running?
    ensures TurnStep(s, phase, t).verdict.Cancelled? <==> t.cancelled
    ensures t.cancelled ==> TurnStep(s, phase, t).tick == s.tick
  {
  }

  /** Every wake is armed no later than 25 s ahead and no later than 90 s after the
      RX stamp it saw, and at the earliest of the three instants it weighs. */
  lemma ArmedInTime(s: Loop, phase: int, t: Turn)
    requires 0 <= phase < INTERVAL
    ensures var d := Armed(s, phase, t).0;
      var seen := Latest(s.lastRx, t.rxBeforeArm);
      && d <= t.armNow + INTERVAL && d <= seen + DEAD_TIMEOUT
      && (s.retryAt.Some? ==> d <= s.retryAt.value)
      && (d == NextGrid(t.armNow, phase) || s.retryAt == Some(d) || d == seen + DEAD_TIMEOUT)
  {
    GridIsLeast(t.armNow, phase);
  }

  /** Only a wake more than 20 s late counts as a freeze. */
  lemma FreezeMeansLate(s: Loop, phase: int, t: Turn)
    requires 0 <= phase < INTERVAL && Possible(s, phase, t) && Frozen(t)
    ensures t.wakeNow > Armed(s, phase, t).0 + FREEZE_SLACK
  {
    GridIsLeast(t.armNow, phase);
  }

  /** A freeze never kills the stream: it restarts the clock and sends. */
  lemma FreezeNeverKills(s: Loop, phase: int, t: Turn)
    requires s.verdict.Running? && Frozen(t) && !t.cancelled
    ensures var n := TurnStep(s, phase, t); n.verdict.Running? && n.lastRx == t.wakeNow && n.tick == s.tick + 1
    ensures forall u: Turn :: u.rxBeforeArm == u.rxBeforeAge == [] && u.wakeNow < t.wakeNow + DEAD_TIMEOUT ==>
      !TurnStep(TurnStep(s, phase, t), phase, u).verdict.Dead?
  {
  }

  /** A dead-check wake sends exactly if it turns out to be a thaw. */
  lemma DeadCheckSendsOnlyOnThaw(s: Loop, phase: int, t: Turn)
    requires !t.cancelled && Armed(s, phase, t).1.DeadCheckWake?
    ensures TurnStep(s, phase, t).tick == s.tick + 1 <==> Frozen(t)
    ensures TurnStep(s, phase, t).tick == s.tick <==> !Frozen(t)
  {
  }

  /** Such a wake: the last RX is 80 s old when the loop arms, the dead check is due
      in 10 s, the host freezes, and the thaw sends and starts the clock anew. */
  lemma DeadCheckThaw() returns (s: Loop, t: Turn)
    ensures s.verdict.Running? && Possible(s, 0, t) && Armed(s, 0, t).1.DeadCheckWake? && Sends(s, 0, t)
    ensures TurnStep(s, 0, t) == Loop(t.wakeNow, None, s.tick + 1, Running) && t.wakeNow >= s.lastRx + DEAD_TIMEOUT
  {
    s := Loop(0, None, 3, Running);
    t := Turn(80 * SECOND, [], 80 * SECOND, false, 200 * SECOND, [], [], [], true);
  }

  /** A failed send is retried within five seconds of the wake; a successful one
      puts the stream back on the grid, at most one interval after it arms. */
  lemma RetryOnlyAfterFailure(s: Loop, phase: int, t: Turn, u: Turn)
    requires 0 <= phase < INTERVAL && Sends(s, phase, t)
    ensures !t.sendOk ==> Armed(TurnStep(s, phase, t), phase, u).0 <= t.wakeNow + SEND_RETRY
    ensures Armed(TurnStep(s, phase, t), phase, u).1.RetryWake? ==>
      !t.sendOk && Armed(TurnStep(s, phase, t), phase, u).0 == t.wakeNow + SEND_RETRY < NextGrid(u.armNow, phase)
    ensures Armed(TurnStep(s, phase, t), phase, u).1.GridWake? ==>
      Armed(TurnStep(s, phase, t), phase, u).0 == NextGrid(u.armNow, phase)
  {
    GridIsLeast(u.armNow, phase);
  }

  // ---------------------------------------------------------------- cadence

  /** Number of the grid interval that instant `t` lies in. */
  function Cell(t: int, phase: int): int {
    (t - phase) / INTERVAL
  }

  /** A turn that goes well: its send succeeds, and it wakes before the grid point
      after the one it is due at. */
  predicate TimelyTurn(s: Loop, phase: int, t: Turn) {
    && Possible(s, phase, t) && !t.cancelled && !Frozen(t) && t.sendOk
    && Cell(t.wakeNow, phase) == Cell(if Armed(s, phase, t).0 < t.armNow then t.armNow else Armed(s, phase, t).0, phase)
  }

  /** Every turn goes well and begins before the grid point after the last wake. */
  predicate TimelyRun(s: Loop, phase: int, turns: seq<Turn>, from: int)
    decreases |turns|
  {
    turns == [] || !s.verdict.Running?
    || (TimelyTurn(s, phase, turns[0]) && Cell(turns[0].armNow, phase) == Cell(from, phase)
        && TimelyRun(TurnStep(s, phase, turns[0]), phase, turns[1..], turns[0].wakeNow))
  }

  lemma CellsOfGrid(now: int, t: int, phase: int)
    requires 0 <= phase < INTERVAL
    ensures Cell(NextGrid(now, phase), phase) == Cell(now, phase) + 1
    ensures now <= t < NextGrid(now, phase) ==> Cell(t, phase) == Cell(now, phase)
  {
  }

  /** A timely turn the stream survives sends exactly if it passes a grid point. */
  lemma TimelyTurnSends(s: Loop, phase: int, t: Turn)
    requires 0 <= phase < INTERVAL && s.retryAt == None && TimelyTurn(s, phase, t)
    requires TurnStep(s, phase, t).verdict.Running?
    ensures TurnStep(s, phase, t).retryAt == None
    ensures TurnStep(s, phase, t).tick == s.tick + Cell(t.wakeNow, phase) - Cell(t.armNow, phase)
  {
    GridIsLeast(t.armNow, phase);
    var d := Armed(s, phase, t).0;
    CellsOfGrid(t.armNow, if d < t.armNow then t.armNow else d, phase);
  }

  /** One keepalive for each grid point: over any run that goes well, whatever RX and
      dead-check wakes come in between, the sends number exactly the grid points
      passed. */
  lemma {:induction false} OneSendPerGridPoint(s: Loop, phase: int, turns: seq<Turn>, from: int)
    requires 0 <= phase < INTERVAL && s.verdict.Running? && s.retryAt == None
    requires TimelyRun(s, phase, turns, from) && RunTurns(s, phase, turns).verdict.Running?
    ensures RunTurns(s, phase, turns).tick
         == s.tick + Cell(if turns == [] then from else turns[|turns| - 1].wakeNow, phase) - Cell(from, phase)
    decreases |turns|
  {
    if turns != [] {
      var n := TurnStep(s, phase, turns[0]);
      if n.verdict.Running? {
        TimelyTurnSends(s, phase, turns[0]);
        OneSendPerGridPoint(n, phase, turns[1..], turns[0].wakeNow);
      }
    }
  }

  // ---------------------------------------------------------------- detection

  /** The wake-up time of the turn in which the run died. */
  function DeathTime(s: Loop, phase: int, turns: seq<Turn>): int
    requires s.verdict.Running? && RunTurns(s, phase, turns).verdict.Dead?
    decreases |turns|
  {
    var n := TurnStep(s, phase, turns[0]);
    if n.verdict.Running? then DeathTime(n, phase, turns[1..]) else turns[0].wakeNow
  }

  /** Nothing is received, nothing is cancelled, the host does not freeze, and the
      wake comes within `late` of the deadline armed for it. */
  predicate QuietTurn(s: Loop, phase: int, t: Turn, late: int) {
    && Possible(s, phase, t) && t.wakeNow <= Armed(s, phase, t).0 + late
    && t.rxBeforeArm == t.rxBeforeAge == t.rxBeforeReport == [] && !t.cancelled && !Frozen(t)
  }

  predicate QuietRun(s: Loop, phase: int, turns: seq<Turn>, late: int)
    decreases |turns|
  {
    turns == [] || !s.verdict.Running?
    || (QuietTurn(s, phase, turns[0], late) && QuietRun(TurnStep(s, phase, turns[0]), phase, turns[1..], late))
  }

  /** In silence a turn kills exactly if it woke after 90 s, which it does at most
      `late` after them. */
  lemma QuietTurnDecides(s: Loop, phase: int, t: Turn, late: int)
    requires 0 <= phase < INTERVAL && s.verdict.Running? && QuietTurn(s, phase, t, late)
    ensures TurnStep(s, phase, t).lastRx == s.lastRx
    ensures TurnStep(s, phase, t).verdict == if t.wakeNow < s.lastRx + DEAD_TIMEOUT then Running else Dead
    ensures t.wakeNow <= s.lastRx + DEAD_TIMEOUT + late
  {
    ArmedInTime(s, phase, t);
  }

  /** Silence is caught at the first wake after 90 s: if nothing is received after
      the stamp `s.lastRx` and wakes are at most `late` late, none of them a freeze,
      every turn the stream survives woke before 90 s of silence, and it dies between
      90 s and 90 s plus `late`. A wake at most 20 s late is no freeze (FreezeMeansLate). */
  lemma {:induction false} SilenceIsCaught(s: Loop, phase: int, turns: seq<Turn>, late: int)
    requires 0 <= phase < INTERVAL && s.verdict.Running? && QuietRun(s, phase, turns, late)
    ensures var end := RunTurns(s, phase, turns);
      && !end.verdict.Cancelled?
      && (end.verdict.Running? ==> forall k :: 0 <= k < |turns| ==> turns[k].wakeNow < s.lastRx + DEAD_TIMEOUT)
      && (end.verdict.Dead? ==>
            s.lastRx + DEAD_TIMEOUT <= DeathTime(s, phase, turns) <= s.lastRx + DEAD_TIMEOUT + late)
    decreases |turns|
  {
    if turns == [] {
    } else {
      QuietTurnDecides(s, phase, turns[0], late);
      var n := TurnStep(s, phase, turns[0]);
      if n.verdict.Running? {
        SilenceIsCaught(n, phase, turns[1..], late);
        assert forall k :: 0 < k < |turns| ==> turns[k] == turns[1..][k - 1];
      }
    }
  }
}
