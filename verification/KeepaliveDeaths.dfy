/** When a stream can die although something arrived in the last 90 s: the exact
    condition, for every run of the liveness loop that dies, and for every live run
    that may go on in silence. */
module KeepaliveDeaths {
  import opened Arithmetic
  import opened Basics
  import opened Keepalive
  import opened KeepaliveResults

  // ---------------------------------------------------------------- histories

  /** A run of the loop, seen from its latest turn. */
  datatype History = Begin(start: Loop) | Then(past: History, turn: Turn)

  function State(h: History, phase: int): Loop {
    match h
    case Begin(s) => s
    case Then(past, t) => TurnStep(State(past, phase), phase, t)
  }

  /** The first `n` turns of a run as a history. */
  function HistoryOf(s: Loop, turns: seq<Turn>, n: nat): History
    requires n <= |turns|
  {
    if n == 0 then Begin(s) else Then(HistoryOf(s, turns, n - 1), turns[n - 1])
  }

  /** A history has the state that the loop reaches. */
  lemma {:induction false} HistoryIsRun(s: Loop, phase: int, turns: seq<Turn>, n: nat)
    requires n <= |turns|
    requires forall k :: 0 <= k < n ==> State(HistoryOf(s, turns, k), phase).verdict.Running?
    ensures RunTurns(State(HistoryOf(s, turns, n), phase), phase, turns[n..]) == RunTurns(s, phase, turns)
  {
    if n == 0 {
      assert turns[0..] == turns;
    } else {
      HistoryIsRun(s, phase, turns, n - 1);
      assert State(HistoryOf(s, turns, n - 1), phase).verdict.Running?;
      assert turns[n - 1..][0] == turns[n - 1] && turns[n - 1..][1..] == turns[n..];
    }
  }

  /** The RX stamps stored in a turn before its last access to lastRx, in order. */
  function Stamps(t: Turn): seq<int> {
    if t.cancelled then t.rxBeforeArm
    else if Frozen(t) then t.rxBeforeArm + t.rxBeforeAge + t.rxBeforeReset
    else t.rxBeforeArm + t.rxBeforeAge
  }

  /** What the last access of a turn to lastRx finds there or puts there: the value
      its deadline is armed for if it is cancelled, the reset of a freeze, or the value
      it takes the age of. */
  function Settled(e: Loop, t: Turn): int {
    if t.cancelled then Latest(e.lastRx, t.rxBeforeArm) else if Frozen(t) then t.wakeNow else Loaded(e, t)
  }

  /** The RX stamps stored after a fatal turn took the age and before it reports. */
  function Late(e: Loop, phase: int, t: Turn): seq<int> {
    if TurnStep(e, phase, t).verdict.Dead? then t.rxBeforeReport else []
  }

  lemma TurnLeaves(e: Loop, phase: int, t: Turn)
    requires e.verdict.Running?
    ensures TurnStep(e, phase, t).lastRx == Latest(Settled(e, t), Late(e, phase, t))
  {
  }

  /** lastRx had the value `x` at some time: at the start, as an RX stamp, or as a
      freeze reset. */
  ghost predicate Stored(h: History, phase: int, x: int) {
    match h
    case Begin(s) => x == s.lastRx
    case Then(past, t) =>
      var e := State(past, phase);
      Stored(past, phase, x) || x in Stamps(t) || x == Settled(e, t) || x in Late(e, phase, t)
  }

  lemma PresentIsStored(h: History, phase: int)
    requires Real(h, phase)
    ensures Stored(h, phase, State(h, phase).lastRx)
  {
    if h.Then? {
      TurnLeaves(State(h.past, phase), phase, h.turn);
    }
  }

  ghost predicate NoneStoredAfter(h: History, phase: int, now: int) {
    forall x :: Stored(h, phase, x) ==> x <= now
  }

  ghost predicate NewestKept(h: History, phase: int) {
    NoneStoredAfter(h, phase, State(h, phase).lastRx)
  }

  /** After `past`, turn `t` can happen in a live stream whose clock does not go back:
      no value is stored before it was read, and no timer fires early. */
  ghost predicate RealTurn(past: History, phase: int, t: Turn) {
    && State(past, phase).verdict.Running?
    && Possible(State(past, phase), phase, t)
    && NoneStoredAfter(past, phase, t.armNow)
    && (past.Then? ==> past.turn.wakeNow <= t.armNow)
    && (forall x :: x in t.rxBeforeArm ==> x <= t.before)
  }

  ghost predicate Real(h: History, phase: int) {
    h.Then? ==> Real(h.past, phase) && RealTurn(h.past, phase, h.turn)
  }

  // ---------------------------------------------------------------- keeping the newest value

  /** The turn settles on a value no older than any it found or stored till then. */
  predicate KeepsNewest(e: Loop, t: Turn) {
    e.lastRx <= Settled(e, t) && forall x :: x in Stamps(t) ==> x <= Settled(e, t)
  }

  lemma NewestKeptNext(past: History, phase: int, t: Turn)
    requires Real(past, phase) && State(past, phase).verdict.Running? && NewestKept(past, phase)
    requires Late(State(past, phase), phase, t) == []
    ensures NewestKept(Then(past, t), phase) <==> KeepsNewest(State(past, phase), t)
  {
    var h := Then(past, t);
    PresentIsStored(past, phase);
    TurnLeaves(State(past, phase), phase, t);
    assert Stored(h, phase, State(past, phase).lastRx);
    assert forall x :: x in Stamps(t) ==> Stored(h, phase, x);
    if KeepsNewest(State(past, phase), t) {
      forall x | Stored(h, phase, x) ensures x <= State(h, phase).lastRx {
        assert Stored(past, phase, x) ==> x <= State(past, phase).lastRx;
      }
    }
  }

  /** The freeze branch overwrites an RX stamp that is newer than the time the turn
      read before its check. */
  predicate OverwritesRx(t: Turn) {
    !t.cancelled && Frozen(t) && exists x :: x in t.rxBeforeAge + t.rxBeforeReset && x > t.wakeNow
  }

  /** The last RX stamp stored in an ordinary turn is older than the value the turn
      found, or than another stamp of the turn. */
  predicate StoresStale(e: Loop, t: Turn) {
    (t.cancelled || !Frozen(t)) && Stamps(t) != []
    && (Stamps(t)[|Stamps(t)| - 1] < e.lastRx || exists x :: x in Stamps(t) && Stamps(t)[|Stamps(t)| - 1] < x)
  }

  predicate LosesNewest(e: Loop, t: Turn) {
    OverwritesRx(t) || StoresStale(e, t)
  }

  predicate Nondecreasing(v: seq<int>) {
    forall i, j :: 0 <= i < j < |v| ==> v[i] <= v[j]
  }

  /** Where one goroutine stores the RX stamps of a stream in the order it reads them,
      a stale one was read before a freeze reset, or the start, and stored after it. */
  lemma StaleInOrder(e: Loop, t: Turn)
    requires Nondecreasing(Stamps(t))
    ensures StoresStale(e, t) <==>
      (t.cancelled || !Frozen(t)) && Stamps(t) != [] && Stamps(t)[|Stamps(t)| - 1] < e.lastRx
  {
  }

  lemma SettledOfStamps(e: Loop, t: Turn)
    requires t.cancelled || !Frozen(t)
    ensures Settled(e, t) == if Stamps(t) == [] then e.lastRx else Stamps(t)[|Stamps(t)| - 1]
  {
  }

  lemma KeepsNewestExactly(past: History, phase: int, t: Turn)
    requires Real(past, phase) && RealTurn(past, phase, t)
    ensures KeepsNewest(State(past, phase), t) <==> !LosesNewest(State(past, phase), t)
  {
    var e := State(past, phase);
    PresentIsStored(past, phase);
    if t.cancelled || !Frozen(t) {
      SettledOfStamps(e, t);
    } else {
      assert forall x :: x in Stamps(t) <==> x in t.rxBeforeArm || x in t.rxBeforeAge + t.rxBeforeReset;
    }
  }

  /** Some turn of the history took one of the two branches that lose the newest value. */
  ghost predicate EverLost(h: History, phase: int) {
    h.Then? && (EverLost(h.past, phase) || LosesNewest(State(h.past, phase), h.turn))
  }

  lemma {:induction false} NeverLostKeeps(h: History, phase: int)
    requires Real(h, phase) && !State(h, phase).verdict.Dead? && !EverLost(h, phase)
    ensures NewestKept(h, phase)
  {
    if h.Then? {
      NeverLostKeeps(h.past, phase);
      KeepsNewestExactly(h.past, phase, h.turn);
      NewestKeptNext(h.past, phase, h.turn);
    }
  }

  // ---------------------------------------------------------------- going on in silence

  /** `h` goes on from `p`, or is `p`. */
  ghost predicate Extends(h: History, p: History) {
    h == p || (h.Then? && Extends(h.past, p))
  }

  /** Nothing is received and nothing is cancelled in the turn. */
  predicate Silent(e: Loop, phase: int, t: Turn) {
    Stamps(t) == [] && Late(e, phase, t) == [] && !t.cancelled
  }

  /** `g` goes on from `h` in silence. */
  ghost predicate SilentSince(g: History, h: History, phase: int) {
    g == h || (g.Then? && Silent(State(g.past, phase), phase, g.turn) && SilentSince(g.past, h, phase))
  }

  /** `g` goes on from `h` in silence and dies, less than 90 s after a value that
      lastRx had during `h`. */
  ghost predicate DiesEarly(h: History, g: History, phase: int) {
    && Real(g, phase) && SilentSince(g, h, phase) && g.Then?
    && State(g, phase).verdict.Dead?
    && exists x :: Stored(h, phase, x) && g.turn.wakeNow < x + DEAD_TIMEOUT
  }

  /** A stream that dies does so at least 90 s after the value its last turn loads, and
      never in a turn that slept more than 45 s. */
  lemma DeathNeedsSilence(past: History, phase: int, t: Turn)
    requires State(past, phase).verdict.Running? && State(Then(past, t), phase).verdict.Dead?
    ensures !t.cancelled && !Frozen(t) && t.wakeNow - t.before <= 45 * SECOND
    ensures Settled(State(past, phase), t) + DEAD_TIMEOUT <= t.wakeNow
  {
    assert State(Then(past, t), phase) == TurnStep(State(past, phase), phase, t);
  }

  /** A silent turn keeps the newest value, by leaving it alone or by resetting it to
      a later clock reading. */
  lemma SilenceKeepsNewest(past: History, phase: int, t: Turn)
    requires Real(past, phase) && RealTurn(past, phase, t) && Stamps(t) == []
    ensures KeepsNewest(State(past, phase), t)
  {
    PresentIsStored(past, phase);
    if t.cancelled || !Frozen(t) {
      SettledOfStamps(State(past, phase), t);
    }
  }

  lemma {:induction false} SilenceKeeps(g: History, h: History, phase: int)
    requires Real(g, phase) && SilentSince(g, h, phase) && NewestKept(h, phase)
    ensures NewestKept(g, phase)
    ensures forall x :: Stored(h, phase, x) ==> Stored(g, phase, x)
  {
    if g != h {
      SilenceKeeps(g.past, h, phase);
      SilenceKeepsNewest(g.past, phase, g.turn);
      NewestKeptNext(g.past, phase, g.turn);
    }
  }

  /** If the newest value was kept, no silence kills early. */
  lemma NoEarlyDeath(h: History, g: History, phase: int)
    requires State(h, phase).verdict.Running? && NewestKept(h, phase)
    ensures !DiesEarly(h, g, phase)
  {
    if DiesEarly(h, g, phase) {
      SilenceKeeps(g, h, phase);
      DeathNeedsSilence(g.past, phase, g.turn);
      TurnLeaves(State(g.past, phase), phase, g.turn);
    }
  }

  lemma {:induction false} SilenceNeverLowers(g: History, h: History, phase: int)
    requires Real(g, phase) && SilentSince(g, h, phase)
    ensures State(g, phase).lastRx >= State(h, phase).lastRx
  {
    if g != h {
      SilenceNeverLowers(g.past, h, phase);
      SilenceKeepsNewest(g.past, phase, g.turn);
      TurnLeaves(State(g.past, phase), phase, g.turn);
    }
  }

  /** Every thaw buys 90 s: however the run goes on after it, without a packet the
      stream cannot die sooner. */
  lemma ThawBuysTime(h: History, g: History, phase: int)
    requires Real(g, phase) && SilentSince(g, h, phase) && State(g, phase).verdict.Dead?
    requires h.Then? && Frozen(h.turn) && !h.turn.cancelled && State(h, phase).verdict.Running?
    ensures g.Then? && g.turn.wakeNow >= h.turn.wakeNow + DEAD_TIMEOUT
  {
    SilenceNeverLowers(g.past, h, phase);
    DeathNeedsSilence(g.past, phase, g.turn);
    SilenceKeepsNewest(g.past, phase, g.turn);
  }

  // ---------------------------------------------------------------- going on without delay

  function Later(a: int, b: int): int {
    if a < b then b else a
  }

  /** The loop goes on at `now` without delay and in silence: it arms at once, wakes
      at the instant armed or, if that has passed, at once, and its send succeeds. */
  predicate Punctual(e: Loop, phase: int, t: Turn, now: int) {
    && t.armNow == t.before == now
    && t.wakeNow == Later(now, Armed(e, phase, t).0)
    && !t.cancelled && t.sendOk
    && t.rxBeforeArm == t.rxBeforeAge == t.rxBeforeReset == t.rxBeforeReport == []
  }

  /** `g` goes on from `h` without delay, its first turn beginning at `start`. */
  ghost predicate PunctualSince(g: History, h: History, phase: int, start: int) {
    g == h
    || (g.Then? && PunctualSince(g.past, h, phase, start)
        && Punctual(State(g.past, phase), phase, g.turn, if g.past == h then start else g.past.turn.wakeNow))
  }

  /** A punctual turn does not freeze, is silent and kills exactly at 90 s. */
  lemma PunctualTurn(e: Loop, phase: int, t: Turn, now: int)
    requires 0 <= phase < INTERVAL && e.verdict.Running? && Punctual(e, phase, t, now)
    ensures Possible(e, phase, t) && Silent(e, phase, t) && !Frozen(t)
    ensures var d := TurnStep(e, phase, t);
      && d.lastRx == e.lastRx && t.wakeNow >= now
      && if now >= e.lastRx + DEAD_TIMEOUT then d.verdict.Dead? && t.wakeNow == now
         else && t.wakeNow <= e.lastRx + DEAD_TIMEOUT
              && (t.wakeNow == e.lastRx + DEAD_TIMEOUT ==> d.verdict.Dead?)
              && (t.wakeNow < e.lastRx + DEAD_TIMEOUT ==>
                    d.verdict.Running? && d.retryAt == None && (e.retryAt.Some? || t.wakeNow > now))
  {
    GridIsLeast(now, phase);
  }

  function PunctualOne(e: Loop, phase: int, now: int): (t: Turn)
    ensures Punctual(e, phase, t, now)
  {
    Turn(now, [], now, false, Later(now, NextDeadline(e.lastRx, phase, now, e.retryAt).0), [], [], [], true)
  }

  /** What a history and an instant must satisfy for the loop to go on from there. */
  ghost predicate MayGoOn(h: History, phase: int, now: int) {
    && Real(h, phase) && State(h, phase).verdict.Running?
    && NoneStoredAfter(h, phase, now)
    && (h.Then? ==> h.turn.wakeNow <= now)
  }

  lemma GoesOn(h: History, phase: int, t: Turn, now: int)
    requires 0 <= phase < INTERVAL && MayGoOn(h, phase, now) && Punctual(State(h, phase), phase, t, now)
    ensures Real(Then(h, t), phase)
    ensures State(Then(h, t), phase).verdict.Running? ==> MayGoOn(Then(h, t), phase, t.wakeNow)
  {
    PunctualTurn(State(h, phase), phase, t, now);
    PresentIsStored(h, phase);
  }

  /** From any live state a punctual, silent stream dies, 90 s after lastRx or at once. */
  lemma {:induction false} PunctualDeath(g: History, h: History, phase: int, start: int, now: int)
    returns (end: History)
    requires 0 <= phase < INTERVAL && MayGoOn(g, phase, now)
    requires SilentSince(g, h, phase) && PunctualSince(g, h, phase, start)
    requires now == if g == h then start else g.turn.wakeNow
    ensures Real(end, phase) && SilentSince(end, h, phase) && PunctualSince(end, h, phase, start)
    ensures end.Then? && State(end, phase).verdict.Dead?
    ensures end.turn.wakeNow == Later(now, State(g, phase).lastRx + DEAD_TIMEOUT)
    decreases State(g, phase).lastRx + DEAD_TIMEOUT - now, State(g, phase).retryAt.Some?
  {
    var e := State(g, phase);
    var t := PunctualOne(e, phase, now);
    PunctualTurn(e, phase, t, now);
    GoesOn(g, phase, t, now);
    end := Then(g, t);
    if State(end, phase).verdict.Running? {
      NotItsOwnPast(g, h, phase, t);
      end := PunctualDeath(end, h, phase, start, t.wakeNow);
    }
  }

  function Length(h: History): nat {
    if h.Then? then 1 + Length(h.past) else 0
  }

  lemma {:induction false} SilentIsLonger(g: History, h: History, phase: int)
    requires SilentSince(g, h, phase)
    ensures Length(g) >= Length(h)
  {
    if g != h {
      SilentIsLonger(g.past, h, phase);
    }
  }

  lemma NotItsOwnPast(g: History, h: History, phase: int, t: Turn)
    requires SilentSince(g, h, phase)
    ensures Then(g, t) != h
  {
    SilentIsLonger(g, h, phase);
  }

  // ---------------------------------------------------------------- the exact condition

  function NewestOf(v: seq<int>, least: int): (m: int)
    ensures m >= least && forall x :: x in v ==> x <= m
    ensures m == least || m in v
  {
    if v == [] then least
    else
      var m := NewestOf(v[1..], least);
      assert v == [v[0]] + v[1..];
      Later(m, v[0])
  }

  /** The newest value lastRx ever had. */
  lemma {:induction false} Newest(h: History, phase: int) returns (m: int)
    ensures Stored(h, phase, m) && NoneStoredAfter(h, phase, m)
  {
    match h
    case Begin(s) => m := s.lastRx;
    case Then(past, t) =>
      m := Newest(past, phase);
      var e := State(past, phase);
      m := Later(NewestOf(Stamps(t), m), Later(Settled(e, t), NewestOf(Late(e, phase, t), m)));
  }

  lemma AliveMeansRecent(e: Loop, phase: int, t: Turn)
    requires e.verdict.Running? && TurnStep(e, phase, t).verdict.Running?
    ensures t.wakeNow < TurnStep(e, phase, t).lastRx + DEAD_TIMEOUT
  {
  }

  /** A live stream whose newest value is not the present one dies early if nothing
      more arrives, though its loop is never late again. */
  lemma LostMeansEarlyDeath(h: History, phase: int) returns (g: History, start: int)
    requires 0 <= phase < INTERVAL && Real(h, phase) && State(h, phase).verdict.Running?
    requires !NewestKept(h, phase)
    ensures DiesEarly(h, g, phase) && PunctualSince(g, h, phase, start)
  {
    var newest := Newest(h, phase);
    start := newest;
    if h.Then? {
      AliveMeansRecent(State(h.past, phase), phase, h.turn);
      start := Later(newest, h.turn.wakeNow);
    }
    g := PunctualDeath(h, h, phase, start, start);
  }

  lemma {:induction false} FirstLoss(h: History, phase: int) returns (p: History)
    requires Real(h, phase) && !State(h, phase).verdict.Dead? && EverLost(h, phase)
    ensures Extends(h, p) && !NewestKept(p, phase) && Real(p, phase)
    ensures p == h || State(p, phase).verdict.Running?
  {
    if EverLost(h.past, phase) {
      p := FirstLoss(h.past, phase);
    } else {
      p := h;
      NeverLostKeeps(h.past, phase);
      KeepsNewestExactly(h.past, phase, h.turn);
      NewestKeptNext(h.past, phase, h.turn);
    }
  }

  lemma {:induction false} PastsNeverLost(h: History, p: History, phase: int)
    requires Extends(h, p) && Real(h, phase) && State(h, phase).verdict.Running? && !EverLost(h, phase)
    ensures NewestKept(p, phase) && State(p, phase).verdict.Running?
  {
    if h == p {
      NeverLostKeeps(h, phase);
    } else {
      PastsNeverLost(h.past, p, phase);
    }
  }

  /** At the end of a run: every silent way to die keeps 90 s from every value stored
      in it exactly if the last one is the newest. */
  lemma EarlyDeathFromHere(h: History, phase: int)
    requires 0 <= phase < INTERVAL && Real(h, phase) && State(h, phase).verdict.Running?
    ensures (exists g :: DiesEarly(h, g, phase)) <==> !NewestKept(h, phase)
  {
    if NewestKept(h, phase) {
      forall g ensures !DiesEarly(h, g, phase) {
        NoEarlyDeath(h, g, phase);
      }
    } else {
      var g, _ := LostMeansEarlyDeath(h, phase);
    }
  }

  /** From some point of a live run a silent stream can die less than 90 s after
      something it received, or a reset, exactly if some turn of the run takes one of
      the two branches that lose the newest value. */
  lemma EarlyDeathExactly(h: History, phase: int)
    requires 0 <= phase < INTERVAL && Real(h, phase) && State(h, phase).verdict.Running?
    ensures (exists p, g :: Extends(h, p) && DiesEarly(p, g, phase)) <==> EverLost(h, phase)
  {
    if EverLost(h, phase) {
      var p := FirstLoss(h, phase);
      var g, _ := LostMeansEarlyDeath(p, phase);
    } else {
      forall p, g | Extends(h, p) ensures !DiesEarly(p, g, phase) {
        PastsNeverLost(h, p, phase);
        NoEarlyDeath(p, g, phase);
      }
    }
  }

  // ---------------------------------------------------------------- runs that die

  /** The turn found `x`, or stored it as a stamp, and settles on an older value. */
  predicate Loses(e: Loop, t: Turn, x: int) {
    (x == e.lastRx || x in Stamps(t)) && Settled(e, t) < x
  }

  /** `x` was lost in some turn of the history. */
  ghost predicate LostIn(h: History, phase: int, x: int) {
    h.Then? && (LostIn(h.past, phase, x) || Loses(State(h.past, phase), h.turn, x))
  }

  ghost predicate LostSomething(h: History, phase: int) {
    exists x :: LostIn(h, phase, x)
  }

  /** The stream is dead, and its last turn woke less than 90 s after a value that
      lastRx had at any time, be it between the load of that turn and its report. */
  ghost predicate DiedEarly(h: History, phase: int) {
    && h.Then? && State(h, phase).verdict.Dead?
    && exists x :: Stored(h, phase, x) && h.turn.wakeNow < x + DEAD_TIMEOUT
  }

  /** The death of a run paid no heed to `x`: some turn, the fatal one included, lost
      it, or it was stored after the fatal turn took the age. */
  ghost predicate Missed(h: History, phase: int, x: int)
    requires h.Then?
  {
    LostIn(h, phase, x) || x in Late(State(h.past, phase), phase, h.turn)
  }

  /** What one turn loses, it loses in one of the two branches. */
  lemma LosesExactly(past: History, phase: int, t: Turn)
    requires Real(past, phase) && RealTurn(past, phase, t)
    ensures (exists x :: Loses(State(past, phase), t, x)) <==> LosesNewest(State(past, phase), t)
  {
    var e := State(past, phase);
    KeepsNewestExactly(past, phase, t);
    assert e.lastRx > Settled(e, t) ==> Loses(e, t, e.lastRx);
    assert forall x :: x in Stamps(t) && x > Settled(e, t) ==> Loses(e, t, x);
  }

  /** A run lost some value exactly if one of its turns took one of the two branches. */
  lemma {:induction false} LostExactly(h: History, phase: int)
    requires Real(h, phase)
    ensures LostSomething(h, phase) <==> EverLost(h, phase)
  {
    if h.Then? {
      LostExactly(h.past, phase);
      LosesExactly(h.past, phase, h.turn);
      if LostSomething(h, phase) {
        var x :| LostIn(h, phase, x);
        assert LostIn(h.past, phase, x) || Loses(State(h.past, phase), h.turn, x);
      } else {
        assert forall x :: LostIn(h.past, phase, x) || Loses(State(h.past, phase), h.turn, x) ==> LostIn(h, phase, x);
      }
    }
  }

  lemma {:induction false} LostWasStored(h: History, phase: int, x: int)
    requires Real(h, phase) && LostIn(h, phase, x)
    ensures Stored(h, phase, x)
  {
    if LostIn(h.past, phase, x) {
      LostWasStored(h.past, phase, x);
    } else {
      PresentIsStored(h.past, phase);
    }
  }

  /** A value above the present one was lost, or a younger one was. */
  lemma {:induction false} AboveIsLost(h: History, phase: int, x: int) returns (y: int)
    requires Real(h, phase) && State(h, phase).verdict.Running?
    requires Stored(h, phase, x) && x > State(h, phase).lastRx
    ensures y >= x && LostIn(h, phase, y)
    decreases h, 0
  {
    TurnLeaves(State(h.past, phase), phase, h.turn);
    y := AboveSettledIsLost(h.past, phase, h.turn, x);
  }

  lemma {:induction false} AboveSettledIsLost(past: History, phase: int, t: Turn, x: int) returns (y: int)
    requires Real(past, phase) && RealTurn(past, phase, t)
    requires Stored(past, phase, x) || x in Stamps(t)
    requires x > Settled(State(past, phase), t)
    ensures y >= x && LostIn(Then(past, t), phase, y)
    decreases past, 1
  {
    var e := State(past, phase);
    if x in Stamps(t) {
      y := x;
    } else if x > e.lastRx {
      y := AboveIsLost(past, phase, x);
    } else {
      y := e.lastRx;
    }
  }

  /** A run that dies does so less than 90 s after a value that lastRx had exactly if
      it missed such a value. */
  lemma DiedEarlyExactly(h: History, phase: int)
    requires h.Then? && Real(h, phase) && State(h, phase).verdict.Dead?
    ensures DiedEarly(h, phase) <==> exists x :: Missed(h, phase, x) && h.turn.wakeNow < x + DEAD_TIMEOUT
  {
    DeathNeedsSilence(h.past, phase, h.turn);
    if DiedEarly(h, phase) {
      var x :| Stored(h, phase, x) && h.turn.wakeNow < x + DEAD_TIMEOUT;
      if x in h.turn.rxBeforeReport {
        assert Missed(h, phase, x);
      } else {
        var y := AboveSettledIsLost(h.past, phase, h.turn, x);
        assert Missed(h, phase, y);
      }
    } else {
      forall x | Missed(h, phase, x) ensures h.turn.wakeNow >= x + DEAD_TIMEOUT {
        if LostIn(h, phase, x) {
          LostWasStored(h, phase, x);
        }
        assert Stored(h, phase, x);
      }
    }
  }

  /** Without the two branches, exactly a stamp stored late makes a death early. */
  lemma DiedEarlyByLateStore(h: History, phase: int)
    requires h.Then? && Real(h, phase) && State(h, phase).verdict.Dead? && !EverLost(h, phase)
    ensures DiedEarly(h, phase) <==>
      exists x :: x in h.turn.rxBeforeReport && h.turn.wakeNow < x + DEAD_TIMEOUT
  {
    DiedEarlyExactly(h, phase);
    LostExactly(h, phase);
    assert forall x :: Missed(h, phase, x) <==> x in h.turn.rxBeforeReport;
  }

  // ---------------------------------------------------------------- the three ways, as runs

  /** A reset that overwrites. The host thaws 75 s after the last RX; a packet stamped 80 s is
      stored before the reset, which then writes the 75 s read before the check. The
      loop, never late again, kills the stream at 165 s, 85 s after that packet. */
  lemma ResetOverwritesRx() returns (h: History, g: History)
    ensures h.Then? && OverwritesRx(h.turn) && Stored(h, 0, 80 * SECOND)
    ensures Real(g, 0) && SilentSince(g, h, 0) && PunctualSince(g, h, 0, 80 * SECOND)
    ensures g.Then? && State(g, 0).verdict.Dead? && g.turn.wakeNow == 80 * SECOND + 85 * SECOND
  {
    var thaw := Turn(0, [], 0, false, 75 * SECOND, [], [80 * SECOND], [], true);
    var start := Begin(Loop(0, None, 0, Running));
    h := Then(start, thaw);
    assert 80 * SECOND in thaw.rxBeforeAge + thaw.rxBeforeReset && 80 * SECOND in Stamps(thaw);
    assert forall x :: Stored(start, 0, x) ==> x == 0;
    assert RealTurn(start, 0, thaw);
    assert State(h, 0) == Loop(75 * SECOND, None, 1, Running);
    assert forall x :: Stored(h, 0, x) ==> x == 0 || x == 80 * SECOND || x == 75 * SECOND;
    g := PunctualDeath(h, h, 0, 80 * SECOND, 80 * SECOND);
  }

  /** A stale stamp: one of 74 s, stored just after a reset to 75 s, puts lastRx
      back behind the reset, and the stream dies less than 90 s after it. */
  lemma StaleStampUndoesReset() returns (h: History, g: History)
    ensures h.Then? && StoresStale(State(h.past, 0), h.turn) && Stored(h, 0, 75 * SECOND)
    ensures Real(g, 0) && SilentSince(g, h, 0) && PunctualSince(g, h, 0, 100 * SECOND)
    ensures g.Then? && State(g, 0).verdict.Dead? && g.turn.wakeNow == 75 * SECOND + 89 * SECOND
  {
    var thaw := Turn(0, [], 0, false, 75 * SECOND, [], [], [], true);
    var next := Turn(75 * SECOND, [74 * SECOND], 75 * SECOND, false, 100 * SECOND, [], [], [], true);
    var start := Begin(Loop(0, None, 0, Running));
    var reset := Then(start, thaw);
    h := Then(reset, next);
    assert forall x :: Stored(start, 0, x) ==> x == 0;
    assert RealTurn(start, 0, thaw);
    assert State(reset, 0) == Loop(75 * SECOND, None, 1, Running);
    assert forall x :: Stored(reset, 0, x) ==> x == 0 || x == 75 * SECOND;
    assert RealTurn(reset, 0, next);
    assert State(h, 0) == Loop(74 * SECOND, None, 2, Running);
    assert Stamps(next) == [74 * SECOND];
    assert Stored(reset, 0, 75 * SECOND);
    g := PunctualDeath(h, h, 0, 100 * SECOND, 100 * SECOND);
  }

  lemma {:induction false} SilenceLosesNothing(g: History, h: History, phase: int)
    requires SilentSince(g, h, phase) && !EverLost(h, phase)
    ensures !EverLost(g, phase)
  {
    if g != h {
      SilenceLosesNothing(g.past, h, phase);
    }
  }

  /** A late store: the loop is never late, no turn takes either branch, and the last
      wake, at 90 s, loads the 0 of the start. A stamp read 1 ns before it is stored
      after that load, and the stream dies 1 ns after its packet. */
  lemma LateStoreIsIgnored() returns (h: History)
    ensures var start := Begin(Loop(0, None, 0, Running));
      h.Then? && SilentSince(h.past, start, 0) && PunctualSince(h.past, start, 0, 0)
    ensures Real(h, 0) && State(h, 0).verdict.Dead? && !EverLost(h, 0)
    ensures h.turn.wakeNow == 90 * SECOND && Stored(h, 0, 90 * SECOND - 1) && DiedEarly(h, 0)
  {
    var start := Begin(Loop(0, None, 0, Running));
    assert forall x :: Stored(start, 0, x) ==> x == 0;
    var end := PunctualDeath(start, start, 0, 0, 0);
    h := Then(end.past, end.turn.(rxBeforeReport := [90 * SECOND - 1]));
    SilenceLosesNothing(end, start, 0);
    assert 90 * SECOND - 1 in h.turn.rxBeforeReport;
    DiedEarlyByLateStore(h, 0);
  }
}
