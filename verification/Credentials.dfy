/** The credential cache: one slot shared by the streams of a group, the store of
    slots, and the throttled, error-driven refresh. */
module Credentials {
  import opened Arithmetic
  import opened Basics

  const LIFETIME := 3600 * SECOND
  const MARGIN := 60 * SECOND
  const MARGIN_SECS := 60
  const MAX_TTL := 36_000 * SECOND
  const THROTTLE := 15 * SECOND

  // ---------------------------------------------------------------- expiry

  /** How long a credential with the given API lifetime is cached; durations are
      int64 nanoseconds and wrap. */
  function CacheFor(lifetimeSecs: int): int {
    if lifetimeSecs > MARGIN_SECS then
      var d := Signed64(Signed64(lifetimeSecs * SECOND) - MARGIN);
      if d > MAX_TTL then MAX_TTL else d
    else LIFETIME - MARGIN
  }

  lemma WrapShift(y: int, q: int)
    ensures (y - TWO64 * q) % TWO64 == y % TWO64
  {
  }

  lemma SignedDifference(x: int, m: int)
    ensures Signed64(Signed64(x) - m) == Signed64(x - m)
  {
    var q := (x + TWO63) / TWO64;
    assert Signed64(x) == x - TWO64 * q;
    WrapShift(x - m + TWO63, q);
  }

  lemma SignedPositive(z: int)
    ensures 0 < Signed64(z) <==> 0 < z % TWO64 < TWO63
  {
  }

  /** A credential is cached for a positive time of at most ten hours exactly if the
      API gave no usable lifetime or the 64-bit difference stays positive. */
  lemma CacheForInRange(lifetimeSecs: int)
    ensures 0 < CacheFor(lifetimeSecs) <= MAX_TTL
      <==> lifetimeSecs <= MARGIN_SECS || 0 < (lifetimeSecs * SECOND - MARGIN) % TWO64 < TWO63
  {
    SignedDifference(lifetimeSecs * SECOND, MARGIN);
    SignedPositive(lifetimeSecs * SECOND - MARGIN);
  }

  /** Lifetimes whose nanoseconds fit an int64 are always cached that way; the first
      lifetime that is stored already expired is 9223372097 s. */
  lemma FittingLifetimes(lifetimeSecs: int)
    ensures lifetimeSecs * SECOND < TWO63 ==> 0 < CacheFor(lifetimeSecs) <= MAX_TTL
    ensures MARGIN_SECS < lifetimeSecs && lifetimeSecs * SECOND < TWO63 ==>
      CacheFor(lifetimeSecs) == if (lifetimeSecs - MARGIN_SECS) * SECOND > MAX_TTL then MAX_TTL
                                else (lifetimeSecs - MARGIN_SECS) * SECOND
    ensures CacheFor(9_223_372_097) < 0
    ensures lifetimeSecs < 9_223_372_097 ==> 0 < CacheFor(lifetimeSecs)
  {
  }

  /** Without a usable API lifetime, of 60 s or less, it is 59 minutes; else the lifetime
      less a minute, but at most ten hours, as far as an int64 holds its nanoseconds. */
  lemma CacheForExactly(lifetimeSecs: int)
    ensures lifetimeSecs <= 60 ==> CacheFor(lifetimeSecs) == 3540 * SECOND
    ensures 60 < lifetimeSecs <= 36_060 ==> CacheFor(lifetimeSecs) == (lifetimeSecs - 60) * SECOND
    ensures 36_060 < lifetimeSecs && lifetimeSecs * SECOND < TWO63 ==> CacheFor(lifetimeSecs) == 36_000 * SECOND
  {
    if 60 < lifetimeSecs && lifetimeSecs * SECOND < TWO63 {
      FittingLifetimes(lifetimeSecs);
    }
  }

  // ---------------------------------------------------------------- one slot

  datatype Creds = Creds(user: string, pass: string, addrs: seq<string>)

  /** `expiresAt` is None for the zero time of a slot never filled nor expired. */
  datatype Slot = Slot(creds: Creds, link: string, expiresAt: Option<int>, lastRefresh: Option<int>)

  const EmptySlot := Slot(Creds("", "", []), "", None, None)

  datatype Fetch = GotCreds(creds: Creds, lifetimeSecs: int) | FetchError

  /** The critical sections of a slot, with the clock each reads: a lookup (its fetch
      runs under the slot's mutex and returns at `later`), the throttle decision of
      refreshGroupCreds (which reads the clock again to store it), and the force-expiry
      that follows an accepted one. */
  datatype Op =
    | Lookup(link: string, now: int, ctxDone: bool, fetch: Fetch, later: int)
    | Throttle(now: int, stored: int)
    | ForceExpire(now: int)

  datatype Outcome = Hit(creds: Creds) | Fetched(creds: Creds) | Failed | Accepted | Skipped | Expired

  predicate Fresh(s: Slot, link: string, now: int) {
    s.link == link && s.expiresAt.Some? && now < s.expiresAt.value
  }

  function Do(s: Slot, op: Op): (Slot, Outcome) {
    match op
    case Lookup(link, now, ctxDone, fetch, later) =>
      if Fresh(s, link, now) then (s, Hit(s.creds))
      else if ctxDone || fetch.FetchError? then (s, Failed)
      else
        (s.(creds := fetch.creds, link := link, expiresAt := Some(later + CacheFor(fetch.lifetimeSecs))),
         Fetched(fetch.creds))
    case Throttle(now, stored) =>
      if s.lastRefresh.Some? && now - s.lastRefresh.value < THROTTLE then (s, Skipped)
      else (s.(lastRefresh := Some(stored)), Accepted)
    case ForceExpire(now) => (s.(expiresAt := Some(now - SECOND)), Expired)
  }

  class StreamCredentialsCache {
    var creds: Creds
    var link: string
    var expiresAt: Option<int>
    var lastRefresh: Option<int>

    function Now(): Slot
      reads this
    {
      Slot(creds, link, expiresAt, lastRefresh)
    }

    constructor ()
      ensures Now() == EmptySlot
    {
      creds, link := Creds("", "", []), "";
      expiresAt, lastRefresh := None, None;
    }

    method GetCredsCached(wanted: string, now: int, ctxDone: bool, fetch: Fetch, later: int) returns (r: Option<Creds>)
      modifies this
      ensures Now() == Do(old(Now()), Lookup(wanted, now, ctxDone, fetch, later)).0
      ensures match Do(old(Now()), Lookup(wanted, now, ctxDone, fetch, later)).1
              case Hit(c) => r == Some(c)
              case Fetched(c) => r == Some(c)
              case _ => r == None
    {
      if link == wanted && expiresAt.Some? && now < expiresAt.value {
        return Some(creds);
      }
      if ctxDone {
        return None;
      }
      if fetch.FetchError? {
        return None;
      }
      var expiry := later + (LIFETIME - MARGIN);
      if fetch.lifetimeSecs > MARGIN_SECS {
        var d := Signed64(Signed64(fetch.lifetimeSecs * SECOND) - MARGIN);
        if d > MAX_TTL {
          d := MAX_TTL;
        }
        expiry := later + d;
      }
      creds, link, expiresAt := fetch.creds, wanted, Some(expiry);
      r := Some(fetch.creds);
    }

    method InvalidateGroupCreds(now: int)
      modifies this
      ensures Now() == Do(old(Now()), ForceExpire(now)).0
    {
      expiresAt := Some(now - SECOND);
    }

    /** refreshGroupCreds run without interruption between its two locks. */
    method RefreshGroupCreds(now: int, stored: int, later: int) returns (accepted: bool)
      modifies this
      ensures var (mid, decision) := Do(old(Now()), Throttle(now, stored));
        accepted == decision.Accepted? && Now() == if accepted then Do(mid, ForceExpire(later)).0 else old(Now())
      ensures accepted <==> old(lastRefresh).None? || now - old(lastRefresh).value >= 15 * SECOND
      ensures accepted ==> expiresAt == Some(later - SECOND) && lastRefresh == Some(stored)
    {
      if lastRefresh.Some? && now - lastRefresh.value < THROTTLE {
        return false;
      }
      lastRefresh := Some(stored);
      InvalidateGroupCreds(later);
      return true;
    }
  }

  // ---------------------------------------------------------------- the store

  class CredentialsStore {
    var caches: map<int, StreamCredentialsCache>

    /** getStreamCache: the slot's existing object, or a new empty one; no other slot
        is touched. */
    method GetStreamCache(cacheId: int) returns (cache: StreamCredentialsCache)
      modifies this
      ensures cacheId in caches && caches[cacheId] == cache
      ensures caches == old(caches)[cacheId := cache]
      ensures cacheId in old(caches) ==> cache == old(caches)[cacheId]
      ensures cacheId !in old(caches) ==> fresh(cache) && cache.Now() == EmptySlot
    {
      if cacheId in caches {
        cache := caches[cacheId];
        return;
      }
      cache := new StreamCredentialsCache();
      caches := caches[cacheId := cache];
    }
  }

  // ---------------------------------------------------------------- runs of one slot

  function After(ops: seq<Op>): Slot {
    if ops == [] then EmptySlot else Do(After(ops[..|ops| - 1]), ops[|ops| - 1]).0
  }

  /** Outcome of the k-th operation on a slot that starts empty. */
  function OutcomeAt(ops: seq<Op>, k: nat): Outcome
    requires k < |ops|
  {
    Do(After(ops[..k]), ops[k]).1
  }

  /** Operation `k` gave the slot its present expiry. */
  predicate SetsExpiry(ops: seq<Op>, k: nat)
    requires k < |ops|
  {
    OutcomeAt(ops, k).Fetched? || OutcomeAt(ops, k).Expired?
  }

  function ExpiryGiven(op: Op): int {
    match op
    case Lookup(_, _, _, fetch, later) => if fetch.GotCreds? then later + CacheFor(fetch.lifetimeSecs) else later
    case ForceExpire(now) => now - SECOND
    case Throttle(_, stored) => stored
  }

  /** Operation `j` is the last of the first `k` that set the expiry. */
  ghost predicate LastToSet(ops: seq<Op>, j: nat, k: nat)
    requires k <= |ops|
  {
    j < k && SetsExpiry(ops, j) && forall i :: j < i < k ==> !SetsExpiry(ops, i)
  }

  ghost predicate Untouched(ops: seq<Op>, k: nat)
    requires k <= |ops|
  {
    forall i :: 0 <= i < k ==> !SetsExpiry(ops, i)
  }

  lemma AfterNext(ops: seq<Op>, k: nat)
    requires k < |ops|
    ensures After(ops[..k + 1]) == Do(After(ops[..k]), ops[k]).0
  {
    assert ops[..k + 1][..k] == ops[..k];
  }

  lemma StepExpiry(s: Slot, op: Op)
    ensures var (t, o) := Do(s, op);
      if o.Fetched? || o.Expired? then
        t.expiresAt == Some(ExpiryGiven(op)) && (o.Fetched? ==> t.creds == o.creds && op.Lookup? && t.link == op.link)
      else t.expiresAt == s.expiresAt && t.creds == s.creds && t.link == s.link
  {
  }

  /** The expiry a slot has is the one its last successful fetch or forced expiry
      gave it. */
  lemma {:induction false} ExpiryOrigin(ops: seq<Op>, k: nat) returns (j: nat)
    requires k <= |ops|
    ensures Untouched(ops, k) ==> After(ops[..k]).expiresAt == None
    ensures !Untouched(ops, k) ==> LastToSet(ops, j, k) && After(ops[..k]).expiresAt == Some(ExpiryGiven(ops[j]))
    ensures !Untouched(ops, k) && OutcomeAt(ops, j).Fetched? ==>
      After(ops[..k]).creds == OutcomeAt(ops, j).creds && After(ops[..k]).link == ops[j].link
  {
    j := 0;
    if k > 0 {
      AfterNext(ops, k - 1);
      StepExpiry(After(ops[..k - 1]), ops[k - 1]);
      if SetsExpiry(ops, k - 1) {
        j := k - 1;
      } else {
        j := ExpiryOrigin(ops, k - 1);
      }
    }
  }

  function StartOf(op: Op): int {
    op.now
  }

  function EndOf(op: Op): int {
    if op.Lookup? then op.later else if op.Throttle? then op.stored else op.now
  }

  /** Operations under the same lock follow each other: lookups and force-expiries
      under the slot's mutex, throttle decisions under refreshMu. A decision may be
      taken while a fetch of the slot is under way. */
  ghost predicate ClockOrdered(ops: seq<Op>) {
    && (forall k :: 0 <= k < |ops| ==> StartOf(ops[k]) <= EndOf(ops[k]))
    && (forall j, k :: 0 <= j < k < |ops| && ops[j].Throttle? == ops[k].Throttle? ==> EndOf(ops[j]) <= StartOf(ops[k]))
  }

  /** A hit returns exactly what the slot's last successful fetch stored, which was
      for the same link, has not been force-expired since, and is not yet expired. */
  lemma HitReturnsLastFetch(ops: seq<Op>, k: nat) returns (j: nat)
    requires k < |ops| && ClockOrdered(ops) && OutcomeAt(ops, k).Hit?
    ensures LastToSet(ops, j, k) && OutcomeAt(ops, j) == Fetched(OutcomeAt(ops, k).creds)
    ensures ops[j].Lookup? && ops[j].link == ops[k].link && ops[k].now < ExpiryGiven(ops[j])
  {
    j := ExpiryOrigin(ops, k);
    ForcedIsPast(ops, j, k);
  }

  /** The expiry a forced expiry gives is past for every later lookup. */
  lemma ForcedIsPast(ops: seq<Op>, j: nat, k: nat)
    requires j < k < |ops| && ClockOrdered(ops)
    ensures ops[j].ForceExpire? && ops[k].Lookup? ==> ExpiryGiven(ops[j]) < ops[k].now
  {
  }

  /** Operation `j` left a credential in the slot that serves `link` at `now`. */
  predicate Serves(ops: seq<Op>, j: nat, link: string, now: int)
    requires j < |ops|
  {
    && OutcomeAt(ops, j).Fetched? && ops[j].Lookup? && ops[j].link == link && ops[j].fetch.GotCreds?
    && now < ops[j].later + CacheFor(ops[j].fetch.lifetimeSecs)
  }

  /** A lookup hits exactly if the last operation to set the expiry was a successful
      fetch for its link that has not run out. */
  lemma HitsExactly(ops: seq<Op>, k: nat)
    requires k < |ops| && ClockOrdered(ops) && ops[k].Lookup?
    ensures OutcomeAt(ops, k).Hit? <==>
      exists j: nat :: LastToSet(ops, j, k) && Serves(ops, j, ops[k].link, ops[k].now)
  {
    if OutcomeAt(ops, k).Hit? {
      var j := HitReturnsLastFetch(ops, k);
      assert LastToSet(ops, j, k) && Serves(ops, j, ops[k].link, ops[k].now);
    }
    if j: nat :| LastToSet(ops, j, k) && Serves(ops, j, ops[k].link, ops[k].now) {
      var o := ExpiryOrigin(ops, k);
      assert o == j;
    }
  }

  /** A forced expiry makes the next lookup go to the API, whatever its link. */
  lemma ForcedExpiryForcesFetch(ops: seq<Op>, j: nat, k: nat)
    requires j < k < |ops| && ClockOrdered(ops) && ops[j].ForceExpire? && ops[k].Lookup?
    requires forall i :: j < i < k ==> !OutcomeAt(ops, i).Fetched?
    ensures !OutcomeAt(ops, k).Hit?
  {
    if OutcomeAt(ops, k).Hit? {
      var o := HitReturnsLastFetch(ops, k);
      assert SetsExpiry(ops, j);
    }
  }

  /** A failed lookup leaves the slot as it was. */
  lemma FailureChangesNothing(s: Slot, op: Op)
    ensures Do(s, op).1.Failed? || Do(s, op).1.Hit? || Do(s, op).1.Skipped? ==> Do(s, op).0 == s
  {
  }

  lemma StepRefresh(s: Slot, op: Op)
    ensures var (t, o) := Do(s, op);
      && (o.Accepted? ==> op.Throttle?)
      && t.lastRefresh == if o.Accepted? then Some(op.stored) else s.lastRefresh
  {
  }

  lemma RefreshNext(ops: seq<Op>, k: nat)
    requires k < |ops|
    ensures OutcomeAt(ops, k).Accepted? ==> ops[k].Throttle?
    ensures After(ops[..k + 1]).lastRefresh
         == if OutcomeAt(ops, k).Accepted? then Some(ops[k].stored) else After(ops[..k]).lastRefresh
  {
    AfterNext(ops, k);
    StepRefresh(After(ops[..k]), ops[k]);
  }

  lemma {:induction false} LastRefreshIsLate(ops: seq<Op>, j: nat, k: nat)
    requires j < k <= |ops| && ClockOrdered(ops) && OutcomeAt(ops, j).Accepted?
    ensures var r := After(ops[..k]).lastRefresh; r.Some? && r.value >= ops[j].stored
  {
    RefreshNext(ops, k - 1);
    if k - 1 > j {
      LastRefreshIsLate(ops, j, k - 1);
    }
  }

  /** Operation `k` is a refresh decision less than 15 s after an accepted one. */
  ghost predicate TooSoon(ops: seq<Op>, k: nat)
    requires k < |ops|
  {
    ops[k].Throttle?
    && exists j: nat :: j < k && OutcomeAt(ops, j).Accepted? && ops[k].now < ops[j].stored + 15 * SECOND
  }

  /** The time a slot keeps is that of its last accepted refresh. */
  lemma {:induction false} LastRefreshOrigin(ops: seq<Op>, k: nat) returns (j: nat)
    requires k <= |ops|
    ensures var r := After(ops[..k]).lastRefresh;
      r.Some? ==> j < k && OutcomeAt(ops, j).Accepted? && ops[j].Throttle? && r.value == ops[j].stored
  {
    j := 0;
    if k > 0 {
      RefreshNext(ops, k - 1);
      if OutcomeAt(ops, k - 1).Accepted? {
        j := k - 1;
      } else {
        j := LastRefreshOrigin(ops, k - 1);
      }
    }
  }

  lemma ThrottleByTime(s: Slot, op: Op)
    requires op.Throttle?
    ensures Do(s, op).1.Accepted? <==> s.lastRefresh.None? || op.now - s.lastRefresh.value >= 15 * SECOND
    ensures Do(s, op).1.Accepted? || Do(s, op).1.Skipped?
  {
  }

  /** A refresh is accepted exactly if no accepted one was stored less than 15 s before;
      any other is skipped. */
  lemma AcceptedExactly(ops: seq<Op>, k: nat)
    requires k < |ops| && ClockOrdered(ops) && ops[k].Throttle?
    ensures OutcomeAt(ops, k).Accepted? <==> !TooSoon(ops, k)
    ensures OutcomeAt(ops, k).Skipped? <==> TooSoon(ops, k)
  {
    ThrottleByTime(After(ops[..k]), ops[k]);
    forall j: nat | j < k && OutcomeAt(ops, j).Accepted?
      ensures var r := After(ops[..k]).lastRefresh; r.Some? && r.value >= ops[j].stored
    {
      RefreshNext(ops, j);
      LastRefreshIsLate(ops, j, k);
    }
    var o := LastRefreshOrigin(ops, k);
  }

  /** So a refresh 15 s after every accepted one goes through, and the force-expiry that
      follows it makes every lookup before the next fetch go to the API. */
  lemma RefreshForcesFetch(ops: seq<Op>, k: nat, e: nat, l: nat)
    requires k < e < l < |ops| && ClockOrdered(ops)
    requires ops[k].Throttle? && !TooSoon(ops, k) && ops[e].ForceExpire? && ops[l].Lookup?
    requires forall i :: e < i < l ==> !OutcomeAt(ops, i).Fetched?
    ensures OutcomeAt(ops, k).Accepted? && !OutcomeAt(ops, l).Hit?
  {
    AcceptedExactly(ops, k);
    ForcedExpiryForcesFetch(ops, e, l);
  }

  /** What is not in the slot is fetched, if the context allows and the API delivers. */
  lemma MissFetches(ops: seq<Op>, k: nat)
    requires k < |ops| && ops[k].Lookup? && !OutcomeAt(ops, k).Hit?
    ensures OutcomeAt(ops, k)
         == if !ops[k].ctxDone && ops[k].fetch.GotCreds? then Fetched(ops[k].fetch.creds) else Failed
  {
  }

  /** Accepted refreshes of a slot are at least 15 s apart. */
  lemma RefreshesAreSpaced(ops: seq<Op>, j: nat, k: nat)
    requires j < k < |ops| && ClockOrdered(ops)
    requires OutcomeAt(ops, j).Accepted? && OutcomeAt(ops, k).Accepted?
    ensures ops[k].now >= ops[j].stored + 15 * SECOND
  {
    LastRefreshIsLate(ops, j, k);
  }
}
