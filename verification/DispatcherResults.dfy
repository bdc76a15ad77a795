/** Where packets go, who owns buffers, and how the load is shared. */
module DispatcherResults {
  import opened Arithmetic
  import opened Basics
  import opened Dispatcher

  // ---------------------------------------------------------------- the run invariant

  /** How often buffer `b` sits in the streams' channels. */
  ghost function Queued(queues: seq<seq<nat>>, b: nat): nat {
    if queues == [] then 0 else multiset(queues[0])[b] + Queued(queues[1..], b)
  }

  lemma {:induction false} QueuedUpdate(queues: seq<seq<nat>>, i: nat, q: seq<nat>, b: nat)
    requires i < |queues|
    ensures Queued(queues[i := q], b) + multiset(queues[i])[b] == Queued(queues, b) + multiset(q)[b]
  {
    if i == 0 {
      assert queues[i := q][1..] == queues[1..];
    } else {
      assert queues[i := q][1..] == queues[1..][i - 1 := q];
      QueuedUpdate(queues[1..], i - 1, q, b);
    }
  }

  /** In how many places buffer `b` is: the pool, TX goroutines, channels. */
  ghost function Places(s: State, b: nat): nat {
    s.pool[b] + s.held[b] + Queued(s.queues, b)
  }

  /** Every buffer ever made is in exactly one place. */
  ghost predicate OneOwner(s: State) {
    forall b: nat :: Places(s, b) == if b < s.made then 1 else 0
  }

  ghost predicate Position(s: State, n: nat) {
    && 0 < n == |s.queues| == |s.peers|
    && s.lastUsed == s.accepted / CHUNK % n
    && s.inChunk == s.accepted % CHUNK
  }

  lemma NextPosition(k: nat, n: nat)
    requires n > 0
    ensures if k % CHUNK + 1 >= CHUNK
            then (k + 1) % CHUNK == 0 && (k + 1) / CHUNK % n == (k / CHUNK % n + 1) % n
            else (k + 1) % CHUNK == k % CHUNK + 1 && (k + 1) / CHUNK == k / CHUNK
  {
    if k % CHUNK + 1 >= CHUNK {
      NextRemainder(k / CHUNK, n);
    }
  }

  lemma NextRemainder(x: nat, n: nat)
    requires n > 0
    ensures (x + 1) % n == (x % n + 1) % n
  {
    var q, r := x / n, x % n;
    assert x == n * q + r;
    if r + 1 < n {
      QuotientIs(x + 1, n, q, r + 1);
      QuotientIs(r + 1, n, 0, r + 1);
    } else {
      assert n * (q + 1) == n * q + n;
      QuotientIs(x + 1, n, q + 1, 0);
      QuotientIs(r + 1, n, 1, 0);
    }
  }

  lemma EnqueuePlaces(s: State, i: nat, b: nat, x: nat)
    requires i < |s.queues|
    ensures Places(Enqueue(s, i, b), x) == Places(s, x) + Unit(x == b)
  {
    QueuedUpdate(s.queues, i, s.queues[i] + [b], x);
  }

  lemma ForwardPlaces(s: State, b: nat, ready: seq<bool>, x: nat)
    requires |ready| == |s.queues| > 0
    ensures Places(Forward(s, b, ready), x) == Places(s, x) + Unit(x == b)
  {
    var f := FirstReady(ready, s.lastUsed, 0);
    if f.Some? {
      EnqueuePlaces(s, Ahead(s.lastUsed, f.value, |ready|), b, x);
    }
  }

  lemma ForwardPosition(s: State, b: nat, ready: seq<bool>)
    requires Position(s, |ready|)
    ensures Position(Forward(s, b, ready), |ready|) && Forward(s, b, ready).made == s.made
  {
    NextPosition(s.accepted, |ready|);
  }

  lemma ObtainPlaces(s: State, b: nat, x: nat)
    requires OneOwner(s) && Obtain(s, b).Some?
    ensures var o := Obtain(s, b).value;
      Places(o, x) + Unit(x == b) == if x < o.made then 1 else 0
  {
    assert Places(s, x) == if x < s.made then 1 else 0;
  }

  lemma TakePlaces(s: State, i: nat, x: nat)
    requires Step(s, TakeFrom(i)).Some?
    ensures Places(Step(s, TakeFrom(i)).value, x) == Places(s, x)
  {
    var q := s.queues[i];
    QueuedUpdate(s.queues, i, q[1..], x);
    assert q == [q[0]] + q[1..];
  }

  lemma PacketKeeps(s: State, b: nat, addr: Addr, ready: seq<bool>, n: nat)
    requires Position(s, n) && OneOwner(s) && Step(s, Packet(b, addr, ready)).Some?
    ensures var t := Step(s, Packet(b, addr, ready)).value; Position(t, n) && OneOwner(t)
  {
    var t := Step(s, Packet(b, addr, ready)).value;
    var p := Announce(Obtain(s, b).value, addr);
    assert Position(p, n);
    ForwardPosition(p, b, ready);
    forall x: nat ensures Places(t, x) == if x < t.made then 1 else 0 {
      ObtainPlaces(s, b, x);
      ForwardPlaces(p, b, ready, x);
    }
  }

  lemma StepKeeps(s: State, a: Action, n: nat)
    requires Position(s, n) && OneOwner(s) && Step(s, a).Some?
    ensures Position(Step(s, a).value, n) && OneOwner(Step(s, a).value)
  {
    var t := Step(s, a).value;
    match a
    case Packet(b, addr, ready) => PacketKeeps(s, b, addr, ready, n);
    case TakeFrom(i) =>
      forall x: nat ensures Places(t, x) == Places(s, x) {
        TakePlaces(s, i, x);
      }
    case GiveBack(b) =>
      forall x: nat ensures Places(t, x) == Places(s, x) {
      }
  }

  ghost predicate Reached(n: nat, schedule: seq<Action>, s: State) {
    0 < n && Run(Step, Start(n), schedule) == Some(s)
  }

  lemma {:induction false} NothingQueued(queues: seq<seq<nat>>, b: nat)
    requires forall i :: 0 <= i < |queues| ==> queues[i] == []
    ensures Queued(queues, b) == 0
  {
    if queues != [] {
      NothingQueued(queues[1..], b);
    }
  }

  lemma {:induction false} RunKeeps(n: nat, schedule: seq<Action>, s: State)
    requires Reached(n, schedule, s)
    ensures Position(s, n) && OneOwner(s)
  {
    if schedule == [] {
      forall b: nat ensures Places(s, b) == 0 {
        NothingQueued(s.queues, b);
      }
      assert 0 / CHUNK % n == 0;
    } else {
      var k := |schedule| - 1;
      var p := Run(Step, Start(n), schedule[..k]).value;
      RunKeeps(n, schedule[..k], p);
      StepKeeps(p, schedule[k], n);
    }
  }

  /** Every packet buffer has exactly one owner in every run: the pool, one stream's
      queue (once), or one TX goroutine. */
  lemma BuffersHaveOneOwner(n: nat, schedule: seq<Action>, s: State, b: nat)
    requires Reached(n, schedule, s)
    ensures s.pool[b] + s.held[b] + Queued(s.queues, b) == if b < s.made then 1 else 0
  {
    RunKeeps(n, schedule, s);
    assert Places(s, b) == if b < s.made then 1 else 0;
  }

  // ---------------------------------------------------------------- closed form

  /** The stream the k-th accepted packet is offered to when the flags read `ready`:
      the first ready one circularly from (k / 8) mod n. */
  function Target(ready: seq<bool>, k: nat): nat
    requires ready != [] && FirstReady(ready, k / CHUNK % |ready|, 0).Some?
  {
    Ahead(k / CHUNK % |ready|, FirstReady(ready, k / CHUNK % |ready|, 0).value, |ready|)
  }

  /** In every run, the packet that becomes the k-th accepted one goes to
      Target(ready, k) and nowhere else; if that stream's channel is full it returns
      to the pool. A packet is accepted exactly if some stream is ready. */
  lemma PacketsFollowClosedForm(n: nat, schedule: seq<Action>, s: State, b: nat, addr: Addr, ready: seq<bool>)
    requires Reached(n, schedule, s) && Step(s, Packet(b, addr, ready)).Some?
    ensures |ready| == n
    ensures var t := Step(s, Packet(b, addr, ready)).value;
      if forall i :: 0 <= i < |ready| ==> !ready[i] then
        t.accepted == s.accepted && t.queues == s.queues && b in t.pool
      else
        && FirstReady(ready, s.accepted / CHUNK % |ready|, 0).Some?
        && t.accepted == s.accepted + 1
        && var i := Target(ready, s.accepted);
           if |s.queues[i]| < 512 then t.queues == s.queues[i := s.queues[i] + [b]]
           else t.queues == s.queues && b in t.pool
  {
    RunKeeps(n, schedule, s);
    SomeFirstReady(ready, s.accepted / CHUNK % |ready|);
    ArrivalKeepsRing(s, b, addr);
    ForwardGoes(Announce(Obtain(s, b).value, addr), b, ready);
  }

  /** Taking a buffer and announcing the source leave ring and channels alone. */
  lemma ArrivalKeepsRing(s: State, b: nat, addr: Addr)
    requires Obtain(s, b).Some?
    ensures var t := Announce(Obtain(s, b).value, addr);
      t.queues == s.queues && t.accepted == s.accepted && t.lastUsed == s.lastUsed
  {
  }

  lemma ForwardGoes(s: State, b: nat, ready: seq<bool>)
    requires |ready| == |s.queues| > 0
    ensures var first, t := FirstReady(ready, s.lastUsed, 0), Forward(s, b, ready);
      if first.None? then t.accepted == s.accepted && t.queues == s.queues && b in t.pool
      else
        && t.accepted == s.accepted + 1
        && var i := Ahead(s.lastUsed, first.value, |ready|);
           if |s.queues[i]| < QUEUE then t.queues == s.queues[i := s.queues[i] + [b]]
           else t.queues == s.queues && b in t.pool
  {
  }

  /** The search finds a stream exactly if one is ready, and what it finds is ready. */
  lemma SomeFirstReady(ready: seq<bool>, p: nat)
    requires p < |ready|
    ensures FirstReady(ready, p, 0).None? <==> forall i :: 0 <= i < |ready| ==> !ready[i]
    ensures FirstReady(ready, p, 0).Some? ==> ready[Ahead(p, FirstReady(ready, p, 0).value, |ready|)]
  {
    FirstReadyIsFirst(ready, p, 0);
    if i :| 0 <= i < |ready| && ready[i] {
      AheadReaches(p, i, |ready|);
      assert ReadyAhead(ready, p, Distance(p, i, |ready|));
    } else {
      assert forall d :: 0 <= d < |ready| ==> !ReadyAhead(ready, p, d);
    }
  }

  // ---------------------------------------------------------------- return address

  /** The sources of the packets of a schedule, in order. */
  function Sources(schedule: seq<Action>): seq<Addr> {
    if schedule == [] then []
    else
      var n := |schedule| - 1;
      Sources(schedule[..n]) + if schedule[n].Packet? then [schedule[n].addr] else []
  }

  predicate SameKind(a: Addr, b: Addr) {
    a.Udp? == b.Udp?
  }

  /** The last source of the given kind, or for other kinds than UDP the empty text
      that the comparison starts with. */
  function LastOfKind(sources: seq<Addr>, kind: Addr): Option<Addr> {
    if sources == [] then if kind.Udp? then None else Some(Other(""))
    else if SameKind(sources[|sources| - 1], kind) then Some(sources[|sources| - 1])
    else LastOfKind(sources[..|sources| - 1], kind)
  }

  /** The last source that differed from the one of its kind before it. */
  function LastChange(sources: seq<Addr>): Option<Addr> {
    if sources == [] then None
    else
      var before, last := sources[..|sources| - 1], sources[|sources| - 1];
      if LastOfKind(before, last) != Some(last) then Some(last) else LastChange(before)
  }

  /** What a state remembers of the sources so far. */
  ghost predicate Remembers(s: State, sources: seq<Addr>) {
    && s.lastUdp == LastOfKind(sources, Udp(0, 0))
    && Some(Other(s.lastText)) == LastOfKind(sources, Other(""))
    && forall i :: 0 <= i < |s.peers| ==> s.peers[i] == LastChange(sources)
  }

  lemma AnnounceRemembers(s: State, sources: seq<Addr>, addr: Addr)
    requires Remembers(s, sources)
    ensures Remembers(Announce(s, addr), sources + [addr])
  {
    var longer := sources + [addr];
    assert longer[..|sources|] == sources && longer[|sources|] == addr;
    assert LastOfKind(sources, addr) == LastOfKind(sources, if addr.Udp? then Udp(0, 0) else Other("")) by {
      KindDecides(sources, addr, if addr.Udp? then Udp(0, 0) else Other(""));
    }
    assert Changed(s, addr) <==> LastOfKind(sources, addr) != Some(addr);
  }

  lemma {:induction false} KindDecides(sources: seq<Addr>, a: Addr, b: Addr)
    requires SameKind(a, b)
    ensures LastOfKind(sources, a) == LastOfKind(sources, b)
  {
    if sources != [] {
      KindDecides(sources[..|sources| - 1], a, b);
    }
  }

  /** The other steps leave addresses alone. */
  lemma StepRemembers(s: State, sources: seq<Addr>, a: Action)
    requires Remembers(s, sources) && Step(s, a).Some?
    ensures Remembers(Step(s, a).value, sources + if a.Packet? then [a.addr] else [])
  {
    if a.Packet? {
      var o := Obtain(s, a.b).value;
      AnnounceRemembers(o, sources, a.addr);
      ForwardKeepsAddresses(Announce(o, a.addr), a.b, a.ready);
    } else {
      assert sources + [] == sources;
    }
  }

  lemma ForwardKeepsAddresses(s: State, b: nat, ready: seq<bool>)
    requires |ready| == |s.queues| > 0
    ensures var t := Forward(s, b, ready);
      t.peers == s.peers && t.lastUdp == s.lastUdp && t.lastText == s.lastText
  {
  }

  /** In every run all streams hold the source of the last packet that changed
      anything. */
  lemma {:induction false} PeersAreLastChange(n: nat, schedule: seq<Action>, s: State)
    requires Reached(n, schedule, s)
    ensures Remembers(s, Sources(schedule))
    ensures |s.peers| == n && forall i :: 0 <= i < n ==> s.peers[i] == LastChange(Sources(schedule))
  {
    if schedule != [] {
      var k := |schedule| - 1;
      var p := Run(Step, Start(n), schedule[..k]).value;
      PeersAreLastChange(n, schedule[..k], p);
      StepRemembers(p, Sources(schedule[..k]), schedule[k]);
      StepKeepsCount(p, schedule[k]);
    }
  }

  lemma StepKeepsCount(s: State, a: Action)
    requires Step(s, a).Some?
    ensures |Step(s, a).value.peers| == |s.peers|
  {
    if a.Packet? {
      ForwardKeepsAddresses(Announce(Obtain(s, a.b).value, a.addr), a.b, a.ready);
    }
  }

  /** The last change is the last source, or is of the other kind, or nothing of the
      last source's kind came after it. */
  lemma {:induction false} ChangeOfKind(sources: seq<Addr>, kind: Addr)
    requires LastChange(sources).Some? && SameKind(LastChange(sources).value, kind)
    ensures LastOfKind(sources, kind) == LastChange(sources)
  {
    var before, last := sources[..|sources| - 1], sources[|sources| - 1];
    if LastOfKind(before, last) == Some(last) {
      ChangeOfKind(before, kind);
      if SameKind(last, kind) {
        KindDecides(before, last, kind);
      }
    }
  }

  /** Over whole runs: after its packets every stream holds the source of the last one
      exactly if the last packet that changed anything had a source of its kind. */
  lemma PeersFollowExactly(n: nat, schedule: seq<Action>, s: State)
    requires Reached(n, schedule, s) && Sources(schedule) != []
    ensures |s.peers| == n
    ensures var last := Sources(schedule)[|Sources(schedule)| - 1];
      (forall i :: 0 <= i < n ==> s.peers[i] == Some(last))
      <==> LastChange(Sources(schedule)).Some? && SameKind(LastChange(Sources(schedule)).value, last)
  {
    var sources := Sources(schedule);
    var last := sources[|sources| - 1];
    PeersAreLastChange(n, schedule, s);
    if LastChange(sources).Some? && SameKind(LastChange(sources).value, last) {
      ChangeOfKind(sources, last);
    } else {
      assert s.peers[0] == LastChange(sources);
    }
  }

  predicate UdpOnly(sources: seq<Addr>) {
    forall k :: 0 <= k < |sources| ==> sources[k].Udp?
  }

  lemma {:induction false} UdpChanges(sources: seq<Addr>)
    requires UdpOnly(sources) && sources != []
    ensures LastChange(sources).Some? && LastChange(sources).value.Udp?
  {
    var before := sources[..|sources| - 1];
    if before != [] {
      UdpChanges(before);
    }
  }

  /** On a UDP listener, whose packets all come from UDP addresses, they always do. */
  lemma UdpPeersFollow(n: nat, schedule: seq<Action>, s: State)
    requires Reached(n, schedule, s) && Sources(schedule) != [] && UdpOnly(Sources(schedule))
    ensures s.peers == seq(n, _ => Some(Sources(schedule)[|Sources(schedule)| - 1]))
  {
    UdpChanges(Sources(schedule));
    PeersAreLastChange(n, schedule, s);
    ChangeOfKind(Sources(schedule), Sources(schedule)[|Sources(schedule)| - 1]);
  }

  /** With mixed kinds it can fail: a run of three packets, from a UDP source, another
      kind, and the first one again, leaves the stream on the second. The listener the
      program makes yields UDP sources only. */
  lemma MixedSourcesDisagree() returns (schedule: seq<Action>, s: State, u: Addr, v: Addr)
    ensures Reached(1, schedule, s) && Sources(schedule) == [u, v, u] && !SameKind(u, v)
    ensures s.peers == [Some(v)]
  {
    u, v := Udp(1, 1), Other("v");
    var fromU, fromV := Packet(0, u, [false]), Packet(0, v, [false]);
    var s1 := NotReadyPacket(Start(1), u);
    RunNext(Step, Start(1), [], fromU, s1);
    var s2 := NotReadyPacket(s1, v);
    RunNext(Step, Start(1), [] + [fromU], fromV, s2);
    s := NotReadyPacket(s2, u);
    RunNext(Step, Start(1), [] + [fromU] + [fromV], fromU, s);
    schedule := [] + [fromU] + [fromV] + [fromU];
    SourcesNext([], fromU);
    SourcesNext([] + [fromU], fromV);
    SourcesNext([] + [fromU] + [fromV], fromU);
    assert Sources([]) == [];
  }

  lemma SourcesNext(schedule: seq<Action>, a: Action)
    ensures Sources(schedule + [a]) == Sources(schedule) + if a.Packet? then [a.addr] else []
  {
    assert (schedule + [a])[..|schedule|] == schedule;
  }

  /** A packet to one stream that is not ready: its buffer, the first, is pooled again. */
  lemma NotReadyPacket(s: State, addr: Addr) returns (t: State)
    requires |s.queues| == |s.peers| == 1 && (s.pool == multiset{0} || (s.made == 0 && s.pool == multiset{}))
    ensures Step(s, Packet(0, addr, [false])) == Some(t)
    ensures |t.queues| == 1 && t.pool == multiset{0} && t.lastUdp == (if addr.Udp? then Some(addr) else s.lastUdp)
    ensures t.lastText == if addr.Other? then addr.text else s.lastText
    ensures t.peers == if Changed(s, addr) then [Some(addr)] else s.peers
  {
    t := Step(s, Packet(0, addr, [false])).value;
    assert FirstReady([false], s.lastUsed, 0) == None by {
      FirstReadyIsFirst([false], s.lastUsed, 0);
    }
    assert seq(|s.peers|, _ => Some(addr)) == [Some(addr)];
  }

  // ---------------------------------------------------------------- fair shares

  /** How far ahead of `p` stream `s` is on the ring. */
  function Distance(p: nat, s: nat, n: nat): nat
    requires p < n && s < n
  {
    if p <= s then s - p else s + n - p
  }

  function Back(s: nat, e: nat, n: nat): nat
    requires s < n && e <= n
  {
    if e <= s then s - e else s + n - e
  }

  lemma AheadReaches(p: nat, s: nat, n: nat)
    requires p < n && s < n
    ensures Distance(p, s, n) < n && Ahead(p, Distance(p, s, n), n) == s
    ensures forall d :: 0 <= d <= Distance(p, s, n) ==> Ahead(p, d, n) == Back(s, Distance(p, s, n) - d, n)
    ensures forall d :: 0 <= d < n && Ahead(p, d, n) == s ==> d == Distance(p, s, n)
  {
    QuotientIs(p, n, 0, p);
    forall d | 0 <= d < n ensures Ahead(p, d, n) == if p + d < n then p + d else p + d - n {
      AheadIs(p, d, n);
    }
  }

  /** Streams that are not ready directly before `s`, counted from distance `e` on. */
  function Gap(ready: seq<bool>, s: nat, e: nat): nat
    requires s < |ready|
    decreases |ready| - e
  {
    if e >= |ready| || ready[Back(s, e, |ready|)] then 0 else 1 + Gap(ready, s, e + 1)
  }

  lemma {:induction false} GapIsMaximal(ready: seq<bool>, s: nat, e: nat)
    requires s < |ready| && e <= |ready|
    ensures e + Gap(ready, s, e) <= |ready|
    ensures forall x :: e <= x < e + Gap(ready, s, e) ==> !ready[Back(s, x, |ready|)]
    ensures e + Gap(ready, s, e) < |ready| ==> ready[Back(s, e + Gap(ready, s, e), |ready|)]
    decreases |ready| - e
  {
    if e < |ready| && !ready[Back(s, e, |ready|)] {
      GapIsMaximal(ready, s, e + 1);
    }
  }

  /** The dispatcher starting at `p` picks stream `s` exactly if `s` is at most its gap
      ahead. */
  lemma PickedExactly(ready: seq<bool>, p: nat, s: nat)
    requires p < |ready| && s < |ready| && ready[s]
    ensures FirstReady(ready, p, 0).Some?
    ensures Ahead(p, FirstReady(ready, p, 0).value, |ready|) == s <==> Distance(p, s, |ready|) <= Gap(ready, s, 1)
  {
    var n, d, g := |ready|, Distance(p, s, |ready|), Gap(ready, s, 1);
    AheadReaches(p, s, n);
    GapIsMaximal(ready, s, 1);
    FirstReadyIsFirst(ready, p, 0);
    assert ReadyAhead(ready, p, d);
    var f := FirstReady(ready, p, 0).value;
    assert f <= d;
    assert ReadyAhead(ready, p, f) && Ahead(p, f, n) == Back(s, d - f, n);
    if g < d {
      assert Ahead(p, d - (g + 1), n) == Back(s, g + 1, n);
      assert ReadyAhead(ready, p, d - (g + 1));
    }
  }

  /** Ring starts below `m` from which stream `s` is picked. */
  function Starts(ready: seq<bool>, s: nat, m: nat): nat
    requires s < |ready| && ready[s] && m <= |ready|
  {
    if m == 0 then 0
    else
      PickedExactly(ready, m - 1, s);
      Starts(ready, s, m - 1) + (if Ahead(m - 1, FirstReady(ready, m - 1, 0).value, |ready|) == s then 1 else 0)
  }

  function Min(a: int, b: int): int {
    if a < b then a else b
  }

  function Max(a: int, b: int): int {
    if a < b then b else a
  }

  /** How many of the first `m` ring starts lie at most `g` before `s` on a ring of `n`. */
  function StartsClosed(m: nat, s: nat, n: nat, g: nat): int {
    if m <= s + 1 then Max(0, m - Max(0, s - g)) else Min(s, g) + 1 + Max(0, m - Max(s + 1, s + n - g))
  }

  lemma {:induction false} StartsFormula(ready: seq<bool>, s: nat, m: nat)
    requires s < |ready| && ready[s] && m <= |ready|
    ensures Starts(ready, s, m) == StartsClosed(m, s, |ready|, Gap(ready, s, 1))
  {
    GapIsMaximal(ready, s, 1);
    if m > 0 {
      StartsFormula(ready, s, m - 1);
      PickedExactly(ready, m - 1, s);
    }
  }

  lemma StartsTotal(ready: seq<bool>, s: nat)
    requires s < |ready| && ready[s]
    ensures Starts(ready, s, |ready|) == Gap(ready, s, 1) + 1
  {
    GapFits(ready, s);
    StartsFormula(ready, s, |ready|);
    FormulaAtEnd(|ready|, s, Gap(ready, s, 1));
  }

  lemma FormulaAtEnd(n: nat, s: nat, g: nat)
    requires s < n && 1 + g <= n
    ensures StartsClosed(n, s, n, g) == g + 1
  {
  }

  lemma GapFits(ready: seq<bool>, s: nat)
    requires s < |ready|
    ensures 1 + Gap(ready, s, 1) <= |ready|
  {
    GapIsMaximal(ready, s, 1);
  }

  predicate SomeReady(ready: seq<bool>, s: nat) {
    s < |ready| && ready[s]
  }

  /** Of the `m` packets accepted from number `first` on, how many stream `s` gets. */
  function Share(ready: seq<bool>, s: nat, first: nat, m: nat): nat
    requires SomeReady(ready, s)
  {
    if m == 0 then 0 else Share(ready, s, first, m - 1) + Gets(ready, s, first + m - 1)
  }

  function Gets(ready: seq<bool>, s: nat, k: nat): nat
    requires SomeReady(ready, s)
  {
    PickedExactly(ready, k / CHUNK % |ready|, s);
    if Target(ready, k) == s then 1 else 0
  }

  lemma {:induction false} ShareFromFront(ready: seq<bool>, s: nat, first: nat, m: nat)
    requires SomeReady(ready, s) && m > 0
    ensures Share(ready, s, first, m) == Gets(ready, s, first) + Share(ready, s, first + 1, m - 1)
  {
    if m > 1 {
      ShareFromFront(ready, s, first, m - 1);
    }
  }

  lemma {:induction false} ShareOfChunk(ready: seq<bool>, s: nat, p: nat, m: nat)
    requires SomeReady(ready, s) && p < |ready| && m <= CHUNK
    ensures Share(ready, s, 0, p * CHUNK + m) == Share(ready, s, 0, p * CHUNK) + m * Gets(ready, s, p * CHUNK)
  {
    if m > 0 {
      ShareOfChunk(ready, s, p, m - 1);
      assert (p * CHUNK + m - 1) / CHUNK == p && p * CHUNK / CHUNK == p;
    }
  }

  lemma {:induction false} ShareOfRounds(ready: seq<bool>, s: nat, p: nat)
    requires SomeReady(ready, s) && p <= |ready|
    ensures Share(ready, s, 0, p * CHUNK) == CHUNK * Starts(ready, s, p)
  {
    if p > 0 {
      ShareOfRounds(ready, s, p - 1);
      ShareOfChunk(ready, s, p - 1, CHUNK);
      assert (p - 1) * CHUNK + CHUNK == p * CHUNK;
      assert (p - 1) * CHUNK / CHUNK == p - 1;
      QuotientIs(p - 1, |ready|, 0, p - 1);
    }
  }

  lemma GetsIsPeriodic(ready: seq<bool>, s: nat, k: nat)
    requires SomeReady(ready, s)
    ensures Gets(ready, s, k + |ready| * CHUNK) == Gets(ready, s, k)
  {
    var n, x := |ready|, k / CHUNK;
    assert (k + n * CHUNK) / CHUNK == x + n;
    assert x == n * (x / n) + x % n;
    assert n * (x / n + 1) == n * (x / n) + n;
    QuotientIs(x + n, n, x / n + 1, x % n);
  }

  /** With fixed flags, of any 8n consecutive packets a ready stream gets 8 for itself
      and 8 for each stream directly before it that is not ready. */
  lemma {:induction false} FairShare(ready: seq<bool>, s: nat, first: nat)
    requires SomeReady(ready, s)
    ensures Share(ready, s, first, |ready| * CHUNK) == CHUNK * (1 + Gap(ready, s, 1))
  {
    var m := |ready| * CHUNK;
    if first == 0 {
      ShareOfRounds(ready, s, |ready|);
      StartsTotal(ready, s);
    } else {
      FairShare(ready, s, first - 1);
      ShareFromFront(ready, s, first - 1, m);
      GetsIsPeriodic(ready, s, first - 1);
    }
  }

  // ---------------------------------------------------------------- fair shares of runs

  /** The action is a packet that the dispatcher offers to stream `i`. */
  predicate OfferedTo(s: State, a: Action, i: nat) {
    && a.Packet? && a.ready != []
    && var first := FirstReady(a.ready, s.lastUsed, 0);
       first.Some? && Ahead(s.lastUsed, first.value, |a.ready|) == i
  }

  /** How many packets of a run from `s` are offered to stream `i`. */
  ghost function Offers(s: State, schedule: seq<Action>, i: nat): nat
    requires Run(Step, s, schedule).Some?
  {
    RunTotal(Step, OfferWeight(i), s, schedule)
  }

  ghost function OfferWeight(i: nat): (State, Action) -> nat {
    (t, a) => Unit(OfferedTo(t, a, i))
  }

  function Accepted(s: State): nat {
    s.accepted
  }

  /** At each packet of the schedule the flags read `ready`. */
  predicate FixedFlags(schedule: seq<Action>, ready: seq<bool>) {
    forall k :: 0 <= k < |schedule| ==> WithFlags(schedule[k], ready)
  }

  predicate WithFlags(a: Action, ready: seq<bool>) {
    a.Packet? ==> a.ready == ready
  }

  lemma StepOffers(s: State, a: Action, n: nat, ready: seq<bool>, i: nat, g: nat -> nat)
    requires Position(s, n) && Step(s, a).Some? && WithFlags(a, ready) && SomeReady(ready, i)
    requires g(s.accepted) == Gets(ready, i, s.accepted)
    ensures Position(Step(s, a).value, n)
    ensures Counts(Step, OfferWeight(i), Accepted, g, s, a)
  {
    if a.Packet? {
      var p := Announce(Obtain(s, a.b).value, a.addr);
      PickedExactly(ready, s.lastUsed, i);
      ForwardPosition(p, a.b, ready);
      ForwardGoes(p, a.b, ready);
    }
  }

  lemma {:induction false} ShareIsSum(ready: seq<bool>, s: nat, g: nat -> nat, first: nat, m: nat)
    requires SomeReady(ready, s) && forall k :: g(k) == Gets(ready, s, k)
    ensures Share(ready, s, first, m) == Sum(g, first, m)
  {
    if m > 0 {
      ShareIsSum(ready, s, g, first, m - 1);
    }
  }

  lemma SumIsFair(ready: seq<bool>, s: nat, g: nat -> nat, first: nat, m: nat)
    requires SomeReady(ready, s) && forall k :: g(k) == Gets(ready, s, k)
    requires m == |ready| * CHUNK
    ensures Sum(g, first, m) == CHUNK * (1 + Gap(ready, s, 1))
  {
    FairShare(ready, s, first);
    ShareIsSum(ready, s, g, first, m);
  }

  /** What a stream is offered at each accepted number while the flags stay as they are. */
  lemma OffersByNumber(n: nat, ready: seq<bool>, i: nat, first: nat, m: nat, inv: State -> bool, fit: Action -> bool)
    returns (g: nat -> nat)
    requires SomeReady(ready, i) && m == |ready| * CHUNK
    requires (forall t :: inv(t) <==> Position(t, n)) && forall a :: fit(a) <==> WithFlags(a, ready)
    ensures forall t, a :: inv(t) && fit(a) && Step(t, a).Some? ==>
      inv(Step(t, a).value) && Counts(Step, OfferWeight(i), Accepted, g, t, a)
    ensures Sum(g, first, m) == CHUNK * (1 + Gap(ready, i, 1))
  {
    g := k => Gets(ready, i, k);
    forall t, a | inv(t) && fit(a) && Step(t, a).Some?
      ensures inv(Step(t, a).value) && Counts(Step, OfferWeight(i), Accepted, g, t, a)
    {
      StepOffers(t, a, n, ready, i, g);
    }
    SumIsFair(ready, i, g, first, m);
  }

  lemma OffersAreSum(s: State, schedule: seq<Action>, i: nat, g: nat -> nat, m: nat,
                     inv: State -> bool, fit: Action -> bool)
    requires forall t, a :: inv(t) && fit(a) && Step(t, a).Some? ==>
      inv(Step(t, a).value) && Counts(Step, OfferWeight(i), Accepted, g, t, a)
    requires inv(s) && (forall k :: 0 <= k < |schedule| ==> fit(schedule[k])) && Run(Step, s, schedule).Some?
    requires Run(Step, s, schedule).value.accepted == s.accepted + m
    ensures Offers(s, schedule, i) == Sum(g, s.accepted, m)
  {
    RunTotalOf(Step, inv, fit, OfferWeight(i), Accepted, g, s, schedule, m);
  }

  /** In every run: while the flags stay as they are, of 8n consecutive accepted packets
      a ready stream is offered 8 for itself and 8 for each stream directly before it
      that is not ready. */
  lemma RunsShareFairly(n: nat, before: seq<Action>, s: State, schedule: seq<Action>, ready: seq<bool>, i: nat)
    requires Reached(n, before, s) && Run(Step, s, schedule).Some?
    requires FixedFlags(schedule, ready) && |ready| == n && SomeReady(ready, i)
    requires Run(Step, s, schedule).value.accepted == s.accepted + 8 * n
    ensures Offers(s, schedule, i) == 8 * (1 + Gap(ready, i, 1))
  {
    RunKeeps(n, before, s);
    var inv, fit, m := t => Position(t, n), a => WithFlags(a, ready), n * CHUNK;
    var g := OffersByNumber(n, ready, i, s.accepted, m, inv, fit);
    OffersAreSum(s, schedule, i, g, m, inv, fit);
  }
}
