/** The chunked round-robin dispatcher that spreads WireGuard's packets over the
    ready streams. */
module Dispatcher {
  import opened Arithmetic
  import opened Basics

  const CHUNK := 8
  const QUEUE := 512

  /** Source of a packet; two UDP addresses are equal when port and normalised IP are. */
  datatype Addr = Udp(ip: nat, port: nat) | Other(text: string)

  /** `pool`, `held` and the queues hold packet buffers: in packetPool, in the hands
      of a stream's TX goroutine, and in the streams' `in` channels. `made` buffers
      exist; `accepted` packets found a ready stream so far. */
  datatype State = State(
    peers: seq<Option<Addr>>,
    lastUdp: Option<Addr>,
    lastText: string,
    lastUsed: nat,
    inChunk: nat,
    queues: seq<seq<nat>>,
    pool: multiset<nat>,
    held: multiset<nat>,
    made: nat,
    accepted: nat)

  function Start(n: nat): State {
    State(seq(n, _ => None), None, "", 0, 0, seq(n, _ => []), multiset{}, multiset{}, 0, 0)
  }

  // ---------------------------------------------------------------- choosing a stream

  predicate ReadyAhead(ready: seq<bool>, start: nat, d: nat)
    requires ready != []
  {
    ready[Ahead(start, d, |ready|)]
  }

  /** Distance from `start` of the first ready stream, looking from distance `i` on. */
  function FirstReady(ready: seq<bool>, start: nat, i: nat): Option<nat>
    requires ready != []
    decreases |ready| - i
  {
    if i >= |ready| then None
    else if ReadyAhead(ready, start, i) then Some(i)
    else FirstReady(ready, start, i + 1)
  }

  /** It is the least distance at which a stream is ready; there is none exactly if
      no stream is. */
  lemma {:induction false} FirstReadyIsFirst(ready: seq<bool>, start: nat, i: nat)
    requires ready != [] && i <= |ready|
    ensures FirstReady(ready, start, i).None? <==> forall d :: i <= d < |ready| ==> !ReadyAhead(ready, start, d)
    ensures FirstReady(ready, start, i).Some? ==>
      var f := FirstReady(ready, start, i).value;
      i <= f < |ready| && ReadyAhead(ready, start, f) && forall d :: i <= d < f ==> !ReadyAhead(ready, start, d)
    decreases |ready| - i
  {
    if i < |ready| && !ReadyAhead(ready, start, i) {
      FirstReadyIsFirst(ready, start, i + 1);
    }
  }

  // ---------------------------------------------------------------- one packet

  predicate Changed(s: State, addr: Addr) {
    match addr
    case Udp(_, _) => s.lastUdp != Some(addr)
    case Other(text) => text != s.lastText
  }

  /** Remembering a source and, if it changed, telling every stream. */
  function Announce(s: State, addr: Addr): State {
    if !Changed(s, addr) then s
    else
      var t := s.(peers := seq(|s.peers|, _ => Some(addr)));
      if addr.Udp? then t.(lastUdp := Some(addr)) else t.(lastText := addr.text)
  }

  function AdvanceChunk(s: State): State
    requires s.queues != []
  {
    if s.inChunk + 1 >= CHUNK then s.(lastUsed := (s.lastUsed + 1) % |s.queues|, inChunk := 0)
    else s.(inChunk := s.inChunk + 1)
  }

  /** Non-blocking send of buffer `b` to stream `i`; a full channel drops the packet. */
  function Enqueue(s: State, i: nat, b: nat): State
    requires i < |s.queues|
  {
    if |s.queues[i]| < QUEUE then s.(queues := s.queues[i := s.queues[i] + [b]])
    else s.(pool := s.pool + multiset{b})
  }

  /** A packet read into buffer `b`; `ready` is what the streams' flags read as. */
  function Forward(s: State, b: nat, ready: seq<bool>): State
    requires |ready| == |s.queues| > 0
  {
    var first := FirstReady(ready, s.lastUsed, 0);
    if first.None? then s.(pool := s.pool + multiset{b})
    else AdvanceChunk(Enqueue(s, Ahead(s.lastUsed, first.value, |ready|), b)).(accepted := s.accepted + 1)
  }

  /** packetPool.Get: a pooled buffer or, if `b` is the next number, a new one. */
  function Obtain(s: State, b: nat): Option<State> {
    if b in s.pool then Some(s.(pool := s.pool - multiset{b}))
    else if b == s.made then Some(s.(made := s.made + 1))
    else None
  }

  datatype Action =
    | Packet(b: nat, addr: Addr, ready: seq<bool>)
    | TakeFrom(i: nat)                 // a stream receives from its channel
    | GiveBack(b: nat)                 // and returns the buffer to the pool

  function Step(s: State, a: Action): Option<State> {
    match a
    case Packet(b, addr, ready) =>
      if Obtain(s, b).None? || |ready| != |s.queues| || ready == [] then None
      else Some(Forward(Announce(Obtain(s, b).value, addr), b, ready))
    case TakeFrom(i) =>
      if i < |s.queues| && s.queues[i] != [] then
        Some(s.(queues := s.queues[i := s.queues[i][1..]], held := s.held + multiset{s.queues[i][0]}))
      else None
    case GiveBack(b) =>
      if b in s.held then Some(s.(held := s.held - multiset{b}, pool := s.pool + multiset{b})) else None
  }

  // ---------------------------------------------------------------- the goroutine

  class Loop {
    var peers: seq<Option<Addr>>
    var lastAddr: Option<Addr>
    var lastAddrStr: string
    var lastUsed: nat
    var packetsInChunk: nat
    var queues: seq<seq<nat>>
    var pool: multiset<nat>
    ghost var held: multiset<nat>
    ghost var made: nat
    ghost var accepted: nat

    ghost function Now(): State
      reads this
    {
      State(peers, lastAddr, lastAddrStr, lastUsed, packetsInChunk, queues, pool, held, made, accepted)
    }

    method RememberSource(addr: Addr)
      modifies `peers, `lastAddr, `lastAddrStr
      ensures Now() == Announce(old(Now()), addr)
    {
      var changed := false;
      if addr.Udp? {
        changed := lastAddr != Some(addr);
        if changed {
          lastAddr := Some(addr);
        }
      } else if addr.text != lastAddrStr {
        changed := true;
        lastAddrStr := addr.text;
      }
      if changed {
        peers := seq(|peers|, _ => Some(addr));
      }
    }

    method PickStream(ready: seq<bool>) returns (distance: Option<nat>)
      requires |ready| == |queues| > 0
      ensures distance == FirstReady(ready, lastUsed, 0)
    {
      distance := None;
      var i := 0;
      while i < |ready|
        invariant i <= |ready| && distance == None
        invariant FirstReady(ready, lastUsed, i) == FirstReady(ready, lastUsed, 0)
      {
        if ready[(lastUsed + i) % |ready|] {
          return Some(i);
        }
        i := i + 1;
      }
    }

    method TrySend(i: nat, b: nat)
      requires i < |queues|
      modifies `queues, `pool
      ensures Now() == Enqueue(old(Now()), i, b)
    {
      if |queues[i]| < QUEUE {
        queues := queues[i := queues[i] + [b]];
      } else {
        pool := pool + multiset{b};
      }
    }

    method FinishPacket()
      requires queues != []
      modifies `lastUsed, `packetsInChunk
      ensures Now() == AdvanceChunk(old(Now()))
    {
      packetsInChunk := packetsInChunk + 1;
      if packetsInChunk >= CHUNK {
        lastUsed := (lastUsed + 1) % |queues|;
        packetsInChunk := 0;
      }
    }

    /** The loop body after a successful ReadFrom into buffer `b`. */
    method HandlePacket(b: nat, addr: Addr, ready: seq<bool>)
      requires |ready| == |queues| > 0
      modifies this
      ensures Now() == Forward(Announce(old(Now()), addr), b, ready)
    {
      RememberSource(addr);
      var distance := PickStream(ready);
      if distance.None? {
        pool := pool + multiset{b};
        return;
      }
      TrySend(Ahead(lastUsed, distance.value, |queues|), b);
      FinishPacket();
      accepted := accepted + 1;
    }
  }
}
