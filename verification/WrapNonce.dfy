/** The outbound identity of a WRAP stream: an SSRC and a counter packed in one
    64-bit word that concurrent senders advance by compare-and-swap, and the
    ChaCha20 nonce built from them. */
module WrapNonce {
  import opened Basics

  const COUNTER_MOD := 4_000_000
  const TWO32 := 0x1_0000_0000

  /** `old>>32` and `old & 0xFFFFFFFF`. */
  function SsrcOf(word: nat): nat {
    word / TWO32
  }

  function CounterOf(word: nat): nat {
    word % TWO32
  }

  /** The word a sender tries to install after loading a word; `drawn` is the random
      SSRC it uses if the counter is exhausted. */
  function NextWord(loaded: nat, drawn: nat): nat {
    if CounterOf(loaded) + 1 >= COUNTER_MOD then drawn * TWO32 else loaded + 1
  }

  // ---------------------------------------------------------------- the object

  /** What happens to the word between one load and the CAS that follows it: it becomes
      `rival` (the loaded word itself if nobody interferes). If the CAS fails, it becomes
      `reload` before the sender loads again. */
  datatype Round = Round(drawn: nat, rival: nat, reload: nat)

  /** The word a sender's CAS replaces, and what it installs, when `rounds` happen
      to it in turn and nobody disturbs the attempt after them. */
  function Replaced(word: nat, rounds: seq<Round>, lastDrawn: nat): (nat, nat)
    decreases |rounds|
  {
    if rounds == [] then (word, NextWord(word, lastDrawn))
    else if rounds[0].rival == word then (word, NextWord(word, rounds[0].drawn))
    else Replaced(rounds[0].reload, rounds[1..], lastDrawn)
  }

  class WrapTxState {
    var state: nat

    constructor (ssrc: nat)
      ensures state == ssrc * TWO32
    {
      state := ssrc * TWO32;
    }

    method CompareAndSwap(expected: nat, next: nat) returns (ok: bool)
      modifies this
      ensures ok <==> old(state) == expected
      ensures state == if ok then next else old(state)
    {
      ok := state == expected;
      if ok {
        state := next;
      }
    }

    /** The CAS loop: the pair it returns is the content of the very word its CAS
        replaced, however often other senders got in between. */
    method Next(rounds: seq<Round>, lastDrawn: nat) returns (ssrc: nat, counter: nat)
      modifies this
      ensures var (seen, installed) := Replaced(old(state), rounds, lastDrawn);
        ssrc == SsrcOf(seen) && counter == CounterOf(seen) && state == installed
    {
      var k := 0;
      while true
        invariant k <= |rounds|
        invariant Replaced(state, rounds[k..], lastDrawn) == Replaced(old(state), rounds, lastDrawn)
        decreases |rounds| - k
      {
        var loaded := state;
        ssrc, counter := SsrcOf(loaded), CounterOf(loaded);
        var next := NextWord(loaded, if k < |rounds| then rounds[k].drawn else lastDrawn);
        if k < |rounds| {
          state := rounds[k].rival;
        }
        var swapped := CompareAndSwap(loaded, next);
        if swapped {
          return;
        }
        assert k < |rounds|;
        assert rounds[k..][1..] == rounds[k + 1..];
        state := rounds[k].reload;
        k := k + 1;
      }
    }
  }

  // ---------------------------------------------------------------- senders

  /** A goroutine inside `next`: not there, or between its load and its CAS. */
  datatype Sender = Idle | Loaded(word: nat, next: nat)

  /** `epochs` lists the SSRCs installed so far, `claims` the pairs returned so far. */
  datatype Tx = Tx(word: nat, senders: seq<Sender>, epochs: seq<nat>, claims: seq<(nat, nat)>)

  datatype Action = Load(i: nat, drawn: nat) | Cas(i: nat)

  function Start(ssrc: nat, senders: nat): Tx {
    Tx(ssrc * TWO32, seq(senders, _ => Idle), [ssrc], [])
  }

  function Step(s: Tx, a: Action): Option<Tx> {
    match a
    case Load(i, drawn) =>
      if i < |s.senders| && s.senders[i].Idle? && drawn < TWO32 then
        Some(s.(senders := s.senders[i := Loaded(s.word, NextWord(s.word, drawn))]))
      else None
    case Cas(i) =>
      if i < |s.senders| && s.senders[i].Loaded? then
        var w := s.senders[i];
        if s.word != w.word then Some(s.(senders := s.senders[i := Idle]))
        else
          Some(Tx(w.next, s.senders[i := Idle],
                  if CounterOf(w.word) + 1 >= COUNTER_MOD then s.epochs + [SsrcOf(w.next)] else s.epochs,
                  s.claims + [(SsrcOf(w.word), CounterOf(w.word))]))
      else None
  }

  // ---------------------------------------------------------------- the loop as a run

  predicate NotBy(schedule: seq<Action>, i: nat) {
    forall k :: 0 <= k < |schedule| ==> schedule[k].i != i
  }

  /** `t` is reached from `s` by steps of other senders than `i`. */
  ghost predicate OthersRun(s: Tx, i: nat, t: Tx) {
    exists schedule :: NotBy(schedule, i) && Run(Step, s, schedule) == Some(t)
  }

  /** A failed or successful attempt of a sender: the system is in state `raced` when
      its CAS comes, and in `reload` when it loads again. */
  datatype Attempt = Attempt(drawn: nat, raced: Tx, reload: Tx)

  function RoundsOf(attempts: seq<Attempt>): seq<Round> {
    seq(|attempts|, k requires 0 <= k < |attempts| =>
      Round(attempts[k].drawn, attempts[k].raced.word, attempts[k].reload.word))
  }

  /** Sender `i` loads in `s` and, after steps of others to `raced`, tries its CAS. */
  ghost predicate Tries(s: Tx, i: nat, drawn: nat, raced: Tx, t: Tx) {
    var loaded := Step(s, Load(i, drawn));
    loaded.Some? && OthersRun(loaded.value, i, raced) && Step(raced, Cas(i)) == Some(t)
  }

  /** Sender `i` goes through its loop from `s` to the state `t` in which it returns;
      the attempt after those listed is not disturbed. */
  ghost predicate Loops(s: Tx, i: nat, attempts: seq<Attempt>, lastDrawn: nat, t: Tx)
    decreases |attempts|
  {
    if attempts == [] then
      var loaded := Step(s, Load(i, lastDrawn));
      loaded.Some? && Step(loaded.value, Cas(i)) == Some(t)
    else
      var a := attempts[0];
      if a.raced.word == s.word then Tries(s, i, a.drawn, a.raced, t)
      else
        exists failed :: Tries(s, i, a.drawn, a.raced, failed) && OthersRun(failed, i, a.reload)
                         && Loops(a.reload, i, attempts[1..], lastDrawn, t)
  }

  lemma {:induction false} OthersLeaveSender(s: Tx, i: nat, schedule: seq<Action>)
    requires i < |s.senders| && NotBy(schedule, i) && Run(Step, s, schedule).Some?
    ensures var t := Run(Step, s, schedule).value; i < |t.senders| && t.senders[i] == s.senders[i]
  {
    if schedule != [] {
      OthersLeaveSender(s, i, schedule[..|schedule| - 1]);
    }
  }

  /** An attempt is a run, and ends as its CAS finds the word. */
  lemma TryIsRun(s: Tx, i: nat, drawn: nat, raced: Tx, t: Tx) returns (schedule: seq<Action>)
    requires Tries(s, i, drawn, raced, t)
    ensures Run(Step, s, schedule) == Some(t)
    ensures t.word == if raced.word == s.word then NextWord(s.word, drawn) else raced.word
    ensures t.claims == raced.claims + if raced.word == s.word then [(SsrcOf(s.word), CounterOf(s.word))] else []
  {
    var loaded := Step(s, Load(i, drawn)).value;
    var others :| NotBy(others, i) && Run(Step, loaded, others) == Some(raced);
    OthersLeaveSender(loaded, i, others);
    RunNext(Step, s, [], Load(i, drawn), loaded);
    RunOn(Step, s, [] + [Load(i, drawn)], loaded, others);
    RunNext(Step, s, [] + [Load(i, drawn)] + others, Cas(i), t);
    schedule := [] + [Load(i, drawn)] + others + [Cas(i)];
  }

  /** However senders interleave, going through the loop is a run of the transition
      function, and the claim that it ends with is the pair the method returns when
      the same happens to the word. */
  lemma {:induction false} LoopIsRun(s: Tx, i: nat, attempts: seq<Attempt>, lastDrawn: nat, t: Tx)
    returns (schedule: seq<Action>)
    requires Loops(s, i, attempts, lastDrawn, t)
    ensures Run(Step, s, schedule) == Some(t)
    ensures var (seen, installed) := Replaced(s.word, RoundsOf(attempts), lastDrawn);
      && t.word == installed && t.claims != []
      && t.claims[|t.claims| - 1] == (SsrcOf(seen), CounterOf(seen))
    decreases |attempts|
  {
    if attempts == [] {
      var loaded := Step(s, Load(i, lastDrawn)).value;
      assert OthersRun(loaded, i, loaded) by {
        assert Run(Step, loaded, []) == Some(loaded);
      }
      schedule := TryIsRun(s, i, lastDrawn, loaded, t);
    } else {
      var a := attempts[0];
      assert RoundsOf(attempts)[1..] == RoundsOf(attempts[1..]);
      if a.raced.word == s.word {
        schedule := TryIsRun(s, i, a.drawn, a.raced, t);
      } else {
        var failed :| Tries(s, i, a.drawn, a.raced, failed) && OthersRun(failed, i, a.reload)
          && Loops(a.reload, i, attempts[1..], lastDrawn, t);
        var first := TryIsRun(s, i, a.drawn, a.raced, failed);
        var others :| NotBy(others, i) && Run(Step, failed, others) == Some(a.reload);
        var rest := LoopIsRun(a.reload, i, attempts[1..], lastDrawn, t);
        RunOn(Step, s, first, failed, others);
        RunOn(Step, s, first + others, a.reload, rest);
        schedule := first + others + rest;
      }
    }
  }

  // ---------------------------------------------------------------- all interleavings

  /** The state is determined by the installed SSRCs and the number of claims: claim
      `k` is counter `k mod 4,000,000` of epoch `k div 4,000,000`. */
  ghost predicate Inv(s: Tx) {
    && |s.epochs| == |s.claims| / COUNTER_MOD + 1
    && s.word == s.epochs[|s.epochs| - 1] * TWO32 + |s.claims| % COUNTER_MOD
    && (forall k :: 0 <= k < |s.claims| ==> s.claims[k] == (s.epochs[k / COUNTER_MOD], k % COUNTER_MOD))
    && (forall e :: 0 <= e < |s.epochs| ==> s.epochs[e] < TWO32)
    && (forall i :: 0 <= i < |s.senders| && s.senders[i].Loaded? ==> GoodNext(s.senders[i].word, s.senders[i].next))
  }

  ghost predicate GoodNext(word: nat, next: nat) {
    if CounterOf(word) + 1 >= COUNTER_MOD then next % TWO32 == 0 && next / TWO32 < TWO32 else next == word + 1
  }

  lemma SplitWord(ssrc: nat, counter: nat)
    requires counter < TWO32
    ensures SsrcOf(ssrc * TWO32 + counter) == ssrc && CounterOf(ssrc * TWO32 + counter) == counter
  {
  }

  lemma StepKeepsInv(s: Tx, a: Action)
    requires Inv(s) && Step(s, a).Some?
    ensures Inv(Step(s, a).value)
  {
    SplitWord(s.epochs[|s.epochs| - 1], |s.claims| % COUNTER_MOD);
    if a.Load? {
      LoadKeepsInv(s, a.i, a.drawn);
    } else if s.word == s.senders[a.i].word {
      ClaimKeepsInv(s, a.i);
    }
  }

  lemma LoadKeepsInv(s: Tx, i: nat, drawn: nat)
    requires Inv(s) && Step(s, Load(i, drawn)).Some?
    ensures Inv(Step(s, Load(i, drawn)).value)
  {
    SplitWord(drawn, 0);
  }

  lemma ClaimKeepsInv(s: Tx, i: nat)
    requires Inv(s) && Step(s, Cas(i)).Some? && s.word == s.senders[i].word
    ensures Inv(Step(s, Cas(i)).value)
  {
    SplitWord(s.epochs[|s.epochs| - 1], |s.claims| % COUNTER_MOD);
    NextPlace(|s.claims|);
  }

  /** Where claim number `k` and the one after it lie in their epochs. */
  lemma NextPlace(k: nat)
    ensures if k % COUNTER_MOD + 1 >= COUNTER_MOD
            then (k + 1) % COUNTER_MOD == 0 && (k + 1) / COUNTER_MOD == k / COUNTER_MOD + 1
            else (k + 1) % COUNTER_MOD == k % COUNTER_MOD + 1 && (k + 1) / COUNTER_MOD == k / COUNTER_MOD
  {
  }

  lemma RunKeepsInv(s: Tx, schedule: seq<Action>)
    requires Inv(s) && Run(Step, s, schedule).Some?
    ensures Inv(Run(Step, s, schedule).value)
  {
    forall t, a | Inv(t) && Step(t, a).Some? ensures Inv(Step(t, a).value) {
      StepKeepsInv(t, a);
    }
    RunKeeps(Step, t => Inv(t), s, schedule);
  }

  ghost predicate Reached(ssrc: nat, senders: nat, schedule: seq<Action>, s: Tx) {
    ssrc < TWO32 && Run(Step, Start(ssrc, senders), schedule) == Some(s)
  }

  /** In every interleaving the claims form one line: the k-th returned pair is the
      (k mod 4,000,000)-th counter of the (k div 4,000,000)-th SSRC installed, the
      counter stays below 4,000,000 and never carries into the SSRC half. */
  lemma ClaimsFormOneLine(ssrc: nat, senders: nat, schedule: seq<Action>, s: Tx)
    requires Reached(ssrc, senders, schedule, s)
    ensures |s.epochs| == |s.claims| / 4_000_000 + 1 && s.epochs[0] < TWO32
    ensures forall k :: 0 <= k < |s.claims| ==> s.claims[k] == (s.epochs[k / 4_000_000], k % 4_000_000)
    ensures SsrcOf(s.word) == s.epochs[|s.epochs| - 1] < TWO32 && CounterOf(s.word) == |s.claims| % 4_000_000
    ensures CounterOf(s.word) < 4_000_000
  {
    SplitWord(ssrc, 0);
    RunKeepsInv(Start(ssrc, senders), schedule);
    SplitWord(s.epochs[|s.epochs| - 1], |s.claims| % COUNTER_MOD);
  }

  /** Number of installed SSRCs under which at least one pair was claimed. */
  function UsedEpochs(s: Tx): nat {
    (|s.claims| + COUNTER_MOD - 1) / COUNTER_MOD
  }

  ghost predicate ClaimsDistinct(s: Tx) {
    forall j, k :: 0 <= j < k < |s.claims| ==> s.claims[j] != s.claims[k]
  }

  ghost predicate EpochsDistinct(s: Tx)
    requires UsedEpochs(s) <= |s.epochs|
  {
    forall d, e :: 0 <= d < e < UsedEpochs(s) ==> s.epochs[d] != s.epochs[e]
  }

  /** All claimed pairs differ exactly if the SSRCs they were claimed under differ;
      random draws discarded by a failed CAS do not matter. */
  lemma PairsRepeatExactlyWithSsrcs(ssrc: nat, senders: nat, schedule: seq<Action>, s: Tx)
    requires Reached(ssrc, senders, schedule, s)
    ensures UsedEpochs(s) <= |s.epochs|
    ensures ClaimsDistinct(s) <==> EpochsDistinct(s)
  {
    ClaimsFormOneLine(ssrc, senders, schedule, s);
    if EpochsDistinct(s) {
      forall j, k | 0 <= j < k < |s.claims| ensures s.claims[j] != s.claims[k] {
        assert j / COUNTER_MOD < k / COUNTER_MOD || j % COUNTER_MOD != k % COUNTER_MOD;
      }
    }
    if ClaimsDistinct(s) {
      forall d, e | 0 <= d < e < UsedEpochs(s) ensures s.epochs[d] != s.epochs[e] {
        assert s.claims[d * COUNTER_MOD] == (s.epochs[d], 0);
        assert s.claims[e * COUNTER_MOD] == (s.epochs[e], 0);
      }
    }
  }

  /** Two streams share no pair exactly if they share no SSRC they claimed under. */
  lemma StreamsShareNoPair(s: Tx, t: Tx)
    requires Inv(s) && Inv(t)
    ensures (forall j, k :: 0 <= j < |s.claims| && 0 <= k < |t.claims| ==> s.claims[j] != t.claims[k])
      <==> (forall d, e :: 0 <= d < UsedEpochs(s) && 0 <= e < UsedEpochs(t) ==> s.epochs[d] != t.epochs[e])
  {
    if forall j, k :: 0 <= j < |s.claims| && 0 <= k < |t.claims| ==> s.claims[j] != t.claims[k] {
      forall d, e | 0 <= d < UsedEpochs(s) && 0 <= e < UsedEpochs(t) ensures s.epochs[d] != t.epochs[e] {
        assert s.claims[d * COUNTER_MOD] == (s.epochs[d], 0);
        assert t.claims[e * COUNTER_MOD] == (t.epochs[e], 0);
      }
    }
  }

  // ---------------------------------------------------------------- the nonce

  const DIR_CLIENT: Byte := 0
  const DIR_SERVER: Byte := 1

  function BigEndian32(v: nat): (b: seq<Byte>)
    requires v < TWO32
    ensures |b| == 4
    ensures b[0] as int * 0x1000000 + b[1] as int * 0x10000 + b[2] as int * 0x100 + b[3] as int == v
  {
    var high, low := v / 0x10000, v % 0x10000;
    [high / 0x100, high % 0x100, low / 0x100, low % 0x100]
  }

  /** wrapChaChaNonce: SSRC, direction, three zero bytes, counter. */
  function ChaChaNonce(ssrc: nat, dir: Byte, counter: nat): (nonce: seq<Byte>)
    requires ssrc < TWO32 && counter < TWO32
    ensures |nonce| == 12
  {
    BigEndian32(ssrc) + [dir, 0, 0, 0] + BigEndian32(counter)
  }

  lemma NonceDetermines(ssrc: nat, dir: Byte, counter: nat, ssrc': nat, dir': Byte, counter': nat)
    requires ssrc < TWO32 && counter < TWO32 && ssrc' < TWO32 && counter' < TWO32
    ensures ChaChaNonce(ssrc, dir, counter) == ChaChaNonce(ssrc', dir', counter')
      <==> (ssrc, dir, counter) == (ssrc', dir', counter')
  {
    var n, n' := ChaChaNonce(ssrc, dir, counter), ChaChaNonce(ssrc', dir', counter');
    if n == n' {
      assert n[..4] == BigEndian32(ssrc) && n'[..4] == BigEndian32(ssrc');
      assert n[8..] == BigEndian32(counter) && n'[8..] == BigEndian32(counter');
      assert n[4] == dir && n'[4] == dir';
    }
  }

  /** The nonce of the k-th packet a stream sends. */
  function NonceOfClaim(s: Tx, k: nat): seq<Byte>
    requires Inv(s) && k < |s.claims|
  {
    ChaChaNonce(s.claims[k].0, DIR_CLIENT, s.claims[k].1)
  }

  /** No nonce is used twice on the uplink as long as installed SSRCs do not repeat,
      and none is ever one the downlink uses. */
  lemma NoncesNeverRepeat(ssrc: nat, senders: nat, schedule: seq<Action>, s: Tx, ssrc': nat, counter': nat)
    requires Reached(ssrc, senders, schedule, s) && ssrc' < TWO32 && counter' < TWO32
    requires forall d, e :: 0 <= d < e < |s.epochs| ==> s.epochs[d] != s.epochs[e]
    ensures Inv(s)
    ensures forall j, k :: 0 <= j < k < |s.claims| ==> NonceOfClaim(s, j) != NonceOfClaim(s, k)
    ensures forall k :: 0 <= k < |s.claims| ==> NonceOfClaim(s, k) != ChaChaNonce(ssrc', DIR_SERVER, counter')
  {
    SplitWord(ssrc, 0);
    RunKeepsInv(Start(ssrc, senders), schedule);
    PairsRepeatExactlyWithSsrcs(ssrc, senders, schedule, s);
    forall j, k | 0 <= j < k < |s.claims| ensures NonceOfClaim(s, j) != NonceOfClaim(s, k) {
      assert s.claims[j] != s.claims[k];
      NonceDetermines(s.claims[j].0, DIR_CLIENT, s.claims[j].1, s.claims[k].0, DIR_CLIENT, s.claims[k].1);
    }
    forall k | 0 <= k < |s.claims| ensures NonceOfClaim(s, k) != ChaChaNonce(ssrc', DIR_SERVER, counter') {
      NonceDetermines(s.claims[k].0, DIR_CLIENT, s.claims[k].1, ssrc', DIR_SERVER, counter');
    }
  }
}
