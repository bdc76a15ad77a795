/** What opens the gate, read off the history of a run alone: the last word of the
    host's validation, and the proofs presented with the generation then current. */
module NetworkHistory {
  import opened Arithmetic
  import opened Basics
  import opened NetworkGate
  import opened NetworkWorkers
  import opened NetworkResults

  /** What the host last said among the first `n` actions; it starts validated. */
  function LastValidated(schedule: seq<Action>, n: nat): bool
    requires n <= |schedule|
  {
    if n == 0 then true
    else if schedule[n - 1].Validate? then schedule[n - 1].validated
    else LastValidated(schedule, n - 1)
  }

  /** Action `k` is a proof of the generation current at that time, and no new
      generation has begun among the actions up to `n`. */
  ghost predicate Stands(s: World, schedule: seq<Action>, k: nat, n: nat)
    requires n <= |schedule|
  {
    && k < n
    && At(s, schedule, k).Some?
    && schedule[k] == Prove(At(s, schedule, k).value.gate.generation)
    && forall j :: k < j < n ==> !schedule[j].NewGeneration?
  }

  /** A standing proof is younger than three minutes. */
  ghost predicate ProvenAt(s: World, schedule: seq<Action>, n: nat, now: int)
    requires n <= |schedule|
  {
    exists k :: 0 <= k < n && Stands(s, schedule, k, n) && now < At(s, schedule, k).value.clock + 180 * SECOND
  }

  lemma ClockMoves(s: World, a: Action)
    requires Step(s, a).Some?
    ensures Step(s, a).value.clock >= s.clock
  {
  }

  lemma {:induction false} ClockNeverGoesBack(s: World, schedule: seq<Action>, j: nat, k: nat)
    requires j <= k <= |schedule| && At(s, schedule, k).Some?
    ensures At(s, schedule, j).Some? && At(s, schedule, j).value.clock <= At(s, schedule, k).value.clock
    decreases k
  {
    if j < k {
      AtNext(s, schedule, k - 1);
      ClockNeverGoesBack(s, schedule, j, k - 1);
      ClockMoves(At(s, schedule, k - 1).value, schedule[k - 1]);
    }
  }

  /** Only three actions touch what the gate is open by. */
  lemma StepTouchesGate(s: World, a: Action)
    requires Step(s, a).Some?
    ensures var t := Step(s, a).value;
      && t.gate.validated == (if a.Validate? then a.validated else s.gate.validated)
      && t.gate.provenUntil == (if a.NewGeneration? then None
                                else if a == Prove(s.gate.generation) then Some(s.clock + PROOF_TTL)
                                else s.gate.provenUntil)
  {
  }

  lemma {:induction false} ValidatedIsLast(s: World, schedule: seq<Action>, n: nat)
    requires s.gate.validated && n <= |schedule| && At(s, schedule, n).Some?
    ensures At(s, schedule, n).value.gate.validated == LastValidated(schedule, n)
  {
    if n > 0 {
      AtNext(s, schedule, n - 1);
      ValidatedIsLast(s, schedule, n - 1);
      StepTouchesGate(At(s, schedule, n - 1).value, schedule[n - 1]);
    }
  }

  lemma StandsNext(s: World, schedule: seq<Action>, k: nat, n: nat)
    requires n < |schedule| && At(s, schedule, n).Some?
    ensures Stands(s, schedule, k, n + 1) <==>
      if schedule[n].NewGeneration? then false
      else Stands(s, schedule, k, n) || (k == n && schedule[n] == Prove(At(s, schedule, n).value.gate.generation))
  {
    if Stands(s, schedule, k, n + 1) && k < n {
      assert !schedule[n].NewGeneration?;
    }
  }

  lemma AllStandNext(s: World, schedule: seq<Action>, n: nat)
    requires n < |schedule| && At(s, schedule, n).Some?
    ensures var w, a := At(s, schedule, n).value, schedule[n];
      forall k: nat :: k <= n ==>
        && (Stands(s, schedule, k, n + 1) <==>
              if a.NewGeneration? then false
              else Stands(s, schedule, k, n) || (k == n && a == Prove(w.gate.generation)))
        && At(s, schedule, k).Some? && At(s, schedule, k).value.clock <= w.clock
  {
    forall k: nat | k <= n
      ensures Stands(s, schedule, k, n + 1) <==>
        if schedule[n].NewGeneration? then false
        else Stands(s, schedule, k, n) || (k == n && schedule[n] == Prove(At(s, schedule, n).value.gate.generation))
      ensures At(s, schedule, k).Some? && At(s, schedule, k).value.clock <= At(s, schedule, n).value.clock
    {
      StandsNext(s, schedule, k, n);
      ClockNeverGoesBack(s, schedule, k, n);
    }
  }

  /** The stored proof is the youngest one that stands. */
  lemma {:induction false} ProofIsYoungest(s: World, schedule: seq<Action>, n: nat)
    requires s.gate.provenUntil == None && n <= |schedule| && At(s, schedule, n).Some?
    ensures var p := At(s, schedule, n).value.gate.provenUntil;
      && (p.Some? ==> exists k :: 0 <= k < n && Stands(s, schedule, k, n)
                                && At(s, schedule, k).value.clock + PROOF_TTL == p.value)
      && (forall k :: 0 <= k < n && Stands(s, schedule, k, n) ==>
            p.Some? && At(s, schedule, k).value.clock + PROOF_TTL <= p.value)
  {
    if n > 0 {
      AtNext(s, schedule, n - 1);
      ProofIsYoungest(s, schedule, n - 1);
      var w, a := At(s, schedule, n - 1).value, schedule[n - 1];
      StepTouchesGate(w, a);
      AllStandNext(s, schedule, n - 1);
      if !a.NewGeneration? && a == Prove(w.gate.generation) {
        assert Stands(s, schedule, n - 1, n);
      }
    }
  }

  /** In every run the gate is open exactly if the host's last word was "validated",
      or a proof of the generation still current was presented less than three
      minutes ago: nothing else opens it, and nothing else closes it. */
  lemma OpenExactly(workers: nat, now: int, otherVk: nat, schedule: seq<Action>, s: World)
    requires Reached(workers, now, otherVk, schedule, s)
    ensures Available(s.gate, s.clock) <==>
      LastValidated(schedule, |schedule|) || ProvenAt(Start(workers, now, otherVk), schedule, |schedule|, s.clock)
  {
    var start, n := Start(workers, now, otherVk), |schedule|;
    assert schedule[..n] == schedule;
    ValidatedIsLast(start, schedule, n);
    ProofIsYoungest(start, schedule, n);
  }
}
