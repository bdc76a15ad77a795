/** Vocabulary shared by every component: optional values, octets, runs of a step
    function and what they weigh, and counting the elements of a table that satisfy
    a predicate. */
module Basics {

  datatype Option<+T> = None | Some(value: T)

  /** One octet of a wire format. */
  type Byte = b: int | 0 <= b < 256

  type Bytes = seq<Byte>

  function BigEndian16(v: nat): (b: Bytes)
    requires v < 0x10000
    ensures |b| == 2 && b[0] as int * 0x100 + b[1] as int == v
  {
    [v / 0x100, v % 0x100]
  }

  /** The state after a schedule, or `None` if some action of it cannot happen. */
  function Run<S, A>(step: (S, A) -> Option<S>, s: S, schedule: seq<A>): Option<S> {
    if schedule == [] then Some(s)
    else
      var prefix := Run(step, s, schedule[..|schedule| - 1]);
      if prefix.None? then None else step(prefix.value, schedule[|schedule| - 1])
  }

  lemma RunNext<S, A>(step: (S, A) -> Option<S>, s: S, schedule: seq<A>, a: A, t: S)
    requires Run(step, s, schedule).Some? && step(Run(step, s, schedule).value, a) == Some(t)
    ensures Run(step, s, schedule + [a]) == Some(t)
  {
    assert (schedule + [a])[..|schedule|] == schedule;
  }

  /** A run of one schedule and then another goes on from where the first one ends. */
  lemma {:induction false} RunOn<S, A>(step: (S, A) -> Option<S>, s: S, first: seq<A>, t: S, second: seq<A>)
    requires Run(step, s, first) == Some(t)
    ensures Run(step, s, first + second) == Run(step, t, second)
  {
    if second == [] {
      assert first + second == first;
    } else {
      RunOn(step, s, first, t, second[..|second| - 1]);
      assert (first + second)[..|first + second| - 1] == first + second[..|second| - 1];
    }
  }

  lemma RunOfThree<S, A>(step: (S, A) -> Option<S>, s: S, t: S, u: S, v: S, a: A, b: A, c: A)
    requires step(s, a) == Some(t) && step(t, b) == Some(u) && step(u, c) == Some(v)
    ensures Run(step, s, [a, b, c]) == Some(v)
  {
    RunNext(step, s, [], a, t);
    RunNext(step, s, [] + [a], b, u);
    RunNext(step, s, [] + [a] + [b], c, v);
    assert [] + [a] + [b] + [c] == [a, b, c];
  }

  /** What every step keeps, every schedule keeps. */
  lemma {:induction false} RunKeeps<S(!new), A(!new)>(step: (S, A) -> Option<S>, inv: S -> bool, s: S,
                                                      schedule: seq<A>)
    requires inv(s) && forall t, a :: inv(t) && step(t, a).Some? ==> inv(step(t, a).value)
    requires Run(step, s, schedule).Some?
    ensures inv(Run(step, s, schedule).value)
  {
    if schedule != [] {
      RunKeeps(step, inv, s, schedule[..|schedule| - 1]);
    }
  }

  /** What the actions of a run weigh in all. */
  ghost function RunTotal<S, A>(step: (S, A) -> Option<S>, weight: (S, A) -> nat, s: S, schedule: seq<A>): nat
    requires Run(step, s, schedule).Some?
  {
    if schedule == [] then 0
    else
      var prefix := schedule[..|schedule| - 1];
      RunTotal(step, weight, s, prefix) + weight(Run(step, s, prefix).value, schedule[|schedule| - 1])
  }

  /** Sum of `g` over the `m` numbers from `first` on. */
  ghost function Sum(g: nat -> nat, first: nat, m: nat): nat {
    if m == 0 then 0 else Sum(g, first, m - 1) + g(first + m - 1)
  }

  /** One step weighs nothing, or counts on from `count(t)` and weighs what `g` says. */
  ghost predicate Counts<S, A>(step: (S, A) -> Option<S>, weight: (S, A) -> nat, count: S -> nat, g: nat -> nat,
                               t: S, a: A)
    requires step(t, a).Some?
  {
    var next := count(step(t, a).value);
    if next == count(t) then weight(t, a) == 0 else next == count(t) + 1 && weight(t, a) == g(count(t))
  }

  /** If every step does, from states that keep `inv` and for actions that are `fit`, a
      run weighs the sum of `g` over the `m` numbers it counts. */
  lemma {:induction false} RunTotalIsSum<S(!new), A(!new)>(
      step: (S, A) -> Option<S>, inv: S -> bool, fit: A -> bool, weight: (S, A) -> nat, count: S -> nat, g: nat -> nat,
      s: S, schedule: seq<A>) returns (m: nat)
    requires inv(s) && forall t, a :: inv(t) && fit(a) && step(t, a).Some? ==>
      inv(step(t, a).value) && Counts(step, weight, count, g, t, a)
    requires (forall k :: 0 <= k < |schedule| ==> fit(schedule[k])) && Run(step, s, schedule).Some?
    ensures inv(Run(step, s, schedule).value) && count(Run(step, s, schedule).value) == count(s) + m
    ensures RunTotal(step, weight, s, schedule) == Sum(g, count(s), m)
  {
    m := 0;
    if schedule != [] {
      m := RunTotalIsSum(step, inv, fit, weight, count, g, s, schedule[..|schedule| - 1]);
      m := count(Run(step, s, schedule).value) - count(s);
    }
  }

  lemma RunTotalOf<S(!new), A(!new)>(
      step: (S, A) -> Option<S>, inv: S -> bool, fit: A -> bool, weight: (S, A) -> nat, count: S -> nat, g: nat -> nat,
      s: S, schedule: seq<A>, m: nat)
    requires inv(s) && forall t, a :: inv(t) && fit(a) && step(t, a).Some? ==>
      inv(step(t, a).value) && Counts(step, weight, count, g, t, a)
    requires (forall k :: 0 <= k < |schedule| ==> fit(schedule[k])) && Run(step, s, schedule).Some?
    requires count(Run(step, s, schedule).value) == count(s) + m
    ensures RunTotal(step, weight, s, schedule) == Sum(g, count(s), m)
  {
    var _ := RunTotalIsSum(step, inv, fit, weight, count, g, s, schedule);
  }

  /** Number of elements of `s` that satisfy `p`. */
  ghost function Tally<T>(s: seq<T>, p: T -> bool): nat {
    if s == [] then 0 else (if p(s[0]) then 1 else 0) + Tally(s[1..], p)
  }

  ghost function Unit(b: bool): nat {
    if b then 1 else 0
  }

  lemma {:induction false} TallyUpdate<T>(s: seq<T>, i: nat, x: T, p: T -> bool)
    requires i < |s|
    ensures Tally(s[i := x], p) + Unit(p(s[i])) == Tally(s, p) + Unit(p(x))
  {
    if i == 0 {
      assert s[i := x][1..] == s[1..];
    } else {
      assert s[i := x][1..] == s[1..][i - 1 := x];
      TallyUpdate(s[1..], i - 1, x, p);
    }
  }

  lemma {:induction false} TallyBounds<T>(s: seq<T>, p: T -> bool)
    ensures Tally(s, p) <= |s|
    ensures Tally(s, p) == |s| <==> forall i :: 0 <= i < |s| ==> p(s[i])
    ensures Tally(s, p) == 0 <==> forall i :: 0 <= i < |s| ==> !p(s[i])
  {
    if s == [] {
    } else {
      TallyBounds(s[1..], p);
      assert forall i :: 0 < i < |s| ==> s[i] == s[1..][i - 1];
      assert forall i :: 0 <= i < |s| - 1 ==> s[1..][i] == s[i + 1];
    }
  }

  /** If some element fails `p`, the tally leaves room for it. */
  lemma TallyRoom<T>(s: seq<T>, i: nat, p: T -> bool)
    requires i < |s| && !p(s[i])
    ensures Tally(s, p) < |s|
  {
    TallyBounds(s, p);
  }
}
