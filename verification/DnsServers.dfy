/** The ordered list of DNS servers: every resolution starts at the server that
    answered last. */
module DnsServers {
  import opened Arithmetic
  import opened Basics

  datatype Resolution<+A> = Resolved(answer: A) | AllFailed | Cancelled

  /** The turns of one resolution that starts at server `start` reach every server
      once. */
  lemma EveryServerHasOneTurn(start: nat, n: nat, k: nat)
    requires k < n
    ensures exists i :: 0 <= i < n && Ahead(start, i, n) == k
    ensures forall i, j :: 0 <= i < n && 0 <= j < n && Ahead(start, i, n) == k && Ahead(start, j, n) == k ==> i == j
  {
    var r := start % n;
    var turn := if k >= r then k - r else n + k - r;
    AheadIs(start, turn, n);
    assert Ahead(start, turn, n) == k;
    forall i, j | 0 <= i < n && 0 <= j < n && Ahead(start, i, n) == k && Ahead(start, j, n) == k ensures i == j {
      AheadIs(start, i, n);
      AheadIs(start, j, n);
    }
  }

  class Resolver {
    var lastSuccessfulIndex: nat

    constructor ()
      ensures lastSuccessfulIndex == 0
    {
      lastSuccessfulIndex := 0;
    }

    /** One resolution: `answers[k]` is what server `k` answers, if it does, `patience`
        the number of attempts before the context is done, and `others(i)` what the
        resolutions that run beside this one have made of the index by the end of its
        attempt `i`. It starts where the index stood when it began, whatever they do. */
    method Resolve<A>(answers: seq<Option<A>>, patience: nat, others: nat -> nat)
      returns (result: Resolution<A>, tried: nat)
      modifies this
      ensures tried <= |answers| && tried <= patience
      ensures forall i :: 0 <= i < tried && !(result.Resolved? && i == tried - 1) ==>
                            answers[Ahead(old(lastSuccessfulIndex), i, |answers|)] == None
      ensures result.Resolved? ==>
                && 0 < tried
                && lastSuccessfulIndex == Ahead(old(lastSuccessfulIndex), tried - 1, |answers|)
                && answers[lastSuccessfulIndex] == Some(result.answer)
      ensures !result.Resolved? ==>
                lastSuccessfulIndex == if tried == 0 then old(lastSuccessfulIndex) else others(tried - 1)
      ensures result == Cancelled ==> tried == patience < |answers|
      ensures result == AllFailed ==> forall k :: 0 <= k < |answers| ==> answers[k] == None
    {
      var startIndex := lastSuccessfulIndex;
      tried := 0;
      while tried < |answers|
        invariant tried <= |answers| && tried <= patience
        invariant lastSuccessfulIndex == if tried == 0 then startIndex else others(tried - 1)
        invariant forall j :: 0 <= j < tried ==> answers[Ahead(startIndex, j, |answers|)] == None
      {
        if tried >= patience {
          return Cancelled, tried;
        }
        var idx := (tried + startIndex) % |answers|;
        lastSuccessfulIndex := others(tried);
        tried := tried + 1;
        match answers[idx] {
          case Some(answer) =>
            lastSuccessfulIndex := idx;
            return Resolved(answer), tried;
          case None =>
        }
      }
      forall k | 0 <= k < |answers| ensures answers[k] == None {
        EveryServerHasOneTurn(startIndex, |answers|, k);
      }
      return AllFailed, tried;
    }
  }
}
