/** assignServers: the TURN server of each stream. */
module ServerAssignment {
  import opened Arithmetic

  // ---------------------------------------------------------------- string order

  /** Go's string order: byte-wise lexicographic. */
  predicate AtMost(a: string, b: string) {
    a == "" || (b != "" && (a[0] < b[0] || (a[0] == b[0] && AtMost(a[1..], b[1..]))))
  }

  lemma AtMostTotal(a: string, b: string)
    ensures AtMost(a, b) || AtMost(b, a)
  {
  }

  lemma {:induction false} AtMostAntisymmetric(a: string, b: string)
    requires AtMost(a, b) && AtMost(b, a)
    ensures a == b
  {
    if a != "" {
      AtMostAntisymmetric(a[1..], b[1..]);
      assert a == [a[0]] + a[1..] && b == [b[0]] + b[1..];
    }
  }

  lemma AtMostTransitive(a: string, b: string, c: string)
    requires AtMost(a, b) && AtMost(b, c)
    ensures AtMost(a, c)
  {
  }

  // ---------------------------------------------------------------- sorting

  predicate Sorted(s: seq<string>) {
    forall i, j :: 0 <= i < j < |s| ==> AtMost(s[i], s[j])
  }

  lemma SameLength(a: seq<string>, b: seq<string>)
    requires multiset(a) == multiset(b)
    ensures |a| == |b|
  {
    assert |a| == |multiset(a)| == |multiset(b)| == |b|;
  }

  lemma SameHead(a: seq<string>, b: seq<string>)
    requires Sorted(a) && Sorted(b) && multiset(a) == multiset(b) && a != [] && b != []
    ensures a[0] == b[0]
  {
    assert a[0] in multiset(b) && b[0] in multiset(a);
    var i :| 0 <= i < |b| && b[i] == a[0];
    var j :| 0 <= j < |a| && a[j] == b[0];
    AtMostTotal(a[0], a[0]);
    AtMostTotal(b[0], b[0]);
    AtMostAntisymmetric(a[0], b[0]);
  }

  /** Two sorted lists of the same strings are the same list, so what sort.Strings
      returns does not depend on how it sorts. */
  lemma {:induction false} SortedIsUnique(a: seq<string>, b: seq<string>)
    requires Sorted(a) && Sorted(b) && multiset(a) == multiset(b)
    ensures a == b
  {
    SameLength(a, b);
    if a != [] {
      SameHead(a, b);
      assert a == [a[0]] + a[1..] && b == [b[0]] + b[1..];
      assert multiset(a[1..]) == multiset(a) - multiset{a[0]};
      assert multiset(b[1..]) == multiset(b) - multiset{b[0]};
      SortedIsUnique(a[1..], b[1..]);
    }
  }

  function Insert(x: string, s: seq<string>): seq<string> {
    if s == [] || AtMost(x, s[0]) then [x] + s else [s[0]] + Insert(x, s[1..])
  }

  function Sort(s: seq<string>): seq<string> {
    if s == [] then [] else Insert(s[0], Sort(s[1..]))
  }

  lemma {:induction false} InsertAdds(x: string, s: seq<string>)
    ensures multiset(Insert(x, s)) == multiset{x} + multiset(s)
  {
    if s == [] || AtMost(x, s[0]) {
    } else {
      InsertAdds(x, s[1..]);
      assert s == [s[0]] + s[1..];
    }
  }

  /** Whatever is at most `x` and all of `rest` is at most their union. */
  lemma BelowUnion(h: string, x: string, rest: seq<string>, t: seq<string>)
    requires multiset(t) == multiset{x} + multiset(rest)
    requires AtMost(h, x) && forall k :: 0 <= k < |rest| ==> AtMost(h, rest[k])
    ensures forall j :: 0 <= j < |t| ==> AtMost(h, t[j])
  {
    forall j | 0 <= j < |t| ensures AtMost(h, t[j]) {
      assert t[j] in multiset(t);
      if t[j] != x {
        var k :| 0 <= k < |rest| && rest[k] == t[j];
      }
    }
  }

  lemma {:induction false} InsertSorts(x: string, s: seq<string>)
    requires Sorted(s)
    ensures Sorted(Insert(x, s))
  {
    if s == [] || AtMost(x, s[0]) {
      forall j | 0 <= j < |s| ensures AtMost(x, s[j]) {
        if j > 0 {
          AtMostTransitive(x, s[0], s[j]);
        }
      }
    } else {
      InsertSorts(x, s[1..]);
      InsertAdds(x, s[1..]);
      AtMostTotal(x, s[0]);
      BelowUnion(s[0], x, s[1..], Insert(x, s[1..]));
    }
  }

  lemma {:induction false} SortSorts(s: seq<string>)
    ensures Sorted(Sort(s)) && multiset(Sort(s)) == multiset(s) && |Sort(s)| == |s|
  {
    if s != [] {
      SortSorts(s[1..]);
      InsertSorts(s[0], Sort(s[1..]));
      InsertAdds(s[0], Sort(s[1..]));
      assert s == [s[0]] + s[1..];
    }
    assert |Sort(s)| == |multiset(Sort(s))| && |s| == |multiset(s)|;
  }

  // ---------------------------------------------------------------- assignServers

  method AssignServers(addrs: seq<string>, streamId: nat) returns (order: seq<string>)
    ensures order == Assigned(addrs, streamId)
  {
    if |addrs| < 2 {
      return addrs;
    }
    SortSorts(addrs);
    var sorted := Sort(addrs);
    var idx := streamId % |sorted|;
    order := [];
    order := order + sorted[idx..];
    order := order + sorted[..idx];
  }

  function Assigned(addrs: seq<string>, streamId: nat): seq<string> {
    if |addrs| < 2 then addrs
    else
      SortSorts(addrs);
      var k := streamId % |addrs|;
      Sort(addrs)[k..] + Sort(addrs)[..k]
  }

  /** The order depends only on which servers there are, not on how VK listed them:
      a server has the same place in every group. */
  lemma ListingDoesNotMatter(addrs: seq<string>, listed: seq<string>, streamId: nat)
    requires multiset(addrs) == multiset(listed)
    ensures Assigned(addrs, streamId) == Assigned(listed, streamId)
  {
    assert |addrs| == |multiset(addrs)| == |multiset(listed)| == |listed|;
    if |addrs| < 2 {
      if |addrs| == 1 {
        assert addrs[0] in multiset(listed);
      }
    } else {
      SortSorts(addrs);
      SortSorts(listed);
      SortedIsUnique(Sort(addrs), Sort(listed));
    }
  }

  /** Every server stays on the list as often as before: the rest are the failover. */
  lemma AssignedIsPermutation(addrs: seq<string>, streamId: nat)
    ensures multiset(Assigned(addrs, streamId)) == multiset(addrs)
  {
    if |addrs| >= 2 {
      SortSorts(addrs);
      var k := streamId % |addrs|;
      assert Sort(addrs) == Sort(addrs)[..k] + Sort(addrs)[k..];
    }
  }

  lemma RotatedAt(c: seq<string>, start: nat, n: nat, k: nat)
    requires n == |c| > k
    ensures (c[start % n..] + c[..start % n])[k] == c[Ahead(start, k, n)]
  {
    AheadIs(start, k, n);
  }

  /** Two or more servers: the list is the canonical order, whichever way it was sorted,
      read on a ring from the stream's own server. */
  lemma AssignedIsRotation(addrs: seq<string>, streamId: nat, canonical: seq<string>, k: nat)
    requires |addrs| >= 2 && Sorted(canonical) && multiset(canonical) == multiset(addrs) && k < |addrs|
    ensures |Assigned(addrs, streamId)| == |canonical| == |addrs|
    ensures Assigned(addrs, streamId)[k] == canonical[Ahead(streamId, k, |addrs|)]
  {
    SortSorts(addrs);
    SortedIsUnique(canonical, Sort(addrs));
    RotatedAt(canonical, streamId, |addrs|, k);
  }

  // ---------------------------------------------------------------- balance

  /** The server stream `id` dials first. */
  function Server(addrs: seq<string>, id: nat): string
    requires addrs != []
  {
    AssignedIsPermutation(addrs, id);
    assert |Assigned(addrs, id)| == |multiset(addrs)|;
    Assigned(addrs, id)[0]
  }

  function Choice(addrs: seq<string>): nat -> string
    requires addrs != []
  {
    (id: nat) => Server(addrs, id)
  }

  /** How many of the `m` stream ids from `first` on a choice sends to `server`. */
  function LoadOf(choice: nat -> string, server: string, first: nat, m: nat): nat {
    if m == 0 then 0
    else LoadOf(choice, server, first, m - 1) + (if choice(first + m - 1) == server then 1 else 0)
  }

  function Load(addrs: seq<string>, server: string, first: nat, m: nat): nat
    requires addrs != []
  {
    LoadOf(Choice(addrs), server, first, m)
  }

  predicate Distinct(s: seq<string>) {
    forall i, j :: 0 <= i < j < |s| ==> s[i] != s[j]
  }

  /** How many ids below `x` have remainder `r` modulo `n`. */
  function CountTo(x: nat, n: nat, r: nat): nat
    requires r < n
  {
    if x == 0 then 0 else CountTo(x - 1, n, r) + (if (x - 1) % n == r then 1 else 0)
  }

  lemma CountStep(id: nat, n: nat, r: nat)
    requires r < n
    ensures (id + n - r) / n == (id + n - 1 - r) / n + (if id % n == r then 1 else 0)
  {
    var q, k := id / n, id % n;
    assert id == n * q + k;
    assert n * (q + 1) == n * q + n;
    if k >= r {
      QuotientIs(id + n - r, n, q + 1, k - r);
      if k > r {
        QuotientIs(id + n - 1 - r, n, q + 1, k - 1 - r);
      } else {
        QuotientIs(id + n - 1 - r, n, q, n - 1);
      }
    } else {
      QuotientIs(id + n - r, n, q, k + n - r);
      QuotientIs(id + n - 1 - r, n, q, k + n - 1 - r);
    }
  }

  lemma {:induction false} CountIsQuotient(x: nat, n: nat, r: nat)
    requires r < n
    ensures CountTo(x, n, r) == (x + n - 1 - r) / n
  {
    if x == 0 {
      QuotientIs(n - 1 - r, n, 0, n - 1 - r);
    } else {
      CountIsQuotient(x - 1, n, r);
      CountStep(x - 1, n, r);
    }
  }

  lemma ServerIs(addrs: seq<string>, r: nat, id: nat)
    requires |addrs| >= 2 && Distinct(Sort(addrs)) && r < |Sort(addrs)| == |addrs|
    ensures Server(addrs, id) == Sort(addrs)[r] <==> id % |addrs| == r
  {
    assert Server(addrs, id) == Sort(addrs)[id % |addrs|];
  }

  lemma ChoiceIs(addrs: seq<string>, r: nat)
    requires |addrs| >= 2 && Distinct(Sort(addrs)) && r < |Sort(addrs)| == |addrs|
    ensures forall id: nat :: Choice(addrs)(id) == Sort(addrs)[r] <==> id % |addrs| == r
  {
    forall id: nat ensures Choice(addrs)(id) == Sort(addrs)[r] <==> id % |addrs| == r {
      ServerIs(addrs, r, id);
    }
  }

  lemma {:induction false} LoadIsCount(choice: nat -> string, server: string, n: nat, r: nat, first: nat, m: nat)
    requires r < n && forall id: nat :: choice(id) == server <==> id % n == r
    ensures LoadOf(choice, server, first, m) == CountTo(first + m, n, r) - CountTo(first, n, r)
  {
    if m > 0 {
      LoadIsCount(choice, server, n, r, first, m - 1);
      assert choice(first + m - 1) == server <==> (first + m - 1) % n == r;
    }
  }

  lemma CountsAreQuotients(load: int, x: nat, y: nat, n: nat, r: nat)
    requires r < n && load == CountTo(y, n, r) - CountTo(x, n, r)
    ensures load == (y + n - 1 - r) / n - (x + n - 1 - r) / n
  {
    CountIsQuotient(x, n, r);
    CountIsQuotient(y, n, r);
  }

  lemma LoadIsCounts(addrs: seq<string>, r: nat, first: nat, m: nat) returns (load: int)
    requires |addrs| >= 2 && Distinct(Sort(addrs)) && r < |Sort(addrs)| == |addrs|
    ensures load == Load(addrs, Sort(addrs)[r], first, m)
    ensures load == CountTo(first + m, |addrs|, r) - CountTo(first, |addrs|, r)
  {
    ChoiceIs(addrs, r);
    LoadIsCount(Choice(addrs), Sort(addrs)[r], |addrs|, r, first, m);
    load := Load(addrs, Sort(addrs)[r], first, m);
  }

  /** The load of the server with canonical index `r`, in closed form. */
  lemma LoadFormula(addrs: seq<string>, r: nat, first: nat, m: nat)
    requires |addrs| >= 2 && Distinct(Sort(addrs)) && r < |Sort(addrs)| == |addrs|
    ensures var n := |addrs|;
      Load(addrs, Sort(addrs)[r], first, m) == (first + m + n - 1 - r) / n - (first + n - 1 - r) / n
  {
    var load := LoadIsCounts(addrs, r, first, m);
    CountsAreQuotients(load, first, first + m, |addrs|, r);
  }

  /** Any `m` consecutive stream ids put m/n streams on each of n distinct servers,
      rounded down or up. */
  lemma LoadsAreBalanced(addrs: seq<string>, server: string, first: nat, m: nat)
    requires addrs != [] && Distinct(addrs) && server in addrs
    ensures m / |addrs| <= Load(addrs, server, first, m) <= (m + |addrs| - 1) / |addrs|
  {
    if |addrs| == 1 {
      OnlyServerTakesAll(addrs, server, first, m);
    } else {
      var r := LoadOfCanonical(addrs, server, first, m);
      CountsBalanced(first, m, |addrs|, r);
    }
  }

  lemma OnlyServerTakesAll(addrs: seq<string>, server: string, first: nat, m: nat)
    requires |addrs| == 1 && server in addrs
    ensures Load(addrs, server, first, m) == m
  {
    LoadOfConstant(Choice(addrs), server, first, m);
  }

  lemma LoadOfCanonical(addrs: seq<string>, server: string, first: nat, m: nat) returns (r: nat)
    requires |addrs| >= 2 && Distinct(addrs) && server in addrs
    ensures r < |addrs|
    ensures var n := |addrs|;
      Load(addrs, server, first, m) == (first + m + n - 1 - r) / n - (first + n - 1 - r) / n
  {
    r := CanonicalIndex(addrs, server);
    LoadFormula(addrs, r, first, m);
  }

  lemma CountsBalanced(first: nat, m: nat, n: nat, r: nat)
    requires r < n
    ensures m / n <= (first + m + n - 1 - r) / n - (first + n - 1 - r) / n <= (m + n - 1) / n
  {
    assert first + m + n - 1 - r == first + n - 1 - r + m;
    QuotientsOfSum(first + n - 1 - r, m, n);
  }

  lemma CanonicalIndex(addrs: seq<string>, server: string) returns (r: nat)
    requires Distinct(addrs) && server in addrs
    ensures Distinct(Sort(addrs)) && r < |Sort(addrs)| == |addrs| && Sort(addrs)[r] == server
  {
    SortSorts(addrs);
    SortKeepsDistinct(addrs);
    assert server in multiset(Sort(addrs));
    r :| 0 <= r < |Sort(addrs)| && Sort(addrs)[r] == server;
  }

  lemma {:induction false} LoadOfConstant(choice: nat -> string, server: string, first: nat, m: nat)
    requires forall id: nat :: choice(id) == server
    ensures LoadOf(choice, server, first, m) == m
  {
    if m > 0 {
      LoadOfConstant(choice, server, first, m - 1);
    }
  }

  lemma SortKeepsDistinct(addrs: seq<string>)
    requires Distinct(addrs)
    ensures Distinct(Sort(addrs))
  {
    SortSorts(addrs);
    DistinctCounts(addrs);
    CountsDistinct(Sort(addrs));
  }

  lemma {:induction false} DistinctCounts(s: seq<string>)
    requires Distinct(s)
    ensures forall x :: multiset(s)[x] <= 1
  {
    if s != [] {
      DistinctCounts(s[1..]);
      assert s == [s[0]] + s[1..];
      assert s[0] !in s[1..];
    }
  }

  lemma CountsDistinct(s: seq<string>)
    requires forall x :: multiset(s)[x] <= 1
    ensures Distinct(s)
  {
    forall i, j | 0 <= i < j < |s| ensures s[i] != s[j] {
      assert s == s[..j] + s[j..] && s[i] == s[..j][i] && s[j] == s[j..][0];
      assert multiset(s) == multiset(s[..j]) + multiset(s[j..]);
      assert s[i] in s[..j] && s[j] in s[j..];
      assert multiset(s)[s[i]] <= 1 && multiset(s[..j])[s[i]] >= 1 && multiset(s[j..])[s[j]] >= 1;
    }
  }

  lemma RoundUp(m: nat, n: nat)
    requires n > 0
    ensures (m + n - 1) / n == m / n + (if m % n == 0 then 0 else 1)
  {
    var c, d := m / n, m % n;
    assert m == n * c + d && n * (c + 1) == n * c + n;
    if d == 0 {
      QuotientIs(m + n - 1, n, c, n - 1);
    } else {
      QuotientIs(m + n - 1, n, c + 1, d - 1);
    }
  }

  lemma QuotientsAdd(x: nat, m: nat, n: nat)
    requires n > 0
    ensures (x + m) / n == x / n + m / n + (if x % n + m % n < n then 0 else 1)
  {
    var a, b := Parts(x, n);
    var c, d := Parts(m, n);
    SumOfParts(a, b, c, d, n, x + m);
  }

  lemma Parts(x: nat, n: nat) returns (q: nat, r: nat)
    requires n > 0
    ensures x == n * q + r && r < n && q == x / n && r == x % n
  {
    q, r := x / n, x % n;
  }

  lemma SumOfParts(a: nat, b: nat, c: nat, d: nat, n: nat, sum: nat)
    requires b < n && d < n && sum == n * a + b + (n * c + d)
    ensures sum / n == a + c + (if b + d < n then 0 else 1)
  {
    Distribute(n, a, c);
    Distribute(n, a + c, 1);
    if b + d < n {
      QuotientIs(sum, n, a + c, b + d);
    } else {
      QuotientIs(sum, n, a + c + 1, b + d - n);
    }
  }

  lemma Distribute(n: nat, a: nat, c: nat)
    ensures n * (a + c) == n * a + n * c
  {
  }

  lemma QuotientsOfSum(x: nat, m: nat, n: nat)
    requires n > 0
    ensures m / n <= (x + m) / n - x / n <= (m + n - 1) / n
  {
    RoundUp(m, n);
    QuotientsAdd(x, m, n);
  }
}
