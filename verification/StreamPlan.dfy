/** How many streams there are, how they are grouped, and which credential slot each
    group uses: StartProxy, StartTunnelGroups, getCacheID and fetchCreds. */
module StreamPlan {
  import opened Arithmetic

  const MAX_LINKS := 8

  // ---------------------------------------------------------------- links

  function NonEmpty(pieces: seq<string>): seq<string> {
    if pieces == [] then [] else (if pieces[0] == "" then [] else [pieces[0]]) + NonEmpty(pieces[1..])
  }

  lemma NonEmptyNext(pieces: seq<string>, i: nat)
    requires i < |pieces|
    ensures NonEmpty(pieces[i..]) == (if pieces[i] != "" then [pieces[i]] else []) + NonEmpty(pieces[i + 1..])
  {
    assert pieces[i..][1..] == pieces[i + 1..];
  }

  /** Exactly the empty pieces are dropped, each on its own and without reordering. */
  lemma {:induction false} NonEmptyOfBoth(p: seq<string>, q: seq<string>)
    ensures NonEmpty(p + q) == NonEmpty(p) + NonEmpty(q)
  {
    if p == [] {
      assert p + q == q;
    } else {
      var kept := if p[0] == "" then [] else [p[0]];
      NonEmptyOfBoth(p[1..], q);
      assert (p + q)[1..] == p[1..] + q;
      KeptFirst(p);
      KeptFirst(p + q);
      Associative(kept, NonEmpty(p[1..]), NonEmpty(q));
    }
  }

  lemma KeptFirst(p: seq<string>)
    requires p != []
    ensures NonEmpty(p) == (if p[0] == "" then [] else [p[0]]) + NonEmpty(p[1..])
  {
  }

  lemma Associative(a: seq<string>, b: seq<string>, c: seq<string>)
    ensures a + (b + c) == (a + b) + c
  {
  }

  lemma NonEmptyOfOne(piece: string)
    ensures NonEmpty([piece]) == if piece == "" then [] else [piece]
  {
  }

  /** parseLinks on the pieces between separators, already trimmed. */
  method ParseLinks(pieces: seq<string>, maxLinks: nat) returns (links: seq<string>)
    requires maxLinks > 0
    ensures 1 <= |links| <= maxLinks
    ensures if NonEmpty(pieces) == [] then links == [""]
            else links == if |NonEmpty(pieces)| > maxLinks then NonEmpty(pieces)[..maxLinks] else NonEmpty(pieces)
  {
    links := [];
    for i := 0 to |pieces|
      invariant links + NonEmpty(pieces[i..]) == NonEmpty(pieces)
    {
      NonEmptyNext(pieces, i);
      ghost var before, rest := links, NonEmpty(pieces[i + 1..]);
      if pieces[i] != "" {
        links := links + [pieces[i]];
      }
      Associative(before, if pieces[i] != "" then [pieces[i]] else [], rest);
    }
    assert pieces[|pieces|..] == [];
    assert links == NonEmpty(pieces);
    if |links| == 0 {
      return [""];
    }
    if |links| > maxLinks {
      links := links[..maxLinks];
    }
  }

  // ---------------------------------------------------------------- the plan

  datatype Plan = Plan(links: seq<string>, perCred: nat, total: nat)

  /** The stream-count computation of StartProxy; `streamNum` is the request. */
  method PlanStreams(given: seq<string>, streamsPerCred: nat, streamNum: int) returns (plan: Plan)
    requires |given| > 0 && streamsPerCred > 0
    ensures plan.perCred > 0 && |plan.links| > 0
    ensures plan.total == Total(|given|, streamsPerCred, streamNum)
    ensures plan.perCred == PerCred(|given|, streamsPerCred, streamNum)
    ensures |plan.links| == Groups(|given|, streamsPerCred, streamNum)
    ensures forall i :: 0 <= i < |plan.links| ==> plan.links[i] == given[i % |given|]
  {
    var links, perCred := given, streamsPerCred;
    var total := |links| * perCred;
    if streamNum > 0 {
      if streamNum < total {
        var perGroup := streamNum / |links|;
        if perGroup < 1 {
          perGroup := 1;
        }
        perCred := perGroup;
        total := |links| * perCred;
      } else if streamNum > total {
        CeilingCovers(streamNum, perCred);
        var numGroups := (streamNum + perCred - 1) / perCred;
        links := seq(numGroups, i requires 0 <= i < numGroups => given[i % |given|]);
        total := streamNum;
      }
    }
    plan := Plan(links, perCred, total);
  }

  /** The promised total: the request when it is at least what the links hold, and
      otherwise the same share, at least one, for every link. */
  function Total(links: nat, perCred: nat, streamNum: int): nat
    requires links > 0
  {
    if streamNum <= 0 then links * perCred
    else if streamNum >= links * perCred then streamNum
    else links * (if streamNum / links < 1 then 1 else streamNum / links)
  }

  function PerCred(links: nat, perCred: nat, streamNum: int): nat
    requires links > 0
  {
    if 0 < streamNum < links * perCred then (if streamNum / links < 1 then 1 else streamNum / links) else perCred
  }

  function Groups(links: nat, perCred: nat, streamNum: int): nat
    requires links > 0 && perCred > 0
  {
    if streamNum > links * perCred then (streamNum + perCred - 1) / perCred else links
  }

  lemma CeilingCovers(n: nat, d: nat)
    requires n > 0 && d > 0
    ensures var q := (n + d - 1) / d; q > 0 && (q - 1) * d < n <= q * d
  {
    var q := (n + d - 1) / d;
    assert n + d - 1 == q * d + (n + d - 1) % d;
  }

  /** The groups exactly fit the streams: together they hold all of them, and no
      group is superfluous. So StartTunnelGroups takes the total as it is. */
  lemma GroupsFit(links: nat, perCred: nat, streamNum: int)
    requires links > 0 && perCred > 0
    ensures var g, s, t :=
        Groups(links, perCred, streamNum), PerCred(links, perCred, streamNum), Total(links, perCred, streamNum);
      0 < s <= perCred && 0 < g && (g - 1) * s < t <= g * s
  {
    if streamNum > links * perCred {
      assert links * perCred > 0;
      CeilingCovers(streamNum, perCred);
    } else if streamNum > 0 && streamNum < links * perCred {
      ShareBelow(streamNum, links, perCred);
      Decrement(links, PerCred(links, perCred, streamNum));
    } else {
      Decrement(links, perCred);
    }
  }

  lemma Decrement(g: nat, s: nat)
    requires g > 0 && s > 0
    ensures (g - 1) * s == g * s - s
  {
  }

  lemma ShareBelow(n: nat, links: nat, perCred: nat)
    requires links > 0 && n < links * perCred
    ensures n / links < perCred
  {
  }

  /** A reduced total never exceeds the request, unless there are more links than
      requested streams, when every link keeps one. */
  lemma ReducedTotal(links: nat, perCred: nat, streamNum: int)
    requires links > 0 && 0 < streamNum < links * perCred
    ensures Total(links, perCred, streamNum) == if streamNum < links then links else links * (streamNum / links)
    ensures streamNum >= links ==>
      Total(links, perCred, streamNum) <= streamNum < Total(links, perCred, streamNum) + links
  {
    assert streamNum == links * (streamNum / links) + streamNum % links;
    if streamNum < links {
      assert streamNum / links == 0;
    } else {
      assert streamNum / links >= 1;
    }
  }

  /** Without a request the links are filled; a request they can hold no more than is met
      exactly, with groups of the given size; a smaller one is shared out evenly. */
  lemma TotalExactly(links: nat, perCred: nat, streamNum: int)
    requires links > 0 && perCred > 0
    ensures streamNum <= 0 ==> Total(links, perCred, streamNum) == links * perCred
    ensures streamNum >= links * perCred ==> Total(links, perCred, streamNum) == streamNum
    ensures streamNum <= 0 || streamNum >= links * perCred ==> PerCred(links, perCred, streamNum) == perCred
    ensures 0 < streamNum < links * perCred ==>
      Total(links, perCred, streamNum) == links * PerCred(links, perCred, streamNum)
    ensures streamNum <= links * perCred ==> Groups(links, perCred, streamNum) == links
  {
  }

  /** Under the config clamps (at most 8 links, 1..16 streams per credential, at most
      128 streams) there are at most 128 streams, so the stream byte of the session
      header tells them apart. */
  lemma ClampedTotal(links: nat, perCred: nat, streamNum: int)
    requires 0 < links <= MAX_LINKS && 1 <= perCred <= 16 && streamNum <= 128
    ensures 0 < Total(links, perCred, streamNum) <= 128
    ensures forall i, j :: 0 <= i < j < Total(links, perCred, streamNum) ==> i % 256 != j % 256
  {
    Monotone(links, MAX_LINKS, perCred);
    GroupsFit(links, perCred, streamNum);
    if 0 < streamNum < links * perCred {
      ReducedTotal(links, perCred, streamNum);
    }
    OctetsTellApart(Total(links, perCred, streamNum));
  }

  lemma OctetsTellApart(total: nat)
    requires total <= 128
    ensures forall i, j :: 0 <= i < j < total ==> i % 256 != j % 256
  {
  }

  // ---------------------------------------------------------------- grouping

  /** Ids `start..end` of a group. */
  datatype Group = Group(start: nat, end: nat)

  /** The grouping loop of StartTunnelGroups, with its own reading of the total. */
  method FormGroups(links: nat, perGroup: nat, requested: int) returns (total: nat, groups: seq<Group>)
    requires links > 0 && perGroup > 0
    ensures total == if requested <= 0 || requested > links * perGroup then links * perGroup else requested
    ensures IsPartition(groups, perGroup, total)
    ensures |groups| <= links
  {
    total := if requested <= 0 || requested > links * perGroup then links * perGroup else requested;
    groups := [];
    var gi := 0;
    while gi < links
      invariant gi == |groups| <= links
      invariant gi > 0 ==> (gi - 1) * perGroup < total
      invariant forall g :: 0 <= g < gi ==> groups[g] == GroupAt(g, perGroup, total)
    {
      var start := gi * perGroup;
      if start >= total {
        break;
      }
      var end := start + perGroup;
      if end > total {
        end := total;
      }
      groups := groups + [Group(start, end)];
      gi := gi + 1;
      assert (gi - 1) * perGroup == start;
    }
    assert gi == links ==> gi * perGroup >= total;
    LoopCovers(groups, perGroup, total);
  }

  function GroupAt(g: nat, perGroup: nat, total: nat): Group {
    var start := g * perGroup;
    Group(start, if start + perGroup > total then (if start > total then start else total) else start + perGroup)
  }

  /** Contiguous, non-empty groups of at most `perGroup` ids whose concatenation is
      exactly 0, 1, ..., total - 1. */
  ghost predicate IsPartition(groups: seq<Group>, perGroup: nat, total: nat) {
    && (forall g :: 0 <= g < |groups| ==> groups[g].start < groups[g].end <= groups[g].start + perGroup)
    && (forall g :: 0 <= g < |groups| ==> groups[g].start == (if g == 0 then 0 else groups[g - 1].end))
    && (if groups == [] then total == 0 else groups[|groups| - 1].end == total)
    && (forall g :: 0 <= g < |groups| ==> groups[g].start == g * perGroup)
  }

  lemma LoopCovers(groups: seq<Group>, perGroup: nat, total: nat)
    requires perGroup > 0 && total > 0
    requires forall g :: 0 <= g < |groups| ==> groups[g] == GroupAt(g, perGroup, total)
    requires |groups| > 0 ==> (|groups| - 1) * perGroup < total
    requires |groups| * perGroup >= total
    ensures IsPartition(groups, perGroup, total)
  {
    forall g | 0 <= g < |groups|
      ensures g * perGroup < total && (g + 1 < |groups| ==> g * perGroup + perGroup == (g + 1) * perGroup < total)
    {
      Monotone(g, |groups| - 1, perGroup);
      if g + 1 < |groups| {
        Monotone(g + 1, |groups| - 1, perGroup);
      }
    }
    var last := |groups| - 1;
    assert |groups| * perGroup == last * perGroup + perGroup;
    forall g | 0 < g < |groups| ensures groups[g].start == groups[g - 1].end {
      assert (g - 1) * perGroup + perGroup == g * perGroup;
    }
  }

  lemma Monotone(a: nat, b: nat, d: nat)
    requires a <= b
    ensures a * d <= b * d
  {
  }

  /** getCacheID. */
  function CacheId(streamId: nat, streamsPerCred: nat): nat
    requires streamsPerCred > 0
  {
    streamId / streamsPerCred
  }

  /** A stream is in exactly one group, the one numbered by its credential slot, and
      that is the slot fetchCreds reads for the group. */
  lemma GroupIsSlot(groups: seq<Group>, perGroup: nat, total: nat, i: nat, g: nat)
    requires perGroup > 0 && IsPartition(groups, perGroup, total) && i < total && g < |groups|
    ensures groups[g].start <= i < groups[g].end <==> g == CacheId(i, perGroup)
    ensures CacheId(i, perGroup) < |groups|
    ensures CacheId(g * perGroup, perGroup) == g
  {
    SlotIs(g * perGroup, g, perGroup);
    SlotBounds(i, perGroup);
    SlotExists(groups, perGroup, total, CacheId(i, perGroup));
    GroupEnd(groups, perGroup, total, g);
    if groups[g].start <= i < groups[g].end {
      SlotIs(i, g, perGroup);
    }
  }

  lemma SlotIs(i: nat, g: nat, d: nat)
    requires g * d <= i < g * d + d
    ensures CacheId(i, d) == g
  {
    assert g * d == d * g;
    QuotientIs(i, d, g, i - g * d);
  }

  lemma SlotBounds(i: nat, d: nat)
    requires d > 0
    ensures CacheId(i, d) * d <= i < CacheId(i, d) * d + d
  {
    assert i == i / d * d + i % d;
  }

  lemma SlotExists(groups: seq<Group>, perGroup: nat, total: nat, q: nat)
    requires perGroup > 0 && IsPartition(groups, perGroup, total) && q * perGroup < total
    ensures q < |groups|
  {
    TotalFits(groups, perGroup, total);
    if |groups| <= q {
      Monotone(|groups|, q, perGroup);
    }
  }

  lemma TotalFits(groups: seq<Group>, perGroup: nat, total: nat)
    requires IsPartition(groups, perGroup, total)
    ensures total <= |groups| * perGroup
  {
    if groups != [] {
      assert |groups| * perGroup == (|groups| - 1) * perGroup + perGroup;
    }
  }

  lemma GroupEnd(groups: seq<Group>, perGroup: nat, total: nat, g: nat)
    requires IsPartition(groups, perGroup, total) && g < |groups|
    ensures groups[g].end == if g + 1 < |groups| then g * perGroup + perGroup else total
  {
    if g + 1 < |groups| {
      assert groups[g + 1].start == groups[g].end;
      assert (g + 1) * perGroup == g * perGroup + perGroup;
    }
  }

  /** The planned groups, slots and totals agree end to end. */
  method StartStreams(given: seq<string>, streamsPerCred: nat, streamNum: int) returns (plan: Plan, groups: seq<Group>)
    requires |given| > 0 && streamsPerCred > 0
    ensures plan.total == Total(|given|, streamsPerCred, streamNum) > 0
    ensures plan.perCred > 0 && |groups| == |plan.links| && IsPartition(groups, plan.perCred, plan.total)
    ensures forall i: nat, g: nat :: i < plan.total && g < |groups| ==>
      (groups[g].start <= i < groups[g].end <==> g == CacheId(i, plan.perCred))
  {
    plan := PlanStreams(given, streamsPerCred, streamNum);
    GroupsFit(|given|, streamsPerCred, streamNum);
    var total;
    total, groups := FormGroups(|plan.links|, plan.perCred, plan.total);
    AllGroupsUsed(groups, plan.perCred, plan.total, |plan.links|);
    forall i: nat, g: nat | i < plan.total && g < |groups|
      ensures groups[g].start <= i < groups[g].end <==> g == CacheId(i, plan.perCred)
    {
      GroupIsSlot(groups, plan.perCred, plan.total, i, g);
    }
  }

  lemma AllGroupsUsed(groups: seq<Group>, perGroup: nat, total: nat, links: nat)
    requires perGroup > 0 && IsPartition(groups, perGroup, total) && |groups| <= links
    requires 0 < links && (links - 1) * perGroup < total
    ensures |groups| == links
  {
    if |groups| < links {
      Monotone(|groups|, links - 1, perGroup);
      assert false;
    }
  }
}
