/** The DNS message format (RFC 1035, section 4.1) as the resolver needs it:
    an encoder for responses, and the query the resolver itself builds.
    Follows pkg/proxy/dns.go. */
module DnsMessage {
  import opened Basics

  type Word = w: int | 0 <= w < 65536

  // ---------------------------------------------------------------- names

  /** How a name ends: with the root label, or with a compression pointer,
      whose first octet has both high bits set (section 4.1.4). */
  datatype Ending = Root | Pointer(high: Byte, low: Byte)

  datatype Name = Name(labels: seq<Bytes>, ending: Ending)

  predicate IsLabel(l: Bytes) {
    1 <= |l| <= 63
  }

  predicate AreLabels(labels: seq<Bytes>) {
    forall i :: 0 <= i < |labels| ==> IsLabel(labels[i])
  }

  predicate IsName(name: Name) {
    && AreLabels(name.labels)
    && (name.ending.Pointer? ==> name.ending.high >= 192)
  }

  /** Length octet and content of each label, as both sides write them. The
      length octet is the length truncated to eight bits. */
  function LabelBytes(labels: seq<Bytes>): Bytes {
    if labels == [] then [] else [|labels[0]| % 256] + labels[0] + LabelBytes(labels[1..])
  }

  function EndingBytes(ending: Ending): Bytes {
    match ending
    case Root => [0]
    case Pointer(high, low) => [high, low]
  }

  function NameBytes(name: Name): Bytes {
    LabelBytes(name.labels) + EndingBytes(name.ending)
  }

  // ---------------------------------------------------------------- records and responses

  datatype Record = Record(name: Name, kind: Word, dnsClass: Word, ttl: Bytes, data: Bytes)

  predicate IsRecord(r: Record) {
    IsName(r.name) && |r.ttl| == 4 && |r.data| < 65536
  }

  /** Everything of a record after its name. */
  function RecordTail(r: Record): Bytes
    requires IsRecord(r)
  {
    BigEndian16(r.kind) + BigEndian16(r.dnsClass) + r.ttl + BigEndian16(|r.data|) + r.data
  }

  function RecordBytes(r: Record): Bytes
    requires IsRecord(r)
  {
    NameBytes(r.name) + RecordTail(r)
  }

  predicate AreRecords(rs: seq<Record>) {
    forall i :: 0 <= i < |rs| ==> IsRecord(rs[i])
  }

  function RecordsBytes(rs: seq<Record>): Bytes
    requires AreRecords(rs)
  {
    if rs == [] then [] else RecordBytes(rs[0]) + RecordsBytes(rs[1..])
  }

  function QuestionBytes(labels: seq<Bytes>, kind: Word, dnsClass: Word): Bytes {
    LabelBytes(labels) + [0] + BigEndian16(kind) + BigEndian16(dnsClass)
  }

  /** A response without error to one question. `flagsHigh` carries QR and
      `flagsLow` the code 0; `others` holds the four count octets of the
      sections behind the answers and `trailer` those sections themselves. */
  datatype Response = Response(
    id: Word, flagsHigh: Byte, flagsLow: Byte, others: Bytes,
    question: seq<Bytes>, kind: Word, dnsClass: Word,
    answers: seq<Record>, trailer: Bytes)

  predicate IsResponse(m: Response) {
    && m.flagsHigh >= 128
    && m.flagsLow % 16 == 0
    && |m.others| == 4
    && AreLabels(m.question)
    && AreRecords(m.answers)
    && |m.answers| < 65536
  }

  function HeaderBytes(m: Response): (h: Bytes)
    requires IsResponse(m)
    ensures |h| == 12
  {
    BigEndian16(m.id) + [m.flagsHigh, m.flagsLow] + BigEndian16(1) + BigEndian16(|m.answers|) + m.others
  }

  function ResponseBytes(m: Response): Bytes
    requires IsResponse(m)
  {
    HeaderBytes(m) + QuestionBytes(m.question, m.kind, m.dnsClass) + RecordsBytes(m.answers) + m.trailer
  }

  // ---------------------------------------------------------------- the query

  const DOT: Byte := 46

  /** The domain cut at its dots. */
  function Split(d: Bytes): (parts: seq<Bytes>)
    ensures |parts| >= 1
  {
    if d == [] then [[]]
    else
      var rest := Split(d[1..]);
      if d[0] == DOT then [[]] + rest else [[d[0]] + rest[0]] + rest[1..]
  }

  function Join(parts: seq<Bytes>): Bytes
    requires |parts| >= 1
  {
    if |parts| == 1 then parts[0] else parts[0] + [DOT] + Join(parts[1..])
  }

  /** Splitting loses nothing, and no part still holds a dot. */
  lemma {:induction false} SplitIsExact(d: Bytes)
    ensures Join(Split(d)) == d
    ensures forall i :: 0 <= i < |Split(d)| ==> DOT !in Split(d)[i]
  {
    if d == [] {
    } else {
      SplitIsExact(d[1..]);
      var rest := Split(d[1..]);
      assert d == [d[0]] + d[1..];
      if d[0] == DOT {
        assert ([[]] + rest)[1..] == rest;
      } else {
        assert Split(d)[1..] == rest[1..];
        if |rest| > 1 {
          assert Join(Split(d)) == [d[0]] + rest[0] + [DOT] + Join(rest[1..]);
        }
      }
    }
  }

  function TrimDot(d: Bytes): Bytes {
    if d != [] && d[|d| - 1] == DOT then d[..|d| - 1] else d
  }

  predicate DotFree(parts: seq<Bytes>) {
    forall i :: 0 <= i < |parts| ==> DOT !in parts[i]
  }

  lemma {:induction false} SplitOfJoin(parts: seq<Bytes>)
    requires |parts| >= 1 && DotFree(parts)
    ensures Split(Join(parts)) == parts
    decreases |parts|, |parts[0]|
  {
    var d, first := Join(parts), parts[0];
    if first == [] {
      if |parts| > 1 {
        SplitOfJoin(parts[1..]);
        assert d == [DOT] + Join(parts[1..]) && d[1..] == Join(parts[1..]);
      }
    } else {
      var rest := [first[1..]] + parts[1..];
      assert rest[1..] == parts[1..];
      assert first == [first[0]] + first[1..] && first[0] in first;
      SplitOfJoin(rest);
      assert d == [first[0]] + Join(rest) && d[1..] == Join(rest);
    }
  }

  lemma SplitIsOnly(d: Bytes, parts: seq<Bytes>)
    requires |parts| >= 1 && DotFree(parts)
    ensures parts == Split(d) <==> Join(parts) == d
  {
    SplitIsExact(d);
    SplitOfJoin(parts);
  }

  lemma DotBehind(x: Bytes, d: Bytes)
    requires d != [] && d[|d| - 1] == DOT
    ensures x + [DOT] == d <==> x == d[..|d| - 1]
  {
    assert d == d[..|d| - 1] + [DOT];
    assert (x + [DOT])[..|x|] == x;
  }

  /** The query's labels are the only dot-free parts that, joined by dots, are the domain
      without its trailing dot, if it has one. */
  lemma LabelsAreTheDomains(domain: Bytes, parts: seq<Bytes>)
    requires |parts| >= 1 && DotFree(parts)
    ensures parts == Split(TrimDot(domain)) <==>
      if domain != [] && domain[|domain| - 1] == DOT then Join(parts) + [DOT] == domain else Join(parts) == domain
  {
    SplitIsOnly(TrimDot(domain), parts);
    if domain != [] && domain[|domain| - 1] == DOT {
      DotBehind(Join(parts), domain);
    }
  }

  lemma {:induction false} LabelBytesAppend(labels: seq<Bytes>, l: Bytes)
    ensures LabelBytes(labels + [l]) == LabelBytes(labels) + [|l| % 256] + l
  {
    if labels == [] {
      assert ([l])[1..] == [];
    } else {
      assert (labels + [l])[1..] == labels[1..] + [l];
      LabelBytesAppend(labels[1..], l);
    }
  }

  /** The query carries the given id, asks for recursion (flags 0x0100), has
      one question and no other section, and that question asks for the
      address (type 1, class 1) of the trimmed domain. */
  method BuildDNSQuery(id: Word, domain: Bytes) returns (query: Bytes)
    ensures query == BigEndian16(id) + [1, 0, 0, 1, 0, 0, 0, 0, 0, 0] + QuestionBytes(Split(TrimDot(domain)), 1, 1)
  {
    var buffer := new Byte[12](_ => 0);
    buffer[0], buffer[1] := id / 256, id % 256;
    buffer[2], buffer[3] := 1, 0;
    buffer[4], buffer[5] := 0, 1;
    assert buffer[..] == BigEndian16(id) + [1, 0, 0, 1, 0, 0, 0, 0, 0, 0];
    var parts := Split(TrimDot(domain));
    var name: Bytes := [];
    var i := 0;
    while i < |parts|
      invariant 0 <= i <= |parts|
      invariant name == LabelBytes(parts[..i])
      invariant buffer[..] == BigEndian16(id) + [1, 0, 0, 1, 0, 0, 0, 0, 0, 0]
    {
      LabelBytesAppend(parts[..i], parts[i]);
      assert parts[..i + 1] == parts[..i] + [parts[i]];
      name := name + [|parts[i]| % 256];
      name := name + parts[i];
      i := i + 1;
    }
    assert parts[..i] == parts;
    name := name + [0];
    name := name + [0] + [1] + [0] + [1];
    assert name == QuestionBytes(parts, 1, 1);
    query := buffer[..] + name;
  }
}
