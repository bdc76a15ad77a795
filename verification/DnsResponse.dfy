/** Reading the address out of a DNS response, as pkg/proxy/dns.go does. */
module DnsResponse {
  import opened Basics
  import opened DnsMessage

  datatype Parsed =
    | Address(ip: Bytes)
    | TooShort
    | NotAResponse
    | ServerError(rcode: int)
    | NoAnswers
    | NoAddress

  function WordAt(b: Bytes, i: nat): Word
    requires i + 2 <= |b|
  {
    b[i] as int * 256 + b[i + 1]
  }

  // ---------------------------------------------------------------- the parser's positions, for any bytes whatever

  /** Where the walk over the labels of the question stops: at the end of
      the message, at a zero octet, or at an octet above 63. */
  function SkipQuestion(b: Bytes, o: nat): (e: nat)
    ensures e >= o
    decreases |b| - o
  {
    if o < |b| && 1 <= b[o] <= 63 then SkipQuestion(b, o + b[o] + 1) else o
  }

  /** Where the type of an answer is expected, given where its name starts. */
  function SkipName(b: Bytes, o: nat): (e: nat)
    ensures e >= o
    decreases |b| - o
  {
    if o >= |b| then o
    else if b[o] == 0 then o + 1
    else if b[o] > 63 then o + 2
    else SkipName(b, o + b[o] + 1)
  }

  /** A record of type A with four octets of data has its type at `p`. */
  predicate AddressAt(b: Bytes, p: nat)
    requires p + 10 <= |b|
  {
    WordAt(b, p) == 1 && WordAt(b, p + 8) == 4 && p + 14 <= |b|
  }

  /** What one turn of the answer loop comes to. */
  datatype Turn = Stops | Takes(ip: Bytes) | GoesOn(next: nat)

  function TurnAt(b: Bytes, o: nat): Turn {
    var p := SkipName(b, o);
    if p >= |b| - 10 then Stops
    else if AddressAt(b, p) then Takes(b[p + 10..p + 14])
    else GoesOn(p + 10 + WordAt(b, p + 8))
  }

  function ReadAnswers(b: Bytes, o: nat, left: nat): (r: Parsed)
    ensures r.Address? || r == NoAddress
    decreases left
  {
    if left == 0 || o >= |b| then NoAddress
    else
      match TurnAt(b, o)
      case Stops => NoAddress
      case Takes(ip) => Address(ip)
      case GoesOn(next) => ReadAnswers(b, next, left - 1)
  }

  function Parse(b: Bytes): Parsed {
    if |b| < 12 then TooShort
    else if b[2] < 128 then NotAResponse
    else if b[3] % 16 != 0 then ServerError(b[3] % 16)
    else if WordAt(b, 6) == 0 then NoAnswers
    else ReadAnswers(b, SkipQuestion(b, 12) + 5, WordAt(b, 6))
  }

  lemma FlagBits(high: Byte, low: Byte)
    ensures (high as int * 256 + low) / 0x8000 % 2 == 0 <==> high < 128
    ensures (high as int * 256 + low) % 16 == low % 16
  {
  }

  /** The loop over the labels of the question. */
  method PassQuestion(response: Bytes, start: nat) returns (offset: nat)
    ensures offset == SkipQuestion(response, start)
  {
    offset := start;
    while offset < |response| && response[offset] != 0
      invariant SkipQuestion(response, offset) == SkipQuestion(response, start)
      decreases |response| - offset
    {
      var labelLen := response[offset];
      if labelLen == 0 || labelLen > 63 {
        break;
      }
      offset := offset + labelLen + 1;
    }
  }

  /** The loop over the name of an answer, with what follows it. */
  method PassName(response: Bytes, start: nat) returns (offset: nat)
    ensures offset == SkipName(response, start)
  {
    offset := start;
    var nameSkipped := false;
    while offset < |response| && response[offset] != 0
      invariant !nameSkipped
      invariant SkipName(response, offset) == SkipName(response, start)
      decreases |response| - offset
    {
      var labelLen := response[offset];
      if labelLen > 63 {
        offset := offset + 2;
        nameSkipped := true;
        break;
      }
      offset := offset + labelLen + 1;
    }
    if !nameSkipped && offset < |response| && response[offset] == 0 {
      offset := offset + 1;
    }
  }

  /** The parser itself: total, in range and terminating on every byte string. */
  method ParseDNSResponse(response: Bytes) returns (result: Parsed)
    ensures result == Parse(response)
  {
    if |response| < 12 {
      return TooShort;
    }
    var flags := WordAt(response, 2);
    FlagBits(response[2], response[3]);
    if flags / 0x8000 % 2 == 0 {
      return NotAResponse;
    }
    var rcode := flags % 16;
    if rcode != 0 {
      return ServerError(rcode);
    }
    var ansCount := WordAt(response, 6);
    if ansCount == 0 {
      return NoAnswers;
    }
    var offset := PassQuestion(response, 12);
    offset := offset + 5;
    result := PassAnswers(response, offset, ansCount);
  }

  /** The loop over the answers. */
  method PassAnswers(response: Bytes, start: nat, ansCount: nat) returns (result: Parsed)
    ensures result == ReadAnswers(response, start, ansCount)
  {
    ghost var goal := ReadAnswers(response, start, ansCount);
    var offset: nat := start;
    var i := 0;
    while i < ansCount && offset < |response|
      invariant 0 <= i <= ansCount
      invariant ReadAnswers(response, offset, ansCount - i) == goal
    {
      ghost var top := offset;
      offset := PassName(response, offset);
      if offset >= |response| - 10 {
        assert TurnAt(response, top) == Stops;
        break;
      }
      ghost var p := offset;
      var qtype := WordAt(response, offset);
      offset := offset + 2;
      offset := offset + 2;
      offset := offset + 4;
      var rdLength := WordAt(response, offset);
      offset := offset + 2;
      if qtype == 1 && rdLength == 4 && offset + 4 <= |response| {
        assert TurnAt(response, top) == Takes(response[offset..offset + 4]);
        return Address(response[offset..offset + 4]);
      }
      assert !AddressAt(response, p);
      offset := offset + rdLength;
      assert TurnAt(response, top) == GoesOn(offset);
      i := i + 1;
    }
    return NoAddress;
  }

  // ---------------------------------------------------------------- what is refused, and what an address is read from

  /** A message is refused before its answers are looked at exactly if it is shorter than
      a header, a query, an error of the server, or counts no answers, in this order. */
  lemma RefusedExactly(b: Bytes)
    ensures Parse(b) == TooShort <==> |b| < 12
    ensures Parse(b) == NotAResponse <==> |b| >= 12 && b[2] < 128
    ensures forall code :: Parse(b) == ServerError(code) <==>
      |b| >= 12 && b[2] >= 128 && code == b[3] as int % 16 && code != 0
    ensures Parse(b) == NoAnswers <==> |b| >= 12 && b[2] >= 128 && b[3] % 16 == 0 && b[6] == 0 && b[7] == 0
  {
  }

  /** `p` is where type 1, ten octets in all, data length 4 and the address `ip` stand. */
  predicate RecordedAt(b: Bytes, p: nat, ip: Bytes) {
    && p + 14 <= |b| && b[p] == 0 && b[p + 1] == 1 && b[p + 8] == 0 && b[p + 9] == 4
    && ip == b[p + 10..p + 14]
  }

  lemma {:induction false} AnswerIsRecorded(b: Bytes, o: nat, left: nat) returns (p: nat)
    requires ReadAnswers(b, o, left).Address?
    ensures p >= o && RecordedAt(b, p, ReadAnswers(b, o, left).ip)
    decreases left
  {
    p := SkipName(b, o);
    if TurnAt(b, o).GoesOn? {
      p := AnswerIsRecorded(b, TurnAt(b, o).next, left - 1);
    }
  }

  /** Whatever the message: an address it yields stands in it, behind the header, as the
      data of a record of type A. */
  lemma AddressIsRecorded(b: Bytes) returns (p: nat)
    requires Parse(b).Address?
    ensures p >= 12 && RecordedAt(b, p, Parse(b).ip)
  {
    p := AnswerIsRecorded(b, SkipQuestion(b, 12) + 5, WordAt(b, 6));
  }

  // ---------------------------------------------------------------- what a well-formed response yields

  predicate IsAddressRecord(r: Record) {
    r.kind == 1 && |r.data| == 4
  }

  /** The first answer that is an address record. */
  function FirstAddress(rs: seq<Record>): Parsed {
    if rs == [] then NoAddress
    else if IsAddressRecord(rs[0]) then Address(rs[0].data)
    else FirstAddress(rs[1..])
  }

  predicate IsFirst(rs: seq<Record>, i: nat)
    requires i < |rs|
  {
    IsAddressRecord(rs[i]) && forall j :: 0 <= j < i ==> !IsAddressRecord(rs[j])
  }

  /** It carries the data of an address record with no earlier one, and there is
      none exactly if no answer is an address record. */
  lemma {:induction false} FirstAddressIsFirst(rs: seq<Record>)
    ensures FirstAddress(rs) == NoAddress <==> forall i :: 0 <= i < |rs| ==> !IsAddressRecord(rs[i])
    ensures FirstAddress(rs) != NoAddress ==>
      exists i :: 0 <= i < |rs| && IsFirst(rs, i) && FirstAddress(rs) == Address(rs[i].data)
  {
    if rs == [] {
    } else if IsAddressRecord(rs[0]) {
      assert IsFirst(rs, 0);
    } else {
      FirstAddressIsFirst(rs[1..]);
      assert forall i :: 0 <= i < |rs| - 1 ==> rs[1..][i] == rs[i + 1];
      assert forall i :: 0 <= i < |rs| - 1 && IsFirst(rs[1..], i) ==> IsFirst(rs, i + 1);
    }
  }

  /** `piece` stands in `b` at `o`. */
  predicate At(b: Bytes, o: nat, piece: Bytes) {
    o + |piece| <= |b| && forall k :: 0 <= k < |piece| ==> b[o + k] == piece[k]
  }

  lemma AtBoth(b: Bytes, o: nat, p: Bytes, q: Bytes)
    requires At(b, o, p + q)
    ensures At(b, o, p)
    ensures At(b, o + |p|, q)
  {
    forall k | 0 <= k < |p| ensures b[o + k] == p[k] {
      assert (p + q)[k] == p[k];
    }
    forall k | 0 <= k < |q| ensures b[o + |p| + k] == q[k] {
      assert (p + q)[|p| + k] == q[k];
      assert b[o + (|p| + k)] == (p + q)[|p| + k];
    }
  }

  lemma AtOctet(b: Bytes, o: nat, piece: Bytes, k: nat)
    requires At(b, o, piece) && k < |piece|
    ensures b[o + k] == piece[k]
  {
  }

  lemma AtWord(b: Bytes, o: nat, w: Word)
    requires At(b, o, BigEndian16(w))
    ensures WordAt(b, o) == w
  {
    AtOctet(b, o, BigEndian16(w), 0);
    AtOctet(b, o, BigEndian16(w), 1);
  }

  lemma LabelIsSkipped(b: Bytes, o: nat, l: Bytes)
    requires IsLabel(l)
    requires At(b, o, [|l| % 256] + l)
    ensures o + 1 + |l| <= |b|
    ensures SkipQuestion(b, o) == SkipQuestion(b, o + 1 + |l|)
    ensures SkipName(b, o) == SkipName(b, o + 1 + |l|)
  {
    AtOctet(b, o, [|l| % 256] + l, 0);
    assert b[o] == |l|;
  }

  /** Both walks go over well-formed labels to the octet behind them. */
  lemma {:induction false} LabelsAreSkipped(b: Bytes, o: nat, labels: seq<Bytes>)
    requires AreLabels(labels)
    requires At(b, o, LabelBytes(labels))
    ensures SkipQuestion(b, o) == SkipQuestion(b, o + |LabelBytes(labels)|)
    ensures SkipName(b, o) == SkipName(b, o + |LabelBytes(labels)|)
    decreases |labels|
  {
    if labels == [] {
    } else {
      var l, rest := labels[0], LabelBytes(labels[1..]);
      assert LabelBytes(labels) == [|l| % 256] + l + rest;
      AtBoth(b, o, [|l| % 256] + l, rest);
      LabelIsSkipped(b, o, l);
      LabelsAreSkipped(b, o + 1 + |l|, labels[1..]);
      assert o + 1 + |l| + |rest| == o + |LabelBytes(labels)|;
    }
  }

  lemma NameIsSkipped(b: Bytes, o: nat, name: Name)
    requires IsName(name)
    requires At(b, o, NameBytes(name))
    ensures SkipName(b, o) == o + |NameBytes(name)|
  {
    AtBoth(b, o, LabelBytes(name.labels), EndingBytes(name.ending));
    LabelsAreSkipped(b, o, name.labels);
    AtOctet(b, o + |LabelBytes(name.labels)|, EndingBytes(name.ending), 0);
  }

  lemma QuestionIsSkipped(b: Bytes, o: nat, labels: seq<Bytes>, kind: Word, dnsClass: Word)
    requires AreLabels(labels)
    requires At(b, o, QuestionBytes(labels, kind, dnsClass))
    ensures SkipQuestion(b, o) + 5 == o + |QuestionBytes(labels, kind, dnsClass)|
  {
    var tail := [0] + BigEndian16(kind) + BigEndian16(dnsClass);
    assert QuestionBytes(labels, kind, dnsClass) == LabelBytes(labels) + tail;
    AtBoth(b, o, LabelBytes(labels), tail);
    LabelsAreSkipped(b, o, labels);
    AtOctet(b, o + |LabelBytes(labels)|, tail, 0);
  }

  /** The fields of a record, read where the parser looks for them. */
  lemma TailIsRead(b: Bytes, p: nat, r: Record)
    requires IsRecord(r)
    requires At(b, p, RecordTail(r))
    ensures p + 10 + |r.data| <= |b|
    ensures WordAt(b, p) == r.kind
    ensures WordAt(b, p + 8) == |r.data|
    ensures b[p + 10..p + 10 + |r.data|] == r.data
  {
    var front := BigEndian16(r.kind) + BigEndian16(r.dnsClass) + r.ttl;
    assert RecordTail(r) == front + (BigEndian16(|r.data|) + r.data);
    AtBoth(b, p, front, BigEndian16(|r.data|) + r.data);
    AtBoth(b, p + 8, BigEndian16(|r.data|), r.data);
    assert front == BigEndian16(r.kind) + (BigEndian16(r.dnsClass) + r.ttl);
    AtBoth(b, p, BigEndian16(r.kind), BigEndian16(r.dnsClass) + r.ttl);
    AtWord(b, p, r.kind);
    AtWord(b, p + 8, |r.data|);
  }

  /** A record ends ten octets and its data behind its name. */
  lemma RecordIsRead(b: Bytes, o: nat, r: Record) returns (p: nat)
    requires IsRecord(r)
    requires At(b, o, RecordBytes(r))
    ensures o < p == SkipName(b, o) && o + |RecordBytes(r)| == p + 10 + |r.data| <= |b|
    ensures WordAt(b, p) == r.kind && WordAt(b, p + 8) == |r.data|
    ensures b[p + 10..p + 10 + |r.data|] == r.data
  {
    AtBoth(b, o, NameBytes(r.name), RecordTail(r));
    NameIsSkipped(b, o, r.name);
    p := o + |NameBytes(r.name)|;
    TailIsRead(b, p, r);
  }

  /** One turn of the answer loop over a well-formed record takes its address or
      goes on behind it. The guard that stops the loop ten octets early stops it
      only where nothing is left to read. */
  lemma TurnReadsRecord(b: Bytes, o: nat, r: Record, left: nat)
    requires IsRecord(r) && left > 0
    requires At(b, o, RecordBytes(r))
    ensures ReadAnswers(b, o, left)
         == if IsAddressRecord(r) then Address(r.data) else ReadAnswers(b, o + |RecordBytes(r)|, left - 1)
  {
    var p := RecordIsRead(b, o, r);
    if p >= |b| - 10 {
      assert o + |RecordBytes(r)| == |b|;
    }
  }

  /** The answer loop over well-formed records finds the first address record. */
  lemma {:induction false} AnswersAreRead(b: Bytes, o: nat, rs: seq<Record>)
    requires AreRecords(rs)
    requires At(b, o, RecordsBytes(rs))
    ensures ReadAnswers(b, o, |rs|) == FirstAddress(rs)
    decreases |rs|
  {
    if rs != [] {
      AtBoth(b, o, RecordBytes(rs[0]), RecordsBytes(rs[1..]));
      TurnReadsRecord(b, o, rs[0], |rs|);
      AnswersAreRead(b, o + |RecordBytes(rs[0])|, rs[1..]);
    }
  }

  lemma HeaderIsRead(b: Bytes, m: Response)
    requires IsResponse(m)
    requires At(b, 0, HeaderBytes(m))
    ensures b[2] == m.flagsHigh && b[3] == m.flagsLow
    ensures WordAt(b, 6) == |m.answers|
  {
    var h := HeaderBytes(m);
    AtOctet(b, 0, h, 2);
    AtOctet(b, 0, h, 3);
    AtOctet(b, 0, h, 6);
    AtOctet(b, 0, h, 7);
  }

  /** On every well-formed response the parser returns the address of the
      first answer of type A with four octets of data, and fails exactly when
      there is none. */
  lemma WellFormedResponsesAreRead(m: Response)
    requires IsResponse(m)
    ensures Parse(ResponseBytes(m)) == if m.answers == [] then NoAnswers else FirstAddress(m.answers)
  {
    var b := ResponseBytes(m);
    var q := ResponseParts(b, m);
    HeaderIsRead(b, m);
    QuestionIsSkipped(b, 12, m.question, m.kind, m.dnsClass);
    AnswersAreRead(b, 12 + q, m.answers);
  }

  lemma ResponseParts(b: Bytes, m: Response) returns (q: nat)
    requires IsResponse(m) && b == ResponseBytes(m)
    ensures q == |QuestionBytes(m.question, m.kind, m.dnsClass)|
    ensures At(b, 0, HeaderBytes(m))
    ensures At(b, 12, QuestionBytes(m.question, m.kind, m.dnsClass))
    ensures At(b, 12 + q, RecordsBytes(m.answers))
  {
    var question := QuestionBytes(m.question, m.kind, m.dnsClass);
    var answers := RecordsBytes(m.answers);
    q := |question|;
    assert b == HeaderBytes(m) + (question + (answers + m.trailer));
    AtBoth(b, 0, HeaderBytes(m), question + (answers + m.trailer));
    AtBoth(b, 12, question, answers + m.trailer);
    AtBoth(b, 12 + q, answers, m.trailer);
  }

  // ---------------------------------------------------------------- messages cut to 512 octets by the datagram path

  predicate IsPrefix(a: Bytes, b: Bytes) {
    |a| <= |b| && forall k :: 0 <= k < |a| ==> a[k] == b[k]
  }

  lemma {:induction false} SkipNameOnPrefix(a: Bytes, b: Bytes, o: nat)
    requires IsPrefix(a, b)
    ensures SkipName(a, o) >= |a| || SkipName(a, o) == SkipName(b, o)
    decreases |a| - o
  {
    if o >= |a| {
    } else if 1 <= a[o] <= 63 {
      SkipNameOnPrefix(a, b, o + a[o] + 1);
    }
  }

  lemma {:induction false} SkipQuestionOnPrefix(a: Bytes, b: Bytes, o: nat)
    requires IsPrefix(a, b)
    ensures SkipQuestion(a, o) >= |a| || SkipQuestion(a, o) == SkipQuestion(b, o)
    decreases |a| - o
  {
    if o >= |a| {
    } else if 1 <= a[o] <= 63 {
      SkipQuestionOnPrefix(a, b, o + a[o] + 1);
    }
  }

  lemma WordOnPrefix(a: Bytes, b: Bytes, i: nat)
    requires IsPrefix(a, b) && i + 2 <= |a|
    ensures WordAt(a, i) == WordAt(b, i)
  {
  }

  lemma SliceOfPrefix(a: Bytes, b: Bytes, lo: nat, hi: nat)
    requires IsPrefix(a, b) && lo <= hi <= |a|
    ensures a[lo..hi] == b[lo..hi]
  {
  }

  /** On a prefix a turn comes to the same, stops, or goes on behind the prefix. */
  lemma TurnOnPrefix(a: Bytes, b: Bytes, o: nat)
    requires IsPrefix(a, b)
    ensures TurnAt(a, o).Takes? ==> TurnAt(b, o) == TurnAt(a, o)
    ensures TurnAt(a, o).GoesOn? && TurnAt(a, o).next <= |a| ==> TurnAt(b, o) == TurnAt(a, o)
  {
    SkipNameOnPrefix(a, b, o);
    var p := SkipName(a, o);
    if p < |a| - 10 {
      WordOnPrefix(a, b, p);
      WordOnPrefix(a, b, p + 8);
      if AddressAt(a, p) {
        SliceOfPrefix(a, b, p + 10, p + 14);
      }
    }
  }

  lemma {:induction false} ReadAnswersOnPrefix(a: Bytes, b: Bytes, o: nat, left: nat)
    requires IsPrefix(a, b)
    requires ReadAnswers(a, o, left).Address?
    ensures ReadAnswers(b, o, left) == ReadAnswers(a, o, left)
    decreases left
  {
    TurnOnPrefix(a, b, o);
    if TurnAt(a, o).GoesOn? {
      ReadAnswersOnPrefix(a, b, TurnAt(a, o).next, left - 1);
    }
  }

  /** Cutting a message short can lose the address but never invent another:
      for every byte string, what a prefix yields the whole yields too. */
  lemma TruncationInventsNothing(b: Bytes, n: nat)
    requires n <= |b|
    requires Parse(b[..n]).Address?
    ensures Parse(b) == Parse(b[..n])
  {
    var a := b[..n];
    HeaderOnPrefix(a, b);
    SkipQuestionOnPrefix(a, b, 12);
    ReadAnswersOnPrefix(a, b, SkipQuestion(a, 12) + 5, WordAt(a, 6));
  }

  /** A prefix that yields an address has the whole header. */
  lemma HeaderOnPrefix(a: Bytes, b: Bytes)
    requires IsPrefix(a, b) && Parse(a).Address?
    ensures |a| >= 12
    ensures Parse(a) == ReadAnswers(a, SkipQuestion(a, 12) + 5, WordAt(a, 6))
    ensures Parse(b) == ReadAnswers(b, SkipQuestion(b, 12) + 5, WordAt(a, 6))
  {
    WordOnPrefix(a, b, 6);
  }

  // ---------------------------------------------------------------- the resolver's question under its own parser

  /** Octets, and no more than the length octet can count. */
  predicate AreCounted(labels: seq<Bytes>) {
    forall i :: 0 <= i < |labels| ==> |labels[i]| < 256
  }

  /** A question is walked to its end if every part of the domain is a label of 1 to
      63 octets. If no part is longer than its length octet can count, it is walked
      to its end only then: an empty part, or one above 63 octets, leaves the parser
      short of the answers. */
  lemma QuestionSkippedExactly(b: Bytes, o: nat, labels: seq<Bytes>, kind: Word, dnsClass: Word)
    requires At(b, o, QuestionBytes(labels, kind, dnsClass))
    ensures AreLabels(labels) ==> SkipQuestion(b, o) + 5 == o + |QuestionBytes(labels, kind, dnsClass)|
    ensures AreCounted(labels) && !AreLabels(labels) ==>
      SkipQuestion(b, o) + 5 < o + |QuestionBytes(labels, kind, dnsClass)|
  {
    if AreLabels(labels) {
      QuestionIsSkipped(b, o, labels, kind, dnsClass);
    } else if AreCounted(labels) {
      BadPartStops(b, o, labels, kind, dnsClass);
    }
  }

  lemma {:induction false} BadPartStops(b: Bytes, o: nat, labels: seq<Bytes>, kind: Word, dnsClass: Word)
    requires At(b, o, QuestionBytes(labels, kind, dnsClass)) && AreCounted(labels) && !AreLabels(labels)
    ensures SkipQuestion(b, o) + 5 < o + |QuestionBytes(labels, kind, dnsClass)|
    decreases |labels|
  {
    var first := [|labels[0]| % 256] + labels[0];
    var rest := QuestionBytes(labels[1..], kind, dnsClass);
    assert QuestionBytes(labels, kind, dnsClass) == first + rest;
    AtBoth(b, o, first, rest);
    AtOctet(b, o, first, 0);
    if IsLabel(labels[0]) {
      LabelIsSkipped(b, o, labels[0]);
      BadPartStops(b, o + 1 + |labels[0]|, labels[1..], kind, dnsClass);
    } else {
      assert SkipQuestion(b, o) == o;
      assert |rest| >= 5;
    }
  }

  /** For longer parts the content decides: a part of 257 octets, counted as 1, in
      which the walk finds octets that lead it exactly to the end. */
  lemma LongPartCanBeWalked() returns (part: Bytes)
    ensures |part| == 257 && !AreLabels([part])
    ensures SkipQuestion(QuestionBytes([part], 1, 1), 0) + 5 == |QuestionBytes([part], 1, 1)|
  {
    part := seq(257, i => if i == 1 || i == 65 || i == 129 || i == 193 then 63 else 97);
    var b := QuestionBytes([part], 1, 1);
    assert [part][1..] == [];
    assert LabelBytes([part]) == [1] + part;
    assert b == [1] + part + [0] + BigEndian16(1) + BigEndian16(1);
    assert b[0] == 1 && b[2] == 63 && b[66] == 63 && b[130] == 63 && b[194] == 63 && b[258] == 0;
    assert SkipQuestion(b, 194) == SkipQuestion(b, 258) == 258;
    assert SkipQuestion(b, 66) == SkipQuestion(b, 130) == SkipQuestion(b, 194);
    assert SkipQuestion(b, 0) == SkipQuestion(b, 2) == SkipQuestion(b, 66);
  }
}
