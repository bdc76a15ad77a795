/** Building and opening WRAP packets: header, padding clamp, cover packets, and the
    round trip between the two ends. */
module WrapPacket {
  import opened Arithmetic
  import opened Basics
  import opened WrapNonce
  import opened WrapCodec

  // ---------------------------------------------------------------- header

  function MarkerByte(cipher: Cipher): Byte {
    if cipher.ChaCha? then 0x90 else 0x80
  }

  function PayloadTypeByte(counter: nat): Byte {
    (if counter == 0 then 0x80 else 0) + (if counter % 50 == 0 then 0x60 else 0x6F)
  }

  function Header(counter: nat, cipher: Cipher, ssrc: nat): (h: seq<Byte>)
    requires ssrc < TWO32
    ensures |h| == HDR_LEN
  {
    [MarkerByte(cipher), PayloadTypeByte(counter)] + BigEndian16(counter % 0x10000)
      + BigEndian32(counter * 960 % TWO32) + BigEndian32(ssrc)
  }

  /** readHeader: the counter is the RTP timestamp divided by 960. */
  function ReadCounter(wire: seq<Byte>): nat
    requires |wire| >= HDR_LEN
  {
    ReadBigEndian32(wire[4..8]) / 960
  }

  function ReadSsrc(wire: seq<Byte>): nat
    requires |wire| >= HDR_LEN
  {
    ReadBigEndian32(wire[8..12])
  }

  function ReadCipher(wire: seq<Byte>): Cipher
    requires |wire| >= HDR_LEN
  {
    if wire[0] as int / 0x10 % 2 == 1 then ChaCha else Sha
  }

  lemma ReadersInRange(wire: seq<Byte>)
    requires |wire| >= HDR_LEN
    ensures ReadCounter(wire) < TWO32 && ReadSsrc(wire) < TWO32
  {
  }

  /** The 32-bit timestamp carries the counter back exactly for counters up to
      floor((2^32 - 1) / 960) = 4473924, which the modulus 4,000,000 respects. */
  lemma TimestampCarriesCounter(counter: nat)
    ensures counter * 960 % TWO32 / 960 == counter <==> counter <= 4_473_924
    ensures counter < COUNTER_MOD ==> counter * 960 % TWO32 / 960 == counter
  {
  }

  /** The header octet by octet: version 2 with the cipher in the X bit, the marker bit
      on the first packet of an SSRC, payload type 96 on every fiftieth packet and 111
      on the others, then sequence number, timestamp and SSRC (section 5.1 of RFC 3550). */
  lemma HeaderOctets(counter: nat, cipher: Cipher, ssrc: nat)
    requires ssrc < TWO32
    ensures var h := Header(counter, cipher, ssrc);
      && h[0] == (if cipher == ChaCha then 128 + 16 else 128)
      && (h[1] >= 128 <==> counter == 0)
      && h[1] as int % 128 == (if counter % 50 == 0 then 96 else 111)
      && ReadBigEndian16(h[2..4]) == counter % 65536
      && ReadBigEndian32(h[4..8]) == counter * 960 % TWO32
      && ReadBigEndian32(h[8..12]) == ssrc
  {
    var seqNo, ts, id := BigEndian16(counter % 0x10000), BigEndian32(counter * 960 % TWO32), BigEndian32(ssrc);
    PartsOf([MarkerByte(cipher), PayloadTypeByte(counter)], seqNo, ts, id);
    ReadsBack32(counter * 960 % TWO32);
    ReadsBack32(ssrc);
    TypeOctet(counter);
  }

  lemma PartsOf(a: Bytes, b: Bytes, c: Bytes, d: Bytes)
    requires |a| == |b| == 2 && |c| == |d| == 4
    ensures (a + b + c + d)[..2] == a && (a + b + c + d)[2..4] == b
    ensures (a + b + c + d)[4..8] == c && (a + b + c + d)[8..12] == d
  {
  }

  lemma TypeOctet(counter: nat)
    ensures PayloadTypeByte(counter) >= 128 <==> counter == 0
    ensures PayloadTypeByte(counter) as int % 128 == if counter % 50 == 0 then 96 else 111
  {
  }

  /** What the receiver reads, from any header: the cipher by the X bit alone, the counter
      as the timestamp in steps of 960, rounded down, and the SSRC. */
  lemma ReadersExactly(wire: seq<Byte>)
    requires |wire| >= 12
    ensures ReadCipher(wire) == ChaCha <==> Bit(wire[0], 4) == 1
    ensures 960 * ReadCounter(wire) <= ReadBigEndian32(wire[4..8]) < 960 * ReadCounter(wire) + 960
    ensures ReadSsrc(wire) == ReadBigEndian32(wire[8..12])
  {
    var b := wire[0] as int;
    assert Bit(b, 4) == Bit(b / 2, 3) == Bit(b / 2 / 2, 2);
    assert Bit(b / 2 / 2, 2) == Bit(b / 2 / 2 / 2, 1) == Bit(b / 2 / 2 / 2 / 2, 0);
    assert b / 2 / 2 / 2 / 2 == b / 16;
  }

  lemma NextRemainder(x: nat, step: nat, n: nat)
    requires n > 0
    ensures (x + step) % n == (x % n + step) % n
  {
    var q := x / n;
    assert x == n * q + x % n;
    RemainderShift(x % n + step, q, n);
  }

  lemma {:induction false} RemainderShift(x: nat, q: nat, n: nat)
    requires n > 0
    ensures (n * q + x) % n == x % n
  {
    var p, r := x / n, x % n;
    assert x == n * p + r;
    assert n * q + x == n * (q + p) + r;
    QuotientIs(n * q + x, n, q + p, r);
  }

  /** Within an SSRC each packet's sequence number is one more than that of the packet
      before, and its timestamp 960 more, both with wrap-around. */
  lemma HeadersAdvance(counter: nat, cipher: Cipher, ssrc: nat)
    requires ssrc < TWO32
    ensures var h, next := Header(counter, cipher, ssrc), Header(counter + 1, cipher, ssrc);
      && ReadBigEndian16(next[2..4]) == (ReadBigEndian16(h[2..4]) + 1) % 65536
      && ReadBigEndian32(next[4..8]) == (ReadBigEndian32(h[4..8]) + 960) % TWO32
  {
    HeaderOctets(counter, cipher, ssrc);
    HeaderOctets(counter + 1, cipher, ssrc);
    NextRemainder(counter, 1, 65536);
    NextRemainder(counter * 960, 960, TWO32);
  }

  lemma HeaderReadsBack(counter: nat, cipher: Cipher, ssrc: nat, rest: seq<Byte>)
    requires counter < COUNTER_MOD && ssrc < TWO32
    ensures var wire := Header(counter, cipher, ssrc) + rest;
      ReadCounter(wire) == counter && ReadCipher(wire) == cipher && ReadSsrc(wire) == ssrc
  {
    var wire := Header(counter, cipher, ssrc) + rest;
    assert wire[0] == MarkerByte(cipher);
    assert wire[4..8] == BigEndian32(counter * 960 % TWO32);
    assert wire[8..12] == BigEndian32(ssrc);
    ReadsBack32(counter * 960 % TWO32);
    ReadsBack32(ssrc);
    TimestampCarriesCounter(counter);
  }

  lemma ReadsBack32(v: nat)
    requires v < TWO32
    ensures ReadBigEndian32(BigEndian32(v)) == v
  {
  }

  method PutHeader(buf: array<Byte>, counter: nat, cipher: Cipher, ssrc: nat)
    requires buf.Length >= HDR_LEN && ssrc < TWO32
    modifies buf
    ensures buf[..] == Header(counter, cipher, ssrc) + old(buf[HDR_LEN..])
  {
    buf[0] := MarkerByte(cipher);
    buf[1] := PayloadTypeByte(counter);
    var seqNo, ts, id := BigEndian16(counter % 0x10000), BigEndian32(counter * 960 % TWO32), BigEndian32(ssrc);
    buf[2], buf[3] := seqNo[0], seqNo[1];
    buf[4], buf[5], buf[6], buf[7] := ts[0], ts[1], ts[2], ts[3];
    buf[8], buf[9], buf[10], buf[11] := id[0], id[1], id[2], id[3];
  }

  // ---------------------------------------------------------------- padding

  /** randPadLen, then the clamp to the tuned MTU. */
  function PadLen(payloadLen: nat, draw: Byte, maxBody: int): nat {
    var pad := draw as int % (MAX_PAD + 1);
    var room := maxBody - payloadLen;
    if pad > room then (if room < 0 then 0 else room) else pad
  }

  /** Padding never pushes a packet past the ceiling, and a packet already past it
      ships without any. */
  lemma PadFits(payloadLen: nat, draw: Byte, maxBody: int)
    ensures PadLen(payloadLen, draw, maxBody) <= MAX_PAD
    ensures payloadLen + PadLen(payloadLen, draw, maxBody) <= if maxBody > payloadLen then maxBody else payloadLen
    ensures payloadLen + MAX_PAD <= maxBody ==> PadLen(payloadLen, draw, maxBody) == draw as int % (MAX_PAD + 1)
  {
  }

  /** The padding is the longest that the draw and the ceiling allow. */
  lemma PadIsLongest(payloadLen: nat, draw: Byte, maxBody: int, pad: nat)
    ensures PadLen(payloadLen, draw, maxBody) <= draw as int % 33
    ensures pad <= draw as int % 33 && payloadLen + pad <= maxBody ==> pad <= PadLen(payloadLen, draw, maxBody)
  {
  }

  // ---------------------------------------------------------------- packets

  /** A data packet: header, then payload, padding and pad length under the keystream. */
  function Wire(k: Keystream, payload: seq<Byte>, padding: seq<Byte>): seq<Byte>
    requires ValidKeystream(k) && |padding| < 0x10000
  {
    Header(k.counter, k.cipher, k.ssrc) + Masked(payload + padding + BigEndian16(|padding|), k)
  }

  /** A cover packet: a body of noise and the cover mark. */
  function CoverWire(k: Keystream, body: seq<Byte>): seq<Byte>
    requires ValidKeystream(k)
  {
    Header(k.counter, k.cipher, k.ssrc) + Masked(body + BigEndian16(COVER_MARK), k)
  }

  datatype Opened = Payload(n: nat) | BadKey | ShortPacket | DstTooSmall | BadPadding

  /** What the receiver makes of the decrypted bytes. */
  function Unpad(plain: seq<Byte>): Opened
    requires |plain| >= PAD_LEN
  {
    var pad := ReadBigEndian16(plain[|plain| - PAD_LEN..]);
    if pad == COVER_MARK then Payload(0)
    else if pad > MAX_PAD || PAD_LEN + pad > |plain| then BadPadding
    else Payload(|plain| - PAD_LEN - pad)
  }

  /** unwrapPacket: the verdict and the decrypted bytes (none if it stops early). */
  function Unwrap(crypto: Crypto, key: seq<Byte>, wire: seq<Byte>, dstLen: nat, rxDir: Byte): (Opened, seq<Byte>) {
    if |key| != KEY_LEN then (BadKey, [])
    else if |wire| < HDR_LEN + PAD_LEN then (ShortPacket, [])
    else if |wire| - HDR_LEN > dstLen then (DstTooSmall, [])
    else
      ReadersInRange(wire);
      var k := Keystream(crypto, ReadCipher(wire), key, ReadCounter(wire), ReadSsrc(wire), rxDir);
      var plain := Masked(wire[HDR_LEN..], k);
      (Unpad(plain), plain)
  }

  lemma UnpadData(payload: seq<Byte>, padding: seq<Byte>)
    requires |padding| <= MAX_PAD
    ensures Unpad(payload + padding + BigEndian16(|padding|)) == Payload(|payload|)
  {
    var plain := payload + padding + BigEndian16(|padding|);
    assert plain[|plain| - PAD_LEN..] == BigEndian16(|padding|);
  }

  /** Opening is the inverse of wrapping: for every payload, key, SSRC, counter below
      the modulus, padding, cipher and primitives, the end that receives in the
      direction the packet was sent in gets back exactly the payload. */
  lemma RoundTrip(k: Keystream, payload: seq<Byte>, padding: seq<Byte>, dstLen: nat)
    requires k.counter < COUNTER_MOD && k.ssrc < TWO32 && |k.key| == KEY_LEN && |padding| <= MAX_PAD
    requires dstLen >= |payload| + |padding| + PAD_LEN
    ensures var (verdict, plain) := Unwrap(k.crypto, k.key, Wire(k, payload, padding), dstLen, k.dir);
      verdict == Payload(|payload|) && |plain| >= |payload| && plain[..|payload|] == payload
  {
    var plain := payload + padding + BigEndian16(|padding|);
    var wire := Wire(k, payload, padding);
    HeaderReadsBack(k.counter, k.cipher, k.ssrc, Masked(plain, k));
    assert wire[HDR_LEN..] == Masked(plain, k);
    MaskedTwice(plain, k);
    UnpadData(payload, padding);
    assert plain[..|payload|] == payload;
  }

  /** Cover packets decode to nothing, whatever their noise. */
  lemma CoverIsEmpty(k: Keystream, body: seq<Byte>, dstLen: nat)
    requires k.counter < COUNTER_MOD && k.ssrc < TWO32 && |k.key| == KEY_LEN && dstLen >= |body| + PAD_LEN
    ensures Unwrap(k.crypto, k.key, CoverWire(k, body), dstLen, k.dir).0 == Payload(0)
  {
    var plain := body + BigEndian16(COVER_MARK);
    var wire := CoverWire(k, body);
    HeaderReadsBack(k.counter, k.cipher, k.ssrc, Masked(plain, k));
    assert wire[HDR_LEN..] == Masked(plain, k);
    MaskedTwice(plain, k);
    assert plain[|plain| - PAD_LEN..] == BigEndian16(COVER_MARK);
  }

  // ---------------------------------------------------------------- what is sent

  /** Every bit behind the header is the plaintext's bit, flipped exactly where the
      keystream's is set. */
  lemma WireBits(k: Keystream, payload: seq<Byte>, padding: seq<Byte>, i: nat, bit: nat)
    requires ValidKeystream(k) && |padding| <= MAX_PAD && bit < 8
    requires i < |payload| + |padding| + 2
    ensures |Wire(k, payload, padding)| == 12 + |payload| + |padding| + 2
    ensures var plain := payload + padding + BigEndian16(|padding|);
      DifferAt(Wire(k, payload, padding)[12 + i], plain[i], KeystreamByte(k, i), bit)
  {
    var plain := payload + padding + BigEndian16(|padding|);
    XorIsBitwise(plain[i], KeystreamByte(k, i), Xor(plain[i], KeystreamByte(k, i)));
    assert Wire(k, payload, padding)[12 + i] == Masked(plain, k)[i];
  }

  /** A plaintext of zeros goes out as the keystream itself. */
  lemma ZerosShowKeystream(k: Keystream, n: nat)
    requires ValidKeystream(k)
    ensures Wire(k, seq(n, _ => 0), [])[12..] == KeystreamPart(k, 0, n + 2)
  {
    var zeros: seq<Byte> := seq(n, _ => 0);
    var plain := zeros + [] + BigEndian16(0);
    assert forall i :: 0 <= i < n + 2 ==> plain[i] == 0;
    forall i | 0 <= i < n + 2 ensures Xor(plain[i], KeystreamByte(k, i)) == KeystreamByte(k, i) {
      ZeroBits(KeystreamByte(k, i));
    }
    assert Wire(k, zeros, [])[12..] == Masked(plain, k);
  }

  lemma ZeroBits(b: Byte)
    ensures Xor(0, b) == b
  {
    forall i: nat | i < 8 ensures DifferAt(b, 0, b, i) {
      BitIsBit(b, i);
      BitOfZero(i);
    }
    XorIsBitwise(0, b, b);
  }

  lemma {:induction false} BitOfZero(i: nat)
    ensures Bit(0, i) == 0
  {
    if i > 0 {
      BitOfZero(i - 1);
    }
  }

  /** The keystream of an uplink packet that carries the claimed pair number `c`. */
  ghost predicate Carries(k: Keystream, s: Tx, c: nat)
    requires c < |s.claims|
  {
    k.cipher.ChaCha? && k.dir == DIR_CLIENT && (k.ssrc, k.counter) == s.claims[c]
  }

  /** In every interleaving of senders, while drawn SSRCs do not repeat, any two uplink
      packets of a stream are masked with the ChaCha20 keystreams of their own nonces,
      and these differ. */
  lemma PacketsHaveOwnKeystreams(ssrc: nat, senders: nat, schedule: seq<Action>, s: Tx, c: nat, d: nat,
                                 k: Keystream, l: Keystream, i: nat)
    requires WrapNonce.Reached(ssrc, senders, schedule, s)
    requires forall e, f :: 0 <= e < f < |s.epochs| ==> s.epochs[e] != s.epochs[f]
    requires c < d < |s.claims| && Carries(k, s, c) && Carries(l, s, d)
    ensures Inv(s) && ValidKeystream(k) && ValidKeystream(l)
    ensures KeystreamByte(k, i) == k.crypto.chacha(k.key, NonceOfClaim(s, c), i)
    ensures KeystreamByte(l, i) == l.crypto.chacha(l.key, NonceOfClaim(s, d), i)
    ensures NonceOfClaim(s, c) != NonceOfClaim(s, d)
  {
    NoncesNeverRepeat(ssrc, senders, schedule, s, 0, 0);
    ClaimInRange(s, c);
    ClaimInRange(s, d);
  }

  lemma ClaimInRange(s: Tx, c: nat)
    requires Inv(s) && c < |s.claims|
    ensures s.claims[c].0 < TWO32 && s.claims[c].1 < COUNTER_MOD
  {
    assert s.claims[c] == (s.epochs[c / COUNTER_MOD], c % COUNTER_MOD);
  }

  // ---------------------------------------------------------------- what is accepted

  /** The `body` of a packet is a payload of `n` octets wrapped under `k`. */
  ghost predicate WrappedBody(k: Keystream, body: seq<Byte>, n: nat)
    requires ValidKeystream(k)
  {
    exists payload, padding :: |payload| == n && IsWrapped(k, body, payload, padding)
  }

  predicate IsWrapped(k: Keystream, body: seq<Byte>, payload: seq<Byte>, padding: seq<Byte>)
    requires ValidKeystream(k)
  {
    |padding| <= 32 && body == Masked(payload + padding + BigEndian16(|padding|), k)
  }

  ghost predicate CoverBody(k: Keystream, body: seq<Byte>)
    requires ValidKeystream(k)
  {
    exists noise: seq<Byte> :: body == Masked(noise + [255, 255], k)
  }

  lemma PlainOfWrapped(plain: seq<Byte>, n: nat)
    requires |plain| >= PAD_LEN && Unpad(plain) == Payload(n) && plain[|plain| - 2..] != [255, 255]
    ensures n <= |plain| && |plain[n..|plain| - 2]| <= 32
    ensures plain == plain[..n] + plain[n..|plain| - 2] + BigEndian16(|plain[n..|plain| - 2]|)
  {
  }

  lemma UnpadOfWrapped(k: Keystream, body: seq<Byte>, n: nat)
    requires ValidKeystream(k) && WrappedBody(k, body, n)
    ensures |Masked(body, k)| >= PAD_LEN && Unpad(Masked(body, k)) == Payload(n)
  {
    var payload, padding :| |payload| == n && IsWrapped(k, body, payload, padding);
    MaskedTwice(payload + padding + BigEndian16(|padding|), k);
    UnpadData(payload, padding);
  }

  lemma UnpadOfCover(k: Keystream, body: seq<Byte>)
    requires ValidKeystream(k) && CoverBody(k, body)
    ensures |Masked(body, k)| >= PAD_LEN && Unpad(Masked(body, k)) == Payload(0)
  {
    var noise: seq<Byte> :| body == Masked(noise + [255, 255], k);
    MaskedTwice(noise + [255, 255], k);
    assert Masked(body, k)[|noise|..] == [255, 255];
  }

  lemma WrappedIs(k: Keystream, plain: seq<Byte>, payload: seq<Byte>, padding: seq<Byte>)
    requires ValidKeystream(k) && |padding| <= 32 && plain == payload + padding + BigEndian16(|padding|)
    ensures WrappedBody(k, Masked(plain, k), |payload|)
  {
    assert IsWrapped(k, Masked(plain, k), payload, padding);
  }

  lemma CoverIs(k: Keystream, plain: seq<Byte>)
    requires ValidKeystream(k) && |plain| >= 2 && plain[|plain| - 2..] == [255, 255]
    ensures CoverBody(k, Masked(plain, k))
  {
    assert plain == plain[..|plain| - 2] + [255, 255];
  }

  lemma BodyOfUnpad(k: Keystream, body: seq<Byte>, n: nat)
    requires ValidKeystream(k) && |body| >= PAD_LEN && Unpad(Masked(body, k)) == Payload(n)
    ensures WrappedBody(k, body, n) || (n == 0 && CoverBody(k, body))
  {
    var plain := Masked(body, k);
    MaskedTwice(body, k);
    if plain[|plain| - 2..] == [255, 255] {
      CoverIs(k, plain);
    } else {
      PlainOfWrapped(plain, n);
      WrappedIs(k, plain, plain[..n], plain[n..|plain| - 2]);
    }
  }

  /** Whoever sent it: a packet that is long enough and fits is accepted with a payload
      of `n` octets exactly if its body is such a payload, or a cover body and n is 0,
      wrapped under the receiver's key and direction and the pair in its header. */
  lemma AcceptedExactly(crypto: Crypto, key: seq<Byte>, wire: seq<Byte>, dstLen: nat, rxDir: Byte, n: nat)
    requires |key| == KEY_LEN && |wire| >= 14 && |wire| - 12 <= dstLen
    ensures ReadCounter(wire) < TWO32 && ReadSsrc(wire) < TWO32
    ensures var k := Keystream(crypto, ReadCipher(wire), key, ReadCounter(wire), ReadSsrc(wire), rxDir);
      Unwrap(crypto, key, wire, dstLen, rxDir).0 == Payload(n)
      <==> WrappedBody(k, wire[12..], n) || (n == 0 && CoverBody(k, wire[12..]))
  {
    ReadersInRange(wire);
    var k := Keystream(crypto, ReadCipher(wire), key, ReadCounter(wire), ReadSsrc(wire), rxDir);
    BodyDecides(k, wire[12..], n);
  }

  lemma BodyDecides(k: Keystream, body: seq<Byte>, n: nat)
    requires ValidKeystream(k) && |body| >= PAD_LEN
    ensures Unpad(Masked(body, k)) == Payload(n) <==> WrappedBody(k, body, n) || (n == 0 && CoverBody(k, body))
  {
    if Unpad(Masked(body, k)) == Payload(n) {
      BodyOfUnpad(k, body, n);
    } else if WrappedBody(k, body, n) {
      UnpadOfWrapped(k, body, n);
    } else if CoverBody(k, body) {
      UnpadOfCover(k, body);
    }
  }

  /** Every other packet is refused, for the first of these reasons that applies. */
  lemma RefusedExactly(crypto: Crypto, key: seq<Byte>, wire: seq<Byte>, dstLen: nat, rxDir: Byte)
    ensures var verdict := Unwrap(crypto, key, wire, dstLen, rxDir).0;
      && (verdict == BadKey <==> |key| != 32)
      && (verdict == ShortPacket <==> |key| == 32 && |wire| < 14)
      && (verdict == DstTooSmall <==> |key| == 32 && |wire| >= 14 && |wire| - 12 > dstLen)
      && (verdict == BadPadding ==> |key| == 32 && |wire| >= 14 && |wire| - 12 <= dstLen)
  {
    if |wire| >= HDR_LEN {
      ReadersInRange(wire);
    }
  }

  // ---------------------------------------------------------------- the in-place code

  /** copy(dst[at:], data). */
  method CopyTo(dst: array<Byte>, at: nat, data: seq<Byte>)
    requires at + |data| <= dst.Length
    modifies dst
    ensures dst[..] == old(dst[..at]) + data + old(dst[at + |data|..])
  {
    for p := at to at + |data|
      invariant forall j :: at <= j < p ==> dst[j] == data[j - at]
      invariant forall j :: 0 <= j < at || p <= j < dst.Length ==> dst[j] == old(dst[j])
    {
      dst[p] := data[p - at];
    }
  }

  /** Header and plaintext laid out contiguously at the start of `dst`, the plaintext
      then encrypted in place. */
  method Seal(dst: array<Byte>, k: Keystream, plain: seq<Byte>)
    requires ValidKeystream(k) && HDR_LEN + |plain| <= dst.Length
    modifies dst
    ensures dst[..] == Header(k.counter, k.cipher, k.ssrc) + Masked(plain, k) + old(dst[HDR_LEN + |plain|..])
  {
    var total := HDR_LEN + |plain|;
    ghost var rest := dst[total..];
    PutHeader(dst, k.counter, k.cipher, k.ssrc);
    assert dst[total..] == rest;
    CopyTo(dst, HDR_LEN, plain);
    assert dst[..] == Header(k.counter, k.cipher, k.ssrc) + plain + rest;
    assert dst[..HDR_LEN] == Header(k.counter, k.cipher, k.ssrc);
    assert dst[HDR_LEN..total] == plain && dst[total..] == rest;
    XorKeystream(k, dst, HDR_LEN, total);
  }

  datatype Wrapped = Written(n: nat) | KeyRefused | DstRefused

  /** Length of the packet wrapPacketInto builds. */
  function TotalLen(payloadLen: nat, draw: Byte, maxBody: int): nat {
    HDR_LEN + payloadLen + PadLen(payloadLen, draw, maxBody) + PAD_LEN
  }

  /** wrapPacketInto. `k` carries the pair claimed from the stream's wrapTxState;
      `draw` and `noise` are the random pad length and padding. On refusal `dst` is
      untouched; with room for MAX_OVERHEAD more than the payload it never refuses. */
  method WrapPacketInto(dst: array<Byte>, k: Keystream, payload: seq<Byte>, draw: Byte, noise: seq<Byte>, maxBody: int)
    returns (r: Wrapped)
    requires ValidKeystream(k) && |noise| == MAX_PAD
    modifies dst
    ensures PadLen(|payload|, draw, maxBody) <= MAX_PAD
    ensures r == if |k.key| != KEY_LEN then KeyRefused
                 else if dst.Length < TotalLen(|payload|, draw, maxBody) then DstRefused
                 else Written(TotalLen(|payload|, draw, maxBody))
    ensures r.Written? ==>
      dst[..] == Wire(k, payload, noise[..PadLen(|payload|, draw, maxBody)])
                 + old(dst[TotalLen(|payload|, draw, maxBody)..])
    ensures !r.Written? ==> dst[..] == old(dst[..])
    ensures |k.key| == KEY_LEN && dst.Length >= |payload| + MAX_OVERHEAD ==> r.Written?
  {
    PadFits(|payload|, draw, maxBody);
    if |k.key| != KEY_LEN {
      return KeyRefused;
    }
    var padLen := draw as int % (MAX_PAD + 1);
    var room := maxBody - |payload|;
    if padLen > room {
      padLen := if room < 0 then 0 else room;
    }
    var total := HDR_LEN + |payload| + padLen + PAD_LEN;
    if dst.Length < total {
      return DstRefused;
    }
    Seal(dst, k, payload + noise[..padLen] + BigEndian16(padLen));
    return Written(total);
  }

  /** wrapCoverPacket: 30 to 158 bytes of noise under the cover mark. */
  method WrapCoverPacket(k: Keystream, draw: Byte, noise: seq<Byte>) returns (out: Option<array<Byte>>)
    requires ValidKeystream(k) && |noise| == 30 + 4 * MAX_PAD
    ensures out.Some? <==> |k.key| == KEY_LEN
    ensures out.Some? ==>
      fresh(out.value) && out.value[..] == CoverWire(k, noise[..30 + draw as int % (MAX_PAD + 1) * 4])
  {
    if |k.key| != KEY_LEN {
      return None;
    }
    var bodyLen := 30 + draw as int % (MAX_PAD + 1) * 4;
    var packet := new Byte[HDR_LEN + bodyLen + PAD_LEN](_ => 0);
    Seal(packet, k, noise[..bodyLen] + BigEndian16(COVER_MARK));
    out := Some(packet);
  }

  /** The copy into `dst` and the decryption there. */
  method Decrypt(k: Keystream, ciphertext: seq<Byte>, dst: array<Byte>)
    requires ValidKeystream(k) && |ciphertext| <= dst.Length
    modifies dst
    ensures dst[..] == Masked(ciphertext, k) + old(dst[|ciphertext|..])
  {
    ghost var rest := dst[|ciphertext|..];
    CopyTo(dst, 0, ciphertext);
    assert dst[0..|ciphertext|] == ciphertext && dst[|ciphertext|..] == rest;
    XorKeystream(k, dst, 0, |ciphertext|);
  }

  /** unwrapPacket: decrypts into `dst`, whose tail beyond the packet is untouched. */
  method UnwrapPacket(crypto: Crypto, key: seq<Byte>, wire: seq<Byte>, dst: array<Byte>, rxDir: Byte)
    returns (verdict: Opened)
    modifies dst
    ensures verdict == Unwrap(crypto, key, wire, dst.Length, rxDir).0
    ensures var plain := Unwrap(crypto, key, wire, dst.Length, rxDir).1;
      |plain| <= dst.Length && dst[..] == plain + old(dst[|plain|..])
  {
    if |key| != KEY_LEN {
      return BadKey;
    }
    if |wire| < HDR_LEN + PAD_LEN {
      return ShortPacket;
    }
    ReadersInRange(wire);
    var k := Keystream(crypto, ReadCipher(wire), key, ReadCounter(wire), ReadSsrc(wire), rxDir);
    var ciphertext := wire[HDR_LEN..];
    if |ciphertext| > dst.Length {
      return DstTooSmall;
    }
    Decrypt(k, ciphertext, dst);
    ghost var plain := Masked(ciphertext, k);
    assert dst[..|ciphertext|] == plain;
    verdict := ReadPadding(dst, |ciphertext|);
  }

  /** The checks on the pad length at the end of the decrypted `n` bytes. */
  method ReadPadding(dst: array<Byte>, n: nat) returns (verdict: Opened)
    requires PAD_LEN <= n <= dst.Length
    ensures verdict == Unpad(dst[..n])
  {
    ghost var plain := dst[..n];
    assert plain[n - PAD_LEN..] == [dst[n - PAD_LEN], dst[n - 1]];
    var padLen := dst[n - PAD_LEN] as int * 0x100 + dst[n - 1] as int;
    if padLen == COVER_MARK {
      return Payload(0);
    }
    if padLen > MAX_PAD || PAD_LEN + padLen > n {
      return BadPadding;
    }
    return Payload(n - PAD_LEN - padLen);
  }
}
