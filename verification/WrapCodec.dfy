/** The WRAP packet format: RTP-like header, keystream, padding and cover packets.
    SHA-256 and the ChaCha20 block function are parameters. */
module WrapCodec {
  import opened Basics
  import opened WrapNonce

  const KEY_LEN := 32
  const HDR_LEN := 12
  const MAX_PAD := 32
  const PAD_LEN := 2
  const COVER_MARK := 0xFFFF
  const MAX_OVERHEAD := HDR_LEN + MAX_PAD + PAD_LEN

  type Block = b: seq<Byte> | |b| == 32 witness seq(32, _ => 0)

  /** The two primitives; `chacha(key, nonce, i)` is keystream byte `i`. */
  datatype Crypto = Crypto(sha: seq<Byte> -> Block, chacha: (seq<Byte>, seq<Byte>, nat) -> Byte)

  datatype Cipher = Sha | ChaCha

  /** Everything a packet's keystream depends on. */
  datatype Keystream = Keystream(crypto: Crypto, cipher: Cipher, key: seq<Byte>, counter: nat, ssrc: nat, dir: Byte)

  predicate ValidKeystream(k: Keystream) {
    k.counter < TWO32 && k.ssrc < TWO32
  }

  // ---------------------------------------------------------------- bytes

  function Pow2(n: nat): nat {
    if n == 0 then 1 else 2 * Pow2(n - 1)
  }

  /** Exclusive or of the low `n` bits. */
  function XorBits(a: nat, b: nat, n: nat): (x: nat)
    ensures x < Pow2(n)
  {
    if n == 0 then 0 else 2 * XorBits(a / 2, b / 2, n - 1) + (a % 2 + b % 2) % 2
  }

  function Xor(a: Byte, b: Byte): Byte {
    assert Pow2(8) == 2 * (2 * (2 * (2 * Pow2(4))));
    XorBits(a, b, 8)
  }

  lemma LowBit(rest: nat, p: nat, q: nat)
    requires p < 2 && q < 2
    ensures (2 * rest + (p + q) % 2) / 2 == rest
    ensures ((2 * rest + (p + q) % 2) % 2 + q) % 2 == p
  {
  }

  lemma {:induction false} XorBitsTwice(a: nat, b: nat, n: nat)
    requires a < Pow2(n)
    ensures XorBits(XorBits(a, b, n), b, n) == a
  {
    if n > 0 {
      XorBitsTwice(a / 2, b / 2, n - 1);
      var rest := XorBits(a / 2, b / 2, n - 1);
      LowBit(rest, a % 2, b % 2);
      var x := XorBits(a, b, n);
      assert x == 2 * rest + (a % 2 + b % 2) % 2;
      assert XorBits(x, b, n) == 2 * XorBits(rest, b / 2, n - 1) + (x % 2 + b % 2) % 2;
    }
  }

  lemma XorTwice(a: Byte, b: Byte)
    ensures Xor(Xor(a, b), b) == a
  {
    assert Pow2(8) == 2 * (2 * (2 * (2 * Pow2(4))));
    XorBitsTwice(a, b, 8);
  }

  /** Bit `i` of `x`, the lowest being bit 0. */
  function Bit(x: nat, i: nat): nat {
    if i == 0 then x % 2 else Bit(x / 2, i - 1)
  }

  lemma {:induction false} BitOfXorBits(a: nat, b: nat, n: nat, i: nat)
    requires i < n
    ensures Bit(XorBits(a, b, n), i) == 1 <==> Bit(a, i) != Bit(b, i)
  {
    LowBit(XorBits(a / 2, b / 2, n - 1), a % 2, b % 2);
    if i > 0 {
      BitOfXorBits(a / 2, b / 2, n - 1, i - 1);
    }
  }

  lemma BitIsBit(x: nat, i: nat)
    ensures Bit(x, i) < 2
  {
  }

  lemma {:induction false} BitsDetermine(a: nat, b: nat, n: nat)
    requires a < Pow2(n) && b < Pow2(n) && forall i :: 0 <= i < n ==> Bit(a, i) == Bit(b, i)
    ensures a == b
  {
    if n > 0 {
      assert Bit(a, 0) == Bit(b, 0);
      forall i | 0 <= i < n - 1 ensures Bit(a / 2, i) == Bit(b / 2, i) {
        assert Bit(a, i + 1) == Bit(b, i + 1);
      }
      BitsDetermine(a / 2, b / 2, n - 1);
    }
  }

  /** Bit `i` of `x` is set exactly if the bits of `a` and `b` differ there. */
  predicate DifferAt(x: nat, a: nat, b: nat, i: nat) {
    Bit(x, i) == 1 <==> Bit(a, i) != Bit(b, i)
  }

  /** Exclusive or, bit by bit, and the only byte with these bits. */
  lemma XorIsBitwise(a: Byte, b: Byte, x: Byte)
    ensures x == Xor(a, b) <==> forall i: nat :: i < 8 ==> DifferAt(x, a, b, i)
  {
    assert Pow2(8) == 2 * (2 * (2 * (2 * Pow2(4))));
    forall i: nat | i < 8 ensures DifferAt(Xor(a, b), a, b, i) {
      BitOfXorBits(a, b, 8, i);
    }
    if forall i: nat :: i < 8 ==> DifferAt(x, a, b, i) {
      forall i | 0 <= i < 8 ensures Bit(x, i) == Bit(Xor(a, b), i) {
        BitIsBit(x, i);
        BitIsBit(Xor(a, b), i);
        assert DifferAt(x, a, b, i) && DifferAt(Xor(a, b), a, b, i);
      }
      BitsDetermine(x, Xor(a, b), 8);
    }
  }

  function ReadBigEndian32(b: seq<Byte>): nat
    requires |b| == 4
  {
    b[0] as int * 0x1000000 + b[1] as int * 0x10000 + b[2] as int * 0x100 + b[3] as int
  }

  function ReadBigEndian16(b: seq<Byte>): nat
    requires |b| == 2
  {
    b[0] as int * 0x100 + b[1] as int
  }

  /** The nonce octet by octet: SSRC, direction, three zeros, counter. */
  lemma NonceOctets(ssrc: nat, dir: Byte, counter: nat)
    requires ssrc < TWO32 && counter < TWO32
    ensures var n := ChaChaNonce(ssrc, dir, counter);
      && ReadBigEndian32(n[..4]) == ssrc && n[4] == dir && n[5..8] == [0, 0, 0]
      && ReadBigEndian32(n[8..]) == counter
  {
    var n := ChaChaNonce(ssrc, dir, counter);
    assert n[..4] == BigEndian32(ssrc);
    assert n[8..] == BigEndian32(counter);
  }

  // ---------------------------------------------------------------- keystreams

  /** The SHA hash chain: block 0 hashes the key and the 8-byte counter, block
      n + 1 hashes block n. */
  function ShaBlock(k: Keystream, n: nat): Block
    requires ValidKeystream(k)
  {
    if n == 0 then k.crypto.sha(k.key + [0, 0, 0, 0] + BigEndian32(k.counter))
    else k.crypto.sha(ShaBlock(k, n - 1))
  }

  /** Byte `i` of the packet's keystream, seen as one flat sequence. */
  function KeystreamByte(k: Keystream, i: nat): Byte
    requires ValidKeystream(k)
  {
    match k.cipher
    case Sha => ShaBlock(k, i / 32)[i % 32]
    case ChaCha => k.crypto.chacha(k.key, ChaChaNonce(k.ssrc, k.dir, k.counter), i)
  }

  /** `n` keystream bytes from `from` on. */
  function KeystreamPart(k: Keystream, from: nat, n: nat): seq<Byte>
    requires ValidKeystream(k)
  {
    seq<Byte>(n, i requires 0 <= i < n => KeystreamByte(k, from + i))
  }

  /** The SHA keystream as bytes: the first 32 are the hash of the key and the counter
      in eight octets, and every 32 are followed by their hash. */
  lemma ShaKeystream(k: Keystream, n: nat, counter: seq<Byte>)
    requires ValidKeystream(k) && k.cipher.Sha? && |counter| == 8
    requires counter[..4] == [0, 0, 0, 0] && ReadBigEndian32(counter[4..]) == k.counter
    ensures KeystreamPart(k, 0, 32) == k.crypto.sha(k.key + counter)
    ensures KeystreamPart(k, 32 * n + 32, 32) == k.crypto.sha(KeystreamPart(k, 32 * n, 32))
  {
    BigEndian32IsOnly(counter[4..]);
    assert counter == [0, 0, 0, 0] + BigEndian32(k.counter);
    assert k.key + counter == k.key + [0, 0, 0, 0] + BigEndian32(k.counter);
    PartIsBlock(k, 0);
    PartIsBlock(k, n);
    PartIsBlock(k, n + 1);
  }

  lemma BigEndian32IsOnly(b: seq<Byte>)
    requires |b| == 4
    ensures ReadBigEndian32(b) < TWO32 && b == BigEndian32(ReadBigEndian32(b))
  {
    var v := ReadBigEndian32(b);
    var high, low := b[0] as int * 0x100 + b[1] as int, b[2] as int * 0x100 + b[3] as int;
    assert v == high * 0x10000 + low;
    assert v / 0x10000 == high && v % 0x10000 == low;
    TwoOctets(b[0], b[1]);
    TwoOctets(b[2], b[3]);
  }

  lemma TwoOctets(high: Byte, low: Byte)
    ensures var v := high as int * 0x100 + low as int; v / 0x100 == high as int && v % 0x100 == low as int
  {
  }

  lemma PartIsBlock(k: Keystream, n: nat)
    requires ValidKeystream(k) && k.cipher.Sha?
    ensures KeystreamPart(k, 32 * n, 32) == ShaBlock(k, n)
  {
    forall i | 0 <= i < 32 ensures KeystreamByte(k, 32 * n + i) == ShaBlock(k, n)[i] {
      SameBlock(32 * n, 32 * n + i);
    }
  }

  function Masked(data: seq<Byte>, k: Keystream): seq<Byte>
    requires ValidKeystream(k)
  {
    seq(|data|, i requires 0 <= i < |data| => Xor(data[i], KeystreamByte(k, i)))
  }

  lemma MaskedTwice(data: seq<Byte>, k: Keystream)
    requires ValidKeystream(k)
    ensures Masked(Masked(data, k), k) == data
  {
    forall i | 0 <= i < |data| ensures Masked(Masked(data, k), k)[i] == data[i] {
      XorTwice(data[i], KeystreamByte(k, i));
    }
  }

  /** subtle.XORBytes on `data[from .. from + n]`, against a block. */
  method XorBlock(data: array<Byte>, from: nat, n: nat, block: Block)
    requires from + n <= data.Length && n <= 32
    modifies data
    ensures forall j :: from <= j < from + n ==> data[j] == Xor(old(data[j]), block[j - from])
    ensures forall j :: 0 <= j < from || from + n <= j < data.Length ==> data[j] == old(data[j])
  {
    for p := from to from + n
      invariant forall j :: from <= j < p ==> data[j] == Xor(old(data[j]), block[j - from])
      invariant forall j :: 0 <= j < from || p <= j < data.Length ==> data[j] == old(data[j])
    {
      data[p] := Xor(data[p], block[p - from]);
    }
  }

  lemma SameBlock(start: nat, i: nat)
    requires start % 32 == 0 && start <= i < start + 32
    ensures i / 32 == start / 32 && i % 32 == i - start
  {
  }

  /** xorInPlace on `data[lo..hi]`: the keystream is produced one 32-byte block at a
      time, and the result is as if XORed with the flat keystream. */
  method XorInPlace(k: Keystream, data: array<Byte>, lo: nat, hi: nat)
    requires ValidKeystream(k) && k.cipher.Sha? && lo <= hi <= data.Length
    modifies data
    ensures data[..] == old(data[..lo]) + Masked(old(data[lo..hi]), k) + old(data[hi..])
  {
    if lo == hi {
      return;
    }
    var state := k.crypto.sha(k.key + [0, 0, 0, 0] + BigEndian32(k.counter));
    var pos := lo;
    while pos < hi
      invariant lo <= pos && (pos - lo) % 32 == 0
      invariant pos < hi ==> state == ShaBlock(k, (pos - lo) / 32)
      invariant forall j :: lo <= j < hi && j < pos ==> data[j] == Xor(old(data[j]), KeystreamByte(k, j - lo))
      invariant forall j :: 0 <= j < lo || hi <= j < data.Length ==> data[j] == old(data[j])
      invariant forall j :: pos <= j < hi ==> data[j] == old(data[j])
    {
      var n := if hi - pos > 32 then 32 else hi - pos;
      XorBlock(data, pos, n, state);
      forall j | pos <= j < pos + n ensures data[j] == Xor(old(data[j]), KeystreamByte(k, j - lo)) {
        SameBlock(pos - lo, j - lo);
      }
      if pos + 32 < hi {
        state := k.crypto.sha(state);
      }
      pos := pos + 32;
    }
  }

  /** xorKeystream on `data[lo..hi]`, with either cipher. */
  method XorKeystream(k: Keystream, data: array<Byte>, lo: nat, hi: nat)
    requires ValidKeystream(k) && lo <= hi <= data.Length
    modifies data
    ensures data[..] == old(data[..lo]) + Masked(old(data[lo..hi]), k) + old(data[hi..])
  {
    if k.cipher.Sha? {
      XorInPlace(k, data, lo, hi);
      return;
    }
    for p := lo to hi
      invariant forall j :: lo <= j < p ==> data[j] == Xor(old(data[j]), KeystreamByte(k, j - lo))
      invariant forall j :: 0 <= j < lo || p <= j < data.Length ==> data[j] == old(data[j])
    {
      data[p] := Xor(data[p], KeystreamByte(k, p - lo));
    }
  }
}
