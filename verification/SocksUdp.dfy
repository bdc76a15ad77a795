/** The header in front of every datagram of a SOCKS5 UDP association (RFC 1928,
    section 7): RSV(2), FRAG(1), ATYP(1), ADDR, PORT(2), DATA. */
module SocksUdp {
  import opened Basics

  const ATYP_IPV4: Byte := 1
  const ATYP_DOMAIN: Byte := 3
  const ATYP_IPV6: Byte := 4

  /** A host: an address, or a name that goes on the wire as such. */
  datatype Host = V4(address: Bytes) | V6(address: Bytes) | Domain(name: Bytes)

  datatype Datagram = Datagram(host: Host, port: int, data: Bytes)

  predicate IsHost(h: Host) {
    match h
    case V4(a) => |a| == 4
    case V6(a) => |a| == 16
    case Domain(_) => true
  }

  predicate IsMapped(a: Bytes) {
    |a| == 16 && a[..12] == [0, 0, 0, 0, 0, 0, 0, 0, 0, 0, 255, 255]
  }

  /** net.ParseIP: the address a text denotes, if it denotes one. */
  type AddressText = Bytes -> Option<Host>

  predicate IsAddress(h: Host) {
    (h.V4? && |h.address| == 4) || (h.V6? && |h.address| == 16 && !IsMapped(h.address))
  }

  ghost predicate IsAddressText(ip: AddressText) {
    forall t :: ip(t).Some? ==> IsAddress(ip(t).value)
  }

  /** The program keeps a host as its text. So an IPv4 address in IPv6 form is the
      IPv4 address, and a name that spells an address is that address. */
  function Normal(ip: AddressText, h: Host): Host {
    match h
    case V4(_) => h
    case V6(a) => if IsMapped(a) then V4(a[12..]) else h
    case Domain(name) => if ip(name).Some? then ip(name).value else h
  }

  // ---------------------------------------------------------------- the two directions, by position

  /** The position behind the address, where the type octet is known. */
  function AddressEnd(b: Bytes): Option<nat>
    requires |b| >= 4
  {
    if b[3] == ATYP_IPV4 then Some(8)
    else if b[3] == ATYP_IPV6 then Some(20)
    else if b[3] == ATYP_DOMAIN then Some(5 + if |b| >= 5 then b[4] as nat else 0)
    else None
  }

  predicate Accepted(b: Bytes) {
    && |b| >= 4
    && b[2] == 0
    && AddressEnd(b).Some?
    && AddressEnd(b).value + 2 <= |b|
  }

  function HostAt(b: Bytes): Host
    requires Accepted(b)
  {
    var e := AddressEnd(b).value;
    if b[3] == ATYP_IPV4 then V4(b[4..e]) else if b[3] == ATYP_IPV6 then V6(b[4..e]) else Domain(b[5..e])
  }

  function Parse(ip: AddressText, b: Bytes): Option<Datagram> {
    if !Accepted(b) then None
    else
      var e := AddressEnd(b).value;
      Some(Datagram(Normal(ip, HostAt(b)), b[e] as int * 256 + b[e + 1], b[e + 2..]))
  }

  function AddressBytes(h: Host): Bytes {
    match h
    case V4(a) => [ATYP_IPV4] + a
    case V6(a) => [ATYP_IPV6] + a
    case Domain(name) => [ATYP_DOMAIN, |name| % 256] + name
  }

  function Build(ip: AddressText, d: Datagram): Bytes {
    [0, 0, 0] + AddressBytes(Normal(ip, d.host)) + BigEndian16(d.port % 65536) + d.data
  }

  /** `byte(port>>8), byte(port)` are the octets of the port's low 16 bits. */
  lemma PortOctets(port: int)
    ensures BigEndian16(port % 65536) == [port / 256 % 256, port % 256]
  {
    var q, p := port / 65536, port % 65536;
    assert port == 65536 * q + p;
    assert port / 256 == 256 * q + p / 256;
  }

  // ---------------------------------------------------------------- the program's own code

  /** The parser, consuming `rest` piece by piece. It rejects exactly the
      truncated, the fragmented and those of unknown address type. */
  method ParseUDPHeader(ip: AddressText, b: Bytes) returns (result: Option<Datagram>)
    ensures result == Parse(ip, b)
    ensures result == None <==> !Accepted(b)
  {
    if |b| < 4 || b[2] != 0 {
      return None;
    }
    var atyp := b[3];
    var rest := b[4..];
    var host: Host;
    if atyp == ATYP_IPV4 {
      if |rest| < 4 {
        return None;
      }
      host := V4(rest[..4]);
      assert rest[..4] == b[4..8];
      rest := rest[4..];
    } else if atyp == ATYP_IPV6 {
      if |rest| < 16 {
        return None;
      }
      host := V6(rest[..16]);
      assert rest[..16] == b[4..20];
      rest := rest[16..];
    } else if atyp == ATYP_DOMAIN {
      if |rest| < 1 {
        return None;
      }
      var l := rest[0];
      rest := rest[1..];
      if |rest| < l {
        return None;
      }
      host := Domain(rest[..l]);
      assert rest[..l] == b[5..5 + l];
      rest := rest[l..];
    } else {
      return None;
    }
    assert rest == b[|b| - |rest|..];
    if |rest| < 2 {
      return None;
    }
    var port := rest[0] as int * 256 + rest[1];
    result := Some(Datagram(Normal(ip, host), port, rest[2..]));
  }

  method BuildUDPHeader(ip: AddressText, host: Host, port: int, data: Bytes) returns (out: Bytes)
    requires IsHost(host)
    ensures out == Build(ip, Datagram(host, port, data))
  {
    out := [0, 0, 0];
    var normal := Normal(ip, host);
    match normal {
      case Domain(name) =>
        out := out + [ATYP_DOMAIN, |name| % 256];
        out := out + name;
      case V4(a) =>
        out := out + [ATYP_IPV4];
        out := out + a;
      case V6(a) =>
        out := out + [ATYP_IPV6];
        out := out + a;
    }
    assert out == [0, 0, 0] + AddressBytes(normal);
    PortOctets(port);
    out := out + [port / 256 % 256, port % 256];
    out := out + data;
  }

  /** The header octet by octet: two reserved and the fragment octet zero, address type 1,
      4 or 3 and the address, a name behind its length, and the port's high octet first. */
  lemma HeaderOctets(ip: AddressText, d: Datagram)
    ensures var port := [d.port / 256 % 256, d.port % 256];
      Build(ip, d) == match Normal(ip, d.host)
                      case V4(a) => [0, 0, 0, 1] + a + port + d.data
                      case V6(a) => [0, 0, 0, 4] + a + port + d.data
                      case Domain(name) => [0, 0, 0, 3, |name| % 256] + name + port + d.data
  {
    PortOctets(d.port);
    var h := Normal(ip, d.host);
    match h
    case V4(a) => assert [0, 0, 0] + AddressBytes(h) == [0, 0, 0, 1] + a;
    case V6(a) => assert [0, 0, 0] + AddressBytes(h) == [0, 0, 0, 4] + a;
    case Domain(name) => assert [0, 0, 0] + AddressBytes(h) == [0, 0, 0, 3, |name| % 256] + name;
  }

  /** Exactly the IPv6 addresses ::ffff:a.b.c.d are sent as the IPv4 address a.b.c.d. */
  lemma MappedExactly(ip: AddressText, a: Bytes, low: Bytes)
    requires |a| == 16 && |low| == 4
    ensures Normal(ip, V6(a)) == V4(low) <==> a == [0, 0, 0, 0, 0, 0, 0, 0, 0, 0, 255, 255] + low
    ensures Normal(ip, V6(a)) == V6(a) <==> a[..12] != [0, 0, 0, 0, 0, 0, 0, 0, 0, 0, 255, 255]
  {
    assert a == a[..12] + a[12..];
  }

  /** A datagram is accepted exactly if it is not a fragment, its address type is 1, 4 or
      3, and it is long enough for the address and the port. */
  lemma AcceptedExactly(ip: AddressText, b: Bytes)
    ensures Parse(ip, b).Some? <==>
      && |b| >= 5 && b[2] == 0
      && ((b[3] == 1 && |b| >= 10) || (b[3] == 4 && |b| >= 22) || (b[3] == 3 && |b| >= 7 + b[4] as int))
  {
  }

  // ---------------------------------------------------------------- round trips

  /** A built header, piece by piece. */
  lemma PiecesAreRead(address: Bytes, port: Bytes, data: Bytes)
    requires |address| >= 2 && |port| == 2
    ensures
      var b := [0, 0, 0] + address + port + data;
      && |b| == 5 + |address| + |data|
      && b[..3] == [0, 0, 0]
      && b[3] == address[0] && b[4] == address[1]
      && b[4..3 + |address|] == address[1..]
      && b[5..3 + |address|] == address[2..]
      && b[3 + |address|] == port[0] && b[4 + |address|] == port[1]
      && b[5 + |address|..] == data
  {
  }

  /** What the parser makes of a built header when the name's length fits. */
  lemma BuiltIsParsed(ip: AddressText, d: Datagram)
    requires IsHost(d.host) && IsAddressText(ip)
    requires Normal(ip, d.host).Domain? ==> |d.host.name| <= 255
    ensures Parse(ip, Build(ip, d)) == Some(Datagram(Normal(ip, d.host), d.port % 65536, d.data))
  {
    var h, b := Normal(ip, d.host), Build(ip, d);
    PiecesAreRead(AddressBytes(h), BigEndian16(d.port % 65536), d.data);
    AddressIsRead(b, h);
    NormalTwice(ip, d.host);
  }

  lemma NormalTwice(ip: AddressText, h: Host)
    requires IsHost(h) && IsAddressText(ip)
    ensures Normal(ip, Normal(ip, h)) == Normal(ip, h) && IsHost(Normal(ip, h))
  {
  }

  /** A header that begins with the octets of a host is accepted and read as it. */
  lemma AddressIsRead(b: Bytes, h: Host)
    requires IsHost(h) && (h.Domain? ==> |h.name| <= 255)
    requires |b| >= 5 + |AddressBytes(h)| && b[2] == 0 && b[3] == AddressBytes(h)[0] && b[4] == AddressBytes(h)[1]
    requires b[4..3 + |AddressBytes(h)|] == AddressBytes(h)[1..]
    requires b[5..3 + |AddressBytes(h)|] == AddressBytes(h)[2..]
    ensures Accepted(b) && AddressEnd(b).value == 3 + |AddressBytes(h)| && HostAt(b) == h
  {
  }

  /** A longer name leaves a length octet that cuts it short. */
  lemma LongNameIsCut(ip: AddressText, d: Datagram)
    requires IsAddressText(ip) && Normal(ip, d.host).Domain? && |d.host.name| > 255
    ensures Parse(ip, Build(ip, d)).Some?
    ensures Parse(ip, Build(ip, d)).value.host == Normal(ip, Domain(d.host.name[..|d.host.name| % 256]))
  {
    PiecesAreRead(AddressBytes(d.host), BigEndian16(d.port % 65536), d.data);
    CutName(ip, Build(ip, d), d.host.name, |d.host.name| % 256);
  }

  lemma CutName(ip: AddressText, b: Bytes, name: Bytes, k: nat)
    requires k + 2 <= |name| && 5 + |name| <= |b| && b[5..5 + |name|] == name
    requires b[2] == 0 && b[3] == ATYP_DOMAIN && b[4] == k
    ensures Parse(ip, b).Some? && Parse(ip, b).value.host == Normal(ip, Domain(name[..k]))
  {
    assert b[5..5 + k] == b[5..5 + |name|][..k];
  }

  /** Parsing a built header gives back host, port and data exactly when the port is a
      16-bit number and the host, if it is a name and no address, has at most 255
      octets. */
  lemma RoundTripExactly(ip: AddressText, d: Datagram)
    requires IsHost(d.host) && IsAddressText(ip)
    ensures Parse(ip, Build(ip, d)) == Some(Datagram(Normal(ip, d.host), d.port, d.data))
            <==> 0 <= d.port < 65536 && (Normal(ip, d.host).Domain? ==> |d.host.name| <= 255)
  {
    if Normal(ip, d.host).Domain? && |d.host.name| > 255 {
      LongNameIsCut(ip, d);
    } else {
      BuiltIsParsed(ip, d);
    }
  }

  /** The header names its host in the one form the builder uses. */
  predicate PlainAddress(ip: AddressText, b: Bytes)
    requires Accepted(b)
  {
    && !(b[3] == ATYP_IPV6 && IsMapped(b[4..20]))
    && !(b[3] == ATYP_DOMAIN && ip(b[5..AddressEnd(b).value]).Some?)
  }

  /** Building from what was parsed gives back the very octets exactly when the
      reserved ones are zero, no IPv4 address came in IPv6 form, and no name spells
      an address. */
  lemma RebuiltExactly(ip: AddressText, b: Bytes)
    requires Accepted(b) && IsAddressText(ip)
    ensures Build(ip, Parse(ip, b).value) == b <==> b[0] == 0 && b[1] == 0 && PlainAddress(ip, b)
  {
    var d, e := Parse(ip, b).value, AddressEnd(b).value;
    PiecesAreRead(AddressBytes(Normal(ip, d.host)), BigEndian16(d.port % 65536), d.data);
    if PlainAddress(ip, b) {
      AddressIsCopied(ip, b);
      assert BigEndian16(d.port % 65536) == [b[e], b[e + 1]];
      SamePieces(b, e);
    } else {
      AddressChangesForm(ip, b);
    }
  }

  /** Rejoining the pieces of a header, with the first three octets zero. */
  lemma SamePieces(b: Bytes, e: nat)
    requires 3 <= e && e + 2 <= |b| && b[2] == 0
    ensures [0, 0, 0] + b[3..e] + [b[e], b[e + 1]] + b[e + 2..] == b <==> b[0] == 0 && b[1] == 0
  {
    var out := [0, 0, 0] + b[3..e] + [b[e], b[e + 1]] + b[e + 2..];
    assert |out| == |b| && out[0] == 0 && out[1] == 0;
    assert forall k :: 2 <= k < |b| ==> out[k] == b[k];
  }

  lemma AddressIsCopied(ip: AddressText, b: Bytes)
    requires Accepted(b) && PlainAddress(ip, b)
    ensures AddressBytes(Normal(ip, Parse(ip, b).value.host)) == b[3..AddressEnd(b).value]
  {
    var e := AddressEnd(b).value;
    if b[3] == ATYP_DOMAIN {
      assert b[3..e] == [b[3], b[4]] + b[5..e];
    } else {
      assert b[3..e] == [b[3]] + b[4..e];
    }
  }

  lemma AddressChangesForm(ip: AddressText, b: Bytes)
    requires Accepted(b) && !PlainAddress(ip, b) && IsAddressText(ip)
    ensures AddressBytes(Normal(ip, Parse(ip, b).value.host))[0] != b[3]
  {
  }
}
