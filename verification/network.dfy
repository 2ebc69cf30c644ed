/**
  Address selection on a named interface (network/network.go). The operating
  system's view of the interface is an input; the Go standard library's
  classification of addresses (`To4`, `IsLinkLocalUnicast`) is written out.
 */
module Network {
  import opened Wrappers
  import opened Errors

  type Byte = bv8

  const IPv4Len := 4
  const IPv6Len := 16

  /** Go's net.IP: a byte slice, 4 bytes for IPv4 and 16 for IPv6. */
  datatype IP = IP(bytes: seq<Byte>)

  /** The 12-byte prefix ::ffff:0:0/96 that embeds an IPv4 address in IPv6. */
  predicate HasV4InV6Prefix(b: seq<Byte>)
    requires |b| == IPv6Len
  {
    && (forall i :: 0 <= i < 10 ==> b[i] == 0)
    && b[10] == 0xff && b[11] == 0xff
  }

  /** Go's IP.To4: the 4-byte form of an IPv4 or IPv4-mapped address, else nil. */
  function To4(ip: IP): (r: Option<seq<Byte>>)
    ensures r.Some? ==> |r.value| == IPv4Len
    ensures r.Some? <==> |ip.bytes| == IPv4Len || (|ip.bytes| == IPv6Len && HasV4InV6Prefix(ip.bytes))
    ensures r.Some? ==> r.value == ip.bytes[|ip.bytes| - IPv4Len..]
  {
    if |ip.bytes| == IPv4Len then Some(ip.bytes)
    else if |ip.bytes| == IPv6Len && HasV4InV6Prefix(ip.bytes) then Some(ip.bytes[12..16])
    else None
  }

  /** The IPv4-mapped IPv6 address ::ffff:a.b.c.d. */
  function V4Mapped(v4: seq<Byte>): (ip: IP)
    requires |v4| == IPv4Len
    ensures |ip.bytes| == IPv6Len
  {
    IP([0, 0, 0, 0, 0, 0, 0, 0, 0, 0, 0xff, 0xff] + v4)
  }

  /** Go's IP.IsLinkLocalUnicast: 169.254.0.0/16 for IPv4, fe80::/10 for IPv6. */
  predicate IsLinkLocalUnicast(ip: IP) {
    match To4(ip)
    case Some(v4) => v4[0] == 169 && v4[1] == 254
    case None => |ip.bytes| == IPv6Len && ip.bytes[0] == 0xfe && ip.bytes[1] & 0xc0 == 0x80
  }

  /** One entry of an interface's address list; only IPNet entries are candidates. */
  datatype InterfaceAddr =
    | IPNet(ip: IP, mask: seq<Byte>)
    | OtherAddr(network: string, text: string)

  /** What the operating system reports for an interface name. */
  datatype InterfaceLookup =
    | NoSuchInterface(detail: string)       // the interface lookup failed
    | AddrsUnavailable(detail: string)      // the interface exists, its addresses could not be listed
    | Bound(addrs: seq<InterfaceAddr>)

  /** The filter of the scan: an IPNet whose address is neither IPv4 (mapped included) nor link-local. */
  predicate Qualifies(a: InterfaceAddr) {
    a.IPNet? && To4(a.ip).None? && !IsLinkLocalUnicast(a.ip)
  }

  /** Entry i qualifies and no earlier entry does. */
  ghost predicate IsFirstQualifying(addrs: seq<InterfaceAddr>, i: int) {
    && 0 <= i < |addrs|
    && Qualifies(addrs[i])
    && forall j :: 0 <= j < i ==> !Qualifies(addrs[j])
  }

  /** The scan over the address list: the address of the first qualifying entry. */
  function FirstQualifying(addrs: seq<InterfaceAddr>): (r: Option<IP>)
    ensures r.None? <==> forall i :: 0 <= i < |addrs| ==> !Qualifies(addrs[i])
    ensures r.Some? ==> exists i :: IsFirstQualifying(addrs, i) && addrs[i].ip == r.value
  {
    if addrs == [] then None
    else if Qualifies(addrs[0]) then
      assert IsFirstQualifying(addrs, 0);
      Some(addrs[0].ip)
    else
      SkipNonQualifying(addrs);
      FirstQualifying(addrs[1..])
  }

  /** Dropping a non-qualifying head shifts the first qualifying position by one. */
  lemma SkipNonQualifying(addrs: seq<InterfaceAddr>)
    requires addrs != [] && !Qualifies(addrs[0])
    ensures forall i :: IsFirstQualifying(addrs[1..], i) <==> IsFirstQualifying(addrs, i + 1)
    ensures forall i :: 0 <= i < |addrs| - 1 ==> addrs[1..][i] == addrs[i + 1]
  {
  }

  /** GetIPv6Address: interface lookup, address listing, then the scan. */
  function GetIPv6Address(name: string, lookup: InterfaceLookup): (r: Result<IP, Error>)
    ensures lookup.NoSuchInterface? ==> r == Failure(InterfaceFailed(lookup.detail))
    ensures lookup.AddrsUnavailable? ==> r == Failure(AddrsFailed(lookup.detail))
    ensures r.Success? ==>
              && lookup.Bound?
              && exists i :: IsFirstQualifying(lookup.addrs, i) && lookup.addrs[i].ip == r.value
    ensures r.Success? ==> To4(r.value).None? && !IsLinkLocalUnicast(r.value)
    ensures lookup.Bound? ==>
              (r.Failure? <==> forall i :: 0 <= i < |lookup.addrs| ==> !Qualifies(lookup.addrs[i]))
    ensures lookup.Bound? && r.Failure? ==>
              && r.error == NoIPv6Address(name)
              && r.error.Message() == "no IPv6 address found for interface " + name
  {
    match lookup
    case NoSuchInterface(d) => Failure(InterfaceFailed(d))
    case AddrsUnavailable(d) => Failure(AddrsFailed(d))
    case Bound(addrs) =>
      match FirstQualifying(addrs)
      case Some(ip) => Success(ip)
      case None => Failure(NoIPv6Address(name))
  }

  /** To4 recovers the IPv4 address embedded in an IPv4-mapped address, so such addresses never qualify. */
  lemma MappedIsIPv4(v4: seq<Byte>, mask: seq<Byte>)
    requires |v4| == IPv4Len
    ensures To4(V4Mapped(v4)) == Some(v4)
    ensures !Qualifies(IPNet(V4Mapped(v4), mask))
  {
  }

  /**
    For a 16-byte address outside ::ffff:0:0/96, Go's mask test on the second
    byte is exactly membership in fe80::/10 (section 2.5.6 of RFC 4291).
   */
  lemma LinkLocalIsFe80Slash10(ip: IP)
    requires |ip.bytes| == IPv6Len && !HasV4InV6Prefix(ip.bytes)
    ensures IsLinkLocalUnicast(ip) <==> ip.bytes[0] == 0xfe && 0x80 <= ip.bytes[1] < 0xc0
  {
  }

  const SampleV4 := IPNet(IP([192, 168, 1, 10]), [255, 255, 255, 0])
  const SampleLinkLocal := IPNet(IP([0xfe, 0x80, 0, 0, 0, 0, 0, 0, 0, 0, 0, 0, 0, 0, 0, 1]), [])
  const SampleGlobal := IP([0x20, 0x01, 0x0d, 0xb8, 0, 0, 0, 0, 0, 0, 0, 0, 0, 0, 0, 1])

  /** A global IPv6 address listed after an IPv4 and a link-local address is the one chosen. */
  lemma SkipsIPv4AndLinkLocal()
    ensures GetIPv6Address("eth0", Bound([SampleV4, SampleLinkLocal, IPNet(SampleGlobal, [])])) == Success(SampleGlobal)
  {
    SampleClassification();
    var addrs := [SampleV4, SampleLinkLocal, IPNet(SampleGlobal, [])];
    assert addrs[1..] == [SampleLinkLocal, IPNet(SampleGlobal, [])];
    assert addrs[1..][1..] == [IPNet(SampleGlobal, [])];
    assert FirstQualifying(addrs[1..][1..]) == Some(SampleGlobal);
    assert FirstQualifying(addrs[1..]) == Some(SampleGlobal);
    assert FirstQualifying(addrs) == Some(SampleGlobal);
  }

  /** With only an IPv4 and a link-local address the lookup reports that no IPv6 address exists. */
  lemma NothingQualifies()
    ensures GetIPv6Address("eth0", Bound([SampleV4, SampleLinkLocal])) == Failure(NoIPv6Address("eth0"))
  {
  }

  lemma SampleClassification()
    ensures !Qualifies(SampleV4) && !Qualifies(SampleLinkLocal) && Qualifies(IPNet(SampleGlobal, []))
  {
  }
}
