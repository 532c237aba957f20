/** Socket addresses as the iWARP port mapper handles them.

    `SockAddr` follows the memory layout of `sockaddr_storage`: the family, the
    port, the four bytes that hold an IPv4 address (or the IPv6 flow label) and
    the sixteen bytes that hold an IPv6 address.  Reading an address under the
    other family therefore gives the bytes the C code would read. */
module IwpmAddr {
  import BigEndian

  type U8 = BigEndian.U8
  type U16 = x: int | 0 <= x < 0x1_0000
  type U64 = x: int | 0 <= x < 0x1_0000_0000_0000_0000

  type Ip4 = s: seq<U8> | |s| == 4 witness [0, 0, 0, 0]
  type Ip16 = s: seq<U8> | |s| == 16 witness [0, 0, 0, 0, 0, 0, 0, 0, 0, 0, 0, 0, 0, 0, 0, 0]

  const AF_INET: U16 := 2
  const AF_INET6: U16 := 10

  const ANY4: Ip4 := [0, 0, 0, 0]
  const ANY16: Ip16 := [0, 0, 0, 0, 0, 0, 0, 0, 0, 0, 0, 0, 0, 0, 0, 0]

  datatype SockAddr = SockAddr(family: U16, port: U16, word: Ip4, ip6: Ip16)

  predicate Inet(family: U16) {
    family == AF_INET || family == AF_INET6
  }

  /** get_sockaddr_port: a port is only read from an Internet address. */
  function Port(a: SockAddr): U16 {
    if Inet(a.family) then a.port else 0
  }

  /** check_same_sockaddr: no address of a foreign family is the same as anything. */
  predicate Same(a: SockAddr, b: SockAddr) {
    && a.family == b.family
    && a.port == b.port
    && (if a.family == AF_INET then a.word == b.word
        else a.family == AF_INET6 && a.ip6 == b.ip6)
  }

  /** is_wcard_ipaddr */
  predicate IsWildcard(a: SockAddr) {
    if a.family == AF_INET then a.word == ANY4
    else a.family == AF_INET6 && a.ip6 == ANY16
  }

  /** copy_iwpm_sockaddr into a socket address.  The bytes that the C code leaves
      uninitialised are zero here; no function reads them under this family. */
  function FromIp(family: U16, ip: Ip16, port: U16): (a: SockAddr)
    requires Inet(family)
  {
    if family == AF_INET then SockAddr(AF_INET, port, ip[..4], ANY16)
    else SockAddr(AF_INET6, port, ANY4, ip)
  }

  /** copy_iwpm_sockaddr into the address bytes of a message: an IPv4 address
      overwrites the first four bytes only.  The port copied with it is `a.port`. */
  function ToIp(family: U16, a: SockAddr, ip: Ip16): (r: Ip16)
    requires Inet(family)
  {
    if family == AF_INET then a.word + ip[4..] else a.ip6
  }

  /** `a` read under `family`, as a message carries it. */
  function View(family: U16, a: SockAddr): (r: SockAddr)
    requires Inet(family)
  {
    FromIp(family, ToIp(family, a, ANY16), a.port)
  }

  /** Every test on an address sees the same thing before and after the address
      has travelled in a message of its own family. */
  lemma ViewIndistinguishable(a: SockAddr, x: SockAddr)
    requires Inet(a.family)
    ensures var v := View(a.family, a);
            && Same(v, a) && Port(v) == Port(a) && IsWildcard(v) == IsWildcard(a)
            && Same(v, x) == Same(a, x) && Same(x, v) == Same(x, a)
  {
    assert (a.word + ANY16[4..])[..4] == a.word;
  }

  /** The bytes that carry an address: four of them for family 2, in front of what was there,
      and sixteen for family 10. */
  lemma CarriedBytes(a: SockAddr, ip: Ip16, port: U16)
    ensures ToIp(2, a, ip)[..4] == a.word && ToIp(2, a, ip)[4..] == ip[4..] && ToIp(10, a, ip) == a.ip6
    ensures var b, c := FromIp(2, ip, port), FromIp(10, ip, port);
            && b.family == 2 && b.port == port && b.word == ip[..4]
            && c.family == 10 && c.port == port && c.ip6 == ip
  {
  }

  /** Two addresses are the same if they have one of the two families in common and travel as
      the same port and bytes. */
  lemma SameExactly(a: SockAddr, b: SockAddr)
    ensures Same(a, b) <==> a.family in {2, 10} && a.family == b.family && a.port == b.port
                            && ToIp(a.family, a, ANY16) == ToIp(a.family, b, ANY16)
  {
    if a.family == 2 {
      CarriedBytes(a, ANY16, 0);
      CarriedBytes(b, ANY16, 0);
    }
  }

  predicate Zeros(s: seq<U8>) { forall i :: 0 <= i < |s| ==> s[i] == 0 }

  /** A wildcard is an address all of whose bytes are zero. */
  lemma WildcardExactly(a: SockAddr)
    ensures IsWildcard(a) <==> a.family in {2, 10} && Zeros(ToIp(a.family, a, ANY16))
  {
    if a.family == 2 { WordWildcard(a); }
    else if a.family == 10 { WideWildcard(a.ip6); }
  }

  lemma WordWildcard(a: SockAddr)
    ensures Zeros(ToIp(AF_INET, a, ANY16)) <==> a.word == ANY4
  {
    var ip := ToIp(AF_INET, a, ANY16);
    assert forall i :: 0 <= i < 4 ==> ip[i] == a.word[i];
  }

  lemma WideWildcard(ip: Ip16)
    ensures Zeros(ip) <==> ip == ANY16
  {
    if Zeros(ip) { assert forall i :: 0 <= i < 16 ==> ip[i] == ANY16[i]; }
  }
}
