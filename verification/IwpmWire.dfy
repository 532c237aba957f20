/** Wire messages of the iWARP port mapper: forming and parsing datagrams. */
module IwpmWire {
  import opened BigEndian
  import opened Options
  import opened IwpmAddr

  const MT_REQ: U8 := 0
  const MT_ACC: U8 := 1
  const MT_ACK: U8 := 2
  const MT_REJ: U8 := 3

  const MESSAGE_SIZE := 48
  const IPADDR_SIZE := 16

  /** iwpm_msg_parms.  The address family is a function of `ipVer`. */
  datatype Parms = Parms(
    ipVer: U8, apip: Ip16, apport: U16, cpip: Ip16, cpport: U16,
    mappedCpip: Ip16, mappedCpport: U16,
    ver: U8, mt: U8, pmtime: U8, assoc: U64)
  {
    /** The values the senders put in the packed first byte. */
    predicate WellFormed() {
      (ipVer == 4 || ipVer == 6) && ver < 4 && mt < 4
    }

    function Family(): (r: U16)
      requires ipVer == 4 || ipVer == 6
      ensures Inet(r)
    {
      if ipVer == 4 then AF_INET else AF_INET6
    }

    /** The accepting peer's address in the message. */
    function Ap(): SockAddr requires ipVer == 4 || ipVer == 6 { FromIp(Family(), apip, apport) }

    /** The connecting peer's address in the message. */
    function Cp(): SockAddr requires ipVer == 4 || ipVer == 6 { FromIp(Family(), cpip, cpport) }

    /** The connecting peer's mapped address, which only a request carries. */
    function MappedCp(): SockAddr requires ipVer == 4 || ipVer == 6 {
      FromIp(Family(), mappedCpip, mappedCpport)
    }

    /** What of the parameters reaches the receiver. */
    function Carried(): Parms {
      if mt == MT_REQ then this else this.(mappedCpip := ANY16, mappedCpport := 0)
    }
  }

  function Be16(x: U16): seq<U8> { [x / 0x100, x % 0x100] }

  function FromBe16(hi: U8, lo: U8): U16 { (hi as int) * 0x100 + lo }

  lemma Pow256Of8()
    ensures Pow256(8) == 0x1_0000_0000_0000_0000
  {
    assert Pow256(4) == 0x1_0000_0000;
  }

  /** The packed byte: IP version in bits 0-3, message type in bits 4-5, protocol
      version in bits 6-7; a value too large for its bits is masked. */
  function Magic(p: Parms): U8 {
    p.ipVer % 0x10 + (p.mt % 4) * 0x10 + (p.ver % 4) * 0x40
  }

  /** The packed byte, the time and the three ports. */
  function Head(p: Parms): (d: seq<U8>)
    ensures |d| == 8
  {
    [Magic(p), p.pmtime]
    + Be16(if p.mt == MT_REQ then p.mappedCpport else 0)
    + Be16(p.apport) + Be16(p.cpport)
  }

  /** form_iwpm_msg together with the length the form_iwpm_* wrapper sets: only a
      request carries the connecting peer's mapped address. */
  function Form(p: Parms): (d: seq<U8>)
    ensures |d| == if p.mt == MT_REQ then MESSAGE_SIZE + IPADDR_SIZE else MESSAGE_SIZE
  {
    Head(p) + Be(p.assoc, 8) + p.cpip + p.apip + (if p.mt == MT_REQ then p.mappedCpip else [])
  }

  function Assoc(d: seq<U8>): U64
    requires |d| == 8
  {
    FromBeBound(d); Pow256Of8();
    FromBe(d)
  }

  /** The length test of process_iwpm_msg followed by parse_iwpm_msg.  A request
      cut short leaves its mapped address unset; it is zero here. */
  function Parse(d: seq<U8>): (r: Option<Parms>) {
    if |d| != MESSAGE_SIZE && |d| != MESSAGE_SIZE + IPADDR_SIZE then None
    else
      var ipVer := d[0] % 0x10;
      if ipVer != 4 && ipVer != 6 then None
      else
        var mt := d[0] / 0x10 % 4;
        Some(Parms(
               ipVer,
               d[32..48], FromBe16(d[4], d[5]),
               d[16..32], FromBe16(d[6], d[7]),
               if mt == MT_REQ && |d| == 64 then d[48..64] else ANY16,
               if mt == MT_REQ then FromBe16(d[2], d[3]) else 0,
               d[0] / 0x40, mt, d[1], Assoc(d[8..16])))
  }

  /** The datagram, byte by byte. */
  lemma FormLayout(p: Parms)
    ensures var d := Form(p);
            && |d| == (if p.mt == 0 then 64 else 48)
            && d[0] == p.ipVer % 0x10 + 0x10 * (p.mt % 4) + 0x40 * (p.ver % 4) && d[1] == p.pmtime
            && (d[2] as int) * 0x100 + d[3] == (if p.mt == 0 then p.mappedCpport else 0)
            && (d[4] as int) * 0x100 + d[5] == p.apport && (d[6] as int) * 0x100 + d[7] == p.cpport
            && d[8..16] == Be(p.assoc, 8) && d[16..32] == p.cpip && d[32..48] == p.apip
            && (p.mt == 0 ==> d[48..64] == p.mappedCpip)
  {
    FormPieces(p);
  }

  lemma FormPieces(p: Parms)
    ensures var d := Form(p);
            && Head(p) <= d && d[8..16] == Be(p.assoc, 8) && d[16..32] == p.cpip && d[32..48] == p.apip
            && (p.mt == MT_REQ ==> d[48..64] == p.mappedCpip)
  {
    Pieces(Head(p), Be(p.assoc, 8), p.cpip, p.apip, if p.mt == MT_REQ then p.mappedCpip else [], Form(p));
  }

  lemma Pieces(head: seq<U8>, handle: seq<U8>, cp: seq<U8>, ap: seq<U8>, tail: seq<U8>, d: seq<U8>)
    requires d == head + handle + cp + ap + tail
    requires |head| == 8 && |handle| == 8 && |cp| == IPADDR_SIZE && |ap| == IPADDR_SIZE
    ensures head <= d && d[8..16] == handle && d[16..32] == cp && d[32..48] == ap && d[48..] == tail
  {
  }

  lemma MagicFields(p: Parms)
    requires p.WellFormed()
    ensures Magic(p) % 0x10 == p.ipVer && Magic(p) / 0x10 % 4 == p.mt && Magic(p) / 0x40 == p.ver
  {
    assert Magic(p) / 0x10 == 4 * p.ver + p.mt;
    assert (4 * p.ver + p.mt) % 4 == p.mt;
  }

  /** Whatever a port mapper forms, its peer parses back: every field of a request,
      and every field but the mapped address of the other three messages. */
  lemma RoundTrip(p: Parms)
    requires p.WellFormed()
    ensures Parse(Form(p)) == Some(p.Carried())
  {
    var d := Form(p);
    FormLayout(p);
    MagicFields(p);
    BeRoundTrip(p.assoc, 8) by { Pow256Of8(); }
  }

  /** Parsing fails on exactly the datagrams of a wrong length or IP version, and
      what it accepts is well formed. */
  lemma ParseDefined(d: seq<U8>)
    ensures Parse(d).Some? <==> |d| in {48, 64} && d[0] % 0x10 in {4, 6}
    ensures Parse(d).Some? ==> Parse(d).value.WellFormed()
  {
  }

  /** The other way round: a datagram of the length that its type calls for, with no port where
      there is no mapped address, is what its parameters form. */
  lemma FormAfterParse(d: seq<U8>)
    requires Parse(d).Some? && |d| == (if d[0] / 0x10 % 4 == 0 then 64 else 48)
    requires d[0] / 0x10 % 4 != 0 ==> d[2] == 0 && d[3] == 0
    ensures Form(Parse(d).value) == d
  {
    HeadAfterParse(d);
    FromBeRoundTrip(d[8..16]);
    InPieces(d);
  }

  lemma InPieces(d: seq<U8>)
    requires |d| >= 48
    ensures d == d[..8] + d[8..16] + d[16..32] + d[32..48] + d[48..]
  {
  }

  lemma HeadAfterParse(d: seq<U8>)
    requires Parse(d).Some? && (d[0] / 0x10 % 4 != 0 ==> d[2] == 0 && d[3] == 0)
    ensures Head(Parse(d).value) == d[..8]
  {
    MagicParsed(d);
    PortAgain(d[2], d[3]);
    PortAgain(d[4], d[5]);
    PortAgain(d[6], d[7]);
    HeadOf(Parse(d).value, d[..8]);
  }

  lemma MagicParsed(d: seq<U8>)
    requires Parse(d).Some?
    ensures Magic(Parse(d).value) == d[0]
  {
    MagicAgain(d[0]);
  }

  lemma HeadOf(p: Parms, b: seq<U8>)
    requires |b| == 8 && Magic(p) == b[0] && p.pmtime == b[1]
    requires Be16(if p.mt == MT_REQ then p.mappedCpport else 0) == [b[2], b[3]]
    requires Be16(p.apport) == [b[4], b[5]] && Be16(p.cpport) == [b[6], b[7]]
    ensures Head(p) == b
  {
  }

  lemma PortAgain(hi: U8, lo: U8)
    ensures Be16(FromBe16(hi, lo)) == [hi, lo]
  {
  }

  lemma MagicAgain(x: U8)
    ensures x / 0x40 < 4
    ensures x % 0x10 % 0x10 + (x / 0x10 % 4 % 4) * 0x10 + (x / 0x40 % 4) * 0x40 == x
  {
    assert x == x % 0x10 + x / 0x10 % 4 * 0x10 + x / 0x40 * 0x40;
  }
}
