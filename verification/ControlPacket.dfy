/** The header LCP and IPCP share (section 5 of RFC 1661): code, identifier and a two-byte length that
    counts the header; the option area follows, and link padding may follow that. */
module ControlPacket {
  import opened Wire

  const CONF_REQ: byte := 1
  const CONF_ACK: byte := 2
  const CONF_NAK: byte := 3
  const CONF_REJ: byte := 4
  const TERM_REQ: byte := 5
  const TERM_ACK: byte := 6
  const ECHO_REQ: byte := 9
  const ECHO_REPLY: byte := 10

  const HEADER := 4

  /** The identifier of every packet of ours; it is never advanced. */
  const PKT_ID: byte := 1

  /** The length field is at least the header and stays inside the packet. */
  predicate Sound(pkt: seq<byte>) {
    |pkt| >= HEADER && HEADER <= ReadBe16(pkt[2..]) <= |pkt|
  }

  function Area(pkt: seq<byte>): seq<byte>
    requires Sound(pkt)
  {
    pkt[HEADER..ReadBe16(pkt[2..])]
  }

  /** What a Configure-Request is answered with: the option area sent back, if anything is. */
  datatype Reply = Silent | Acked(area: seq<byte>) | Nakked(area: seq<byte>) | Rejected(area: seq<byte>)

  /** A packet of ours around an option area; the length is cast to 16 bits. */
  function Build(code: byte, id: byte, area: seq<byte>): (pkt: seq<byte>)
    ensures |pkt| == HEADER + |area|
  {
    [code, id] + Be16((HEADER + |area|) % 0x1_0000) + area
  }

  lemma BuildIsSound(code: byte, id: byte, area: seq<byte>)
    requires HEADER + |area| < 0x1_0000
    ensures Sound(Build(code, id, area)) && Area(Build(code, id, area)) == area
  {
    var pkt := Build(code, id, area);
    assert pkt[2..] == Be16(HEADER + |area|) + area;
    Be16RoundTrip(HEADER + |area|, area);
  }

  /** Requests of ours are cut to a size that leaves room for an Ethernet header, which is then put in front all the same:
      so many zeros follow the packet. */
  const LEFT_OVER: seq<byte> := [0, 0, 0, 0, 0, 0, 0, 0, 0, 0, 0, 0, 0, 0]

  function Request(code: byte, area: seq<byte>): (pkt: seq<byte>)
    ensures |pkt| == HEADER + |area| + 14
  {
    Build(code, PKT_ID, area) + LEFT_OVER
  }

  /** The length field leaves the zeros out. */
  lemma RequestIsSound(code: byte, area: seq<byte>)
    requires HEADER + |area| < 0x1_0000
    ensures Sound(Request(code, area)) && Area(Request(code, area)) == area
  {
    var pkt := Request(code, area);
    assert pkt[2..] == Be16(HEADER + |area|) + (area + LEFT_OVER);
    Be16RoundTrip(HEADER + |area|, area + LEFT_OVER);
    assert pkt[HEADER..HEADER + |area|] == area;
  }

  /** A Configure-Nak made from the request packet, with `area` in place of its option area. */
  function NakPacket(pkt: seq<byte>, area: seq<byte>): seq<byte>
    requires Sound(pkt)
  {
    [CONF_NAK] + pkt[1..HEADER] + area + pkt[HEADER + |Area(pkt)|..]
  }
}
