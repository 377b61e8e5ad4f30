/** Ethernet headers with up to two VLAN tags: taking one off a frame, and making one for the answer. */
module Encapsulation {
  import opened Wire

  const ETH_VLAN: u16 := 0x8100
  const ETH_HEADER := 14
  const VLAN_HEADER := 4

  datatype Encap = Encap(source: Mac, destination: Mac, outer: u16, inner: u16, etype: u16)

  /** A VLAN id is the low twelve bits of its field. */
  function VlanId(s: seq<byte>): u16
    requires |s| >= 2
  {
    ReadBe16(s) % 0x1000
  }

  /** The frame holds every header its ethertypes announce. */
  predicate Readable(pkt: seq<byte>) {
    && |pkt| >= ETH_HEADER
    && (ReadBe16(pkt[12..]) == ETH_VLAN ==> |pkt| >= 18 && (ReadBe16(pkt[16..]) == ETH_VLAN ==> |pkt| >= 22))
  }

  /** The parsing constructor, and what is left of the frame; `o` and `i` are the VLANs to assume without tags. */
  function Parse(pkt: seq<byte>, o: u16, i: u16): (Encap, seq<byte>)
    requires Readable(pkt)
  {
    var dst, src, etype := pkt[..6], pkt[6..12], ReadBe16(pkt[12..]);
    if etype != ETH_VLAN then (Encap(src, dst, o, i, etype), pkt[14..])
    else if ReadBe16(pkt[16..]) != ETH_VLAN then (Encap(src, dst, VlanId(pkt[14..]), i, ReadBe16(pkt[16..])), pkt[18..])
    else (Encap(src, dst, VlanId(pkt[14..]), VlanId(pkt[18..]), ReadBe16(pkt[20..])), pkt[22..])
  }

  /** The header of an answer to `e`. An inner tag without an outer one makes room that is never filled. */
  function Header(e: Encap, mac: Mac, etype: u16): seq<byte> {
    e.source + mac +
    if e.outer == 0 then Be16(etype) + if e.inner != 0 then [0, 0, 0, 0] else []
    else if e.inner == 0 then Be16(ETH_VLAN) + Be16(e.outer) + Be16(etype)
    else Be16(ETH_VLAN) + Be16(e.outer) + Be16(ETH_VLAN) + Be16(e.inner) + Be16(etype)
  }

  /** The header of an answer to a frame with no, one or two tags, by its bytes: the sender of the frame is the destination,
      our own address the source, the tags are announced by 0x8100, and the ethertype stands last. */
  lemma HeaderBytes(e: Encap, mac: Mac, etype: u16)
    requires e.outer == 0 ==> e.inner == 0
    ensures var h := Header(e, mac, etype);
            && |h| >= 14 && h[..6] == e.source && h[6..12] == mac && ReadBe16(h[|h| - 2..]) == etype
            && (e.outer == 0 ==> |h| == 14)
            && (e.outer != 0 && e.inner == 0 ==> |h| == 18 && Tagged(h, 12, e.outer))
            && (e.outer != 0 && e.inner != 0 ==> |h| == 22 && Tagged(h, 12, e.outer) && Tagged(h, 16, e.inner))
  {
    var h := Header(e, mac, etype);
    Be16RoundTrip(etype, []);
    assert h[|h| - 2..] == Be16(etype) + [];
    if e.outer != 0 {
      Be16RoundTrip(e.outer, []);
      assert h[12..14] == [0x81, 0x00] && h[14..16] == Be16(e.outer) + [];
      if e.inner != 0 {
        Be16RoundTrip(e.inner, []);
        assert h[16..18] == [0x81, 0x00] && h[18..20] == Be16(e.inner) + [];
      }
    }
  }

  /** A tag for VLAN `id` stands at this place. */
  predicate Tagged(s: seq<byte>, at: nat, id: u16) {
    at + 4 <= |s| && s[at] == 0x81 && s[at + 1] == 0x00 && ReadBe16(s[at + 2..at + 4]) == id
  }

  /** The header of an answer leads back to the sender, with the same VLANs, and is taken off completely. */
  ghost predicate ComesBack(e: Encap, mac: Mac, etype: u16, payload: seq<byte>) {
    var pkt := Header(e, mac, etype) + payload;
    Readable(pkt) && Parse(pkt, 0, 0) == (Encap(mac, e.source, e.outer, e.inner, etype), payload)
  }

  /** What the code can represent: ids of twelve bits, no inner tag without an outer one, and an ethertype that is not
      taken for one more tag. */
  predicate Representable(e: Encap, etype: u16) {
    e.outer < 0x1000 && e.inner < 0x1000 && (e.outer == 0 ==> e.inner == 0) && (etype == ETH_VLAN ==> e.inner != 0)
  }

  lemma UntaggedFields(e: Encap, mac: Mac, etype: u16, payload: seq<byte>)
    requires e.outer == 0
    ensures var pkt, room := Header(e, mac, etype) + payload, if e.inner != 0 then [0, 0, 0, 0] else [];
            pkt[..6] == e.source && pkt[6..12] == mac && ReadBe16(pkt[12..]) == etype && pkt[14..] == room + payload
  {
    var pkt, room := Header(e, mac, etype) + payload, if e.inner != 0 then [0, 0, 0, 0] else [];
    assert pkt[12..] == Be16(etype) + (room + payload);
    Be16RoundTrip(etype, room + payload);
  }

  lemma TaggedFields(e: Encap, mac: Mac, etype: u16, payload: seq<byte>)
    requires e.outer != 0
    ensures var pkt := Header(e, mac, etype) + payload;
            && pkt[..6] == e.source && pkt[6..12] == mac && ReadBe16(pkt[12..]) == ETH_VLAN
            && ReadBe16(pkt[14..]) == e.outer && |pkt| >= 18
            && pkt[16..] == (if e.inner != 0 then Be16(ETH_VLAN) + Be16(e.inner) else []) + Be16(etype) + payload
  {
    var pkt := Header(e, mac, etype) + payload;
    var rest := (if e.inner != 0 then Be16(ETH_VLAN) + Be16(e.inner) else []) + Be16(etype) + payload;
    assert pkt[12..] == Be16(ETH_VLAN) + (Be16(e.outer) + rest);
    Be16RoundTrip(ETH_VLAN, Be16(e.outer) + rest);
    assert pkt[14..] == Be16(e.outer) + rest;
    Be16RoundTrip(e.outer, rest);
  }

  lemma InnerFields(e: Encap, mac: Mac, etype: u16, payload: seq<byte>)
    requires e.outer != 0
    ensures var pkt := Header(e, mac, etype) + payload;
            if e.inner == 0 then ReadBe16(pkt[16..]) == etype && pkt[18..] == payload
            else |pkt| >= 22 && ReadBe16(pkt[16..]) == ETH_VLAN && ReadBe16(pkt[18..]) == e.inner &&
                 ReadBe16(pkt[20..]) == etype && pkt[22..] == payload
  {
    var pkt := Header(e, mac, etype) + payload;
    TaggedFields(e, mac, etype, payload);
    var tail := pkt[16..];
    if e.inner == 0 {
      assert tail == Be16(etype) + payload;
      Be16RoundTrip(etype, payload);
      assert pkt[18..] == tail[2..];
    } else {
      assert tail == Be16(ETH_VLAN) + (Be16(e.inner) + (Be16(etype) + payload));
      Be16RoundTrip(ETH_VLAN, Be16(e.inner) + (Be16(etype) + payload));
      assert pkt[18..] == tail[2..] == Be16(e.inner) + (Be16(etype) + payload);
      Be16RoundTrip(e.inner, Be16(etype) + payload);
      assert pkt[20..] == tail[4..] == Be16(etype) + payload;
      Be16RoundTrip(etype, payload);
      assert pkt[22..] == tail[6..] == payload;
    }
  }

  /** The answer's header comes back if and only if it could be represented. */
  lemma ComesBackIff(e: Encap, mac: Mac, etype: u16, payload: seq<byte>)
    ensures ComesBack(e, mac, etype, payload) <==> Representable(e, etype)
  {
    if e.outer == 0 {
      UntaggedComesBackIff(e, mac, etype, payload);
    } else {
      TaggedComesBackIff(e, mac, etype, payload);
    }
  }

  lemma UntaggedComesBackIff(e: Encap, mac: Mac, etype: u16, payload: seq<byte>)
    requires e.outer == 0
    ensures ComesBack(e, mac, etype, payload) <==> Representable(e, etype)
  {
    var pkt := Header(e, mac, etype) + payload;
    UntaggedFields(e, mac, etype, payload);
    if etype == ETH_VLAN && Readable(pkt) && e.inner == 0 {
      assert |Parse(pkt, 0, 0).1| < |payload|;
    } else if etype == ETH_VLAN && Readable(pkt) {
      assert pkt[16..] == [0, 0] + payload;
      assert ReadBe16(pkt[16..]) == 0;
    } else if etype != ETH_VLAN && e.inner != 0 {
      assert |Parse(pkt, 0, 0).1| > |payload|;
    }
  }

  lemma TaggedComesBackIff(e: Encap, mac: Mac, etype: u16, payload: seq<byte>)
    requires e.outer != 0
    ensures ComesBack(e, mac, etype, payload) <==> Representable(e, etype)
  {
    var pkt := Header(e, mac, etype) + payload;
    TaggedFields(e, mac, etype, payload);
    InnerFields(e, mac, etype, payload);
    if etype == ETH_VLAN && e.inner == 0 && Readable(pkt) {
      assert |Parse(pkt, 0, 0).1| < |payload|;
    }
  }

  /** For a frame that was received, the answer comes back unless its outer tag had id 0 with another tag inside. */
  lemma AnswerReachesSender(pkt: seq<byte>, mac: Mac, etype: u16, payload: seq<byte>)
    requires Readable(pkt) && etype != ETH_VLAN
    ensures var e := Parse(pkt, 0, 0).0; ComesBack(e, mac, etype, payload) <==> (e.outer == 0 ==> e.inner == 0)
  {
    ComesBackIff(Parse(pkt, 0, 0).0, mac, etype, payload);
  }

  /** The VLANs that are assumed count exactly for the tags that are missing. */
  lemma MissingTagsAreAssumed(pkt: seq<byte>, o: u16, i: u16)
    requires Readable(pkt)
    ensures var e, found := Parse(pkt, o, i).0, Parse(pkt, 0, 0).0;
            && e.source == pkt[6..12] && e.destination == pkt[..6] && e.etype == found.etype
            && var tagged := pkt[12..14] == [0x81, 0x00];
            var twice := tagged && pkt[16..18] == [0x81, 0x00];
            e.outer == (if tagged then found.outer else o) && e.inner == (if twice then found.inner else i)
  {
  }

  // ---- The code's form ---------------------------------------------------------------------------------------------

  /** The parsing constructor. A frame too short for an Ethernet header is left as it is, and the field for the ethertype
      then keeps the value `junk` it happens to have. */
  method Strip(pkt: Packet, o: u16, i: u16, junk: u16) returns (e: Encap)
    requires |pkt.bytes| < ETH_HEADER || Readable(pkt.bytes)
    modifies pkt
    ensures if old(|pkt.bytes|) < ETH_HEADER then e == Encap(NO_MAC, NO_MAC, o, i, junk) && pkt.bytes == old(pkt.bytes)
            else (e, pkt.bytes) == old(Parse(pkt.bytes, o, i))
  {
    if |pkt.bytes| < ETH_HEADER {
      return Encap(NO_MAC, NO_MAC, o, i, junk);
    }
    var outer, inner, len := o, i, ETH_HEADER;
    var etype := ReadBe16(pkt.bytes[12..]);
    var src, dst := pkt.bytes[6..12], pkt.bytes[..6];
    if etype == ETH_VLAN {
      outer := VlanId(pkt.bytes[len..]);
      etype := ReadBe16(pkt.bytes[len + 2..]);
      len := len + VLAN_HEADER;
      if etype == ETH_VLAN {
        inner := VlanId(pkt.bytes[len..]);
        etype := ReadBe16(pkt.bytes[len + 2..]);
        len := len + VLAN_HEADER;
      }
    }
    pkt.bytes := pkt.bytes[len..];
    e := Encap(src, dst, outer, inner, etype);
  }

  function Zeros(n: nat): seq<byte> { seq(n, _ => 0) }

  /** Filling in the next field of a buffer that is still zero from there on. */
  method Put(buf: array<byte>, at: nat, s: seq<byte>, ghost done: seq<byte>)
    requires |done| == at && at + |s| <= buf.Length && buf[..] == done + Zeros(buf.Length - at)
    modifies buf
    ensures buf[..] == done + s + Zeros(buf.Length - at - |s|)
  {
    for i := 0 to |s|
      invariant buf[..] == done + s[..i] + Zeros(buf.Length - at - i)
    {
      buf[at + i] := s[i];
    }
  }

  method PutMacs(buf: array<byte>, source: Mac, mac: Mac)
    requires buf.Length >= ETH_HEADER && buf[..] == Zeros(buf.Length)
    modifies buf
    ensures buf[..] == source + mac + Zeros(buf.Length - 12)
  {
    assert buf[..] == [] + Zeros(buf.Length - 0);
    Put(buf, 0, source, []);
    assert [] + source == source;
    Put(buf, 6, mac, source);
  }

  /** The fields behind the addresses. */
  method PutTypes(buf: array<byte>, e: Encap, etype: u16, ghost macs: seq<byte>)
    requires e.outer != 0 && |macs| == 12 && buf.Length == 18 + (if e.inner != 0 then VLAN_HEADER else 0)
    requires buf[..] == macs + Zeros(buf.Length - 12)
    modifies buf
    ensures buf[..] == macs + (if e.inner == 0 then Be16(ETH_VLAN) + Be16(e.outer) + Be16(etype)
                               else Be16(ETH_VLAN) + Be16(e.outer) + Be16(ETH_VLAN) + Be16(e.inner) + Be16(etype))
  {
    Put(buf, 12, Be16(ETH_VLAN), macs);
    ghost var done := macs + Be16(ETH_VLAN);
    Put(buf, 14, Be16(e.outer), done);
    done := done + Be16(e.outer);
    if e.inner == 0 {
      Put(buf, 16, Be16(etype), done);
    } else {
      Put(buf, 16, Be16(ETH_VLAN), done);
      done := done + Be16(ETH_VLAN);
      Put(buf, 18, Be16(e.inner), done);
      done := done + Be16(e.inner);
      Put(buf, 20, Be16(etype), done);
    }
  }

  method GenerateHeader(e: Encap, mac: Mac, etype: u16) returns (buf: array<byte>)
    ensures fresh(buf) && buf[..] == Header(e, mac, etype)
  {
    var len := ETH_HEADER + (if e.outer != 0 then VLAN_HEADER else 0) + (if e.inner != 0 then VLAN_HEADER else 0);
    buf := new byte[len](_ => 0);
    assert buf[..] == Zeros(len);
    PutMacs(buf, e.source, mac);
    if e.outer == 0 {
      Put(buf, 12, Be16(etype), e.source + mac);
    } else {
      PutTypes(buf, e, etype, e.source + mac);
    }
  }
}
