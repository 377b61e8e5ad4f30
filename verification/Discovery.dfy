/** Discovery from the bytes of a PADI, PADR or PADT to the session table and the answer's bytes. */
module Discovery {
  import opened Wire
  import opened SessionIds
  import opened Tags
  import E = Encapsulation
  import LcpOptions
  import opened Daemon
  import DaemonHistory
  import opened DaemonInvariant
  import R = PppoeRuntime

  const PADI: byte := 0x09
  const PADR: byte := 0x19
  const PADT: byte := 0xA7
  const ETH_DISCOVERY: u16 := 0x8863

  function LineOf(e: E.Encap): Line { Line(e.source, e.outer, e.inner) }

  /** The policies: one per outer VLAN, and one for all others. */
  datatype Policies = Policies(byVlan: map<u16, Policy>, fallback: Policy) {
    function For(vlan: u16): (p: Policy)
      ensures vlan in byVlan ==> p == byVlan[vlan]
      ensures vlan !in byVlan ==> p == fallback
    {
      if vlan in byVlan then byVlan[vlan] else fallback
    }
  }

  /** What the code takes for granted of a discovery packet: its code, and for a PADT its session id, are there, and its
      tags lie inside it. */
  ghost predicate Readable(pkt: seq<byte>) {
    |pkt| >= 2 && (pkt[1] == PADT ==> |pkt| >= DISC_HEADER) && TagsReadable(pkt)
  }

  ghost predicate TagsReadable(pkt: seq<byte>) {
    |pkt| >= DISC_HEADER && pkt[1] != PADT ==> Tags.Readable(pkt[DISC_HEADER..], NO_TAGS.Keys)
  }

  /** The tags of a packet; none if it is too short for a header or repeats a type. */
  ghost function TagsOf(pkt: seq<byte>): Option<TagMap>
    requires |pkt| >= 2 && pkt[1] != PADT && TagsReadable(pkt)
  {
    if |pkt| < DISC_HEADER || Parse(pkt[DISC_HEADER..], NO_TAGS).1 then None
    else Some(Parse(pkt[DISC_HEADER..], NO_TAGS).0)
  }

  function CookieOf(tags: TagMap): seq<byte> {
    if AC_COOKIE in tags then tags[AC_COOKIE] else []
  }

  function Offered(policy: Policy, random: seq<byte>): seq<byte> {
    if policy.insertCookie then random else []
  }

  ghost predicate Acceptable(policy: Policy, pkt: seq<byte>)
    requires |pkt| >= 2 && pkt[1] != PADT && TagsReadable(pkt)
  {
    TagsOf(pkt).Some? && !ServiceRefused(policy, TagsOf(pkt).value)
  }

  /** The event of the daemon model that a packet is; none if it is dropped before the tables are looked at. */
  ghost function EventOf(policy: Policy, line: Line, pkt: seq<byte>, random: seq<byte>, magic: u32, peer: LcpOptions.Peer)
    : Option<Daemon.Event>
    requires Readable(pkt)
  {
    if pkt[1] == PADI then if Acceptable(policy, pkt) then Some(Padi(Conn(line, Offered(policy, random)))) else None
    else if pkt[1] == PADR then
      match TagsOf(pkt) case None => None case Some(tags) => Some(Padr(Conn(line, CookieOf(tags)), magic, peer))
    else if pkt[1] == PADT then Some(Padt(line, ReadBe16(pkt[2..])))
    else None
  }

  /** The state after the packet's event. */
  ghost function After(d: State, e: Option<Daemon.Event>): State
    requires e.Some? ==> Daemon.Possible(d, e.value)
  {
    if e.None? then d else Daemon.Step(d, e.value)
  }

  ghost predicate Answers(out: seq<byte>, code: byte, session: u16, tags: seq<Tag>) {
    Declared(tags) <= |Concat(tags)| && out == Answer(code, session, tags)
  }

  /** When an accepted PADR gets a session, and with which id. */
  function Granted(d: State, conn: Conn): Option<Id> {
    var id := Allocate(d.ids).1;
    if conn in d.pending && id.Some? && Key(conn.line, id.value) !in d.active then id else None
  }

  method ReadTags(pkt: seq<byte>) returns (tags: TagMap, err: bool)
    requires |pkt| >= 2 && pkt[1] != PADT && TagsReadable(pkt)
    ensures err <==> TagsOf(pkt).None?
    ensures !err ==> TagsOf(pkt) == Some(tags)
  {
    if |pkt| < DISC_HEADER {
      return NO_TAGS, true;
    }
    tags, err := ParseTags(pkt[DISC_HEADER..]);
  }

  method ProcessPadi(rt: R.PppoeRuntime, policy: Policy, line: Line, pkt: seq<byte>, random: seq<byte>)
    returns (err: bool, out: seq<byte>)
    requires rt.Usable() && Readable(pkt) && pkt[1] == PADI
    modifies rt`pendingSession
    ensures rt.Usable() && var c := Conn(line, Offered(policy, random));
            && rt.Value() == (if Acceptable(policy, pkt) then Daemon.Step(old(rt.Value()), Padi(c)) else old(rt.Value()))
            && (err <==> !Acceptable(policy, pkt) || c in old(rt.pendingSession))
            && (!err ==> Answers(out, PADO, 0, OfferTags(policy, TagsOf(pkt).value, random)))
  {
    out := [];
    var tags;
    tags, err := ReadTags(pkt);
    if err {
      return;
    }
    err, out := Offer(policy, tags, random);
    if err {
      return;
    }
    var cookie := if policy.insertCookie then random else [];
    err := rt.PendeSession(Conn(line, cookie));
  }

  method ProcessPadr(rt: R.PppoeRuntime, line: Line, pkt: seq<byte>, magic: u32, peer: LcpOptions.Peer)
    returns (err: bool, out: seq<byte>)
    requires rt.Usable() && Readable(pkt) && pkt[1] == PADR
    modifies rt
    ensures rt.Usable() && var tags, d := TagsOf(pkt), old(rt.Value());
            && rt.Value() == (if tags.None? then d else Admit(d, Conn(line, CookieOf(tags.value)), magic, peer))
            && (err <==> tags.None? || Granted(d, Conn(line, CookieOf(tags.value))).None?)
            && (!err ==> Answers(out, PADS, Granted(d, Conn(line, CookieOf(tags.value))).value, ConfirmTags(tags.value)))
  {
    out := [];
    var tags;
    tags, err := ReadTags(pkt);
    if err {
      return;
    }
    var cookie := [];
    if AC_COOKIE in tags {
      cookie := tags[AC_COOKIE];
    }
    var sid;
    sid, err := rt.AcceptPadr(Conn(line, cookie), magic, peer);
    if err {
      return;
    }
    out := Confirm(tags, sid);
  }

  /** `processPPPOE`: the session table changes by the packet's event, and an answer goes back to where the packet came
      from. */
  method ProcessPppoe(rt: R.PppoeRuntime, policies: Policies, hwaddr: Mac, e: E.Encap, pkt: seq<byte>, random: seq<byte>,
                      magic: u32, peer: LcpOptions.Peer)
    returns (err: bool, sent: seq<seq<byte>>)
    requires rt.Usable() && KeysOk(rt.Value()) && SidsDistinct(rt.Value()) && Readable(pkt)
    modifies rt, rt.aaa, rt.aaa.pools.Values
    ensures rt.Usable()
    ensures rt.Value() == After(old(rt.Value()), EventOf(policies.For(e.outer), LineOf(e), pkt, random, magic, peer))
    ensures err <==> Failed(old(rt.Value()), EventOf(policies.For(e.outer), LineOf(e), pkt, random, magic, peer))
    ensures if err || pkt[1] == PADT then sent == []
            else |sent| == 1 && Reply(old(rt.Value()), policies.For(e.outer), hwaddr, e, pkt, random, sent[0])
  {
    sent := [];
    var out := [];
    if pkt[1] == PADI {
      err, out := ProcessPadi(rt, policies.For(e.outer), LineOf(e), pkt, random);
    } else if pkt[1] == PADR {
      err, out := ProcessPadr(rt, LineOf(e), pkt, magic, peer);
    } else if pkt[1] == PADT {
      var _ := rt.DeallocateSession(ReadBe16(pkt[2..]));
      return false, [];
    } else {
      return true, [];
    }
    if !err {
      var header := E.GenerateHeader(e, hwaddr, ETH_DISCOVERY);
      sent := [header[..] + out];
    }
  }

  /** A packet is reported as an error if it is dropped, if its key is pending already, or if it gets no session. */
  predicate Failed(d: State, e: Option<Daemon.Event>) {
    || e.None?
    || (e.value.Padi? && e.value.conn in d.pending)
    || (e.value.Padr? && Granted(d, e.value.conn).None?)
  }

  ghost predicate Reply(d: State, policy: Policy, hwaddr: Mac, e: E.Encap, pkt: seq<byte>, random: seq<byte>, frame: seq<byte>)
    requires Readable(pkt) && pkt[1] != PADT
  {
    && TagsOf(pkt).Some?
    && var header, tags := E.Header(e, hwaddr, ETH_DISCOVERY), TagsOf(pkt).value;
    && |header| <= |frame| && frame[..|header|] == header
    && if pkt[1] == PADI then Answers(frame[|header|..], PADO, 0, OfferTags(policy, tags, random))
       else var id := Granted(d, Conn(LineOf(e), CookieOf(tags)));
            id.Some? && Answers(frame[|header|..], PADS, id.value, ConfirmTags(tags))
  }

  /** Which event a packet is, by its code: 0x09 a PADI, 0x19 a PADR with the cookie in tag 0x0104 or an empty one, 0xA7 a PADT
      with the session id in its third and fourth byte; any other code is none. All come from the packet's own line. */
  lemma EventByCode(policy: Policy, line: Line, pkt: seq<byte>, random: seq<byte>, magic: u32, peer: LcpOptions.Peer)
    requires Readable(pkt)
    ensures match EventOf(policy, line, pkt, random, magic, peer)
            case Some(Padi(conn)) =>
              pkt[1] == 0x09 && conn == Conn(line, if policy.insertCookie then random else [])
            case Some(Padr(conn, m, p)) =>
              && pkt[1] == 0x19 && TagsOf(pkt).Some? && m == magic && p == peer
              && var tags := TagsOf(pkt).value; conn == Conn(line, if 0x0104 in tags then tags[0x0104] else [])
            case Some(Padt(from, sid)) => pkt[1] == 0xA7 && from == line && sid == ReadBe16(pkt[2..4])
            case None =>
              && pkt[1] != 0xA7 && (pkt[1] == 0x19 ==> TagsOf(pkt).None?) && (pkt[1] == 0x09 ==> !Acceptable(policy, pkt))
            case _ => false
  {
  }

  // ---- What an answer says -----------------------------------------------------------------------------------------

  /** The four bytes every answer starts with: version and type, its code and a session id. */
  predicate Starts(out: seq<byte>, code: byte, session: u16) {
    |out| >= 6 && out[0] == 0x11 && out[1] == code && ReadBe16(out[2..]) == session
  }

  /** A PADO has code 0x07 and session id 0. A PADS has code 0x65 and the session id whose key the PADR has just added to
      the session table, so the client's frames with this id come to the new object and to no other. */
  lemma PadsNamesTheSession(d: State, conn: Conn, magic: u32, peer: LcpOptions.Peer, out: seq<byte>, tags: seq<Tag>)
    requires Granted(d, conn).Some? && Answers(out, PADS, Granted(d, conn).value, tags)
    ensures |out| >= 6 && Starts(out, 0x65, ReadBe16(out[2..])) && 1 <= ReadBe16(out[2..]) <= 0xFFFF
    ensures var key, d1 := Key(conn.line, ReadBe16(out[2..])), Admit(d, conn, magic, peer);
            && key !in d.active && d1.active == d.active[key := d.nextObj]
            && d1.objs == d.objs[d.nextObj := d1.objs[d.nextObj]] && d1.objs[d.nextObj].key == key
  {
    HeaderReads(PADS, Granted(d, conn).value, tags);
  }

  lemma PadoHasNoSession(out: seq<byte>, tags: seq<Tag>)
    requires Answers(out, PADO, 0, tags)
    ensures Starts(out, 0x07, 0)
  {
    HeaderReads(PADO, 0, tags);
  }

  /** The frame an answer goes out in: to the sender of the packet, from our own address, with discovery's ethertype
      before the answer. */
  lemma ReplyGoesToSender(d: State, policy: Policy, hwaddr: Mac, e: E.Encap, pkt: seq<byte>, random: seq<byte>,
                          frame: seq<byte>)
    requires Readable(pkt) && pkt[1] != PADT && Reply(d, policy, hwaddr, e, pkt, random, frame)
    requires e.outer == 0 ==> e.inner == 0
    ensures var n := 14 + (if e.outer != 0 then 4 else 0) + (if e.inner != 0 then 4 else 0);
            && |frame| >= n && frame[..6] == e.source && frame[6..12] == hwaddr && frame[n - 2..n] == [0x88, 0x63]
            && (pkt[1] == 0x09 ==> Starts(frame[n..], 0x07, 0))
            && (pkt[1] != 0x09 ==> var id := Granted(d, Conn(LineOf(e), CookieOf(TagsOf(pkt).value)));
                                   id.Some? && Starts(frame[n..], 0x65, id.value))
  {
    var header := E.Header(e, hwaddr, ETH_DISCOVERY);
    E.HeaderBytes(e, hwaddr, ETH_DISCOVERY);
    assert header[|header| - 2..] == frame[|header| - 2..|header|];
    assert header[..6] == frame[..6] && header[6..12] == frame[6..12];
    var tags := TagsOf(pkt).value;
    if pkt[1] == PADI {
      PadoHasNoSession(frame[|header|..], OfferTags(policy, tags, random));
    } else {
      HeaderReads(PADS, Granted(d, Conn(LineOf(e), CookieOf(tags))).value, ConfirmTags(tags));
    }
  }

  // ---- The handshake -----------------------------------------------------------------------------------------------

  /** What a client reads out of an answer. */
  ghost predicate ReadsAs(out: seq<byte>, tags: TagMap) {
    |out| >= DISC_HEADER && Tags.Readable(out[DISC_HEADER..], NO_TAGS.Keys) && Parse(out[DISC_HEADER..], NO_TAGS) == (tags, false)
  }

  /** A client that puts the cookie of the PADO, or none if there is none, into a PADR from the same line is looked up
      under the very key its PADI was entered with. */
  lemma CookieComesBack(policy: Policy, line: Line, padi: seq<byte>, random: seq<byte>, pado: seq<byte>, seen: TagMap,
                        padr: seq<byte>, magic: u32, peer: LcpOptions.Peer)
    requires Readable(padi) && padi[1] == PADI && Acceptable(policy, padi)
    requires forall t :: t in OfferTags(policy, TagsOf(padi).value, random) ==> Short(t)
    requires Answers(pado, PADO, 0, OfferTags(policy, TagsOf(padi).value, random)) && ReadsAs(pado, seen)
    requires Readable(padr) && padr[1] == PADR && TagsOf(padr).Some? && CookieOf(TagsOf(padr).value) == CookieOf(seen)
    ensures var c := Conn(line, Offered(policy, random));
            && EventOf(policy, line, padi, random, magic, peer) == Some(Padi(c))
            && EventOf(policy, line, padr, random, magic, peer) == Some(Padr(c, magic, peer))
  {
    OfferIsReadBack(policy, TagsOf(padi).value, random);
  }

  /** From the bytes to the table: such a client gets a session if and only if its key was entered, by this PADI or by
      another with the same cookie, and not taken out since, and a session id is free. */
  lemma HandshakeCompletesIff(states: seq<State>, events: seq<Daemon.Event>, j: nat, policy: Policy, line: Line,
                              padi: seq<byte>, random: seq<byte>, pado: seq<byte>, seen: TagMap, padr: seq<byte>,
                              magic: u32, peer: LcpOptions.Peer)
    requires Daemon.IsRun(states, events) && j < |events|
    requires Readable(padi) && padi[1] == PADI && Acceptable(policy, padi)
    requires forall t :: t in OfferTags(policy, TagsOf(padi).value, random) ==> Short(t)
    requires Answers(pado, PADO, 0, OfferTags(policy, TagsOf(padi).value, random)) && ReadsAs(pado, seen)
    requires Readable(padr) && padr[1] == PADR && TagsOf(padr).Some? && CookieOf(TagsOf(padr).value) == CookieOf(seen)
    requires EventOf(policy, line, padr, random, magic, peer) == Some(events[j])
    ensures var e := EventOf(policy, line, padi, random, magic, peer);
            && e.Some? && e.value.Padi?
            && (states[j + 1].active != states[j].active <==>
                DaemonHistory.AskedFor(events, j, e.value.conn) && !DaemonHistory.AllTaken(states[j].ids))
  {
    CookieComesBack(policy, line, padi, random, pado, seen, padr, magic, peer);
    DaemonHistory.HandshakeIff(states, events, j);
  }
}
