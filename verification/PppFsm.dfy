/** The option-negotiation automaton (section 4 of RFC 1661) as the daemon runs it, once for LCP and once for IPCP:
    every event as a function from the automaton to its next value and to what is sent. */
module PppFsm {
  import opened Wire
  import opened OptionArea
  import opened ControlPacket
  import opened LcpOptions
  import opened IpcpOptions

  datatype Kind = Lcp | Ipcp

  datatype Phase =
    | Initial | Starting | Closed | Stopped | Closing | Stopping
    | ReqSent | AckRcvd | AckSent | Opened

  datatype Action = NoAction | LayerUp | LayerDown

  /** The fields of `PPP_FSM`, with the echo counter of its LCP specialisation and the peer values LCP notes in the
      session. */
  datatype Fsm = Fsm(phase: Phase, seenAck: bool, nakCounter: u8, peer: Peer, echo: u8)

  /** What an event reads from outside the automaton: the LCP policy, our magic number and the session's AAA values. */
  datatype Env = Env(chap: bool, pap: bool, mru: u16, magic: u32, lease: Option<Lease>)

  datatype Outcome = Outcome(fsm: Fsm, action: Action, err: bool, sent: seq<seq<byte>>)

  /** Below this many unanswered echo requests the session is kept. */
  const ECHO_LIMIT := 9

  function Fresh(peer: Peer): Fsm {
    Fsm(Initial, false, 0, peer, 0)
  }

  /** Our Configure-Request; LCP has none when no authentication protocol is configured. */
  function OwnRequest(kind: Kind, env: Env): Option<seq<byte>> {
    if kind == Ipcp then Some(Request(CONF_REQ, [IP_ADDRESS, 6] + Be32(0x64400001)))
    else
      var mru := [MRU, 4] + Be16(env.mru);
      var magic := [MAGIC_NUMBER, 6] + Be32(env.magic);
      if env.chap then Some(Request(CONF_REQ, mru + [AUTH_PROTO, 5, 0xc2, 0x23, 5] + magic))
      else if env.pap then Some(Request(CONF_REQ, mru + [AUTH_PROTO, 4, 0xc0, 0x23] + magic))
      else None
  }

  /** The options of our own request. */
  function OwnOptions(kind: Kind, env: Env): seq<Opt> {
    if kind == Ipcp then [Opt(IP_ADDRESS, Be32(0x64400001))]
    else
      var auth: Body := if env.chap then [0xc2, 0x23, 5] else [0xc0, 0x23];
      [Opt(MRU, Be16(env.mru)), Opt(AUTH_PROTO, auth), Opt(MAGIC_NUMBER, Be32(env.magic))]
  }

  /** Our request is a packet that a peer of our own kind can read, with exactly these options, whatever is left over
      behind it; it exists for IPCP, and for LCP exactly when an authentication protocol is configured. */
  lemma OwnRequestReads(kind: Kind, env: Env)
    ensures OwnRequest(kind, env).Some? <==> kind == Ipcp || env.chap || env.pap
    ensures OwnRequest(kind, env).Some? ==>
            var p := OwnRequest(kind, env).value;
            Handled(kind, p) && p[0] == CONF_REQ && p[1] == PKT_ID && Parse(Area(p)) == OwnOptions(kind, env)
  {
    if OwnRequest(kind, env).Some? {
      OwnBytes(kind, env);
      OwnAreaReads(kind, env);
      OwnIsHandled(kind, Unparse(OwnOptions(kind, env)));
    }
  }

  lemma OwnAreaReads(kind: Kind, env: Env)
    ensures Readable(kind, Unparse(OwnOptions(kind, env))) && Parse(Unparse(OwnOptions(kind, env))) == OwnOptions(kind, env)
  {
    var opts := OwnOptions(kind, env);
    ParseUnparse(opts);
    AllMembers(opts, if kind == Lcp then LcpOptions.Readable else Sized);
  }

  lemma OwnIsHandled(kind: Kind, area: seq<byte>)
    requires Readable(kind, area) && |area| < 100
    ensures var p := Request(CONF_REQ, area); Handled(kind, p) && p[0] == CONF_REQ && p[1] == PKT_ID && Area(p) == area
  {
    RequestIsSound(CONF_REQ, area);
  }

  lemma OwnBytes(kind: Kind, env: Env)
    requires OwnRequest(kind, env).Some?
    ensures |Unparse(OwnOptions(kind, env))| < 100
    ensures OwnRequest(kind, env).value == Request(CONF_REQ, Unparse(OwnOptions(kind, env)))
  {
    var opts := OwnOptions(kind, env);
    if kind == Ipcp {
      UnparseOne(opts[0]);
    } else {
      UnparseThree(opts[0], opts[1], opts[2]);
    }
  }

  lemma UnparseOne(a: Opt)
    ensures Unparse([a]) == a.Bytes()
  {
    Cons(a, [], Known);
    assert [a] + [] == [a] && a.Bytes() + [] == a.Bytes();
  }

  lemma UnparseThree(a: Opt, b: Opt, c: Opt)
    ensures Unparse([a, b, c]) == a.Bytes() + b.Bytes() + c.Bytes()
  {
    UnparseOne(c);
    Cons(b, [c], Known);
    Cons(a, [b, c], Known);
    assert [b] + [c] == [b, c] && [a] + [b, c] == [a, b, c];
    assert a.Bytes() + (b.Bytes() + c.Bytes()) == a.Bytes() + b.Bytes() + c.Bytes();
  }

  function RequestSent(kind: Kind, env: Env): seq<seq<byte>> {
    match OwnRequest(kind, env) case Some(p) => [p] case None => []
  }

  function OpenEvent(kind: Kind, env: Env, f: Fsm): Outcome {
    match f.phase
    case Initial => Outcome(f.(phase := Starting), NoAction, false, [])
    case Closed => Outcome(if OwnRequest(kind, env).Some? then f.(phase := ReqSent) else f, NoAction, false,
                           RequestSent(kind, env))
    case Closing => Outcome(f.(phase := Stopping), NoAction, false, [])
    case _ => Outcome(f, NoAction, false, [])
  }

  function LayerUpEvent(kind: Kind, env: Env, f: Fsm): Outcome {
    match f.phase
    case Initial => Outcome(f.(phase := Closed), NoAction, false, [])
    case Starting => Outcome(if OwnRequest(kind, env).Some? then f.(phase := ReqSent) else f, NoAction, false,
                             RequestSent(kind, env))
    case _ => Outcome(f, NoAction, false, [])
  }

  /** How the automaton's driver starts it: `open()` and then `layer_up()`. */
  function Kick(kind: Kind, env: Env, f: Fsm): Outcome {
    var first := OpenEvent(kind, env, f);
    var up := LayerUpEvent(kind, env, first.fsm);
    Outcome(up.fsm, NoAction, false, first.sent + up.sent)
  }

  /** The option list can be read without leaving the option area. */
  ghost predicate Readable(kind: Kind, area: seq<byte>) {
    WellFormed(area) && if kind == Lcp then AllReadable(Parse(area)) else AllSized(Parse(area))
  }

  /** What the code demands of a packet it reads: a sound length, readable options in a request, and room for the
      magic number where LCP reads one. */
  ghost predicate Handled(kind: Kind, pkt: seq<byte>) {
    && Sound(pkt)
    && (pkt[0] == CONF_REQ ==> Readable(kind, Area(pkt)))
    && (kind == Lcp && (pkt[0] == TERM_REQ || pkt[0] == ECHO_REQ) ==> |pkt| >= 8)
  }

  /** The answer to a request's options. */
  ghost function Judge(kind: Kind, env: Env, area: seq<byte>): Reply
    requires Readable(kind, area)
  {
    if area == [] then Silent
    else if kind == Lcp then
      if RejectBytes(area) == [] then Acked(area) else Rejected(RejectBytes(area))
    else if env.lease.None? then Silent
    else Answer(env.lease.value, area)
  }

  /** What the automaton makes of a request once its options are judged and, for LCP, noted in `noted`. */
  function CheckConf(kind: Kind, f: Fsm, pkt: seq<byte>, reply: Reply, noted: Peer): Outcome
    requires Sound(pkt)
  {
    var backed := if f.phase == AckRcvd then AckRcvd else ReqSent;
    match reply
    case Silent => Outcome(f, NoAction, true, [])
    case Acked(_) =>
      var ready := f.phase == AckRcvd;
      Outcome(f.(phase := if ready then Opened else AckSent, nakCounter := 0, peer := noted),
              if ready then LayerUp else NoAction, false, [pkt[0 := CONF_ACK]])
    case Nakked(fixed) =>
      Outcome(f.(phase := backed, nakCounter := (f.nakCounter + 1) % 0x100, peer := noted), NoAction, false,
              [NakPacket(pkt, fixed)])
    case Rejected(bytes) =>
      Outcome(if kind == Lcp then f.(phase := backed, peer := noted) else f, NoAction, false,
              [Build(CONF_REJ, pkt[1], bytes)])
  }

  function RecvConfReq(kind: Kind, env: Env, f: Fsm, pkt: seq<byte>, reply: Reply, noted: Peer): Outcome
    requires Sound(pkt)
  {
    match f.phase
    case Closing => Outcome(f, NoAction, true, [])
    case Stopping => Outcome(f, NoAction, true, [])
    case Closed => Outcome(f, NoAction, true, [])
    case Opened => Outcome(f.(phase := ReqSent), LayerDown, false, RequestSent(kind, env))
    case Stopped =>
      var checked := CheckConf(kind, f.(phase := ReqSent), pkt, reply, noted);
      checked.(sent := RequestSent(kind, env) + checked.sent)
    case _ => CheckConf(kind, f, pkt, reply, noted)
  }

  function RecvConfAck(kind: Kind, env: Env, f: Fsm, pkt: seq<byte>): Outcome
    requires Sound(pkt)
  {
    var seen := f.(seenAck := true);
    if pkt[1] != PKT_ID then Outcome(f, NoAction, true, [])
    else match f.phase
    case ReqSent => Outcome(seen.(phase := AckRcvd), NoAction, false, [])
    case AckSent => Outcome(seen.(phase := Opened), LayerUp, false, [])
    case Opened => Outcome(seen.(phase := ReqSent), LayerDown, false, RequestSent(kind, env))
    case _ => Outcome(seen, NoAction, false, [])
  }

  /** Terminate-Ack and Echo-Reply reuse the peer's packet, with our magic number, if it carried the peer's. IPCP
      sends neither. */
  function Echoed(kind: Kind, env: Env, f: Fsm, pkt: seq<byte>, code: byte): seq<seq<byte>>
    requires kind == Lcp ==> |pkt| >= 8
  {
    if kind == Lcp && ReadBe32(pkt[4..]) == f.peer.magic then [[code] + pkt[1..4] + Be32(env.magic) + pkt[8..]] else []
  }

  function RecvTermReq(kind: Kind, env: Env, f: Fsm, pkt: seq<byte>): Outcome
    requires kind == Lcp ==> |pkt| >= 8
  {
    var ack := Echoed(kind, env, f, pkt, TERM_ACK);
    match f.phase
    case AckRcvd => Outcome(f.(phase := ReqSent), NoAction, false, ack)
    case AckSent => Outcome(f.(phase := ReqSent), NoAction, false, ack)
    case Opened => Outcome(f.(phase := Stopping), LayerDown, false, ack)
    case _ => Outcome(f, NoAction, false, ack)
  }

  /** A packet arrives; `reply` and `noted` are what its options come to if it is a Configure-Request. */
  function Dispatch(kind: Kind, env: Env, f: Fsm, pkt: seq<byte>, reply: Reply, noted: Peer): Outcome
    requires Sound(pkt) && (kind == Lcp && (pkt[0] == TERM_REQ || pkt[0] == ECHO_REQ) ==> |pkt| >= 8)
  {
    if f.phase == Initial || f.phase == Starting then Outcome(f, NoAction, true, [])
    else if pkt[0] == CONF_REQ then RecvConfReq(kind, env, f, pkt, reply, noted)
    else if pkt[0] == CONF_ACK then RecvConfAck(kind, env, f, pkt)
    else if pkt[0] == TERM_REQ then RecvTermReq(kind, env, f, pkt)
    else if pkt[0] == ECHO_REQ then
      var rep := Echoed(kind, env, f, pkt, ECHO_REPLY);
      Outcome(f, NoAction, kind == Lcp && rep == [], rep)
    else if pkt[0] == ECHO_REPLY && kind == Lcp then Outcome(f.(echo := 0), NoAction, false, [])
    else Outcome(f, NoAction, false, [])
  }

  ghost function Verdict(kind: Kind, env: Env, pkt: seq<byte>): Reply
    requires Handled(kind, pkt)
  {
    if pkt[0] == CONF_REQ then Judge(kind, env, Area(pkt)) else Silent
  }

  ghost function Noted(kind: Kind, f: Fsm, pkt: seq<byte>): Peer
    requires Handled(kind, pkt)
  {
    if kind == Lcp && pkt[0] == CONF_REQ then NoteAll(f.peer, Parse(Area(pkt))) else f.peer
  }

  ghost function Receive(kind: Kind, env: Env, f: Fsm, pkt: seq<byte>): Outcome
    requires Handled(kind, pkt)
  {
    Dispatch(kind, env, f, pkt, Verdict(kind, env, pkt), Noted(kind, f, pkt))
  }

  /** LCP never naks, and leaves a request unanswered only if it holds no option. */
  lemma VerdictShape(kind: Kind, env: Env, pkt: seq<byte>)
    requires Handled(kind, pkt) && pkt[0] == CONF_REQ
    ensures Area(pkt) == [] ==> Verdict(kind, env, pkt) == Silent
    ensures kind == Lcp ==> !Verdict(kind, env, pkt).Nakked? && (Verdict(kind, env, pkt) == Silent ==> Area(pkt) == [])
    ensures Verdict(kind, env, pkt).Acked? ==> Verdict(kind, env, pkt).area == Area(pkt)
  {
  }

  /** The echo timer of an LCP automaton fires. */
  function EchoFires(env: Env, f: Fsm): Outcome {
    var f' := f.(echo := (f.echo + 1) % 0x100);
    if f'.echo > ECHO_LIMIT then Outcome(f', LayerDown, true, [])
    else Outcome(f', NoAction, false, [Request(ECHO_REQ, [MAGIC_NUMBER, 6] + Be32(env.magic))])
  }
}
