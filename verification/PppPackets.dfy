/** What comes back for each kind of packet, read from the bytes: codes, identifiers, option types and magic numbers as
    RFC 1661, RFC 1332 and RFC 1877 number them. */
module PppPackets {
  import opened Wire
  import opened OptionArea
  import opened ControlPacket
  import opened LcpOptions
  import opened IpcpOptions
  import opened PppFsm
  import opened Convergence

  // ---- Our own request ---------------------------------------------------------------------------------------------

  /** There is something to ask for: LCP needs an authentication protocol. */
  predicate Able(kind: Kind, env: Env) { kind == Ipcp || env.chap || env.pap }

  /** Behind what the length field covers stand fourteen bytes that are left over, all of them zero. */
  predicate EndsInZeros(pkt: seq<byte>)
    requires Sound(pkt)
  {
    pkt[HEADER + |Area(pkt)|..] == [0, 0, 0, 0, 0, 0, 0, 0, 0, 0, 0, 0, 0, 0]
  }

  /** A Configure-Request with identifier 1. LCP asks for its MRU, for CHAP with MD5 or else PAP, and for its magic
      number; IPCP for the address 100.64.0.1. */
  ghost predicate OurRequest(kind: Kind, env: Env, pkt: seq<byte>) {
    && Sound(pkt) && pkt[0] == 1 && pkt[1] == 1 && WellFormed(Area(pkt)) && EndsInZeros(pkt)
    && var opts := Parse(Area(pkt));
    if kind == Ipcp then opts == [Opt(3, [100, 64, 0, 1])]
    else
      && |opts| == 3
      && opts[0].kind == 1 && |opts[0].data| == 2 && ReadBe16(opts[0].data) == env.mru
      && opts[1] == Opt(3, if env.chap then [0xc2, 0x23, 5] else [0xc0, 0x23])
      && opts[2].kind == 5 && |opts[2].data| == 4 && ReadBe32(opts[2].data) == env.magic
  }

  /** Nothing but our request was sent; if there is none, nothing. */
  ghost predicate JustOurRequest(kind: Kind, env: Env, sent: seq<seq<byte>>) {
    if Able(kind, env) then |sent| == 1 && OurRequest(kind, env, sent[0]) else sent == []
  }

  lemma OurRequestIsSent(kind: Kind, env: Env)
    ensures JustOurRequest(kind, env, RequestSent(kind, env))
  {
    OwnRequestReads(kind, env);
    if Able(kind, env) {
      OwnBytes(kind, env);
      LeftOver(CONF_REQ, Unparse(OwnOptions(kind, env)));
      OptionsAreOurs(kind, env, RequestSent(kind, env)[0]);
    }
  }

  lemma LeftOver(code: byte, area: seq<byte>)
    requires HEADER + |area| < 0x1_0000
    ensures Sound(Request(code, area)) && EndsInZeros(Request(code, area))
  {
    RequestIsSound(code, area);
  }

  lemma OptionsAreOurs(kind: Kind, env: Env, pkt: seq<byte>)
    requires Sound(pkt) && pkt[0] == 1 && pkt[1] == 1 && WellFormed(Area(pkt)) && Parse(Area(pkt)) == OwnOptions(kind, env)
    requires Able(kind, env) && EndsInZeros(pkt)
    ensures OurRequest(kind, env, pkt)
  {
    Be16RoundTrip(env.mru, []);
    Be32RoundTrip(env.magic, []);
    assert Be16(env.mru) + [] == Be16(env.mru) && Be32(env.magic) + [] == Be32(env.magic);
  }

  /** Opening an automaton and telling it that the layer below is up come to the same in either order, if there is something
      to ask for: from Initial, Starting and Closed our request goes out once and the automaton is in Req-Sent; Closing becomes
      Stopping; in any other phase nothing happens. */
  lemma OpenAndUpCommute(kind: Kind, env: Env, f: Fsm)
    requires Able(kind, env)
    ensures var up := LayerUpEvent(kind, env, f);
            var both, late := Kick(kind, env, f), OpenEvent(kind, env, up.fsm);
            && both.fsm == late.fsm && both.sent == up.sent + late.sent && both.action == NoAction && !both.err
            && match f.phase
               case Closing => both.sent == [] && both.fsm == f.(phase := Stopping)
               case Initial => JustOurRequest(kind, env, both.sent) && both.fsm == f.(phase := ReqSent)
               case Starting => JustOurRequest(kind, env, both.sent) && both.fsm == f.(phase := ReqSent)
               case Closed => JustOurRequest(kind, env, both.sent) && both.fsm == f.(phase := ReqSent)
               case _ => both.sent == [] && both.fsm == f
  {
    OurRequestIsSent(kind, env);
    assert [] + RequestSent(kind, env) == RequestSent(kind, env) == RequestSent(kind, env) + [];
  }

  // ---- Configure-Request -------------------------------------------------------------------------------------------

  /** The answer as the peer reads it, if it carries the identifier of the request. */
  ghost function Told(pkt: seq<byte>, sent: seq<seq<byte>>): Reply
    requires Sound(pkt)
  {
    if |sent| != 1 || !Sound(sent[0]) || sent[0][1] != pkt[1] then Silent
    else if sent[0] == pkt[0 := 2] then Acked(Area(pkt))
    else if sent[0][0] == 3 then Nakked(Area(sent[0]))
    else if sent[0][0] == 4 then Rejected(Area(sent[0]))
    else Silent
  }

  lemma AnswerIsTold(kind: Kind, f: Fsm, pkt: seq<byte>, reply: Reply, noted: Peer)
    requires Sound(pkt) && !reply.Silent? && (reply.Acked? ==> reply.area == Area(pkt))
    requires reply.Nakked? ==> |reply.area| == |Area(pkt)|
    requires reply.Rejected? ==> Convergence.Fits(reply.area)
    ensures Told(pkt, CheckConf(kind, f, pkt, reply, noted).sent) == reply
  {
    match reply
    case Acked(_) => AckReads(pkt);
    case Nakked(fixed) => NakReads(pkt, fixed);
    case Rejected(bytes) => RejectReads(pkt[1], bytes);
  }

  /** IPCP's answer while our own request is out: none to an empty list or without an AAA session; else one packet with the
      request's identifier, which is the request with code 2, a Nak or a Reject as its options demand. */
  lemma IpcpAnswersRight(env: Env, f: Fsm, pkt: seq<byte>)
    requires Handled(Ipcp, pkt) && pkt[0] == 1 && Negotiating(f)
    ensures var sent := Receive(Ipcp, env, f, pkt).sent;
            && (sent == [] <==> Area(pkt) == [] || env.lease.None?)
            && (env.lease.Some? ==> SaysRight(env.lease.value, Area(pkt), Told(pkt, sent)))
  {
    var area := Area(pkt);
    if area != [] && env.lease.Some? {
      EachItsOwnValue(env.lease.value, area);
      AnswerFits(env.lease.value, area);
      AnswerIsTold(Ipcp, f, pkt, Verdict(Ipcp, env, pkt), Noted(Ipcp, f, pkt));
    } else {
      NotAnswered(Ipcp, env, f, pkt, Noted(Ipcp, f, pkt));
    }
  }

  lemma NotAnswered(kind: Kind, env: Env, f: Fsm, pkt: seq<byte>, noted: Peer)
    requires Sound(pkt) && pkt[0] == 1 && Negotiating(f)
    ensures Dispatch(kind, env, f, pkt, Silent, noted) == Outcome(f, NoAction, true, [])
  {
  }

  predicate MruOrMagic(o: Opt) { o.kind == 1 || o.kind == 5 }

  /** LCP's answer: none to an empty list; the request with code 2 if it holds MRU and Magic-Number options only; else a
      Reject with its identifier that lists exactly the others, in order. */
  lemma LcpAnswersRight(env: Env, f: Fsm, pkt: seq<byte>)
    requires Handled(Lcp, pkt) && pkt[0] == 1 && Negotiating(f)
    ensures var sent, opts := Receive(Lcp, env, f, pkt).sent, Parse(Area(pkt));
            if Area(pkt) == [] then sent == []
            else if forall o :: o in opts ==> MruOrMagic(o) then sent == [pkt[0 := 2]]
            else
              && Told(pkt, sent).Rejected? && WellFormed(Told(pkt, sent).area)
              && Parse(Told(pkt, sent).area) == Keep(opts, (o: Opt) => !MruOrMagic(o))
  {
    var area := Area(pkt);
    if area == [] {
      NotAnswered(Lcp, env, f, pkt, Noted(Lcp, f, pkt));
    } else {
      LcpVerdict(env, pkt);
      LcpAnswerSent(env, f, pkt, Verdict(Lcp, env, pkt), Noted(Lcp, f, pkt));
    }
  }

  lemma LcpVerdict(env: Env, pkt: seq<byte>)
    requires Handled(Lcp, pkt) && pkt[0] == 1 && Area(pkt) != []
    ensures var reply, opts := Verdict(Lcp, env, pkt), Parse(Area(pkt));
            if forall o :: o in opts ==> MruOrMagic(o) then reply == Acked(Area(pkt))
            else
              && reply.Rejected? && Convergence.Fits(reply.area) && WellFormed(reply.area)
              && Parse(reply.area) == Keep(opts, (o: Opt) => !MruOrMagic(o))
  {
    var area := Area(pkt);
    NothingRefusedIff(area);
    AllMembers(Parse(area), Accepted);
    RefusedFits(area);
    KeepSame(Parse(area), (o: Opt) => !Accepted(o), (o: Opt) => !MruOrMagic(o));
  }

  lemma LcpAnswerSent(env: Env, f: Fsm, pkt: seq<byte>, reply: Reply, noted: Peer)
    requires Sound(pkt) && pkt[0] == 1 && Negotiating(f)
    requires reply == Acked(Area(pkt)) || (reply.Rejected? && Convergence.Fits(reply.area))
    ensures var sent := Dispatch(Lcp, env, f, pkt, reply, noted).sent;
            Told(pkt, sent) == reply && (reply.Acked? ==> sent == [pkt[0 := 2]])
  {
    AnswerIsTold(Lcp, f, pkt, reply, noted);
  }

  /** In the other phases a request's options are not looked at: when open, our own request goes out and the layer goes
      down; in Stopped it goes out before the answer that would be given in Req-Sent; otherwise the request is dropped. */
  lemma RequestElsewhere(kind: Kind, env: Env, f: Fsm, pkt: seq<byte>)
    requires Handled(kind, pkt) && pkt[0] == 1 && !Negotiating(f)
    ensures var out := Receive(kind, env, f, pkt);
            match f.phase
            case Opened => JustOurRequest(kind, env, out.sent) && out.action == LayerDown && out.fsm == f.(phase := ReqSent)
            case Stopped =>
              var there := Receive(kind, env, f.(phase := ReqSent), pkt);
              && out.fsm == there.fsm && out.action == there.action && out.err == there.err
              && exists own :: JustOurRequest(kind, env, own) && out.sent == own + there.sent
            case _ => out == Outcome(f, NoAction, true, [])
  {
    OurRequestIsSent(kind, env);
    RequestDropped(kind, env, f, pkt, Verdict(kind, env, pkt), Noted(kind, f, pkt));
  }

  lemma RequestDropped(kind: Kind, env: Env, f: Fsm, pkt: seq<byte>, reply: Reply, noted: Peer)
    requires Sound(pkt) && pkt[0] == 1 && !Negotiating(f)
    ensures var out := Dispatch(kind, env, f, pkt, reply, noted);
            match f.phase
            case Opened => out == Outcome(f.(phase := ReqSent), LayerDown, false, RequestSent(kind, env))
            case Stopped =>
              var there := Dispatch(kind, env, f.(phase := ReqSent), pkt, reply, noted);
              out == there.(sent := RequestSent(kind, env) + there.sent)
            case _ => out == Outcome(f, NoAction, true, [])
  {
  }

  // ---- Configure-Ack -----------------------------------------------------------------------------------------------

  /** An acknowledgement (2) sends nothing, except that a second one when the layer is up has our request go out again. It
      must have identifier 1; then it is remembered, and only Req-Sent, Ack-Sent and Opened are left by it. */
  lemma AckSends(kind: Kind, env: Env, f: Fsm, pkt: seq<byte>)
    requires Handled(kind, pkt) && pkt[0] == 2 && f.phase != Initial && f.phase != Starting
    ensures var out := Receive(kind, env, f, pkt);
            if pkt[1] != 1 then out == Outcome(f, NoAction, true, [])
            else
              && out.fsm == f.(seenAck := true, phase := out.fsm.phase) && !out.err
              && (if f.phase == Opened then JustOurRequest(kind, env, out.sent) else out.sent == [])
              && (f.phase !in {ReqSent, AckSent, Opened} ==> out.fsm.phase == f.phase)
  {
    OurRequestIsSent(kind, env);
    AckByDispatch(kind, env, f, pkt, Verdict(kind, env, pkt), Noted(kind, f, pkt));
  }

  lemma AckByDispatch(kind: Kind, env: Env, f: Fsm, pkt: seq<byte>, reply: Reply, noted: Peer)
    requires Sound(pkt) && pkt[0] == 2 && f.phase != Initial && f.phase != Starting
    ensures var out := Dispatch(kind, env, f, pkt, reply, noted);
            if pkt[1] != 1 then out == Outcome(f, NoAction, true, [])
            else
              && out.fsm == f.(seenAck := true, phase := out.fsm.phase) && !out.err
              && out.sent == (if f.phase == Opened then RequestSent(kind, env) else [])
              && (f.phase !in {ReqSent, AckSent, Opened} ==> out.fsm.phase == f.phase)
  {
  }

  // ---- What is noted of the peer -----------------------------------------------------------------------------------

  /** The value of the last option of a type, if there is one. */
  function LastOf(opts: seq<Opt>, kind: byte): Option<Body> {
    if opts == [] then None
    else
      var o := opts[|opts| - 1];
      if o.kind == kind then Some(o.data) else LastOf(opts[..|opts| - 1], kind)
  }

  lemma {:induction false} LastOfIsKept(opts: seq<Opt>, kind: byte)
    ensures var kept := Keep(opts, (o: Opt) => o.kind == kind);
            LastOf(opts, kind) == if kept == [] then None else Some(kept[|kept| - 1].data)
  {
    if opts == [] {
    } else {
      var front, o := opts[..|opts| - 1], opts[|opts| - 1];
      LastOfIsKept(front, kind);
      KeepSnoc(front, o, (x: Opt) => x.kind == kind);
      assert front + [o] == opts;
    }
  }

  lemma {:induction false} KeepSnoc(opts: seq<Opt>, o: Opt, p: Opt -> bool)
    ensures Keep(opts + [o], p) == Keep(opts, p) + if p(o) then [o] else []
  {
    if opts == [] {
      assert ([] + [o])[1..] == [];
    } else {
      assert (opts + [o])[1..] == opts[1..] + [o];
      KeepSnoc(opts[1..], o, p);
    }
  }

  /** `after` is `before` with the last MRU and the last magic number of these options. */
  ghost predicate NotedFrom(opts: seq<Opt>, before: Peer, after: Peer) {
    var mru, magic := LastOf(opts, 1), LastOf(opts, 5);
    && (if mru.None? then after.mru == before.mru else |mru.value| >= 2 && after.mru == ReadBe16(mru.value))
    && (if magic.None? then after.magic == before.magic else |magic.value| >= 4 && after.magic == ReadBe32(magic.value))
  }

  lemma NotesAreLast(before: Peer, opts: seq<Opt>)
    requires AllReadable(opts)
    ensures NotedFrom(opts, before, NoteAll(before, opts))
  {
    LastMruCounts(before, opts);
    LastMagicCounts(before, opts);
    LastOfIsKept(opts, 1);
    LastOfIsKept(opts, 5);
    KeepSame(opts, IsMru, (o: Opt) => o.kind == 1);
    KeepSame(opts, IsMagic, (o: Opt) => o.kind == 5);
  }

  /** LCP notes the last MRU and the last magic number of a request that it answers, and of nothing else. */
  lemma PeerIsNoted(env: Env, f: Fsm, pkt: seq<byte>)
    requires Handled(Lcp, pkt)
    ensures var after := Receive(Lcp, env, f, pkt).fsm.peer;
            if pkt[0] == 1 && (Negotiating(f) || f.phase == Stopped) then NotedFrom(Parse(Area(pkt)), f.peer, after)
            else after == f.peer
  {
    if pkt[0] == 1 { NotesAreLast(f.peer, Parse(Area(pkt))); }
    PeerKept(env, f, pkt, Verdict(Lcp, env, pkt), Noted(Lcp, f, pkt));
  }

  lemma PeerKept(env: Env, f: Fsm, pkt: seq<byte>, reply: Reply, noted: Peer)
    requires Sound(pkt) && (pkt[0] == TERM_REQ || pkt[0] == ECHO_REQ ==> |pkt| >= 8)
    requires pkt[0] == 1 && reply == Silent ==> noted == f.peer
    ensures Dispatch(Lcp, env, f, pkt, reply, noted).fsm.peer
            == if pkt[0] == 1 && (Negotiating(f) || f.phase == Stopped) then noted else f.peer
  {
  }

  // ---- Terminate-Request and Echo-Request --------------------------------------------------------------------------

  /** The peer's packet with another code and our magic number in place of its own. */
  predicate Returned(env: Env, pkt: seq<byte>, code: byte, back: seq<byte>)
    requires |pkt| >= 8
  {
    && |back| == |pkt| && back[0] == code && back[1] == pkt[1] && back[2..4] == pkt[2..4]
    && ReadBe32(back[4..]) == env.magic && back[8..] == pkt[8..]
  }

  /** LCP answers a Terminate-Request (5) by a Terminate-Ack (6) and an Echo-Request (9) by an Echo-Reply (10) if and only
      if the packet carries the magic number noted of the peer: the answer is that packet, with our magic number. */
  lemma ReturnedIff(env: Env, f: Fsm, pkt: seq<byte>)
    requires Handled(Lcp, pkt) && (pkt[0] == 5 || pkt[0] == 9) && f.phase != Initial && f.phase != Starting
    ensures var sent := Receive(Lcp, env, f, pkt).sent;
            if ReadBe32(pkt[4..]) != f.peer.magic then sent == []
            else |sent| == 1 && Returned(env, pkt, if pkt[0] == 5 then 6 else 10, sent[0])
  {
    var back := [if pkt[0] == 5 then 6 else 10] + pkt[1..4] + Be32(env.magic) + pkt[8..];
    Be32RoundTrip(env.magic, pkt[8..]);
    assert back[4..] == Be32(env.magic) + pkt[8..] && back[2..4] == pkt[2..4] && back[8..] == pkt[8..];
    ReturnedByDispatch(env, f, pkt, Verdict(Lcp, env, pkt), Noted(Lcp, f, pkt));
  }

  lemma ReturnedByDispatch(env: Env, f: Fsm, pkt: seq<byte>, reply: Reply, noted: Peer)
    requires Sound(pkt) && |pkt| >= 8 && (pkt[0] == 5 || pkt[0] == 9) && f.phase != Initial && f.phase != Starting
    ensures Dispatch(Lcp, env, f, pkt, reply, noted).sent
            == if ReadBe32(pkt[4..]) != f.peer.magic then []
               else [[if pkt[0] == 5 then 6 else 10] + pkt[1..4] + Be32(env.magic) + pkt[8..]]
  {
  }

  /** IPCP answers neither, and no packet with another code than 1, 2, 5, 9 and 10 changes or sends anything. */
  lemma OthersAreIgnored(kind: Kind, env: Env, f: Fsm, pkt: seq<byte>)
    requires Handled(kind, pkt)
    ensures kind == Ipcp && pkt[0] == 5 ==> Receive(kind, env, f, pkt).sent == []
    ensures pkt[0] !in {1, 2, 5} && (kind == Ipcp || pkt[0] !in {9, 10}) ==>
            Receive(kind, env, f, pkt).fsm == f && Receive(kind, env, f, pkt).sent == []
  {
    IgnoredByDispatch(kind, env, f, pkt, Verdict(kind, env, pkt), Noted(kind, f, pkt));
  }

  lemma IgnoredByDispatch(kind: Kind, env: Env, f: Fsm, pkt: seq<byte>, reply: Reply, noted: Peer)
    requires Sound(pkt) && (kind == Lcp && (pkt[0] == TERM_REQ || pkt[0] == ECHO_REQ) ==> |pkt| >= 8)
    ensures var out := Dispatch(kind, env, f, pkt, reply, noted);
            && (kind == Ipcp && pkt[0] == 5 ==> out.sent == [])
            && (pkt[0] !in {1, 2, 5} && (kind == Ipcp || pkt[0] !in {9, 10}) ==> out.fsm == f && out.sent == [])
  {
  }

  /** Except in Stopped, which is never reached, a packet is reported as an error only if it is dropped: nothing changes and
      nothing is sent. Of the packets that are read, these are a request without an answer, an acknowledgement with
      another identifier than 1, and an LCP Echo-Request without the peer's magic number. */
  lemma ErrorIff(kind: Kind, env: Env, f: Fsm, pkt: seq<byte>)
    requires Handled(kind, pkt)
    ensures var out := Receive(kind, env, f, pkt);
            && (out.err && f.phase != Stopped ==> out == Outcome(f, NoAction, true, []))
            && (Negotiating(f) || f.phase == Opened ==>
                  (out.err <==> || (pkt[0] == 1 && out.sent == [] && out.action == NoAction) || (pkt[0] == 2 && pkt[1] != 1)
                                || (kind == Lcp && pkt[0] == 9 && ReadBe32(pkt[4..]) != f.peer.magic)))
  {
    ErrorByDispatch(kind, env, f, pkt, Verdict(kind, env, pkt), Noted(kind, f, pkt));
  }

  lemma ErrorByDispatch(kind: Kind, env: Env, f: Fsm, pkt: seq<byte>, reply: Reply, noted: Peer)
    requires Sound(pkt) && (kind == Lcp && (pkt[0] == TERM_REQ || pkt[0] == ECHO_REQ) ==> |pkt| >= 8)
    ensures var out := Dispatch(kind, env, f, pkt, reply, noted);
            && (out.err && f.phase != Stopped ==> out == Outcome(f, NoAction, true, []))
            && (Negotiating(f) || f.phase == Opened ==>
                  (out.err <==> || (pkt[0] == 1 && out.sent == [] && out.action == NoAction) || (pkt[0] == 2 && pkt[1] != 1)
                                || (kind == Lcp && pkt[0] == 9 && ReadBe32(pkt[4..]) != f.peer.magic)))
  {
  }

  // ---- Our Echo-Request --------------------------------------------------------------------------------------------

  /** Code 9, identifier 1, and our magic number in a Magic-Number option. */
  ghost predicate OurEchoRequest(env: Env, pkt: seq<byte>) {
    && Sound(pkt) && pkt[0] == 9 && pkt[1] == 1 && WellFormed(Area(pkt)) && |Parse(Area(pkt))| == 1 && EndsInZeros(pkt)
    && var o := Parse(Area(pkt))[0];
    o.kind == 5 && |o.data| == 4 && ReadBe32(o.data) == env.magic
  }

  /** The timer sends one Echo-Request with each firing up to the ninth without an answer, and none with the tenth. */
  lemma FiringSends(env: Env, f: Fsm)
    requires f.echo <= 9
    ensures var out := EchoFires(env, f);
            if f.echo < 9 then out.action == NoAction && !out.err && |out.sent| == 1 && OurEchoRequest(env, out.sent[0])
            else out.action == LayerDown && out.err && out.sent == []
    ensures EchoFires(env, f).fsm == f.(echo := f.echo + 1)
  {
    EchoRequestReads(env);
  }

  lemma EchoRequestReads(env: Env)
    ensures OurEchoRequest(env, Request(9, [5, 6] + Be32(env.magic)))
  {
    var o := Opt(5, Be32(env.magic));
    assert o.Bytes() == [5, 6] + Be32(env.magic);
    UnparseOne(o);
    ParseUnparse([o]);
    RequestIsSound(9, o.Bytes());
    LeftOver(9, o.Bytes());
    Be32RoundTrip(env.magic, []);
    assert Be32(env.magic) + [] == Be32(env.magic);
  }

  /** Section 5.8 of RFC 1661 has the magic number itself where our request has an option: a peer of our own kind, which
      has noted our magic number, answers our Echo-Request if and only if that number is 0x05060506. */
  lemma OurKindAnswersIff(env: Env, peerEnv: Env, f: Fsm, g: Fsm)
    requires f.echo < 9 && g.peer.magic == env.magic && g.phase != Initial && g.phase != Starting
    ensures var out := EchoFires(env, f);
            && |out.sent| == 1 && Handled(Lcp, out.sent[0])
            && (Receive(Lcp, peerEnv, g, out.sent[0]).sent != [] <==> env.magic == 0x05060506)
  {
    FiringSends(env, f);
    var pkt := EchoFires(env, f).sent[0];
    ReturnedIff(peerEnv, g, pkt);
    assert pkt[4..8] == [5, 6] + Be32(env.magic)[..2];
    MagicInOption(env.magic, pkt[4..]);
  }

  lemma MagicInOption(magic: u32, s: seq<byte>)
    requires |s| >= 4 && s[..4] == [5, 6] + Be32(magic)[..2]
    ensures ReadBe32(s) == magic <==> magic == 0x05060506
  {
    assert s[0] == 5 && s[1] == 6 && s[2] == Be32(magic)[0] && s[3] == Be32(magic)[1];
    var hi, lo := magic / 0x1_0000, magic % 0x1_0000;
    assert s[2] as int == hi / 0x100 && s[3] as int == hi % 0x100;
    assert ReadBe32(s) == 0x0506_0000 + hi;
  }
}
