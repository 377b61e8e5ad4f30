/** Negotiations seen from the wire: a peer sends requests, reads the packets that come back, and complies. */
module Convergence {
  import opened Wire
  import opened OptionArea
  import opened ControlPacket
  import opened LcpOptions
  import opened IpcpOptions
  import opened PppFsm

  /** The peer's reading of what we send. */
  ghost function ReadReply(sent: seq<seq<byte>>): Reply {
    if |sent| != 1 || !Sound(sent[0]) then Silent
    else if sent[0][0] == CONF_ACK then Acked(Area(sent[0]))
    else if sent[0][0] == CONF_NAK then Nakked(Area(sent[0]))
    else if sent[0][0] == CONF_REJ then Rejected(Area(sent[0]))
    else Silent
  }

  /** Our own request is out, and the layer is not up. */
  predicate Negotiating(f: Fsm) { f.phase == ReqSent || f.phase == AckRcvd || f.phase == AckSent }

  /** The area fits the 16-bit length field of a packet. */
  predicate Fits(area: seq<byte>) { HEADER + |area| < 0x1_0000 }

  /** What a request is answered with, and where that leaves the automaton. */
  ghost predicate AnsweredWith(f: Fsm, pkt: seq<byte>, reply: Reply, out: Outcome)
    requires Sound(pkt)
  {
    && ReadReply(out.sent) == reply && !out.err
    && (reply.Acked? ==> out.sent == [pkt[0 := CONF_ACK]] && out.fsm.phase == (if f.phase == AckRcvd then Opened else AckSent))
    && (!reply.Acked? ==> Negotiating(out.fsm) && (out.fsm.phase == AckRcvd <==> f.phase == AckRcvd))
    && (out.action == LayerUp <==> reply.Acked? && f.phase == AckRcvd)
  }

  lemma AckReads(pkt: seq<byte>)
    requires Sound(pkt)
    ensures ReadReply([pkt[0 := CONF_ACK]]) == Acked(Area(pkt))
  {
    assert pkt[0 := CONF_ACK][2..] == pkt[2..];
  }

  lemma RejectReads(id: byte, bytes: seq<byte>)
    requires Fits(bytes)
    ensures ReadReply([Build(CONF_REJ, id, bytes)]) == Rejected(bytes)
  {
    BuildIsSound(CONF_REJ, id, bytes);
  }

  lemma NakReads(pkt: seq<byte>, fixed: seq<byte>)
    requires Sound(pkt) && |fixed| == |Area(pkt)|
    ensures ReadReply([NakPacket(pkt, fixed)]) == Nakked(fixed)
  {
    var nak := NakPacket(pkt, fixed);
    assert nak[2..] == pkt[2..HEADER] + (fixed + pkt[HEADER + |fixed|..]);
    assert nak[2] == pkt[2] && nak[3] == pkt[3];
    assert nak[HEADER..HEADER + |fixed|] == fixed;
  }

  /** The automaton's part, for any reply to the request's options that can be read. */
  lemma ReplySent(kind: Kind, env: Env, f: Fsm, pkt: seq<byte>, reply: Reply, noted: Peer)
    requires Sound(pkt) && pkt[0] == CONF_REQ && Negotiating(f) && !reply.Silent?
    requires reply.Acked? ==> reply.area == Area(pkt)
    requires reply.Nakked? ==> |reply.area| == |Area(pkt)|
    requires reply.Rejected? ==> Fits(reply.area)
    ensures AnsweredWith(f, pkt, reply, Dispatch(kind, env, f, pkt, reply, noted))
  {
    match reply
    case Acked(_) => AckReads(pkt);
    case Nakked(fixed) => NakReads(pkt, fixed);
    case Rejected(bytes) => RejectReads(pkt[1], bytes);
  }

  lemma {:induction false} KeepIsShorter(opts: seq<Opt>, p: Opt -> bool)
    ensures |Unparse(Keep(opts, p))| <= |Unparse(opts)|
  {
    if opts == [] {
    } else {
      KeepIsShorter(opts[1..], p);
      Cons(opts[0], Keep(opts[1..], p), p);
    }
  }

  lemma {:induction false} FixKeepsLength(lease: Lease, opts: seq<Opt>)
    requires AllSized(opts)
    ensures |Unparse(FixAll(lease, opts))| == |Unparse(opts)|
  {
    if opts == [] {
    } else {
      FixKeepsLength(lease, opts[1..]);
      Cons(Fix(lease, opts[0]), FixAll(lease, opts[1..]), Known);
    }
  }

  // ---- IPCP --------------------------------------------------------------------------------------------------------

  lemma AnswerFits(lease: Lease, area: seq<byte>)
    requires Negotiable(area) && area != []
    ensures var reply := Answer(lease, area);
            && !reply.Silent? && (reply.Acked? ==> reply.area == area)
            && (reply.Nakked? ==> |reply.area| == |area|) && (reply.Rejected? ==> |reply.area| <= |area|)
  {
    UnparseParse(area);
    KeepIsShorter(Parse(area), Unknown);
    FixKeepsLength(lease, Parse(area));
  }

  /** One request of the peer, with any identifier. */
  lemma IpcpRequest(env: Env, f: Fsm, id: byte, area: seq<byte>)
    requires Negotiable(area) && area != [] && Fits(area) && env.lease.Some? && Negotiating(f)
    ensures var pkt := Build(CONF_REQ, id, area);
            Handled(Ipcp, pkt) && AnsweredWith(f, pkt, Answer(env.lease.value, area), Receive(Ipcp, env, f, pkt))
  {
    var pkt := Build(CONF_REQ, id, area);
    BuildIsSound(CONF_REQ, id, area);
    AnswerFits(env.lease.value, area);
    ReplySent(Ipcp, env, f, pkt, Verdict(Ipcp, env, pkt), Noted(Ipcp, f, pkt));
  }

  /** There is something to ask for, now and after complying. */
  ghost predicate Asking(area: seq<byte>) {
    Negotiable(area) && Fits(area) && Keep(Parse(area), Known) != []
  }

  lemma AskingOn(lease: Lease, area: seq<byte>)
    requires Asking(area)
    ensures area != [] && Asking(Comply(area, Answer(lease, area)))
  {
    var opts, next := Parse(area), Comply(area, Answer(lease, area));
    AnswerIsUsable(lease, area);
    UnparseParse(area);
    UnparseParse(next);
    match Answer(lease, area)
    case Rejected(_) =>
      KeepIsShorter(opts, Known);
      KeepFacts(opts, Known, Known);
    case Nakked(_) =>
      FixKeepsLength(lease, opts);
      FixKeepsKnown(lease, opts);
    case _ =>
  }

  lemma {:induction false} FixKeepsKnown(lease: Lease, opts: seq<Opt>)
    requires AllSized(opts)
    ensures Keep(FixAll(lease, opts), Known) == [] <==> Keep(opts, Known) == []
  {
    if opts == [] {
    } else {
      FixKeepsKnown(lease, opts[1..]);
      Cons(Fix(lease, opts[0]), FixAll(lease, opts[1..]), Known);
    }
  }

  /** The automaton's reaction to the last of a peer's requests, one for each identifier: each asks for what the packet
      that answered the one before left standing. */
  ghost function Dialogue(env: Env, f: Fsm, area: seq<byte>, ids: seq<byte>): Outcome
    requires ids != [] && Asking(area) && env.lease.Some?
    decreases |ids|
  {
    AskingOn(env.lease.value, area);
    BuildIsSound(CONF_REQ, ids[0], area);
    var out := Receive(Ipcp, env, f, Build(CONF_REQ, ids[0], area));
    if |ids| == 1 then out
    else
      var next := Comply(area, ReadReply(out.sent));
      if !Asking(next) then out else Dialogue(env, out.fsm, next, ids[1..])
  }

  /** None of the first `n` requests of a complying peer is acknowledged. */
  ghost predicate NotYet(lease: Lease, area: seq<byte>, n: nat)
    requires Negotiable(area)
  {
    forall m :: 1 <= m <= n ==> !Exchange(lease, area, m).Acked?
  }

  lemma NextExchange(lease: Lease, area: seq<byte>, n: nat)
    requires Negotiable(area) && n >= 1
    ensures Negotiable(Comply(area, Answer(lease, area)))
    ensures Exchange(lease, area, n + 1) == Exchange(lease, Comply(area, Answer(lease, area)), n)
    ensures NotYet(lease, area, n) ==> !Answer(lease, area).Acked?
  {
    AnswerIsUsable(lease, area);
    assert n >= 1 && NotYet(lease, area, n) ==> !Exchange(lease, area, 1).Acked?;
  }

  lemma NotYetShift(lease: Lease, area: seq<byte>, n: nat)
    requires Negotiable(area) && Negotiable(Comply(area, Answer(lease, area))) && n >= 1 && NotYet(lease, area, n)
    ensures NotYet(lease, Comply(area, Answer(lease, area)), n - 1)
  {
    forall m | 1 <= m <= n - 1 ensures !Exchange(lease, Comply(area, Answer(lease, area)), m).Acked? {
      NextExchange(lease, area, m);
      var k := m + 1;
      assert !Exchange(lease, area, k).Acked?;
    }
  }

  /** IPCP negotiates, with an AAA session to compare with, and the peer has something to ask for. */
  ghost predicate Ready(env: Env, f: Fsm, area: seq<byte>) {
    Asking(area) && env.lease.Some? && Negotiating(f)
  }

  /** The first request of several is answered, and the dialogue goes on from there. */
  lemma DialogueFirst(env: Env, f: Fsm, area: seq<byte>, ids: seq<byte>) returns (f1: Fsm)
    requires |ids| > 1 && Asking(area) && env.lease.Some? && Negotiating(f) && !Answer(env.lease.value, area).Acked?
    ensures var next := Comply(area, Answer(env.lease.value, area));
            && Asking(next) && Dialogue(env, f, area, ids) == Dialogue(env, f1, next, ids[1..])
            && Negotiating(f1) && (f1.phase == AckRcvd <==> f.phase == AckRcvd)
  {
    AskingOn(env.lease.value, area);
    IpcpRequest(env, f, ids[0], area);
    f1 := Receive(Ipcp, env, f, Build(CONF_REQ, ids[0], area)).fsm;
  }

  /** The packet says `reply`; only an acknowledgement changes whether we still wait for the peer's. */
  ghost predicate Says(f: Fsm, reply: Reply, out: Outcome) {
    && ReadReply(out.sent) == reply
    && (reply.Acked? ==> out.fsm.phase == if f.phase == AckRcvd then Opened else AckSent)
    && (out.action == LayerUp <==> reply.Acked? && f.phase == AckRcvd)
  }

  lemma SaysFrom(f: Fsm, f1: Fsm, reply: Reply, out: Outcome)
    requires Says(f1, reply, out) && (f1.phase == AckRcvd <==> f.phase == AckRcvd)
    ensures Says(f, reply, out)
  {
  }

  lemma DialogueOfOne(env: Env, f: Fsm, area: seq<byte>, ids: seq<byte>)
    requires |ids| == 1 && Ready(env, f, area)
    ensures Says(f, Exchange(env.lease.value, area, 1), Dialogue(env, f, area, ids))
  {
    AskingOn(env.lease.value, area);
    IpcpRequest(env, f, ids[0], area);
  }

  /** One turn of a dialogue of at least two requests: what is left of it is the dialogue about the next area. */
  lemma DialogueStep(env: Env, f: Fsm, area: seq<byte>, ids: seq<byte>) returns (f1: Fsm, next: seq<byte>)
    requires |ids| > 1 && Ready(env, f, area) && NotYet(env.lease.value, area, |ids| - 1)
    ensures Ready(env, f1, next) && NotYet(env.lease.value, next, |ids| - 2) && (f1.phase == AckRcvd <==> f.phase == AckRcvd)
    ensures Dialogue(env, f, area, ids) == Dialogue(env, f1, next, ids[1..])
    ensures Exchange(env.lease.value, area, |ids|) == Exchange(env.lease.value, next, |ids| - 1)
  {
    next := Comply(area, Answer(env.lease.value, area));
    NextExchange(env.lease.value, area, |ids| - 1);
    NotYetShift(env.lease.value, area, |ids| - 1);
    f1 := DialogueFirst(env, f, area, ids);
  }

  /** What one turn more makes of it. */
  lemma SaysOneMore(env: Env, f: Fsm, area: seq<byte>, ids: seq<byte>, f1: Fsm, next: seq<byte>)
    requires |ids| > 1 && Ready(env, f, area) && Ready(env, f1, next) && (f1.phase == AckRcvd <==> f.phase == AckRcvd)
    requires Dialogue(env, f, area, ids) == Dialogue(env, f1, next, ids[1..])
    requires Exchange(env.lease.value, area, |ids|) == Exchange(env.lease.value, next, |ids| - 1)
    requires Says(f1, Exchange(env.lease.value, next, |ids| - 1), Dialogue(env, f1, next, ids[1..]))
    ensures Says(f, Exchange(env.lease.value, area, |ids|), Dialogue(env, f, area, ids))
  {
    SaysFrom(f, f1, Exchange(env.lease.value, next, |ids| - 1), Dialogue(env, f1, next, ids[1..]));
  }

  lemma DialogueOfTwo(env: Env, f: Fsm, area: seq<byte>, ids: seq<byte>)
    requires |ids| == 2 && Ready(env, f, area) && NotYet(env.lease.value, area, 1)
    ensures Says(f, Exchange(env.lease.value, area, 2), Dialogue(env, f, area, ids))
  {
    var f1, next := DialogueStep(env, f, area, ids);
    DialogueOfOne(env, f1, next, ids[1..]);
    SaysOneMore(env, f, area, ids, f1, next);
  }

  lemma DialogueOfThree(env: Env, f: Fsm, area: seq<byte>, ids: seq<byte>)
    requires |ids| == 3 && Ready(env, f, area) && NotYet(env.lease.value, area, 2)
    ensures Says(f, Exchange(env.lease.value, area, 3), Dialogue(env, f, area, ids))
  {
    var f1, next := DialogueStep(env, f, area, ids);
    DialogueOfTwo(env, f1, next, ids[1..]);
    SaysOneMore(env, f, area, ids, f1, next);
  }

  /** Up to the first acknowledgement, which takes three requests at most, the packets on the wire say what the answers to
      the options are. */
  lemma DialogueIsExchange(env: Env, f: Fsm, area: seq<byte>, ids: seq<byte>)
    requires 1 <= |ids| <= 3 && Ready(env, f, area) && NotYet(env.lease.value, area, |ids| - 1)
    ensures Says(f, Exchange(env.lease.value, area, |ids|), Dialogue(env, f, area, ids))
  {
    if |ids| == 1 {
      DialogueOfOne(env, f, area, ids);
    } else if |ids| == 2 {
      DialogueOfTwo(env, f, area, ids);
    } else {
      DialogueOfThree(env, f, area, ids);
    }
  }

  /** From any state in which IPCP negotiates, over the packets themselves: a peer that complies and asks for at least one
      known option is acknowledged at request `Rounds`, at the third at the latest, and not before; the layer comes up
      with it if the peer has acknowledged our own request. */
  lemma DialogueConverges(env: Env, f: Fsm, area: seq<byte>, ids: seq<byte>)
    requires ids != [] && Ready(env, f, area) && |ids| <= Rounds(env.lease.value, Parse(area))
    ensures var out, n := Dialogue(env, f, area, ids), Rounds(env.lease.value, Parse(area));
            && n <= 3 && (ReadReply(out.sent).Acked? <==> |ids| == n)
            && (|ids| == n ==>
                  && ReadReply(out.sent) == Acked(Unparse(FixAllKnown(env.lease.value, Parse(area))))
                  && out.fsm.phase == (if f.phase == AckRcvd then Opened else AckSent)
                  && (out.action == LayerUp <==> f.phase == AckRcvd))
  {
    var lease, n := env.lease.value, Rounds(env.lease.value, Parse(area));
    NotBefore(lease, area, |ids| - 1);
    AckedAt(lease, area);
    DialogueIsExchange(env, f, area, ids);
    if |ids| < n {
      NotBefore(lease, area, |ids|);
      var m: nat := |ids|;
      assert 1 <= m <= |ids| && !Exchange(lease, area, m).Acked?;
    }
  }

  lemma AckedAt(lease: Lease, area: seq<byte>)
    requires Asking(area)
    ensures 1 <= Rounds(lease, Parse(area)) <= 3
    ensures Exchange(lease, area, Rounds(lease, Parse(area))) == Acked(Unparse(FixAllKnown(lease, Parse(area))))
  {
    NegotiationConverges(lease, area);
  }

  lemma NotBefore(lease: Lease, area: seq<byte>, n: nat)
    requires Asking(area) && n < Rounds(lease, Parse(area))
    ensures NotYet(lease, area, n)
  {
    NegotiationConverges(lease, area);
    forall m | 1 <= m <= n ensures !Exchange(lease, area, m).Acked? {
      assert m == 1 || m == 2;
    }
  }

  // ---- LCP ---------------------------------------------------------------------------------------------------------

  /** One request of the peer to LCP: acknowledged if it holds nothing but MRU and Magic-Number options. */
  lemma LcpRequest(env: Env, f: Fsm, id: byte, area: seq<byte>)
    requires WellFormed(area) && AllReadable(Parse(area)) && area != [] && Fits(area) && Negotiating(f)
    ensures var pkt := Build(CONF_REQ, id, area);
            && Handled(Lcp, pkt)
            && AnsweredWith(f, pkt, if AllAccepted(Parse(area)) then Acked(area) else Rejected(RejectBytes(area)),
                            Receive(Lcp, env, f, pkt))
  {
    var pkt := Build(CONF_REQ, id, area);
    BuildIsSound(CONF_REQ, id, area);
    NothingRefusedIff(area);
    RefusedFits(area);
    ReplySent(Lcp, env, f, pkt, Verdict(Lcp, env, pkt), Noted(Lcp, f, pkt));
  }

  lemma RefusedFits(area: seq<byte>)
    requires WellFormed(area)
    ensures |RejectBytes(area)| <= |area|
  {
    UnparseParse(area);
    UnparseParse(RejectBytes(area));
    KeepIsShorter(Parse(area), (o: Opt) => !Accepted(o));
  }

  /** A peer whose request is rejected, and that asks again without the options it finds in the Reject, is acknowledged
      if there is anything left to ask for. */
  lemma LcpConverges(env: Env, f: Fsm, id1: byte, id2: byte, area: seq<byte>)
    requires WellFormed(area) && AllReadable(Parse(area)) && Fits(area) && Negotiating(f)
    requires !AllAccepted(Parse(area)) && Keep(Parse(area), Accepted) != []
    ensures Handled(Lcp, Build(CONF_REQ, id1, area))
    ensures var out1 := Receive(Lcp, env, f, Build(CONF_REQ, id1, area));
            && ReadReply(out1.sent) == Rejected(RejectBytes(area))
            && var again := Comply(area, ReadReply(out1.sent));
            && again != [] && WellFormed(again) && Parse(again) == Keep(Parse(area), Accepted)
            && Handled(Lcp, Build(CONF_REQ, id2, again))
            && var out2 := Receive(Lcp, env, out1.fsm, Build(CONF_REQ, id2, again));
            && ReadReply(out2.sent) == Acked(again)
            && out2.fsm.phase == (if f.phase == AckRcvd then Opened else AckSent)
            && (out2.action == LayerUp <==> f.phase == AckRcvd)
  {
    LcpRequest(env, f, id1, area);
    var out1 := Receive(Lcp, env, f, Build(CONF_REQ, id1, area));
    var again := Comply(area, Rejected(RejectBytes(area)));
    WhatIsLeft(area);
    LcpRequest(env, out1.fsm, id2, again);
  }

  lemma WhatIsLeft(area: seq<byte>)
    requires WellFormed(area) && AllReadable(Parse(area)) && Fits(area) && Keep(Parse(area), Accepted) != []
    ensures var again := Comply(area, Rejected(RejectBytes(area)));
            && WellFormed(again) && AllReadable(Parse(again)) && Fits(again) && again != []
            && Parse(again) == Keep(Parse(area), Accepted) && AllAccepted(Parse(again))
  {
    var rej := Parse(RejectBytes(area));
    var again := Comply(area, Rejected(RejectBytes(area)));
    ResubmissionIsAcked(area, Peer(0, 0));
    assert again == Unparse(Keep(Parse(area), (o: Opt) => o !in rej));
    NothingRefusedIff(again);
    UnparseParse(area);
    KeepIsShorter(Parse(area), (o: Opt) => o !in rej);
  }
}
