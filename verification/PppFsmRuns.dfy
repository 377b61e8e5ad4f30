/** What every run of an automaton keeps, whatever arrives and however the surroundings change in between. */
module PppFsmRuns {
  import opened Wire
  import opened OptionArea
  import opened ControlPacket
  import opened LcpOptions
  import opened IpcpOptions
  import opened PppFsm

  /** The daemon drives an automaton with start-ups (`open` and `layer_up`, always together) and packets. */
  datatype Input = Start | Packet(pkt: seq<byte>)

  datatype Entry = Entry(env: Env, input: Input, out: Outcome)

  ghost predicate Possible(kind: Kind, e: Entry, before: Fsm) {
    match e.input
    case Start => e.out == Kick(kind, e.env, before)
    case Packet(pkt) => Handled(kind, pkt) && e.out == Receive(kind, e.env, before, pkt)
  }

  function FsmAfter(peer: Peer, log: seq<Entry>): Fsm {
    if log == [] then Fresh(peer) else log[|log| - 1].out.fsm
  }

  /** A run from a fresh automaton: every entry is the automaton's reaction in the state the previous one left. */
  ghost predicate IsRun(kind: Kind, peer: Peer, log: seq<Entry>) {
    log == [] ||
    (IsRun(kind, peer, log[..|log| - 1]) && Possible(kind, log[|log| - 1], FsmAfter(peer, log[..|log| - 1])))
  }

  // ---- What an observer of the wire can see -------------------------------------------------------------------------

  predicate Carries(e: Entry, code: byte) {
    e.input.Packet? && |e.input.pkt| >= HEADER && e.input.pkt[0] == code
  }

  predicate Sends(e: Entry, code: byte) {
    exists i :: 0 <= i < |e.out.sent| && |e.out.sent[i]| > 0 && e.out.sent[i][0] == code
  }

  /** The negotiation starts over: we ask again, we report the layer down, or the peer asks to terminate. */
  predicate StartsOver(e: Entry) {
    Sends(e, CONF_REQ) || e.out.action == LayerDown || Carries(e, TERM_REQ)
  }

  /** The peer acknowledged our request. */
  predicate PeerAcked(e: Entry) {
    Carries(e, CONF_ACK) && e.input.pkt[1] == PKT_ID
  }

  /** We acknowledged the peer's request, sending it back with only its code changed. */
  predicate WeAcked(e: Entry) {
    Carries(e, CONF_REQ) && e.out.sent == [e.input.pkt[0 := CONF_ACK]]
  }

  predicate Asks(e: Entry) {
    Carries(e, CONF_REQ) && Sound(e.input.pkt) && Area(e.input.pkt) != []
  }

  /** Entry `i` satisfies `p` and nothing from it on starts the negotiation over. */
  ghost predicate Since(log: seq<Entry>, i: nat, p: Entry -> bool) {
    i < |log| && p(log[i]) && forall k :: i <= k < |log| ==> !StartsOver(log[k])
  }

  lemma SinceExtends(log: seq<Entry>, i: nat, e: Entry, p: Entry -> bool)
    requires Since(log, i, p) && !StartsOver(e)
    ensures Since(log + [e], i, p)
  {
  }

  lemma RunSplit(kind: Kind, peer: Peer, log: seq<Entry>)
    requires IsRun(kind, peer, log) && log != []
    ensures var init, last := log[..|log| - 1], log[|log| - 1];
            log == init + [last] && IsRun(kind, peer, init) && Possible(kind, last, FsmAfter(peer, init))
  {
  }

  predicate InUse(p: Phase) { p != Closed && p != Stopped && p != Closing }
  predicate PeerAckPhase(p: Phase) { p == AckRcvd || p == Opened }
  predicate OwnAckPhase(p: Phase) { p == AckSent || p == Opened }

  // ---- Reachable phases --------------------------------------------------------------------------------------------

  /** Closed, Stopped and Closing are never reached, and a start-up never leaves the automaton in Initial. */
  lemma {:induction false} ReachablePhases(kind: Kind, peer: Peer, log: seq<Entry>)
    requires IsRun(kind, peer, log)
    ensures InUse(FsmAfter(peer, log).phase)
    ensures kind == Ipcp ==> FsmAfter(peer, log).phase != Starting
    ensures FsmAfter(peer, log).phase == Initial <==> forall i :: 0 <= i < |log| ==> log[i].input != Start
  {
    if log == [] {
    } else {
      RunSplit(kind, peer, log);
      ReachablePhases(kind, peer, log[..|log| - 1]);
      assert forall i :: 0 <= i < |log| - 1 ==> log[i] == log[..|log| - 1][i];
      var reply, noted := PossibleIsReaction(kind, log[|log| - 1], FsmAfter(peer, log[..|log| - 1]));
      StepPhases(kind, log[|log| - 1], FsmAfter(peer, log[..|log| - 1]), reply, noted);
    }
  }

  /** The reaction without the option lists behind it: the claims about phases hold whatever these come to. */
  ghost predicate Reaction(kind: Kind, e: Entry, before: Fsm, reply: Reply, noted: Peer) {
    match e.input
    case Start => e.out == Kick(kind, e.env, before)
    case Packet(pkt) =>
      && Sound(pkt) && (kind == Lcp && (pkt[0] == TERM_REQ || pkt[0] == ECHO_REQ) ==> |pkt| >= 8)
      && e.out == Dispatch(kind, e.env, before, pkt, reply, noted)
      && (kind == Lcp && pkt[0] == CONF_REQ ==> !reply.Nakked? && (reply == Silent ==> Area(pkt) == []))
  }

  lemma PossibleIsReaction(kind: Kind, e: Entry, before: Fsm) returns (reply: Reply, noted: Peer)
    requires Possible(kind, e, before)
    ensures Reaction(kind, e, before, reply, noted)
  {
    reply, noted := Silent, before.peer;
    if e.input.Packet? {
      reply, noted := Verdict(kind, e.env, e.input.pkt), Noted(kind, before, e.input.pkt);
      if e.input.pkt[0] == CONF_REQ {
        VerdictShape(kind, e.env, e.input.pkt);
      }
    }
  }

  /** One step, from the phases that are reachable: Initial is left by a start-up and by nothing else. */
  lemma StepPhases(kind: Kind, e: Entry, before: Fsm, reply: Reply, noted: Peer)
    requires Reaction(kind, e, before, reply, noted) && InUse(before.phase)
    requires kind == Ipcp ==> before.phase != Starting
    ensures InUse(e.out.fsm.phase)
    ensures kind == Ipcp ==> e.out.fsm.phase != Starting
    ensures e.out.fsm.phase == Initial <==> before.phase == Initial && e.input != Start
    ensures before.phase == Stopping ==> e.out.fsm.phase == Stopping && e.out.action == NoAction
  {
  }

  /** An automaton that was told to terminate while open never does anything to its phase again. */
  lemma {:induction false} StoppingIsFinal(kind: Kind, peer: Peer, log: seq<Entry>, i: nat)
    requires IsRun(kind, peer, log) && i < |log| && log[i].out.fsm.phase == Stopping
    ensures FsmAfter(peer, log).phase == Stopping
    ensures forall k :: i < k < |log| ==> log[k].out.action == NoAction
  {
    RunSplit(kind, peer, log);
    var init := log[..|log| - 1];
    if i == |init| {
    } else {
      StoppingIsFinal(kind, peer, init, i);
      ReachablePhases(kind, peer, init);
      var reply, noted := PossibleIsReaction(kind, log[|log| - 1], FsmAfter(peer, init));
      StepPhases(kind, log[|log| - 1], FsmAfter(peer, init), reply, noted);
      assert forall k :: i < k < |init| ==> log[k] == init[k];
    }
  }

  /** Without a configured authentication protocol LCP never gets past Starting: it has no request to send. */
  lemma {:induction false} NoAuthNoLcp(peer: Peer, log: seq<Entry>)
    requires IsRun(Lcp, peer, log) && forall i :: 0 <= i < |log| ==> !log[i].env.chap && !log[i].env.pap
    ensures (FsmAfter(peer, log).phase == Initial || FsmAfter(peer, log).phase == Starting)
    ensures forall i :: 0 <= i < |log| ==> log[i].out.action != LayerUp && log[i].out.sent == []
  {
    if log == [] {
    } else {
      RunSplit(Lcp, peer, log);
      var init := log[..|log| - 1];
      assert forall i :: 0 <= i < |init| ==> log[i] == init[i];
      NoAuthNoLcp(peer, init);
    }
  }

  // ---- Layer-up and layer-down -------------------------------------------------------------------------------------

  function Count(log: seq<Entry>, a: Action): nat {
    if log == [] then 0 else Count(log[..|log| - 1], a) + if log[|log| - 1].out.action == a then 1 else 0
  }

  /** LayerUp is reported exactly on a step into Opened and LayerDown exactly on a step out of it. */
  lemma ActionsMarkOpened(kind: Kind, e: Entry, before: Fsm, reply: Reply, noted: Peer)
    requires Reaction(kind, e, before, reply, noted) && InUse(before.phase)
    ensures e.out.action == LayerUp <==> before.phase != Opened && e.out.fsm.phase == Opened
    ensures e.out.action == LayerDown <==> before.phase == Opened && e.out.fsm.phase != Opened
    ensures e.out.action != NoAction ==> !e.out.err
  {
  }

  /** So over any run the layer-ups exceed the layer-downs by one if the automaton is open and balance otherwise. */
  lemma {:induction false} UpsMinusDowns(kind: Kind, peer: Peer, log: seq<Entry>)
    requires IsRun(kind, peer, log)
    ensures Count(log, LayerUp) == Count(log, LayerDown) + if FsmAfter(peer, log).phase == Opened then 1 else 0
  {
    if log == [] {
    } else {
      RunSplit(kind, peer, log);
      UpsMinusDowns(kind, peer, log[..|log| - 1]);
      ReachablePhases(kind, peer, log[..|log| - 1]);
      var reply, noted := PossibleIsReaction(kind, log[|log| - 1], FsmAfter(peer, log[..|log| - 1]));
      ActionsMarkOpened(kind, log[|log| - 1], FsmAfter(peer, log[..|log| - 1]), reply, noted);
    }
  }

  // ---- What Opened means -------------------------------------------------------------------------------------------

  lemma StepPeerAck(kind: Kind, e: Entry, before: Fsm, reply: Reply, noted: Peer)
    requires Reaction(kind, e, before, reply, noted) && InUse(before.phase) && PeerAckPhase(e.out.fsm.phase)
    ensures !StartsOver(e) && (PeerAckPhase(before.phase) || PeerAcked(e))
  {
    if e.input.Packet? && e.input.pkt[0] == CONF_REQ {
      assert e.out.sent == [] || |e.out.sent| == 1;
    }
  }

  lemma StepOwnAck(kind: Kind, e: Entry, before: Fsm, reply: Reply, noted: Peer)
    requires Reaction(kind, e, before, reply, noted) && InUse(before.phase) && OwnAckPhase(e.out.fsm.phase)
    ensures !StartsOver(e) && (OwnAckPhase(before.phase) || WeAcked(e))
    ensures Asks(e) && !WeAcked(e) ==> kind == Ipcp && (e.out.err || Sends(e, CONF_REJ))
  {
    if Carries(e, CONF_REQ) {
      AskedOwnAck(kind, e, before, reply, noted);
    }
  }

  lemma AskedOwnAck(kind: Kind, e: Entry, before: Fsm, reply: Reply, noted: Peer)
    requires Reaction(kind, e, before, reply, noted) && InUse(before.phase) && OwnAckPhase(e.out.fsm.phase)
    requires Carries(e, CONF_REQ)
    ensures !StartsOver(e) && (OwnAckPhase(before.phase) || WeAcked(e))
    ensures Asks(e) && !WeAcked(e) ==> kind == Ipcp && (e.out.err || Sends(e, CONF_REJ))
  {
  }

  /** In Ack-Rcvd and Opened the peer has acknowledged our request since the negotiation last started over. */
  lemma {:induction false} PeerAckedIt(kind: Kind, peer: Peer, log: seq<Entry>) returns (i: nat)
    requires IsRun(kind, peer, log) && PeerAckPhase(FsmAfter(peer, log).phase)
    ensures Since(log, i, PeerAcked)
  {
    RunSplit(kind, peer, log);
    var init, e := log[..|log| - 1], log[|log| - 1];
    ReachablePhases(kind, peer, init);
    var reply, noted := PossibleIsReaction(kind, e, FsmAfter(peer, init));
    StepPeerAck(kind, e, FsmAfter(peer, init), reply, noted);
    if PeerAcked(e) {
      i := |init|;
    } else {
      i := PeerAckedIt(kind, peer, init);
      SinceExtends(init, i, e, PeerAcked);
    }
  }

  /** How the requests after the acknowledged one fared: LCP acknowledged each, IPCP rejected or left unanswered any
      it did not. */
  ghost predicate LaterRequests(kind: Kind, log: seq<Entry>, j: nat) {
    forall k :: j < k < |log| && Asks(log[k]) ==> kind == Ipcp && (log[k].out.err || Sends(log[k], CONF_REJ))
  }

  /** In Ack-Sent and Opened we have acknowledged a request of the peer since the negotiation last started over. For
      LCP it is the latest non-empty one; for IPCP every later one was rejected or went unanswered. */
  lemma {:induction false} WeAckedIt(kind: Kind, peer: Peer, log: seq<Entry>) returns (j: nat)
    requires IsRun(kind, peer, log) && OwnAckPhase(FsmAfter(peer, log).phase)
    ensures Since(log, j, WeAcked) && LaterRequests(kind, log, j)
  {
    RunSplit(kind, peer, log);
    var init, e := log[..|log| - 1], log[|log| - 1];
    ReachablePhases(kind, peer, init);
    var reply, noted := PossibleIsReaction(kind, e, FsmAfter(peer, init));
    StepOwnAck(kind, e, FsmAfter(peer, init), reply, noted);
    if WeAcked(e) {
      j := |init|;
    } else {
      j := WeAckedIt(kind, peer, init);
      SinceExtends(init, j, e, WeAcked);
      assert forall k :: j < k < |init| ==> log[k] == init[k];
    }
  }

  /** Request `k` is the latest one with options. */
  ghost predicate LatestAsk(log: seq<Entry>, k: nat) {
    k < |log| && Asks(log[k]) && forall m :: k < m < |log| ==> !Asks(log[m])
  }

  /** The request could be acknowledged: an AAA session was there to compare it with, and all its options are known. */
  ghost predicate Acceptable(e: Entry)
    requires Asks(e) && WellFormed(Area(e.input.pkt))
  {
    e.env.lease.Some? && Keep(Parse(Area(e.input.pkt)), Unknown) == []
  }

  /** One step into Ack-Sent or Opened on a request with options: it was acknowledged if and only if it was
      acceptable. */
  lemma AskedStep(e: Entry, before: Fsm)
    requires Possible(Ipcp, e, before) && InUse(before.phase) && Asks(e) && OwnAckPhase(e.out.fsm.phase)
    ensures WeAcked(e) <==> Acceptable(e)
  {
    var pkt := e.input.pkt;
    var reply, noted := Verdict(Ipcp, e.env, pkt), Noted(Ipcp, before, pkt);
    AskedReaction(e, before, reply, noted);
  }

  lemma AskedReaction(e: Entry, before: Fsm, reply: Reply, noted: Peer)
    requires Asks(e) && InUse(before.phase) && OwnAckPhase(e.out.fsm.phase)
    requires e.out == Dispatch(Ipcp, e.env, before, e.input.pkt, reply, noted)
    ensures (WeAcked(e) <==> reply.Acked?) && !reply.Nakked?
  {
    if WeAcked(e) {
      AckNeedsVerdict(e, before, reply, noted);
    }
  }

  lemma OnlyAsksAreAcked(e: Entry, before: Fsm)
    requires Possible(Ipcp, e, before) && WeAcked(e)
    ensures Asks(e)
  {
    var reply, noted := Verdict(Ipcp, e.env, e.input.pkt), Noted(Ipcp, before, e.input.pkt);
    AckNeedsVerdict(e, before, reply, noted);
  }

  lemma AckNeedsVerdict(e: Entry, before: Fsm, reply: Reply, noted: Peer)
    requires WeAcked(e) && Sound(e.input.pkt) && e.out == Dispatch(Ipcp, e.env, before, e.input.pkt, reply, noted)
    ensures reply.Acked?
  {
    assert e.out.sent[0][0] == CONF_ACK;
  }

  /** When IPCP is in Ack-Sent or Opened, its latest request with options is the one it acknowledged if and only if that
      request had known options only and met an AAA session: otherwise an earlier one is. */
  lemma {:induction false} LatestAckedIff(peer: Peer, log: seq<Entry>, k: nat)
    requires IsRun(Ipcp, peer, log) && OwnAckPhase(FsmAfter(peer, log).phase) && LatestAsk(log, k)
    ensures WellFormed(Area(log[k].input.pkt))
    ensures Since(log, k, WeAcked) <==> Acceptable(log[k])
  {
    RunSplit(Ipcp, peer, log);
    var init, e := log[..|log| - 1], log[|log| - 1];
    ReachablePhases(Ipcp, peer, init);
    var before := FsmAfter(peer, init);
    var reply, noted := PossibleIsReaction(Ipcp, e, before);
    StepOwnAck(Ipcp, e, before, reply, noted);
    if k == |init| {
      AskedStep(e, before);
    } else {
      if WeAcked(e) { OnlyAsksAreAcked(e, before); }
      LatestAckedIff(peer, init, k);
      assert forall m :: 0 <= m < |init| ==> log[m] == init[m];
    }
  }

  /** IPCP does not have LCP's stronger property: here it opens although the latest request was rejected, because a
      Reject leaves its phase alone. */
  lemma IpcpOpensOnARejectedRequest(lease: Lease, peer: Peer) returns (log: seq<Entry>)
    ensures IsRun(Ipcp, peer, log) && |log| == 4 && FsmAfter(peer, log).phase == Opened
    ensures Asks(log[2]) && !WeAcked(log[2]) && Sends(log[2], CONF_REJ)
    ensures Asks(log[1]) && WeAcked(log[1])
  {
    var env := Env(true, false, 1492, 1, Some(lease));
    var ask1, ask2 := GoodAndBad(env, lease);
    var ack := Build(CONF_ACK, PKT_ID, []);
    BuildIsSound(CONF_ACK, PKT_ID, []);
    var f0 := Fresh(peer);
    var e0 := Entry(env, Start, Kick(Ipcp, env, f0));
    var e1 := Entry(env, Packet(ask1), Receive(Ipcp, env, e0.out.fsm, ask1));
    var e2 := Entry(env, Packet(ask2), Receive(Ipcp, env, e1.out.fsm, ask2));
    var e3 := Entry(env, Packet(ack), Receive(Ipcp, env, e2.out.fsm, ack));
    assert e2.out.sent[0][0] == CONF_REJ;
    log := [] + [e0];
    RunExtends(Ipcp, peer, [], e0);
    RunExtends(Ipcp, peer, log, e1);
    RunExtends(Ipcp, peer, log + [e1], e2);
    RunExtends(Ipcp, peer, log + [e1] + [e2], e3);
    log := log + [e1] + [e2] + [e3];
  }

  lemma RunExtends(kind: Kind, peer: Peer, log: seq<Entry>, e: Entry)
    requires IsRun(kind, peer, log) && Possible(kind, e, FsmAfter(peer, log))
    ensures IsRun(kind, peer, log + [e]) && FsmAfter(peer, log + [e]) == e.out.fsm
  {
    assert (log + [e])[..|log|] == log;
  }

  lemma GoodAndBad(env: Env, lease: Lease) returns (ask1: seq<byte>, ask2: seq<byte>)
    requires env.lease == Some(lease)
    ensures Handled(Ipcp, ask1) && ask1[0] == CONF_REQ && Area(ask1) != [] && Verdict(Ipcp, env, ask1).Acked?
    ensures Handled(Ipcp, ask2) && ask2[0] == CONF_REQ && Area(ask2) != [] && Verdict(Ipcp, env, ask2).Rejected?
  {
    var good, bad := [Opt(IP_ADDRESS, Be32(lease.address))], [Opt(2, [0, 45])];
    ask1 := Ask(7, good);
    ask2 := Ask(8, bad);
    Be32RoundTrip(lease.address, []);
    assert Be32(lease.address) + [] == Be32(lease.address);
    assert Keep(good, Unknown) == [] && AllAgree(lease, good);
    assert Keep(bad, Unknown)[0] == bad[0];
  }

  /** A request of a peer that lists these options. */
  lemma Ask(id: byte, opts: seq<Opt>) returns (pkt: seq<byte>)
    requires HEADER + |Unparse(opts)| < 0x1_0000 && AllSized(opts)
    ensures pkt == Build(CONF_REQ, id, Unparse(opts)) && Handled(Ipcp, pkt)
    ensures Area(pkt) == Unparse(opts) && Parse(Area(pkt)) == opts
  {
    pkt := Build(CONF_REQ, id, Unparse(opts));
    BuildIsSound(CONF_REQ, id, Unparse(opts));
    ParseUnparse(opts);
  }

  // ---- Echo keepalive ----------------------------------------------------------------------------------------------

  /** What moves the echo counter of an LCP automaton: its timer, and whatever the peer sends. */
  datatype Tick = Fired(env: Env) | Heard(env: Env, pkt: seq<byte>)

  ghost predicate Legal(t: Tick) { t.Heard? ==> Handled(Lcp, t.pkt) }

  /** Before LCP is started, and while it has no request to send, every packet is dropped. */
  predicate Hears(f: Fsm) { f.phase != Initial && f.phase != Starting }

  ghost function Ticked(f: Fsm, t: Tick): Outcome
    requires Legal(t)
  {
    match t case Fired(env) => EchoFires(env, f) case Heard(env, pkt) => Receive(Lcp, env, f, pkt)
  }

  predicate IsEchoReply(t: Tick) { t.Heard? && |t.pkt| >= HEADER && t.pkt[0] == ECHO_REPLY }

  /** Timer firings since the last reply that was heard. */
  function Unanswered(ticks: seq<Tick>, hears: bool): nat {
    if ticks == [] then 0
    else
      var t := ticks[|ticks| - 1];
      if hears && IsEchoReply(t) then 0 else Unanswered(ticks[..|ticks| - 1], hears) + if t.Fired? then 1 else 0
  }

  ghost predicate EchoRun(ticks: seq<Tick>) {
    forall i :: 0 <= i < |ticks| ==> Legal(ticks[i])
  }

  ghost function AfterTicks(f: Fsm, ticks: seq<Tick>): Fsm
    requires EchoRun(ticks)
  {
    if ticks == [] then f else Ticked(AfterTicks(f, ticks[..|ticks| - 1]), ticks[|ticks| - 1]).fsm
  }

  lemma OneTick(f: Fsm, t: Tick, n: nat)
    requires Legal(t) && f.echo == n % 0x100
    ensures var f', m := Ticked(f, t).fsm, if Hears(f) && IsEchoReply(t) then 0 else n + if t.Fired? then 1 else 0;
            f'.echo == m % 0x100 && Hears(f') == Hears(f)
  {
    match t
    case Heard(env, pkt) => EchoUntouched(env, f, pkt);
    case Fired(env) => FiringCounts(env, f, n);
  }

  lemma FiringCounts(env: Env, f: Fsm, n: nat)
    requires f.echo == n % 0x100
    ensures EchoFires(env, f).fsm.echo == (n + 1) % 0x100 && Hears(EchoFires(env, f).fsm) == Hears(f)
    ensures EchoFires(env, f).action == LayerDown <==> (n + 1) % 0x100 > ECHO_LIMIT
  {
    assert (n % 0x100 + 1) % 0x100 == (n + 1) % 0x100;
  }

  /** From any phase and for any ticks: the counter is the number of firings since the last reply that was heard, cut to
      eight bits. */
  lemma {:induction false} EchoCountsFirings(f: Fsm, ticks: seq<Tick>)
    requires EchoRun(ticks) && f.echo == 0
    ensures AfterTicks(f, ticks).echo == Unanswered(ticks, Hears(f)) % 0x100
    ensures Hears(AfterTicks(f, ticks)) == Hears(f)
  {
    if ticks == [] {
    } else {
      var init, t := ticks[..|ticks| - 1], ticks[|ticks| - 1];
      EchoCountsFirings(f, init);
      OneTick(AfterTicks(f, init), t, Unanswered(init, Hears(f)));
    }
  }

  /** One more firing reports the layer down exactly when, cut to eight bits, more than nine are unanswered with it. */
  lemma TenthFiringReports(f: Fsm, ticks: seq<Tick>, env: Env)
    requires EchoRun(ticks) && f.echo == 0
    ensures EchoFires(env, AfterTicks(f, ticks)).action == LayerDown <==>
            Unanswered(ticks + [Fired(env)], Hears(f)) % 0x100 > ECHO_LIMIT
  {
    EchoCountsFirings(f, ticks);
    FiringCounts(env, AfterTicks(f, ticks), Unanswered(ticks, Hears(f)));
    assert (ticks + [Fired(env)])[..|ticks|] == ticks;
  }

  /** Of all packets only an Echo-Reply that is heard changes the counter, and none changes what is heard. */
  lemma EchoUntouched(env: Env, f: Fsm, pkt: seq<byte>)
    requires Handled(Lcp, pkt)
    ensures var f' := Receive(Lcp, env, f, pkt).fsm;
            f'.echo == (if pkt[0] == ECHO_REPLY && Hears(f) then 0 else f.echo) && Hears(f') == Hears(f)
  {
    DispatchEcho(env, f, pkt, Verdict(Lcp, env, pkt), Noted(Lcp, f, pkt));
  }

  lemma DispatchEcho(env: Env, f: Fsm, pkt: seq<byte>, reply: Reply, noted: Peer)
    requires Sound(pkt) && (pkt[0] == TERM_REQ || pkt[0] == ECHO_REQ ==> |pkt| >= 8)
    ensures var f' := Dispatch(Lcp, env, f, pkt, reply, noted).fsm;
            f'.echo == (if pkt[0] == ECHO_REPLY && Hears(f) then 0 else f.echo) && Hears(f') == Hears(f)
  {
  }
}
