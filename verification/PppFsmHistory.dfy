/** What a run's packets say about the automaton's state: which request of ours is out, who has acknowledged whom, and what
    the counters count. */
module PppFsmHistory {
  import opened Wire
  import opened ControlPacket
  import opened LcpOptions
  import opened PppFsm
  import opened PppFsmRuns
  import opened PppPackets

  // ---- Our request -------------------------------------------------------------------------------------------------

  /** The negotiation is under way, or has succeeded. */
  predicate Asked(p: Phase) { p == ReqSent || p == AckRcvd || p == AckSent || p == Opened }

  /** The entry takes the automaton into the negotiation, or back to its start. */
  predicate Begins(before: Fsm, e: Entry) {
    Asked(e.out.fsm.phase) && (!Asked(before.phase) || e.out.action == LayerDown)
  }

  /** Our request goes out exactly when a negotiation begins, and then nothing else does. */
  ghost predicate AsksAtBeginning(kind: Kind, before: Fsm, e: Entry) {
    && (Begins(before, e) ==> JustOurRequest(kind, e.env, e.out.sent))
    && (!Begins(before, e) ==> !Sends(e, 1))
    && (Begins(before, e) && !Able(kind, e.env) ==> before.phase == Opened)
  }

  lemma BeginningAsks(kind: Kind, e: Entry, before: Fsm, reply: Reply, noted: Peer)
    requires Reaction(kind, e, before, reply, noted) && InUse(before.phase)
    ensures AsksAtBeginning(kind, before, e)
  {
    OurRequestIsSent(kind, e.env);
    if e.input == Start {
      KickIsBegun(kind, e.env, before);
      StartAsks(kind, e, before, RequestSent(kind, e.env));
    } else if e.input.pkt[0] == CONF_REQ {
      RequestAsks(kind, e, before, reply, noted);
    } else {
      PacketAsks(kind, e, before, reply, noted);
    }
  }

  /** A start-up from a phase that is reached, `own` being our request if there is one. */
  function Begun(f: Fsm, own: seq<seq<byte>>): Outcome {
    if f.phase != Initial && f.phase != Starting then Outcome(f, NoAction, false, [])
    else Outcome(f.(phase := if own == [] then Starting else ReqSent), NoAction, false, own)
  }

  lemma KickIsBegun(kind: Kind, env: Env, f: Fsm)
    requires InUse(f.phase)
    ensures Kick(kind, env, f) == Begun(f, RequestSent(kind, env))
  {
    assert [] + RequestSent(kind, env) == RequestSent(kind, env);
  }

  lemma StartAsks(kind: Kind, e: Entry, before: Fsm, own: seq<seq<byte>>)
    requires e.out == Begun(before, own) && JustOurRequest(kind, e.env, own)
    ensures AsksAtBeginning(kind, before, e)
  {
  }

  lemma RequestAsks(kind: Kind, e: Entry, before: Fsm, reply: Reply, noted: Peer)
    requires e.input.Packet? && Sound(e.input.pkt) && e.input.pkt[0] == CONF_REQ && InUse(before.phase)
    requires e.out == Dispatch(kind, e.env, before, e.input.pkt, reply, noted)
    requires JustOurRequest(kind, e.env, RequestSent(kind, e.env))
    ensures AsksAtBeginning(kind, before, e)
  {
    if before.phase != Opened {
      assert e.out.sent == [] || (|e.out.sent| == 1 && e.out.sent[0][0] != 1);
    }
  }

  lemma PacketAsks(kind: Kind, e: Entry, before: Fsm, reply: Reply, noted: Peer)
    requires Reaction(kind, e, before, reply, noted) && InUse(before.phase)
    requires e.input.Packet? && e.input.pkt[0] != CONF_REQ
    requires JustOurRequest(kind, e.env, RequestSent(kind, e.env))
    ensures AsksAtBeginning(kind, before, e)
  {
  }

  /** Entry `i` is the latest that sent our request or reported the layer down. */
  ghost predicate LatestBeginning(log: seq<Entry>, i: nat) {
    && i < |log| && (Sends(log[i], 1) || log[i].out.action == LayerDown)
    && forall k :: i < k < |log| ==> !Sends(log[k], 1) && log[k].out.action != LayerDown
  }

  /** While the negotiation is under way, and when it has succeeded, our request is out, and is all that was sent, since
      it last began; unless it then began again, after the layer was up, with nothing left to ask for. */
  lemma {:induction false} OurRequestIsOut(kind: Kind, peer: Peer, log: seq<Entry>) returns (i: nat)
    requires IsRun(kind, peer, log) && Asked(FsmAfter(peer, log).phase)
    ensures LatestBeginning(log, i) && JustOurRequest(kind, log[i].env, log[i].out.sent)
    ensures !Able(kind, log[i].env) ==> log[i].out.action == LayerDown
  {
    RunSplit(kind, peer, log);
    var init, e := log[..|log| - 1], log[|log| - 1];
    var before := FsmAfter(peer, init);
    ReachablePhases(kind, peer, init);
    var reply, noted := PossibleIsReaction(kind, e, before);
    BeginningAsks(kind, e, before, reply, noted);
    ActionsMarkOpened(kind, e, before, reply, noted);
    if Begins(before, e) {
      i := |init|;
      BeginningShows(kind, before, e);
    } else {
      i := OurRequestIsOut(kind, peer, init);
      assert forall k :: 0 <= k < |init| ==> log[k] == init[k];
    }
  }

  lemma BeginningShows(kind: Kind, before: Fsm, e: Entry)
    requires AsksAtBeginning(kind, before, e) && Begins(before, e)
    ensures Sends(e, 1) <==> Able(kind, e.env)
  {
    if Able(kind, e.env) { assert e.out.sent[0][0] == 1; }
  }

  function Requests(log: seq<Entry>): nat {
    if log == [] then 0 else Requests(log[..|log| - 1]) + if Sends(log[|log| - 1], 1) then 1 else 0
  }

  /** So with something to ask for throughout, our requests are counted: one for the start, and one for each time the
      layer went down and the peer had not asked to terminate. */
  lemma {:induction false} RequestsAreCounted(kind: Kind, peer: Peer, log: seq<Entry>)
    requires IsRun(kind, peer, log) && forall i :: 0 <= i < |log| ==> Able(kind, log[i].env)
    ensures var phase := FsmAfter(peer, log).phase;
            Requests(log) + (if phase == Stopping then 1 else 0) ==
            Count(log, LayerDown) + (if phase == Initial || phase == Starting then 0 else 1)
  {
    if log == [] {
    } else {
      RunSplit(kind, peer, log);
      var init, e := log[..|log| - 1], log[|log| - 1];
      var before := FsmAfter(peer, init);
      assert forall i :: 0 <= i < |init| ==> log[i] == init[i];
      RequestsAreCounted(kind, peer, init);
      ReachablePhases(kind, peer, init);
      var reply, noted := PossibleIsReaction(kind, e, before);
      BeginningAsks(kind, e, before, reply, noted);
      ActionsMarkOpened(kind, e, before, reply, noted);
      PhaseMoves(kind, e, before, reply, noted);
      OneRequestMore(kind, before, e);
    }
  }

  /** How the phases move: out of the negotiation only from Opened, into Stopping. */
  ghost predicate Moves(before: Fsm, e: Entry) {
    && (Asked(before.phase) ==> Asked(e.out.fsm.phase) || (before.phase == Opened && e.out.fsm.phase == Stopping))
    && (before.phase == Stopping <==> e.out.fsm.phase == Stopping && before.phase != Opened)
    && InUse(e.out.fsm.phase)
  }

  lemma PhaseMoves(kind: Kind, e: Entry, before: Fsm, reply: Reply, noted: Peer)
    requires Reaction(kind, e, before, reply, noted) && InUse(before.phase)
    ensures Moves(before, e)
  {
  }

  predicate DownMarked(before: Fsm, e: Entry) {
    e.out.action == LayerDown <==> before.phase == Opened && e.out.fsm.phase != Opened
  }

  lemma OneRequestMore(kind: Kind, before: Fsm, e: Entry)
    requires AsksAtBeginning(kind, before, e) && Moves(before, e) && DownMarked(before, e) && Able(kind, e.env)
    requires InUse(before.phase)
    ensures Sends(e, 1) <==> Begins(before, e)
    ensures (if Begins(before, e) then 1 else 0) + (if e.out.fsm.phase == Stopping then 1 else 0)
            - (if before.phase == Stopping then 1 else 0)
            == (if e.out.action == LayerDown then 1 else 0)
               + (if e.out.fsm.phase == Initial || e.out.fsm.phase == Starting then 0 else 1)
               - (if before.phase == Initial || before.phase == Starting then 0 else 1)
  {
    if Begins(before, e) { BeginningShows(kind, before, e); }
  }

  // ---- Who has acknowledged whom -----------------------------------------------------------------------------------

  lemma GoesOn(kind: Kind, before: Fsm, e: Entry)
    requires AsksAtBeginning(kind, before, e) && DownMarked(before, e) && !StartsOver(e)
    ensures !Begins(before, e)
  {
    if Begins(before, e) { BeginningShows(kind, before, e); }
  }

  lemma AckCounts(kind: Kind, e: Entry, before: Fsm, reply: Reply, noted: Peer)
    requires Reaction(kind, e, before, reply, noted) && Asked(before.phase) && Asked(e.out.fsm.phase)
    requires !StartsOver(e) && (PeerAcked(e) || PeerAckPhase(before.phase))
    ensures PeerAckPhase(e.out.fsm.phase)
  {
  }

  lemma {:induction false} PeerAckStays(kind: Kind, peer: Peer, log: seq<Entry>, i: nat)
    requires IsRun(kind, peer, log) && Asked(FsmAfter(peer, log).phase) && Since(log, i, PeerAcked)
    ensures PeerAckPhase(FsmAfter(peer, log).phase)
  {
    RunSplit(kind, peer, log);
    var init, e := log[..|log| - 1], log[|log| - 1];
    var before := FsmAfter(peer, init);
    ReachablePhases(kind, peer, init);
    var reply, noted := PossibleIsReaction(kind, e, before);
    BeginningAsks(kind, e, before, reply, noted);
    ActionsMarkOpened(kind, e, before, reply, noted);
    GoesOn(kind, before, e);
    if i < |init| {
      assert Since(init, i, PeerAcked);
      PeerAckStays(kind, peer, init, i);
    }
    AckCounts(kind, e, before, reply, noted);
  }

  /** A request that was acknowledged, or an IPCP request that was rejected or not answered, leaves our acknowledgement
      standing. */
  predicate KeepsAck(kind: Kind, e: Entry) {
    WeAcked(e) || (Asks(e) ==> kind == Ipcp && (e.out.err || Sends(e, CONF_REJ)))
  }

  lemma OwnAckCounts(kind: Kind, e: Entry, before: Fsm, reply: Reply, noted: Peer)
    requires Reaction(kind, e, before, reply, noted) && Asked(before.phase) && Asked(e.out.fsm.phase)
    requires !StartsOver(e) && KeepsAck(kind, e) && (WeAcked(e) || OwnAckPhase(before.phase))
    requires Carries(e, CONF_REQ) && Area(e.input.pkt) == [] ==> reply == Silent
    ensures OwnAckPhase(e.out.fsm.phase)
  {
    if Carries(e, CONF_REQ) {
      RequestKeepsAck(kind, e, before, reply, noted);
    }
  }

  lemma NakTakesAckBack(kind: Kind, e: Entry, before: Fsm, reply: Reply, noted: Peer)
    requires Carries(e, CONF_REQ) && Sound(e.input.pkt) && Area(e.input.pkt) != [] && reply.Nakked?
    requires before.phase in {ReqSent, AckRcvd, AckSent}
    requires e.out == Dispatch(kind, e.env, before, e.input.pkt, reply, noted)
    ensures !KeepsAck(kind, e)
  {
    assert |e.out.sent| == 1 && e.out.sent[0][0] == CONF_NAK;
  }

  lemma RequestKeepsAck(kind: Kind, e: Entry, before: Fsm, reply: Reply, noted: Peer)
    requires Carries(e, CONF_REQ) && Sound(e.input.pkt) && before.phase in {ReqSent, AckRcvd, AckSent, Opened}
    requires e.out == Dispatch(kind, e.env, before, e.input.pkt, reply, noted) && e.out.action != LayerDown
    requires KeepsAck(kind, e) && (WeAcked(e) || OwnAckPhase(before.phase))
    requires Area(e.input.pkt) == [] ==> reply == Silent
    ensures OwnAckPhase(e.out.fsm.phase)
  {
    match reply
    case Silent =>
    case Acked(_) =>
    case Nakked(_) =>
      NakTakesAckBack(kind, e, before, reply, noted);
      assert false;
    case Rejected(_) => assert e.out.sent[0][0] == CONF_REJ && |e.out.sent| == 1;
  }

  lemma EmptyIsSilent(kind: Kind, e: Entry, before: Fsm) returns (reply: Reply, noted: Peer)
    requires PppFsmRuns.Possible(kind, e, before)
    ensures Reaction(kind, e, before, reply, noted)
    ensures Carries(e, CONF_REQ) && Area(e.input.pkt) == [] ==> reply == Silent
  {
    reply, noted := Silent, before.peer;
    if e.input.Packet? {
      reply, noted := Verdict(kind, e.env, e.input.pkt), Noted(kind, before, e.input.pkt);
      if e.input.pkt[0] == CONF_REQ { VerdictShape(kind, e.env, e.input.pkt); }
    }
  }

  lemma {:induction false} OwnAckStays(kind: Kind, peer: Peer, log: seq<Entry>, j: nat)
    requires IsRun(kind, peer, log) && Asked(FsmAfter(peer, log).phase)
    requires Since(log, j, WeAcked) && LaterRequests(kind, log, j)
    ensures OwnAckPhase(FsmAfter(peer, log).phase)
  {
    RunSplit(kind, peer, log);
    var init, e := log[..|log| - 1], log[|log| - 1];
    var before := FsmAfter(peer, init);
    ReachablePhases(kind, peer, init);
    var reply, noted := EmptyIsSilent(kind, e, before);
    BeginningAsks(kind, e, before, reply, noted);
    ActionsMarkOpened(kind, e, before, reply, noted);
    GoesOn(kind, before, e);
    if j < |init| {
      assert forall k :: 0 <= k < |init| ==> log[k] == init[k];
      assert Since(init, j, WeAcked) && LaterRequests(kind, init, j);
      OwnAckStays(kind, peer, init, j);
    }
    OwnAckCounts(kind, e, before, reply, noted);
  }

  /** While the negotiation is under way, and when it has succeeded, the phase is told by what was acknowledged since it
      last started over: Ack-Rcvd and Opened mean our request, and Ack-Sent and Opened a request of the peer after which
      none was naked or, for LCP, rejected. */
  lemma PhaseIsWhatWasAcked(kind: Kind, peer: Peer, log: seq<Entry>)
    requires IsRun(kind, peer, log) && Asked(FsmAfter(peer, log).phase)
    ensures PeerAckPhase(FsmAfter(peer, log).phase) <==> exists i: nat :: Since(log, i, PeerAcked)
    ensures OwnAckPhase(FsmAfter(peer, log).phase) <==>
            exists j: nat :: Since(log, j, WeAcked) && LaterRequests(kind, log, j)
  {
    if PeerAckPhase(FsmAfter(peer, log).phase) {
      var i := PeerAckedIt(kind, peer, log);
    }
    forall i: nat | Since(log, i, PeerAcked) ensures PeerAckPhase(FsmAfter(peer, log).phase) {
      PeerAckStays(kind, peer, log, i);
    }
    if OwnAckPhase(FsmAfter(peer, log).phase) {
      var j := WeAckedIt(kind, peer, log);
    }
    forall j: nat | Since(log, j, WeAcked) && LaterRequests(kind, log, j)
      ensures OwnAckPhase(FsmAfter(peer, log).phase)
    {
      OwnAckStays(kind, peer, log, j);
    }
  }

  // ---- Counters and flags ------------------------------------------------------------------------------------------

  /** Naks sent since the last acknowledgement. */
  function Naks(log: seq<Entry>): nat {
    if log == [] then 0
    else
      var e := log[|log| - 1];
      if Sends(e, 2) then 0 else Naks(log[..|log| - 1]) + if Sends(e, 3) then 1 else 0
  }

  /** An acknowledgement of ours by the peer, with the right identifier, was looked at. */
  ghost predicate HeardAck(log: seq<Entry>) {
    exists i :: 0 <= i < |log| && PeerAcked(log[i]) && !log[i].out.err
  }

  /** What a run leaves in the two fields that nothing else shows: the count of Naks, in eight bits, and whether the peer
      ever acknowledged a request of ours. */
  lemma {:induction false} CountersTell(kind: Kind, peer: Peer, log: seq<Entry>)
    requires IsRun(kind, peer, log)
    ensures FsmAfter(peer, log).nakCounter == Naks(log) % 0x100
    ensures FsmAfter(peer, log).seenAck <==> HeardAck(log)
  {
    if log == [] {
    } else {
      RunSplit(kind, peer, log);
      var init, e := log[..|log| - 1], log[|log| - 1];
      CountersTell(kind, peer, init);
      EntryCounts(kind, peer, init, e);
      CountersGoOn(FsmAfter(peer, init), init, e);
    }
  }

  lemma EntryCounts(kind: Kind, peer: Peer, init: seq<Entry>, e: Entry)
    requires IsRun(kind, peer, init) && PppFsmRuns.Possible(kind, e, FsmAfter(peer, init))
    ensures CountersStep(FsmAfter(peer, init), e)
  {
    ReachablePhases(kind, peer, init);
    var reply, noted := PossibleIsReaction(kind, e, FsmAfter(peer, init));
    StepCounters(kind, e, FsmAfter(peer, init), reply, noted);
  }

  lemma CountersGoOn(before: Fsm, init: seq<Entry>, e: Entry)
    requires CountersStep(before, e) && before.nakCounter == Naks(init) % 0x100 && (before.seenAck <==> HeardAck(init))
    ensures e.out.fsm.nakCounter == Naks(init + [e]) % 0x100 && (e.out.fsm.seenAck <==> HeardAck(init + [e]))
  {
    var log := init + [e];
    assert log[..|log| - 1] == init && log[|init|] == e;
    assert forall k :: 0 <= k < |init| ==> log[k] == init[k];
  }

  ghost predicate CountersStep(before: Fsm, e: Entry) {
    && e.out.fsm.nakCounter ==
       (if Sends(e, 2) then 0 else if Sends(e, 3) then (before.nakCounter + 1) % 0x100 else before.nakCounter)
    && (e.out.fsm.seenAck <==> before.seenAck || (PeerAcked(e) && !e.out.err))
  }

  predicate RequestsOnly(sent: seq<seq<byte>>) {
    sent == [] || (|sent| == 1 && |sent[0]| > 0 && sent[0][0] == 1)
  }

  lemma StepCounters(kind: Kind, e: Entry, before: Fsm, reply: Reply, noted: Peer)
    requires Reaction(kind, e, before, reply, noted) && InUse(before.phase)
    ensures CountersStep(before, e)
  {
    OnlyRequests(kind, e.env);
    if e.input == Start {
      KickIsBegun(kind, e.env, before);
      StartCounters(e, before, RequestSent(kind, e.env));
    } else if e.input.pkt[0] == CONF_REQ {
      RequestCounters(kind, e, before, reply, noted);
    } else {
      PacketCounters(kind, e, before, reply, noted);
    }
  }

  lemma OnlyRequests(kind: Kind, env: Env)
    ensures RequestsOnly(RequestSent(kind, env))
  {
    OwnRequestReads(kind, env);
  }

  lemma StartCounters(e: Entry, before: Fsm, own: seq<seq<byte>>)
    requires e.input == Start && e.out == Begun(before, own) && RequestsOnly(own)
    ensures CountersStep(before, e)
  {
  }

  lemma RequestCounters(kind: Kind, e: Entry, before: Fsm, reply: Reply, noted: Peer)
    requires e.input.Packet? && Sound(e.input.pkt) && e.input.pkt[0] == CONF_REQ && InUse(before.phase)
    requires e.out == Dispatch(kind, e.env, before, e.input.pkt, reply, noted)
    requires RequestsOnly(RequestSent(kind, e.env))
    ensures CountersStep(before, e)
  {
    if e.out.sent != [] { assert |e.out.sent| == 1 && |e.out.sent[0]| > 0; }
  }

  lemma PacketCounters(kind: Kind, e: Entry, before: Fsm, reply: Reply, noted: Peer)
    requires Reaction(kind, e, before, reply, noted) && e.input.Packet? && e.input.pkt[0] != CONF_REQ
    requires RequestsOnly(RequestSent(kind, e.env))
    ensures CountersStep(before, e)
  {
  }
}
