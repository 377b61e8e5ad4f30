/** LCP and what runs above it: nothing makes PAP, CHAP or IPCP frames wait until LCP is open. */
module DaemonGate {
  import opened Wire
  import opened OptionArea
  import opened ControlPacket
  import opened IpcpOptions
  import opened PppFsm
  import LcpOptions
  import Runs = PppFsmRuns
  import opened Convergence
  import Aaa
  import opened Daemon
  import opened DaemonInvariant
  import opened DaemonSteps
  import opened DaemonTheorems
  import opened DaemonContinuations

  // ---- When a session is provisioned with its LCP open -------------------------------------------------------------

  /** The test that is missing before an IPCP frame is handed on. */
  predicate LcpIsOpen(d: State, key: Key) {
    key in d.active && d.active[key] in d.objs && d.objs[d.active[key]].lcp.phase == Opened
  }

  /** A session that is put into the data plane has its LCP open if and only if its LCP was open when the frame came. */
  lemma ProvisionedOpenIff(states: seq<State>, events: seq<Daemon.Event>, i: nat)
    requires Daemon.IsRun(states, events) && i < |events| && states[i + 1].provisions != states[i].provisions
    ensures events[i].Ppp? && (LcpIsOpen(states[i + 1], events[i].key) <==> LcpIsOpen(states[i], events[i].key))
  {
    ProvisionedWell(states, events, i);
    InvAlways(states, events, i);
    var d, e := states[i], events[i];
    OnlyIpcpProvisions(d, e);
    ActiveKey(d, e.key);
    IpcpLeavesLcp(Started(d, d.active[e.key]), d.active[e.key], e.frame.pkt);
    StartDoesNotOpen(d, d.active[e.key]);
  }

  lemma IpcpLeavesLcp(d: State, o: nat, pkt: seq<byte>)
    requires o in d.objs && Handled(Ipcp, pkt)
    ensures var d1 := IpcpStep(d, o, pkt); d1.active == d.active && o in d1.objs && d1.objs[o].lcp == d.objs[o].lcp
  {
  }

  lemma StartDoesNotOpen(d: State, o: nat)
    requires o in d.objs && LocalOk(d.conf, d.objs[o])
    ensures var d1 := Started(d, o);
            d1.active == d.active && o in d1.objs && (d1.objs[o].lcp.phase == Opened <==> d.objs[o].lcp.phase == Opened)
  {
  }

  /** With neither PAP nor CHAP configured a session is never provisioned with its LCP open. */
  lemma NeverOpenWithoutMethod(states: seq<State>, events: seq<Daemon.Event>, i: nat)
    requires Daemon.IsRun(states, events) && i < |events| && states[i + 1].provisions != states[i].provisions
    requires !states[i].conf.chap && !states[i].conf.pap
    ensures events[i].Ppp? && !LcpIsOpen(states[i + 1], events[i].key)
  {
    ProvisionedOpenIff(states, events, i);
    InvAlways(states, events, i);
  }

  // ---- Peers that wait for LCP -------------------------------------------------------------------------------------

  /** No IPCP frame arrives for a session whose LCP is not open. */
  predicate Waits(states: seq<State>, events: seq<Daemon.Event>)
    requires |events| < |states|
  {
    forall i :: 0 <= i < |events| ==> WaitsHere(states[i], events[i])
  }

  predicate WaitsHere(d: State, e: Daemon.Event) {
    e.Ppp? && e.frame.IpcpFrame? && e.key in d.active ==> LcpIsOpen(d, e.key)
  }

  predicate Both(s: Session) { s.ipcp.phase == Opened ==> s.lcp.phase == Opened }

  ghost predicate AllBoth(d: State) {
    forall k :: k in d.active && d.active[k] in d.objs ==> Both(d.objs[d.active[k]])
  }

  lemma PutBoth(d: State, o: nat, s: Session)
    requires AllBoth(d) && Both(s)
    ensures AllBoth(Put(d, o, s))
  {
  }

  lemma DeallocateBoth(d: State, sid: u16)
    requires AllBoth(d)
    ensures AllBoth(Deallocate(d, sid))
  {
  }

  /** The object is in the table once, under its key, and the search by its session id finds it. */
  ghost predicate Alone(d: State, o: nat) {
    && o in d.objs && d.objs[o].key in d.active && d.objs[o].key.sid in d.ids.taken
    && FindSid(d.active, d.objs[o].key.sid) == Some(d.objs[o].key)
    && forall k :: k in d.active && d.active[k] == o <==> k == d.objs[o].key
  }

  lemma ActiveIsAlone(d: State, o: nat)
    requires Inv(d) && IsActive(d, o)
    ensures Alone(d, o) && LocalOk(d.conf, d.objs[o])
  {
    ActiveIsItsKey(d, o);
    FoundSid(d, d.objs[o].key.sid);
    OwnSid(d, d.objs[o].key);
  }

  lemma AloneIsBoth(d: State, o: nat)
    requires AllBoth(d) && Alone(d, o)
    ensures Both(d.objs[o])
  {
    assert d.active[d.objs[o].key] == o;
  }

  /** Tearing down the session whose object holds anything at all. */
  lemma DeallocatePutBoth(d: State, o: nat, s: Session)
    requires AllBoth(d) && Alone(d, o) && s.key == d.objs[o].key
    ensures AllBoth(Deallocate(Put(d, o, s), s.key.sid))
  {
    var d1 := Deallocate(Put(d, o, s), s.key.sid);
    assert d1.active == d.active - {s.key};
    forall k | k in d1.active && d1.active[k] in d1.objs ensures Both(d1.objs[d1.active[k]]) {
      assert d.active[k] != o && d1.objs[d.active[k]] == d.objs[d.active[k]];
    }
  }

  lemma SayBoth(d: State, o: nat, a: AuthPacket)
    requires AllBoth(d)
    ensures AllBoth(Say(d, o, a))
  {
  }

  lemma StartIpcpBoth(d: State, o: nat)
    requires AllBoth(d) && o in d.objs && Both(d.objs[o])
    ensures AllBoth(StartIpcp(d, o))
  {
  }

  /** Objects outside the table are not bound by this; a callback for one changes no active session. */
  lemma AuthSucceedsBoth(d: State, o: nat, via: Via, id: u32)
    requires AllBoth(d)
    ensures AllBoth(AuthSucceeds(d, o, via, id))
  {
  }

  lemma AfterStartBoth(d: State, o: nat, via: Via, r: (Aaa.State, Option<u32>))
    requires AllBoth(d)
    ensures AllBoth(AfterStart(d, o, via, r))
  {
    if r.1.Some? {
      AuthSucceedsBoth(d.(aaa := r.0), o, via, r.1.value);
    }
  }

  lemma {:induction false} TryMethodsBoth(d: State, o: nat, via: Via, methods: seq<Aaa.Method>)
    requires AllBoth(d)
    ensures AllBoth(TryMethods(d, o, via, methods))
    decreases methods
  {
    if methods == [] || methods[0] == Aaa.RadiusAuth {
    } else if methods[0] == Aaa.LocalAuth {
      TryMethodsBoth(d, o, via, methods[1..]);
    } else {
      AfterStartBoth(d, o, via, Aaa.StartNone(d.conf.aaa, d.aaa, o));
      TryMethodsBoth(AfterStart(d, o, via, Aaa.StartNone(d.conf.aaa, d.aaa, o)), o, via, methods[1..]);
    }
  }

  lemma LcpBoth(d: State, o: nat, pkt: seq<byte>)
    requires AllBoth(d) && Alone(d, o) && LocalOk(d.conf, d.objs[o]) && Handled(Lcp, pkt)
    ensures AllBoth(LcpStep(d, o, pkt))
  {
    var s := d.objs[o];
    PacketReaction(Lcp, EnvOf(d, s), s.lcp, pkt);
    LcpChangeBoth(d, o, pkt, Receive(Lcp, EnvOf(d, s), s.lcp, pkt));
  }

  /** LCP that leaves Opened takes its session out of the table. */
  lemma LcpChangeBoth(d: State, o: nat, pkt: seq<byte>, out: Outcome)
    requires AllBoth(d) && Alone(d, o) && LocalOk(d.conf, d.objs[o]) && Sound(pkt) && Reacted(Lcp, d.objs[o].lcp, pkt, out)
    ensures AllBoth(LcpEffect(d, o, out))
  {
    var s, t := d.objs[o], d.objs[o].(lcp := out.fsm);
    LcpLocally(d.conf, s, pkt, out);
    AloneIsBoth(d, o);
    if out.fsm.phase != Opened && s.lcp.phase == Opened {
      DeallocatePutBoth(d, o, t);
      assert LcpEffect(d, o, out) == Deallocate(Put(d, o, t), t.key.sid);
    } else {
      PutBoth(d, o, t);
      LcpUpBoth(d, o, t, out);
    }
  }

  lemma LcpUpBoth(d: State, o: nat, t: Session, out: Outcome)
    requires o in d.objs && t == d.objs[o].(lcp := out.fsm) && AllBoth(Put(d, o, t))
    requires !d.conf.chap && !d.conf.pap ==> out.err
    ensures AllBoth(LcpEffect(d, o, out))
  {
    LcpEffectCases(d, o, t, out);
    SayBoth(Put(d, o, t), o, Challenge);
    DeallocateBoth(Put(d, o, t), t.key.sid);
  }

  lemma IpcpBoth(d: State, o: nat, pkt: seq<byte>)
    requires AllBoth(d) && o in d.objs && d.objs[o].lcp.phase == Opened && Handled(Ipcp, pkt)
    ensures AllBoth(IpcpStep(d, o, pkt))
  {
    var s := d.objs[o];
    var env := EnvOf(d, s);
    IpcpChangeBoth(d, o, pkt, Consults(env, s.ipcp, pkt), Receive(Ipcp, env, s.ipcp, pkt));
  }

  lemma IpcpChangeBoth(d: State, o: nat, pkt: seq<byte>, consults: bool, out: Outcome)
    requires AllBoth(d) && o in d.objs && d.objs[o].lcp.phase == Opened && Sound(pkt)
    requires consults ==> LeaseOf(d.aaa, d.objs[o].aaaId).Some?
    ensures var s := d.objs[o]; AllBoth(IpcpEffect(d, o, AfterIpcp(s, LeaseOf(d.aaa, s.aaaId), pkt, consults, out), out))
  {
    var s := AfterIpcp(d.objs[o], LeaseOf(d.aaa, d.objs[o].aaaId), pkt, consults, out);
    PutBoth(d, o, s);
    PutBoth(d, o, s.(echoOn := true));
  }

  lemma StartedBoth(d: State, o: nat)
    requires AllBoth(d) && o in d.objs && Both(d.objs[o]) && LocalOk(d.conf, d.objs[o])
    ensures AllBoth(Started(d, o))
  {
    StartDoesNotOpen(d, o);
    PutBoth(d, o, Started(d, o).objs[o]);
  }

  /** The first frame changes nothing of what the steps below build on. */
  lemma StartedAlone(d: State, o: nat)
    requires Inv(d) && IsActive(d, o) && o in d.objs
    ensures Alone(Started(d, o), o) && LocalOk(Started(d, o).conf, Started(d, o).objs[o])
  {
    StartedKeeps(d, o);
    ActiveIsAlone(Started(d, o), o);
  }

  lemma FrameBoth(d: State, key: Key, frame: Frame)
    requires Inv(d) && AllBoth(d) && Legible(frame) && (frame.IpcpFrame? && key in d.active ==> LcpIsOpen(d, key))
    ensures AllBoth(FrameStep(d, key, frame))
  {
    if key in d.active {
      var o := d.active[key];
      ActiveKey(d, key);
      ActiveIsAlone(d, o);
      AloneIsBoth(d, o);
      StartedBoth(d, o);
      StartedAlone(d, o);
      StartDoesNotOpen(d, o);
      ProtocolBoth(Started(d, o), o, frame);
    }
  }

  lemma ProtocolBoth(d: State, o: nat, frame: Frame)
    requires AllBoth(d) && Alone(d, o) && LocalOk(d.conf, d.objs[o]) && Legible(frame)
    requires frame.IpcpFrame? ==> d.objs[o].lcp.phase == Opened
    ensures AllBoth(ProtocolStep(d, o, frame))
  {
    match frame
    case LcpFrame(pkt) => LcpBoth(d, o, pkt);
    case IpcpFrame(pkt) => IpcpBoth(d, o, pkt);
    case AuthRequest(via) => AuthBoth(d, o, via);
    case OtherFrame =>
  }

  lemma AuthBoth(d: State, o: nat, via: Via)
    requires AllBoth(d) && Alone(d, o)
    ensures AllBoth(AuthStep(d, o, via))
  {
    AloneIsBoth(d, o);
    SayBoth(d, o, Success(via));
    StartIpcpBoth(Say(d, o, Success(via)), o);
    TryMethodsBoth(d, o, via, d.conf.aaa.methods);
  }

  lemma AnswerBoth(d: State, o: nat, via: Via, accept: bool, resp: Aaa.RadiusResponse)
    requires AllBoth(d)
    ensures AllBoth(AfterAnswer(d, o, via, accept, resp))
  {
    var told := if accept then d else AuthFails(d, o, via);
    SayBoth(d, o, Failure(via));
    AfterStartBoth(told, o, via, Aaa.StartRadius(d.conf.aaa, told.aaa, o, resp));
    SayBoth(told, o, Failure(via));
  }

  lemma EchoBoth(d: State, o: nat)
    requires AllBoth(d)
    ensures AllBoth(EchoStep(d, o))
  {
    if o in d.objs && d.objs[o].echoOn {
      var s := d.objs[o];
      var out := EchoFires(EnvOf(d, s), s.lcp);
      var t := if out.action != Action.LayerDown then s.(lcp := out.fsm) else s.(lcp := out.fsm, echoOn := false);
      assert AllBoth(Put(d, o, t));
      DeallocateBoth(Put(d, o, t), s.key.sid);
    }
  }

  lemma AdmitBoth(d: State, conn: Conn, magic: u32, peer: LcpOptions.Peer)
    requires AllBoth(d)
    ensures AllBoth(Admit(d, conn, magic, peer))
  {
  }

  lemma StepBoth(d: State, e: Daemon.Event)
    requires Inv(d) && AllBoth(d) && Daemon.Possible(d, e) && WaitsHere(d, e)
    ensures AllBoth(Daemon.Step(d, e))
  {
    if e.Ppp? {
      FrameBoth(d, e.key, e.frame);
    } else if e.EchoTimer? {
      EchoBoth(d, e.obj);
    } else if e.RadiusAnswer? || e.RadiusError? {
      RadiusBoth(d, e);
    } else {
      TableBoth(d, e);
    }
  }

  lemma RadiusBoth(d: State, e: Daemon.Event)
    requires AllBoth(d) && Daemon.Possible(d, e) && (e.RadiusAnswer? || e.RadiusError?)
    ensures AllBoth(Daemon.Step(d, e))
  {
    if e.RadiusAnswer? {
      AnswerBoth(d, e.obj, e.via, e.accept, e.resp);
    } else {
      SayBoth(d, e.obj, Failure(e.via));
    }
  }

  lemma TableBoth(d: State, e: Daemon.Event)
    requires AllBoth(d) && Daemon.Possible(d, e)
    requires !e.Ppp? && !e.EchoTimer? && !e.RadiusAnswer? && !e.RadiusError?
    ensures AllBoth(Daemon.Step(d, e))
  {
    match e
    case Padr(conn, magic, peer) => AdmitBoth(d, conn, magic, peer);
    case Padt(_, sid) => DeallocateBoth(d, sid);
    case _ =>
  }

  lemma BothOnward(states: seq<State>, events: seq<Daemon.Event>, i: nat)
    requires Daemon.IsRun(states, events) && i < |events| && WaitsHere(states[i], events[i]) && AllBoth(states[i])
    ensures AllBoth(states[i + 1])
  {
    InvAlways(states, events, i);
    StepBoth(states[i], events[i]);
  }

  lemma BothAtFirst(states: seq<State>, events: seq<Daemon.Event>)
    requires Daemon.IsRun(states, events)
    ensures AllBoth(states[0])
  {
    assert states[0].active == map[];
  }

  /** If no IPCP frame arrives before LCP is open, then at every moment each active session whose IPCP is open has its
      LCP open; and so has every session that is provisioned, when it is. */
  lemma {:induction false} OpenTogether(states: seq<State>, events: seq<Daemon.Event>, i: nat)
    requires Daemon.IsRun(states, events) && i < |states| && Waits(states, events)
    ensures AllBoth(states[i])
    decreases i
  {
    if i == 0 {
      BothAtFirst(states, events);
    } else {
      OpenTogether(states, events, i - 1);
      BothOnward(states, events, i - 1);
    }
  }

  // ---- A peer that does not ----------------------------------------------------------------------------------------

  /** The daemon's configuration in the run below, with any choice of authentication protocols. */
  function OpenHouse(chap: bool, pap: bool): Conf {
    Conf(chap, pap, 1492, Aaa.AaaConf([Aaa.NoneAuth], "t", map["t" := Aaa.Template("", 0, 0)]))
  }

  const NO_ADDRESS := Lease(0, 0, 0)

  /** What the daemon looks like after the PAP request: IPCP waits for the peer, and LCP is not open. */
  ghost predicate LetIn(d: State, k: Key, chap: bool, pap: bool) {
    && d.conf == OpenHouse(chap, pap) && d.active == map[k := 0] && 0 in d.objs && d.provisions == []
    && var s := d.objs[0];
    && s.key == k && s.started && s.lcp.phase != Opened && s.lcp.echo == 0 && s.magic == 0
    && (Runs.Hears(s.lcp) <==> chap || pap)
    && LeaseOf(d.aaa, s.aaaId) == Some(NO_ADDRESS)
  }

  lemma PapLetsIn(d: State, k: Key, chap: bool, pap: bool) returns (d1: State)
    requires d.conf == OpenHouse(chap, pap) && d.active == map[k := 0] && d.objs == map[0 := NewSession(k, 0, NO_PEER)]
    requires d.aaa.table == map[] && d.aaa.pools == map[] && d.aaa.objects == map[] && d.provisions == []
    ensures Daemon.Possible(d, Ppp(k, AuthRequest(Pap))) && d1 == Daemon.Step(d, Ppp(k, AuthRequest(Pap)))
    ensures LetIn(d1, k, chap, pap) && d1.objs[0].ipcp.phase == ReqSent && !d1.objs[0].echoOn
  {
    var s := Started(d, 0);
    d1 := AfterStart(s, 0, Pap, Aaa.StartNone(d.conf.aaa, s.aaa, 0));
    FirstTwoFree(s.aaa.table);
    assert d.conf.aaa.methods[1..] == [];
    assert TryMethods(s, 0, Pap, d.conf.aaa.methods) == d1;
    assert AuthStep(s, 0, Pap) == d1;
  }

  /** A request with the address the AAA session has. */
  ghost function GoodRequest(): seq<byte> {
    Build(CONF_REQ, 1, Unparse([Opt(IP_ADDRESS, Be32(0))]))
  }

  lemma GoodRequestIsAcked(env: Env, f: Fsm)
    requires env.lease == Some(NO_ADDRESS) && Negotiating(f)
    ensures Handled(Ipcp, GoodRequest()) && GoodRequest()[0] == CONF_REQ && Area(GoodRequest()) != []
    ensures AnsweredWith(f, GoodRequest(), Acked(Area(GoodRequest())), Receive(Ipcp, env, f, GoodRequest()))
  {
    var o := Opt(IP_ADDRESS, Be32(0));
    var area := Unparse([o]);
    UnparseOne(o);
    ParseUnparse([o]);
    AllMembers([o], Sized);
    Be32RoundTrip(0, []);
    assert Be32(0) + [] == Be32(0);
    AllMembers([o], (x: Opt) => Agrees(NO_ADDRESS, x));
    KeepNothing([o], Unknown, Known);
    AllMembers([o], Known);
    assert Answer(NO_ADDRESS, area) == Acked(area);
    BuildIsSound(CONF_REQ, 1, area);
    IpcpRequest(env, f, 1, area);
  }

  /** The peer's acknowledgement of our request. */
  ghost function OurAck(): seq<byte> { Build(CONF_ACK, PKT_ID, []) }

  lemma OurAckIsSound()
    ensures Handled(Ipcp, OurAck()) && OurAck()[0] == CONF_ACK && OurAck()[1] == PKT_ID
  {
    BuildIsSound(CONF_ACK, PKT_ID, []);
  }

  /** A frame of IPCP for a session that is started. */
  lemma IpcpFrameStep(d: State, k: Key, pkt: seq<byte>, chap: bool, pap: bool, out: Outcome) returns (d1: State)
    requires LetIn(d, k, chap, pap) && Handled(Ipcp, pkt)
    requires out == Receive(Ipcp, EnvOf(d, d.objs[0]), d.objs[0].ipcp, pkt)
    ensures Daemon.Possible(d, Ppp(k, IpcpFrame(pkt))) && d1 == Daemon.Step(d, Ppp(k, IpcpFrame(pkt)))
    ensures d1.conf == d.conf && d1.active == d.active && d1.aaa == d.aaa && 0 in d1.objs && d1.objs[0].ipcp == out.fsm
    ensures d1.objs[0] == d.objs[0].(ipcp := out.fsm, address := d1.objs[0].address, echoOn := d1.objs[0].echoOn,
                                     from := d1.objs[0].from, acked := d1.objs[0].acked)
    ensures if !out.err && out.action == Action.LayerUp then d1.objs[0].echoOn && |d1.provisions| == |d.provisions| + 1
            else d1.provisions == d.provisions
  {
    d1 := IpcpStep(d, 0, pkt);
    IpcpStepIs(d, 0, pkt, out);
    StartedFrame(d, k, IpcpFrame(pkt));
  }

  lemma IpcpStepIs(d: State, o: nat, pkt: seq<byte>, out: Outcome)
    requires o in d.objs && Handled(Ipcp, pkt) && out == Receive(Ipcp, EnvOf(d, d.objs[o]), d.objs[o].ipcp, pkt)
    ensures var d1 := IpcpStep(d, o, pkt);
            && d1.conf == d.conf && d1.active == d.active && d1.aaa == d.aaa && o in d1.objs && d1.objs[o].ipcp == out.fsm
            && d1.objs[o] == d.objs[o].(ipcp := out.fsm, address := d1.objs[o].address, echoOn := d1.objs[o].echoOn,
                                        from := d1.objs[o].from, acked := d1.objs[o].acked)
            && if !out.err && out.action == Action.LayerUp then d1.objs[o].echoOn && |d1.provisions| == |d.provisions| + 1
               else d1.provisions == d.provisions
  {
  }

  lemma StartedFrame(d: State, k: Key, frame: Frame)
    requires Legible(frame) && k in d.active && d.active[k] in d.objs && d.objs[d.active[k]].started
    ensures FrameStep(d, k, frame) == ProtocolStep(d, d.active[k], frame)
  {
  }

  predicate NoLcpFrame(e: Daemon.Event) { e.Ppp? ==> !e.frame.LcpFrame? }

  /** Whichever of CHAP and PAP are configured: where an AAA method needs no RADIUS server, a peer that sends a PAP request
      and two IPCP packets, and no LCP packet, is put into the data plane; its LCP has not come up. */
  lemma ProvisionedWithoutLcp(line: Line, chap: bool, pap: bool) returns (states: seq<State>, events: seq<Daemon.Event>)
    ensures Daemon.IsRun(states, events) && |events| == 5
    ensures forall e :: e in events ==> NoLcpFrame(e)
    ensures |states[5].provisions| == 1 && LetInFor(states[5], Key(line, 1), chap, pap)
  {
    var k := Key(line, 1);
    states, events := UpToPap(line, chap, pap);
    var d4 := GoodStep(states[3], k, chap, pap);
    states, events := AppendStep(states, events, Ppp(k, IpcpFrame(GoodRequest())), d4);
    var d5 := AckStep(d4, k, chap, pap);
    states, events := AppendStep(states, events, Ppp(k, IpcpFrame(OurAck())), d5);
  }

  /** Discovery and the PAP request. */
  lemma UpToPap(line: Line, chap: bool, pap: bool) returns (states: seq<State>, events: seq<Daemon.Event>)
    ensures Daemon.IsRun(states, events) && |events| == 3
    ensures forall e :: e in events ==> NoLcpFrame(e)
    ensures LetIn(states[3], Key(line, 1), chap, pap) && states[3].objs[0].ipcp.phase == ReqSent
  {
    var c, k := Conn(line, []), Key(line, 1);
    var d0 := Init(OpenHouse(chap, pap), map[]);
    states, events := [d0], [];
    states, events := AppendStep(states, events, Padi(c), Daemon.Step(d0, Padi(c)));
    var d2 := FirstVisitor(d0, line);
    states, events := AppendStep(states, events, Padr(c, 0, NO_PEER), d2);
    var d3 := PapLetsIn(d2, k, chap, pap);
    states, events := AppendStep(states, events, Ppp(k, AuthRequest(Pap)), d3);
  }

  /** The session is provisioned, its echo timer runs, and its LCP is not open. */
  ghost predicate LetInFor(d: State, k: Key, chap: bool, pap: bool) {
    && d.conf == OpenHouse(chap, pap) && d.active == map[k := 0] && 0 in d.objs && d.objs[0].key == k
    && d.objs[0].started && d.objs[0].echoOn && d.objs[0].lcp.echo == 0
    && d.objs[0].lcp.phase != Opened && (Runs.Hears(d.objs[0].lcp) <==> chap || pap)
  }

  lemma GoodStep(d: State, k: Key, chap: bool, pap: bool) returns (d1: State)
    requires LetIn(d, k, chap, pap) && d.objs[0].ipcp.phase == ReqSent
    ensures Handled(Ipcp, GoodRequest()) && Daemon.Possible(d, Ppp(k, IpcpFrame(GoodRequest())))
    ensures d1 == Daemon.Step(d, Ppp(k, IpcpFrame(GoodRequest()))) && LetIn(d1, k, chap, pap)
    ensures d1.objs[0].ipcp.phase == AckSent
  {
    var env := EnvOf(d, d.objs[0]);
    GoodRequestIsAcked(env, d.objs[0].ipcp);
    d1 := IpcpFrameStep(d, k, GoodRequest(), chap, pap, Receive(Ipcp, env, d.objs[0].ipcp, GoodRequest()));
  }

  lemma AckStep(d: State, k: Key, chap: bool, pap: bool) returns (d1: State)
    requires LetIn(d, k, chap, pap) && d.objs[0].ipcp.phase == AckSent
    ensures Handled(Ipcp, OurAck()) && Daemon.Possible(d, Ppp(k, IpcpFrame(OurAck())))
    ensures d1 == Daemon.Step(d, Ppp(k, IpcpFrame(OurAck()))) && LetInFor(d1, k, chap, pap) && |d1.provisions| == 1
  {
    OurAckIsSound();
    var env := EnvOf(d, d.objs[0]);
    d1 := IpcpFrameStep(d, k, OurAck(), chap, pap, Receive(Ipcp, env, d.objs[0].ipcp, OurAck()));
  }
}
