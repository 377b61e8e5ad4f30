/** What PAP and CHAP tell a client, over whole runs: which event queues which packet, when a challenge goes out, and when a
    client is let in without RADIUS. */
module DaemonAnswers {
  import opened Wire
  import opened ControlPacket
  import opened IpcpOptions
  import opened PppFsm
  import LcpOptions
  import Runs = PppFsmRuns
  import Aaa
  import opened Daemon
  import opened DaemonInvariant
  import opened DaemonSteps
  import opened DaemonTheorems
  import opened DaemonContinuations
  import DaemonEcho
  import opened PppPackets

  // ---- What an event adds ------------------------------------------------------------------------------------------

  predicate Began(s: Session, via: Via) { if via == Pap then s.papStarted else s.chapStarted }

  /** Object `o`, if it is still there, has `added` more packets queued and `n` more successes counted; its key and its
      magic number are as before, and the protocols that have succeeded are those that say so. Its IPCP leaves Initial when
      the client is told of a success, and not otherwise. No object appears. */
  ghost predicate Adds(d: State, d1: State, o: nat, added: seq<AuthPacket>, n: int) {
    && (forall x :: x in d1.objs ==> x in d.objs)
    && d1.conf == d.conf && d1.nextObj == d.nextObj
    && (o in d1.objs ==> AddsTo(d.objs[o], d1.objs[o], added, n))
  }

  predicate AddsTo(s: Session, t: Session, added: seq<AuthPacket>, n: int) {
    && t.answers == s.answers + added && t.auths == s.auths + n && t.key == s.key && t.magic == s.magic
    && (forall via :: Began(t, via) <==> Began(s, via) || Success(via) in added)
    && (t.ipcp.phase != Initial <==> s.ipcp.phase != Initial || LetsIn(added))
  }

  predicate LetsIn(answers: seq<AuthPacket>) { Success(Pap) in answers || Success(Chap) in answers }

  lemma DeallocateAdds(d: State, sid: u16, o: nat)
    ensures Adds(d, Deallocate(d, sid), o, [], 0)
  {
  }

  lemma PutAdds(d: State, x: nat, s: Session, o: nat, added: seq<AuthPacket>, n: int)
    requires x in d.objs && AddsTo(d.objs[x], s, added, n)
    ensures Adds(d, Put(d, x, s), o, if x == o then added else [], if x == o then n else 0)
  {
  }

  lemma SayAdds(d: State, x: nat, a: AuthPacket, o: nat)
    requires !a.Success?
    ensures Adds(d, Say(d, x, a), o, if x == o then [a] else [], 0)
  {
    if x in d.objs {
      PutAdds(d, x, d.objs[x].(answers := d.objs[x].answers + [a]), o, [a], 0);
    }
  }

  /** One more acknowledgement for a protocol that has succeeded starts IPCP, if it is not started yet. */
  lemma SayAgainAdds(d: State, x: nat, via: Via, o: nat)
    requires x in d.objs && Began(d.objs[x], via)
    ensures Adds(d, StartIpcp(Say(d, x, Success(via)), x), o, if x == o then [Success(via)] else [], 0)
  {
    var s := d.objs[x].(answers := d.objs[x].answers + [Success(via)]);
    IpcpIsStarted(EnvOf(d, s), s.ipcp);
    var t := s.(ipcp := Kick(Ipcp, EnvOf(d, s), s.ipcp).fsm);
    PutAdds(d, x, t, o, [Success(via)], 0);
    assert d.objs[x := s][x := t] == d.objs[x := t];
  }

  lemma IpcpIsStarted(env: Env, f: Fsm)
    ensures Kick(Ipcp, env, f).fsm.phase != Initial
  {
  }

  lemma AddsThen(d: State, d1: State, d2: State, o: nat, a: seq<AuthPacket>, n: int, b: seq<AuthPacket>, m: int)
    requires Adds(d, d1, o, a, n) && Adds(d1, d2, o, b, m)
    ensures Adds(d, d2, o, a + b, n + m)
  {
    if o in d2.objs {
      assert d.objs[o].answers + a + b == d.objs[o].answers + (a + b);
    }
  }

  lemma SucceedsAdds(d: State, x: nat, via: Via, id: u32, o: nat)
    ensures Adds(d, AuthSucceeds(d, x, via, id), o, if x == o then [Success(via)] else [], if x == o then 1 else 0)
  {
    if x in d.objs {
      var s := SetAuth(d.objs[x], via, id);
      IpcpIsStarted(EnvOf(d, s), s.ipcp);
      var t := s.(ipcp := Kick(Ipcp, EnvOf(d, s), s.ipcp).fsm);
      PutAdds(d, x, t, o, [Success(via)], 1);
      assert d.objs[x := s][x := t] == d.objs[x := t];
    }
  }

  function Successes(via: Via, n: nat): seq<AuthPacket> {
    seq(n, _ => Success(via))
  }

  lemma OneSuccessMore(via: Via, n: nat)
    ensures [Success(via)] + Successes(via, n) == Successes(via, n + 1)
  {
  }

  /** What a start of an AAA session adds, when no RADIUS server is asked or one has answered. */
  lemma AfterStartAdds(d: State, x: nat, via: Via, r: (Aaa.State, Option<u32>), o: nat)
    ensures Adds(d, AfterStart(d, x, via, r), o, if x == o && r.1.Some? then [Success(via)] else [],
                 if x == o && r.1.Some? then 1 else 0)
  {
    if r.1.Some? {
      SucceedsAdds(d.(aaa := r.0), x, via, r.1.value, o);
    }
  }

  /** The loop over the methods: as many acknowledgements as successes, and nothing for other objects. */
  lemma {:induction false} MethodsAdd(d: State, x: nat, via: Via, methods: seq<Aaa.Method>, o: nat) returns (n: nat)
    ensures Adds(d, TryMethods(d, x, via, methods), o, Successes(via, n), n) && (x != o ==> n == 0)
    decreases methods
  {
    if methods == [] || methods[0] == Aaa.RadiusAuth {
      n := 0;
    } else if methods[0] == Aaa.LocalAuth {
      n := MethodsAdd(d, x, via, methods[1..], o);
    } else {
      var r := Aaa.StartNone(d.conf.aaa, d.aaa, x);
      var d1 := AfterStart(d, x, via, r);
      AfterStartAdds(d, x, via, r, o);
      n := MethodsAdd(d1, x, via, methods[1..], o);
      MethodTurn(d, d1, TryMethods(d, x, via, methods), via, o, x == o && r.1.Some?, n);
      n := n + if x == o && r.1.Some? then 1 else 0;
    }
  }

  lemma MethodTurn(d: State, d1: State, d2: State, via: Via, o: nat, granted: bool, n: nat)
    requires Adds(d, d1, o, if granted then [Success(via)] else [], if granted then 1 else 0)
    requires Adds(d1, d2, o, Successes(via, n), n)
    ensures var m := n + if granted then 1 else 0; Adds(d, d2, o, Successes(via, m), m)
  {
    var a := if granted then [Success(via)] else [];
    AddsThen(d, d1, d2, o, a, if granted then 1 else 0, Successes(via, n), n);
    OneSuccessMore(via, n);
    assert [] + Successes(via, n) == Successes(via, n);
  }

  // ---- Frames ------------------------------------------------------------------------------------------------------

  /** An LCP frame takes LCP from another phase into Opened. */
  predicate ComesUp(s: Session, t: Session) { s.lcp.phase != Opened && t.lcp.phase == Opened }

  lemma UpMeansAction(kind: Kind, env: Env, f: Fsm, pkt: seq<byte>)
    requires Handled(kind, pkt) && Runs.InUse(f.phase)
    ensures var out := Receive(kind, env, f, pkt);
            out.action == Action.LayerUp && !out.err <==> f.phase != Opened && out.fsm.phase == Opened
  {
    var e := Runs.Entry(env, Runs.Packet(pkt), Receive(kind, env, f, pkt));
    var reply, noted := Runs.PossibleIsReaction(kind, e, f);
    Runs.ActionsMarkOpened(kind, e, f, reply, noted);
  }

  /** A challenge is queued exactly when LCP comes up and CHAP is configured. */
  lemma LcpAdds(d: State, x: nat, pkt: seq<byte>, o: nat)
    requires x in d.objs && LocalOk(d.conf, d.objs[x]) && Handled(Lcp, pkt)
    ensures var up := d.objs[x].lcp.phase != Opened && Receive(Lcp, EnvOf(d, d.objs[x]), d.objs[x].lcp, pkt).fsm.phase == Opened;
            Adds(d, LcpStep(d, x, pkt), o, if x == o && up && d.conf.chap then [Challenge] else [], 0)
  {
    var s := d.objs[x];
    UpMeansAction(Lcp, EnvOf(d, s), s.lcp, pkt);
    PacketReaction(Lcp, EnvOf(d, s), s.lcp, pkt);
    var out := Receive(Lcp, EnvOf(d, s), s.lcp, pkt);
    LcpLocally(d.conf, s, pkt, out);
    EffectAdds(d, x, out, o);
  }

  lemma EffectAdds(d: State, x: nat, out: Outcome, o: nat)
    requires x in d.objs && (!d.conf.chap && !d.conf.pap ==> out.err)
    ensures var up := out.action == Action.LayerUp && !out.err;
            Adds(d, LcpEffect(d, x, out), o, if x == o && up && d.conf.chap then [Challenge] else [], 0)
  {
    var s := d.objs[x].(lcp := out.fsm);
    PutAdds(d, x, s, o, [], 0);
    DeallocateAdds(Put(d, x, s), s.key.sid, o);
    SayAdds(Put(d, x, s), x, Challenge, o);
  }

  lemma IpcpAdds(d: State, x: nat, pkt: seq<byte>, o: nat)
    requires x in d.objs && LocalOk(d.conf, d.objs[x]) && Handled(Ipcp, pkt)
    ensures Adds(d, IpcpStep(d, x, pkt), o, [], 0)
  {
    var s := d.objs[x];
    var env := EnvOf(d, s);
    PacketReaction(Ipcp, env, s.ipcp, pkt);
    IpcpChangeAdds(d, x, pkt, Consults(env, s.ipcp, pkt), Receive(Ipcp, env, s.ipcp, pkt), o);
  }

  lemma IpcpChangeAdds(d: State, x: nat, pkt: seq<byte>, consults: bool, out: Outcome, o: nat)
    requires x in d.objs && Sound(pkt) && (consults ==> LeaseOf(d.aaa, d.objs[x].aaaId).Some?)
    requires out.fsm.phase == Initial <==> d.objs[x].ipcp.phase == Initial
    ensures var s := d.objs[x];
            Adds(d, IpcpEffect(d, x, AfterIpcp(s, LeaseOf(d.aaa, s.aaaId), pkt, consults, out), out), o, [], 0)
  {
    var s := d.objs[x];
    var t := AfterIpcp(s, LeaseOf(d.aaa, s.aaaId), pkt, consults, out);
    IpcpTouchesNoAnswer(s, LeaseOf(d.aaa, s.aaaId), pkt, consults, out);
    PutAdds(d, x, t, o, [], 0);
    PutAdds(d, x, t.(echoOn := true), o, [], 0);
  }

  lemma IpcpTouchesNoAnswer(s: Session, lease: Option<Lease>, pkt: seq<byte>, consults: bool, out: Outcome)
    requires Sound(pkt) && (consults ==> lease.Some?) && (out.fsm.phase == Initial <==> s.ipcp.phase == Initial)
    ensures var t := AfterIpcp(s, lease, pkt, consults, out);
            AddsTo(s, t, [], 0) && AddsTo(s, t.(echoOn := true), [], 0)
  {
  }

  /** A request of a protocol that has succeeded is acknowledged again; any other goes to the AAA side. */
  lemma AuthAdds(d: State, x: nat, via: Via, o: nat) returns (added: seq<AuthPacket>, n: nat)
    requires x in d.objs
    ensures Adds(d, AuthStep(d, x, via), o, added, n)
    ensures x != o ==> added == [] && n == 0
    ensures x == o && Began(d.objs[o], via) ==> added == [Success(via)] && n == 0
    ensures x == o && !Began(d.objs[o], via) ==> added == Successes(via, n)
  {
    if Began(d.objs[x], via) {
      added, n := if x == o then [Success(via)] else [], 0;
      SayAgainAdds(d, x, via, o);
    } else {
      n := MethodsAdd(d, x, via, d.conf.aaa.methods, o);
      added := Successes(via, n);
    }
  }

  // ---- Events ------------------------------------------------------------------------------------------------------

  /** What each event tells the client behind object `o`, which is there before and after it. */
  ghost predicate Tells(d: State, e: Daemon.Event, o: nat, s: Session, t: Session) {
    match e
    case Ppp(key, frame) =>
      if key in d.active && d.active[key] == o then FrameTells(d.conf, frame, s, t) else AddsTo(s, t, [], 0)
    case RadiusAnswer(x, via, accept, _) =>
      if x == o then AnswerTells(via, accept, IdFree(d.aaa), s, t) else AddsTo(s, t, [], 0)
    case RadiusError(x, via) => AddsTo(s, t, if x == o then [Failure(via)] else [], 0)
    case _ => AddsTo(s, t, [], 0)
  }

  /** A challenge when LCP comes up and CHAP is configured. One more acknowledgement for a request of a protocol that has
      succeeded; else one for each success that this request led to. Nothing for any other frame. */
  ghost predicate FrameTells(conf: Conf, frame: Frame, s: Session, t: Session) {
    match frame
    case LcpFrame(_) => AddsTo(s, t, if ComesUp(s, t) && conf.chap then [Challenge] else [], 0)
    case AuthRequest(via) =>
      if Success(via) in s.answers then AddsTo(s, t, [Success(via)], 0)
      else t.auths >= s.auths && AddsTo(s, t, Successes(via, t.auths - s.auths), t.auths - s.auths)
    case _ => AddsTo(s, t, [], 0)
  }

  /** A refusal if the answer does not accept, and then, whatever it says, an acknowledgement if an AAA id is free and
      a refusal if none is. */
  ghost predicate AnswerTells(via: Via, accept: bool, idFree: bool, s: Session, t: Session) {
    var refused := if accept then [] else [Failure(via)];
    if idFree then AddsTo(s, t, refused + [Success(via)], 1) else AddsTo(s, t, refused + [Failure(via)], 0)
  }

  /** A protocol counts as succeeded exactly when the client was told so, and IPCP is past Initial exactly when it was told
      of any success. */
  predicate SaidSo(s: Session) {
    (forall via :: Began(s, via) <==> Success(via) in s.answers) && (s.ipcp.phase != Initial <==> LetsIn(s.answers))
  }

  lemma SaidSoStays(s: Session, t: Session, added: seq<AuthPacket>, n: int)
    requires SaidSo(s) && AddsTo(s, t, added, n)
    ensures SaidSo(t)
  {
  }

  lemma FrameIsTold(d: State, x: nat, frame: Frame, o: nat)
    requires x in d.objs && LocalOk(d.conf, d.objs[x]) && Legible(frame) && o in d.objs
    requires o in ProtocolStep(d, x, frame).objs && SaidSo(d.objs[o])
    ensures var s, t := d.objs[o], ProtocolStep(d, x, frame).objs[o];
            if x == o then FrameTells(d.conf, frame, s, t) else AddsTo(s, t, [], 0)
  {
    match frame
    case LcpFrame(pkt) => LcpIsTold(d, x, pkt, o);
    case IpcpFrame(pkt) => IpcpAdds(d, x, pkt, o);
    case AuthRequest(via) => var added, n := AuthAdds(d, x, via, o);
    case OtherFrame =>
  }

  lemma LcpIsTold(d: State, x: nat, pkt: seq<byte>, o: nat)
    requires x in d.objs && LocalOk(d.conf, d.objs[x]) && Handled(Lcp, pkt) && o in d.objs && o in LcpStep(d, x, pkt).objs
    ensures var s, t := d.objs[o], LcpStep(d, x, pkt).objs[o];
            AddsTo(s, t, if x == o && ComesUp(s, t) && d.conf.chap then [Challenge] else [], 0)
  {
    LcpAdds(d, x, pkt, o);
    if x == o { LcpLeaves(d, o, Receive(Lcp, EnvOf(d, d.objs[o]), d.objs[o].lcp, pkt)); }
  }

  /** An LCP packet leaves the object, if it stays, with the automaton's next value. */
  lemma LcpLeaves(d: State, o: nat, out: Outcome)
    requires o in d.objs && o in LcpEffect(d, o, out).objs
    ensures LcpEffect(d, o, out).objs[o].lcp == out.fsm
  {
  }

  /** The first frame of a session starts LCP, which does not open it, and tells nothing. */
  lemma StartTellsNothing(d: State, x: nat, o: nat)
    requires x in d.objs && LocalOk(d.conf, d.objs[x]) && o in d.objs
    ensures var d1 := Started(d, x);
            && d1.conf == d.conf && o in d1.objs && AddsTo(d.objs[o], d1.objs[o], [], 0)
            && (d1.objs[o].lcp.phase == Opened <==> d.objs[o].lcp.phase == Opened)
  {
    if !d.objs[x].started { NotOpenedYet(EnvOf(d, d.objs[x]), d.objs[x].lcp); }
  }

  lemma NotOpenedYet(env: Env, f: Fsm)
    requires f.phase == Initial
    ensures Kick(Lcp, env, f).fsm.phase != Opened
  {
  }

  lemma AfterTheStart(conf: Conf, frame: Frame, s: Session, s1: Session, t: Session, mine: bool)
    requires AddsTo(s, s1, [], 0) && (s1.lcp.phase == Opened <==> s.lcp.phase == Opened)
    requires if mine then FrameTells(conf, frame, s1, t) else AddsTo(s1, t, [], 0)
    ensures if mine then FrameTells(conf, frame, s, t) else AddsTo(s, t, [], 0)
  {
    assert s.answers + [] == s.answers;
  }

  lemma FrameTold(d: State, key: Key, frame: Frame, o: nat)
    requires Reachable(d) && Legible(frame) && o in d.objs && SaidSo(d.objs[o]) && o in FrameStep(d, key, frame).objs
    ensures Tells(d, Ppp(key, frame), o, d.objs[o], FrameStep(d, key, frame).objs[o])
  {
    if key in d.active {
      BeforeProtocol(d, key, o);
      ProtocolTold(d, d.active[key], Started(d, d.active[key]), frame, o);
    } else {
      SameAdds(d.objs[o]);
    }
  }

  lemma BeforeProtocol(d: State, key: Key, o: nat)
    requires Reachable(d) && key in d.active && o in d.objs
    ensures var x := d.active[key];
            && x in d.objs && var d1 := Started(d, x);
            && d1.conf == d.conf && o in d1.objs && x in d1.objs && LocalOk(d.conf, d1.objs[x])
            && AddsTo(d.objs[o], d1.objs[o], [], 0) && (d1.objs[o].lcp.phase == Opened <==> d.objs[o].lcp.phase == Opened)
  {
    ReachableInv(d);
    ActiveKey(d, key);
    StartedKeeps(d, d.active[key]);
    StartTellsNothing(d, d.active[key], o);
  }

  lemma ProtocolTold(d: State, x: nat, d1: State, frame: Frame, o: nat)
    requires x in d1.objs && d1.conf == d.conf && LocalOk(d.conf, d1.objs[x]) && Legible(frame)
    requires o in d.objs && o in d1.objs && o in ProtocolStep(d1, x, frame).objs && SaidSo(d.objs[o])
    requires AddsTo(d.objs[o], d1.objs[o], [], 0) && (d1.objs[o].lcp.phase == Opened <==> d.objs[o].lcp.phase == Opened)
    ensures var s, t := d.objs[o], ProtocolStep(d1, x, frame).objs[o];
            if x == o then FrameTells(d.conf, frame, s, t) else AddsTo(s, t, [], 0)
  {
    var s, s1, t := d.objs[o], d1.objs[o], ProtocolStep(d1, x, frame).objs[o];
    SaidSoStays(s, s1, [], 0);
    FrameIsTold(d1, x, frame, o);
    AfterTheStart(d.conf, frame, s, s1, t, x == o);
  }

  lemma AnswerIsTold(d: State, x: nat, via: Via, accept: bool, resp: Aaa.RadiusResponse, o: nat)
    requires o in d.objs
    ensures var d1 := AfterAnswer(d, x, via, accept, resp);
            o in d1.objs && Tells(d, RadiusAnswer(x, via, accept, resp), o, d.objs[o], d1.objs[o])
  {
    var told := if accept then d else AuthFails(d, x, via);
    var refused := if accept || x != o then [] else [Failure(via)];
    var r := Aaa.StartRadius(d.conf.aaa, told.aaa, x, resp);
    assert r.1.Some? <==> IdFree(d.aaa);
    SayAdds(d, x, Failure(via), o);
    LastCallAdds(told, x, via, r, o);
    ToldTwice(d, told, LastCall(told, x, via, r), o, refused,
              if x != o then [] else if r.1.Some? then [Success(via)] else [Failure(via)], if x == o && r.1.Some? then 1 else 0);
  }

  /** The last callback of a RADIUS answer. */
  function LastCall(d: State, x: nat, via: Via, r: (Aaa.State, Option<u32>)): State {
    if r.1.None? then AuthFails(d, x, via) else AfterStart(d, x, via, r)
  }

  lemma LastCallAdds(d: State, x: nat, via: Via, r: (Aaa.State, Option<u32>), o: nat)
    ensures var d1 := LastCall(d, x, via, r);
            && Adds(d, d1, o, if x != o then [] else if r.1.Some? then [Success(via)] else [Failure(via)],
                    if x == o && r.1.Some? then 1 else 0)
            && (o in d.objs ==> o in d1.objs)
  {
    SayAdds(d, x, Failure(via), o);
    AfterStartAdds(d, x, via, r, o);
  }

  lemma ToldTwice(d: State, told: State, d1: State, o: nat, a: seq<AuthPacket>, b: seq<AuthPacket>, n: int)
    requires o in d.objs && o in d1.objs
    requires (told == d && a == []) || Adds(d, told, o, a, 0)
    requires Adds(told, d1, o, b, n)
    ensures AddsTo(d.objs[o], d1.objs[o], a + b, n)
  {
    if told == d && a == [] {
      assert a + b == b;
    } else {
      AddsThen(d, told, d1, o, a, 0, b, n);
    }
  }

  lemma EchoTellsNothing(d: State, x: nat, o: nat)
    ensures Adds(d, EchoStep(d, x), o, [], 0)
  {
    if x in d.objs && d.objs[x].echoOn {
      var s := d.objs[x];
      var out := EchoFires(EnvOf(d, s), s.lcp);
      var t := s.(lcp := out.fsm, echoOn := false);
      PutAdds(d, x, s.(lcp := out.fsm), o, [], 0);
      PutAdds(d, x, t, o, [], 0);
      DeallocateAdds(Put(d, x, t), s.key.sid, o);
      var none: seq<AuthPacket> := [];
      AddsThen(d, Put(d, x, t), Deallocate(Put(d, x, t), s.key.sid), o, none, 0, none, 0);
      assert none + none == none;
    }
  }

  lemma AdmitTellsNothing(d: State, conn: Conn, magic: u32, peer: LcpOptions.Peer, o: nat)
    requires o in d.objs && o < d.nextObj
    ensures o in Admit(d, conn, magic, peer).objs && Admit(d, conn, magic, peer).objs[o] == d.objs[o]
  {
  }

  lemma SameAdds(s: Session)
    ensures AddsTo(s, s, [], 0)
  {
    assert s.answers + [] == s.answers;
  }

  /** Every event, for an object that is there before and after it. */
  lemma EventTold(d: State, e: Daemon.Event, o: nat)
    requires Reachable(d) && Daemon.Possible(d, e) && o in d.objs && SaidSo(d.objs[o]) && o in Daemon.Step(d, e).objs
    ensures Tells(d, e, o, d.objs[o], Daemon.Step(d, e).objs[o])
  {
    SameAdds(d.objs[o]);
    match e
    case Padr(conn, magic, peer) =>
      HandleIsOld(d, o);
      AdmitTellsNothing(d, conn, magic, peer, o);
    case Padt(_, sid) => DeallocateAdds(d, sid, o);
    case Ppp(key, frame) => FrameTold(d, key, frame, o);
    case RadiusAnswer(x, via, accept, resp) => AnswerIsTold(d, x, via, accept, resp, o);
    case RadiusError(x, via) => SayAdds(d, x, Failure(via), o);
    case EchoTimer(x) => EchoTellsNothing(d, x, o);
    case _ =>
  }

  /** A RADIUS error changes nothing but what its object's client is told. */
  lemma ErrorTellsOnly(d: State, o: nat, via: Via)
    requires Daemon.Possible(d, RadiusError(o, via))
    ensures var d1 := Daemon.Step(d, RadiusError(o, via));
            && d1 == d.(objs := d1.objs) && d1.objs.Keys == d.objs.Keys
            && (forall x :: x in d.objs && x != o ==> d1.objs[x] == d.objs[x])
            && (o in d.objs ==> d1.objs[o] == d.objs[o].(answers := d.objs[o].answers + [Failure(via)]))
  {
  }

  // ---- Where objects come from -------------------------------------------------------------------------------------

  /** An object nothing has happened to yet: its line, its magic number and what is assumed of its peer came with the
      PADR. */
  predicate New(s: Session, conn: Conn, magic: u32, peer: LcpOptions.Peer) {
    && s.key.line == conn.line && s.magic == magic && s.lcp.peer == peer == s.ipcp.peer
    && s.answers == [] && s.auths == 0 && !s.started && !s.papStarted && !s.chapStarted && !s.echoOn
    && s.aaaId == 0xFFFF_FFFF && s.address == None
    && s.lcp.phase == Initial && s.lcp.echo == 0 && s.ipcp.phase == Initial
  }

  lemma PadrMakes(d: State, conn: Conn, magic: u32, peer: LcpOptions.Peer, o: nat)
    requires o !in d.objs && o in Admit(d, conn, magic, peer).objs
    ensures o == d.nextObj && New(Admit(d, conn, magic, peer).objs[o], conn, magic, peer)
  {
  }

  lemma FrameMakesNothing(d: State, key: Key, frame: Frame, o: nat)
    requires Reachable(d) && Legible(frame) && o !in d.objs
    ensures o !in FrameStep(d, key, frame).objs
  {
    if key in d.active {
      KeyIsThere(d, key);
      BeforeProtocol(d, key, d.active[key]);
      ProtocolMakesNothing(Started(d, d.active[key]), d.active[key], frame, o);
    }
  }

  lemma KeyIsThere(d: State, key: Key)
    requires Reachable(d) && key in d.active
    ensures d.active[key] in d.objs
  {
    ReachableInv(d);
  }

  lemma ProtocolMakesNothing(d: State, x: nat, frame: Frame, o: nat)
    requires x in d.objs && LocalOk(d.conf, d.objs[x]) && Legible(frame) && o !in d.objs
    ensures o !in ProtocolStep(d, x, frame).objs
  {
    match frame
    case LcpFrame(pkt) => LcpAdds(d, x, pkt, o);
    case IpcpFrame(pkt) => IpcpAdds(d, x, pkt, o);
    case AuthRequest(via) => var added, n := AuthAdds(d, x, via, o);
    case OtherFrame =>
  }

  lemma AnswerMakesNothing(d: State, x: nat, via: Via, accept: bool, resp: Aaa.RadiusResponse, o: nat)
    requires o !in d.objs
    ensures o !in AfterAnswer(d, x, via, accept, resp).objs
  {
    var told := if accept then d else AuthFails(d, x, via);
    SayAdds(d, x, Failure(via), o);
    LastCallAdds(told, x, via, Aaa.StartRadius(d.conf.aaa, told.aaa, x, resp), o);
  }

  /** Of all events only a PADR makes an object, under the next handle. */
  lemma OnlyPadrMakes(d: State, e: Daemon.Event, o: nat)
    requires Reachable(d) && Daemon.Possible(d, e) && o !in d.objs && o in Daemon.Step(d, e).objs
    ensures e.Padr? && o == d.nextObj && New(Daemon.Step(d, e).objs[o], e.conn, e.magic, e.peer)
  {
    match e
    case Padr(conn, magic, peer) => PadrMakes(d, conn, magic, peer, o);
    case Padt(_, sid) => DeallocateAdds(d, sid, o);
    case Ppp(key, frame) => FrameMakesNothing(d, key, frame, o);
    case RadiusAnswer(x, via, accept, resp) => AnswerMakesNothing(d, x, via, accept, resp, o);
    case RadiusError(x, via) => SayAdds(d, x, Failure(via), o);
    case EchoTimer(x) => EchoTellsNothing(d, x, o);
    case _ =>
  }

  // ---- All runs ----------------------------------------------------------------------------------------------------

  /** Step `i` of a run, for an object that is there before it. */
  lemma StepTells(states: seq<State>, events: seq<Daemon.Event>, i: nat, o: nat)
    requires Daemon.IsRun(states, events) && i < |events| && o in states[i].objs && SaidSo(states[i].objs[o])
    requires o in states[i + 1].objs
    ensures Tells(states[i], events[i], o, states[i].objs[o], states[i + 1].objs[o])
  {
    RunReaches(states, events, i);
    EventTold(states[i], events[i], o);
  }

  lemma TellsSome(d: State, e: Daemon.Event, o: nat, s: Session, t: Session) returns (added: seq<AuthPacket>, n: int)
    requires Tells(d, e, o, s, t)
    ensures AddsTo(s, t, added, n)
  {
    match e
    case Ppp(key, frame) =>
      if key in d.active && d.active[key] == o {
        added, n := FrameTellsSome(d.conf, frame, s, t);
      } else {
        added, n := [], 0;
      }
    case RadiusAnswer(x, via, accept, _) =>
      var last := if IdFree(d.aaa) then [Success(via)] else [Failure(via)];
      added, n := if x == o then (if accept then [] else [Failure(via)]) + last else [], if x == o && IdFree(d.aaa) then 1 else 0;
    case RadiusError(x, via) => added, n := if x == o then [Failure(via)] else [], 0;
    case _ => added, n := [], 0;
  }

  lemma FrameTellsSome(conf: Conf, frame: Frame, s: Session, t: Session) returns (added: seq<AuthPacket>, n: int)
    requires FrameTells(conf, frame, s, t)
    ensures AddsTo(s, t, added, n)
  {
    match frame
    case LcpFrame(_) => added, n := if ComesUp(s, t) && conf.chap then [Challenge] else [], 0;
    case AuthRequest(via) =>
      if Success(via) in s.answers {
        added, n := [Success(via)], 0;
      } else {
        added, n := Successes(via, t.auths - s.auths), t.auths - s.auths;
      }
    case _ => added, n := [], 0;
  }

  /** In every run: a client was told of its success with PAP or with CHAP if and only if the session counts as
      authenticated that way; and its IPCP was started if and only if it was told of any success. */
  lemma {:induction false} ToldIfBegun(states: seq<State>, events: seq<Daemon.Event>, i: nat, o: nat)
    requires Daemon.IsRun(states, events) && i < |states| && o in states[i].objs
    ensures SaidSo(states[i].objs[o])
  {
    if i == 0 {
    } else if o in states[i - 1].objs {
      ToldIfBegun(states, events, i - 1, o);
      StepTells(states, events, i - 1, o);
      var added, n := TellsSome(states[i - 1], events[i - 1], o, states[i - 1].objs[o], states[i].objs[o]);
      SaidSoStays(states[i - 1].objs[o], states[i].objs[o], added, n);
    } else {
      RunReaches(states, events, i - 1);
      OnlyPadrMakes(states[i - 1], events[i - 1], o);
    }
  }

  /** What a client is told, event by event, in every run. */
  lemma ClientIsTold(states: seq<State>, events: seq<Daemon.Event>, i: nat, o: nat)
    requires Daemon.IsRun(states, events) && i < |events| && o in states[i].objs && o in states[i + 1].objs
    ensures Tells(states[i], events[i], o, states[i].objs[o], states[i + 1].objs[o])
  {
    ToldIfBegun(states, events, i, o);
    StepTells(states, events, i, o);
  }

  /** Every object was made by a PADR, and kept its key and its magic number ever since. */
  lemma {:induction false} MadeByPadr(states: seq<State>, events: seq<Daemon.Event>, i: nat, o: nat) returns (j: nat)
    requires Daemon.IsRun(states, events) && i < |states| && o in states[i].objs
    ensures j < i && events[j].Padr? && o == states[j].nextObj && o in states[j + 1].objs
    ensures New(states[j + 1].objs[o], events[j].conn, events[j].magic, events[j].peer)
    ensures states[i].objs[o].key == states[j + 1].objs[o].key && states[i].objs[o].magic == events[j].magic
  {
    if i == 0 {
      assert false;
    } else if o in states[i - 1].objs {
      j := MadeByPadr(states, events, i - 1, o);
      ClientIsTold(states, events, i - 1, o);
      var added, n := TellsSome(states[i - 1], events[i - 1], o, states[i - 1].objs[o], states[i].objs[o]);
    } else {
      RunReaches(states, events, i - 1);
      OnlyPadrMakes(states[i - 1], events[i - 1], o);
      j := i - 1;
    }
  }

  // ---- Challenges --------------------------------------------------------------------------------------------------

  /** An LCP packet takes the LCP of object `o`, whose session is in the table, into Opened. */
  predicate LcpComesUp(d: State, e: Daemon.Event, d1: State, o: nat) {
    && e.Ppp? && e.frame.LcpFrame? && e.key in d.active && d.active[e.key] == o
    && o in d.objs && o in d1.objs && ComesUp(d.objs[o], d1.objs[o])
  }

  /** How often that happened with CHAP configured among the first `i` events. */
  function ChapUps(states: seq<State>, events: seq<Daemon.Event>, i: nat, o: nat): nat
    requires i <= |events| < |states|
  {
    if i == 0 then 0
    else
      var now := LcpComesUp(states[i - 1], events[i - 1], states[i], o) && states[i - 1].conf.chap;
      ChapUps(states, events, i - 1, o) + if now then 1 else 0
  }

  function Challenges(answers: seq<AuthPacket>): nat { multiset(answers)[Challenge] }

  lemma ChallengesTold(d: State, e: Daemon.Event, d1: State, o: nat)
    requires o in d.objs && o in d1.objs && Tells(d, e, o, d.objs[o], d1.objs[o])
    ensures Challenges(d1.objs[o].answers) ==
            Challenges(d.objs[o].answers) + if LcpComesUp(d, e, d1, o) && d.conf.chap then 1 else 0
  {
    var s, t := d.objs[o], d1.objs[o];
    var added, n := TellsSome(d, e, o, s, t);
    ChallengesOf(s, t, added, n);
    if LcpComesUp(d, e, d1, o) && d.conf.chap {
      ChallengesOf(s, t, [Challenge], 0);
    } else {
      NoChallenge(d, e, o, s, t);
    }
  }

  lemma ChallengesOf(s: Session, t: Session, added: seq<AuthPacket>, n: int)
    requires AddsTo(s, t, added, n)
    ensures Challenges(t.answers) == Challenges(s.answers) + Challenges(added)
  {
  }

  lemma NoChallenge(d: State, e: Daemon.Event, o: nat, s: Session, t: Session)
    requires Tells(d, e, o, s, t) && o in d.objs && s == d.objs[o]
    requires !(e.Ppp? && e.frame.LcpFrame? && e.key in d.active && d.active[e.key] == o && ComesUp(s, t) && d.conf.chap)
    ensures Challenges(t.answers) == Challenges(s.answers)
  {
    match e
    case Ppp(key, frame) =>
      if key in d.active && d.active[key] == o { NoChallengeInFrame(d.conf, frame, s, t); }
    case RadiusAnswer(x, via, accept, _) =>
    case RadiusError(x, via) =>
    case _ =>
  }

  lemma NoChallengeInFrame(conf: Conf, frame: Frame, s: Session, t: Session)
    requires FrameTells(conf, frame, s, t) && !(frame.LcpFrame? && ComesUp(s, t) && conf.chap)
    ensures Challenges(t.answers) == Challenges(s.answers)
  {
    if frame.AuthRequest? && Success(frame.via) !in s.answers {
      ChallengesOf(s, t, Successes(frame.via, t.auths - s.auths), t.auths - s.auths);
      assert Challenge !in Successes(frame.via, t.auths - s.auths);
    }
  }

  lemma {:induction false} NoUpsBefore(states: seq<State>, events: seq<Daemon.Event>, i: nat, o: nat)
    requires Daemon.IsRun(states, events) && i <= |events| && o >= states[i].nextObj
    ensures ChapUps(states, events, i, o) == 0
  {
    if i == 0 {
    } else {
      DaemonEcho.Onward(states, events, i - 1);
      DaemonEcho.Beyond(states, events, i - 1, o);
      NoUpsBefore(states, events, i - 1, o);
    }
  }

  /** In every run the challenges queued for a client are the times its LCP came up with CHAP configured: each brings one,
      and nothing else does. */
  lemma {:induction false} ChallengesAreUps(states: seq<State>, events: seq<Daemon.Event>, i: nat, o: nat)
    requires Daemon.IsRun(states, events) && i <= |events| && o in states[i].objs
    ensures Challenges(states[i].objs[o].answers) == ChapUps(states, events, i, o)
  {
    if i == 0 {
    } else if o in states[i - 1].objs {
      ChallengesAreUps(states, events, i - 1, o);
      ClientIsTold(states, events, i - 1, o);
      ChallengesTold(states[i - 1], events[i - 1], states[i], o);
    } else {
      RunReaches(states, events, i - 1);
      OnlyPadrMakes(states[i - 1], events[i - 1], o);
      NoUpsBefore(states, events, i - 1, o);
    }
  }

  // ---- Methods that need no RADIUS server --------------------------------------------------------------------------

  /** The methods up to place `k` are those before the first that asks a RADIUS server. */
  predicate BeforeRadius(methods: seq<Aaa.Method>, k: nat) {
    k <= |methods| && Aaa.RadiusAuth !in methods[..k] && (k < |methods| ==> methods[k] == Aaa.RadiusAuth)
  }

  /** How many of them need no server at all. */
  function Free(methods: seq<Aaa.Method>, k: nat): nat
    requires k <= |methods|
  {
    multiset(methods[..k])[Aaa.NoneAuth]
  }

  /** A request that goes to the AAA side succeeds once for each such method, as long as there is a template and an AAA
      id is free, and not otherwise; methods that are neither are passed over. */
  lemma {:induction false} GrantedPerMethod(d: State, o: nat, via: Via, methods: seq<Aaa.Method>, k: nat)
    requires o in d.objs && BeforeRadius(methods, k)
    ensures var d1 := TryMethods(d, o, via, methods);
            && o in d1.objs && var n := d1.objs[o].auths - d.objs[o].auths;
            && 0 <= n <= Free(methods, k)
            && (d.conf.aaa.localTemplate == "" || !IdFree(d.aaa) ==> n == 0)
            && (d.conf.aaa.localTemplate != "" && n < Free(methods, k) ==> !IdFree(d1.aaa))
            && (n == 0 ==> d1.aaa == d.aaa)
    decreases methods
  {
    if methods == [] || methods[0] == Aaa.RadiusAuth {
    } else {
      OneMethodLess(methods, k);
      if methods[0] == Aaa.LocalAuth {
        GrantedPerMethod(d, o, via, methods[1..], k - 1);
      } else {
        var d1 := OneMethod(d, o, via);
        GrantedPerMethod(d1, o, via, methods[1..], k - 1);
      }
    }
  }

  lemma OneMethodLess(methods: seq<Aaa.Method>, k: nat)
    requires methods != [] && methods[0] != Aaa.RadiusAuth && BeforeRadius(methods, k)
    ensures k > 0 && BeforeRadius(methods[1..], k - 1)
    ensures Free(methods, k) == Free(methods[1..], k - 1) + if methods[0] == Aaa.NoneAuth then 1 else 0
  {
    assert methods[..k] == [methods[0]] + methods[1..][..k - 1];
  }

  lemma OneMethod(d: State, o: nat, via: Via) returns (d1: State)
    requires o in d.objs
    ensures d1 == AfterStart(d, o, via, Aaa.StartNone(d.conf.aaa, d.aaa, o)) && o in d1.objs && d1.conf == d.conf
    ensures var granted := d.conf.aaa.localTemplate != "" && IdFree(d.aaa);
            d1.objs[o].auths == d.objs[o].auths + (if granted then 1 else 0) && (!granted ==> d1 == d)
  {
    var r := Aaa.StartNone(d.conf.aaa, d.aaa, o);
    d1 := AfterStart(d, o, via, r);
    AfterStartAdds(d, o, via, r, o);
    assert r.1.Some? <==> d.conf.aaa.localTemplate != "" && IdFree(d.aaa);
  }

  /** In every run: a client is told of its success, at the latest with this request, if and only if it was before, or
      there is a template, an AAA id is free and a method that needs no server comes before any that asks RADIUS. */
  lemma GrantedIff(states: seq<State>, events: seq<Daemon.Event>, i: nat, key: Key, via: Via, k: nat)
    requires Daemon.IsRun(states, events) && i < |events| && events[i] == Ppp(key, AuthRequest(via))
    requires key in states[i].active && BeforeRadius(states[i].conf.aaa.methods, k)
    ensures var d, o := states[i], states[i].active[key];
            && o in d.objs && o in states[i + 1].objs
            && (Success(via) in states[i + 1].objs[o].answers <==>
                || Success(via) in d.objs[o].answers
                || (d.conf.aaa.localTemplate != "" && IdFree(d.aaa) && Free(d.conf.aaa.methods, k) > 0))
  {
    var d, o := states[i], states[i].active[key];
    RunReaches(states, events, i);
    KeyIsThere(d, key);
    BeforeProtocol(d, key, o);
    RequestStays(Started(d, o), o, via);
    ClientIsTold(states, events, i, o);
    ToldIfBegun(states, events, i, o);
    if Success(via) !in d.objs[o].answers {
      GrantedPerMethod(Started(d, o), o, via, d.conf.aaa.methods, k);
      GrantedIsTold(d, o, via, states[i + 1]);
    }
  }

  lemma RequestStays(d: State, o: nat, via: Via)
    requires o in d.objs
    ensures o in AuthStep(d, o, via).objs
  {
    if !Began(d.objs[o], via) { MethodsStay(d, o, via, d.conf.aaa.methods); }
  }

  lemma {:induction false} MethodsStay(d: State, o: nat, via: Via, methods: seq<Aaa.Method>)
    requires o in d.objs
    ensures o in TryMethods(d, o, via, methods).objs
    decreases methods
  {
    if methods == [] || methods[0] == Aaa.RadiusAuth {
    } else if methods[0] == Aaa.LocalAuth {
      MethodsStay(d, o, via, methods[1..]);
    } else {
      var d1 := OneMethod(d, o, via);
      MethodsStay(d1, o, via, methods[1..]);
    }
  }

  lemma GrantedIsTold(d: State, o: nat, via: Via, d1: State)
    requires o in d.objs && o in d1.objs && SaidSo(d.objs[o]) && Success(via) !in d.objs[o].answers
    requires FrameTells(d.conf, AuthRequest(via), d.objs[o], d1.objs[o])
    ensures Success(via) in d1.objs[o].answers <==> d1.objs[o].auths > d.objs[o].auths
  {
    var n := d1.objs[o].auths - d.objs[o].auths;
    if n > 0 { assert Successes(via, n)[0] == Success(via); }
  }

  // ---- What LCP asks a client for ----------------------------------------------------------------------------------

  /** In every run: the first frame of a session has LCP ask for CHAP with MD5 if CHAP is configured, else for PAP if PAP is,
      for the configured MRU and for the magic number the session got with its PADR; with neither it asks for nothing. */
  lemma AsksAsConfigured(states: seq<State>, events: seq<Daemon.Event>, i: nat, o: nat)
    requires Daemon.IsRun(states, events) && i < |states| && o in states[i].objs && !states[i].objs[o].started
    ensures var d, s := states[i], states[i].objs[o];
            && JustOurRequest(Lcp, Env(d.conf.chap, d.conf.pap, d.conf.mru, s.magic, None), Kick(Lcp, EnvOf(d, s), s.lcp).sent)
  {
    var d, s := states[i], states[i].objs[o];
    LocalAlways(states, events, i, o);
    OurRequestIsSent(Lcp, EnvOf(d, s));
    FromInitial(Lcp, EnvOf(d, s), s.lcp);
  }

  lemma FromInitial(kind: Kind, env: Env, f: Fsm)
    requires f.phase == Initial
    ensures Kick(kind, env, f).sent == RequestSent(kind, env)
  {
    assert [] + RequestSent(kind, env) == RequestSent(kind, env);
  }
}
