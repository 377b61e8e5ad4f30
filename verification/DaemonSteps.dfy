/** Every event keeps the invariant, so every reachable state satisfies it. */
module DaemonSteps {
  import opened Wire
  import opened ControlPacket
  import opened IpcpOptions
  import opened PppFsm
  import LcpOptions
  import Runs = PppFsmRuns
  import Aaa
  import opened Daemon
  import opened DaemonInvariant

  // ---- One automaton step, as a session object sees it -------------------------------------------------------------

  /** Starting IPCP: it is past Initial afterwards, and acknowledges nothing. */
  lemma KickPhases(env: Env, f: Fsm)
    requires Runs.InUse(f.phase) && f.phase != Starting
    ensures var g := Kick(Ipcp, env, f).fsm;
            Runs.InUse(g.phase) && g.phase != Starting && g.phase != Initial &&
            (Runs.OwnAckPhase(g.phase) ==> Runs.OwnAckPhase(f.phase))
  {
  }

  /** What the rest of the daemon relies on when an automaton has dealt with a packet. */
  ghost predicate Reacted(kind: Kind, f: Fsm, pkt: seq<byte>, out: Outcome)
    requires Sound(pkt)
  {
    && Runs.InUse(out.fsm.phase) && (kind == Ipcp ==> out.fsm.phase != Starting)
    && (out.fsm.phase == Initial <==> f.phase == Initial)
    && (f.phase == Starting || f.phase == Initial ==> out.fsm == f && out.err)
    && (out.action == Action.LayerUp ==> out.fsm.phase == Opened)
    && (f.phase == Opened && out.fsm.phase != Opened ==> out.action == Action.LayerDown && !out.err)
    && (kind == Lcp ==> Runs.Hears(out.fsm) == Runs.Hears(f) &&
                        out.fsm.echo == if pkt[0] == ECHO_REPLY && Runs.Hears(f) then 0 else f.echo)
    && (Runs.OwnAckPhase(out.fsm.phase) ==> Runs.OwnAckPhase(f.phase) || IsAck(pkt, out.sent))
  }

  lemma PacketReaction(kind: Kind, env: Env, f: Fsm, pkt: seq<byte>)
    requires Handled(kind, pkt) && Runs.InUse(f.phase) && (kind == Ipcp ==> f.phase != Starting)
    ensures Reacted(kind, f, pkt, Receive(kind, env, f, pkt))
  {
    var e := Runs.Entry(env, Runs.Packet(pkt), Receive(kind, env, f, pkt));
    var reply, noted := Runs.PossibleIsReaction(kind, e, f);
    Runs.StepPhases(kind, e, f, reply, noted);
    Runs.ActionsMarkOpened(kind, e, f, reply, noted);
    if Runs.OwnAckPhase(e.out.fsm.phase) {
      Runs.StepOwnAck(kind, e, f, reply, noted);
    }
    if f.phase == Starting || f.phase == Initial {
      NotYetStarted(kind, env, f, pkt);
    }
    if kind == Lcp {
      Runs.EchoUntouched(env, f, pkt);
    }
  }

  lemma NotYetStarted(kind: Kind, env: Env, f: Fsm, pkt: seq<byte>)
    requires Handled(kind, pkt) && (f.phase == Starting || f.phase == Initial)
    ensures Receive(kind, env, f, pkt).fsm == f && Receive(kind, env, f, pkt).err
  {
  }

  /** If a request is acknowledged, its options were compared with the AAA session's values and agreed. */
  lemma AckMeansAgreed(env: Env, f: Fsm, pkt: seq<byte>)
    requires Handled(Ipcp, pkt) && IsAck(pkt, Receive(Ipcp, env, f, pkt).sent)
    ensures Consults(env, f, pkt) && Agreed(Area(pkt), env.lease.value)
  {
    AckedByVerdict(env, f, pkt, Verdict(Ipcp, env, pkt), Noted(Ipcp, f, pkt));
    VerdictAgrees(env, pkt);
  }

  lemma AckedByVerdict(env: Env, f: Fsm, pkt: seq<byte>, reply: Reply, noted: LcpOptions.Peer)
    requires Sound(pkt) && IsAck(pkt, Dispatch(Ipcp, env, f, pkt, reply, noted).sent)
    ensures reply.Acked? && f.phase in {ReqSent, AckRcvd, AckSent, Stopped}
  {
    var out := Dispatch(Ipcp, env, f, pkt, reply, noted);
    assert out.sent[0][0] == CONF_ACK;
  }

  lemma VerdictAgrees(env: Env, pkt: seq<byte>)
    requires Handled(Ipcp, pkt) && pkt[0] == CONF_REQ && Verdict(Ipcp, env, pkt).Acked?
    ensures env.lease.Some? && Agreed(Area(pkt), env.lease.value)
  {
  }

  // ---- Authentication ----------------------------------------------------------------------------------------------

  lemma StartIpcpKeeps(d: State, o: nat)
    requires Inv(d) && o in d.objs && d.objs[o].auths > 0
    ensures Inv(StartIpcp(d, o))
  {
    var s := d.objs[o];
    KickPhases(EnvOf(d, s), s.ipcp);
    if IsActive(d, o) { ActiveLinked(d, o); }
    PutKeeps(d, o, StartIpcp(d, o).objs[o]);
  }

  /** The object after a success under the AAA id `id`. */
  lemma BoundLocally(conf: Conf, s: Session, via: Via, id: u32, ipcp: Fsm)
    requires LocalOk(conf, s) && id != Aaa.NO_SESSION && Runs.InUse(ipcp.phase) && ipcp.phase != Starting
    requires Runs.OwnAckPhase(ipcp.phase) ==> Runs.OwnAckPhase(s.ipcp.phase)
    ensures LocalOk(conf, SetAuth(s, via, id).(ipcp := ipcp))
  {
  }

  lemma BoundLinked(a: Aaa.State, r: (Aaa.State, Option<u32>), o: nat, s: Session, via: Via, ipcp: Fsm)
    requires Aaa.Consistent(a) && Aaa.Entered(a, r, o) && r.1.Some? && Linked(a, o, s)
    ensures Linked(r.0, o, SetAuth(s, via, r.1.value).(ipcp := ipcp))
  {
    EnteredEntries(a, r, o);
    BoundStays(a, r.0, r.1.value, o, s, SetAuth(s, via, r.1.value).(ipcp := ipcp));
  }

  /** One entry more for the owner, which the session now refers to. */
  lemma BoundStays(a: Aaa.State, b: Aaa.State, id: u32, o: nat, s: Session, t: Session)
    requires Linked(a, o, s) && id != Aaa.NO_SESSION && Mine(b, o, id) && id !in Entries(a, o)
    requires Entries(b, o) == Entries(a, o) + {id}
    requires forall i :: i in Entries(a, o) ==> Mine(b, o, i) && Values(b, i) == Values(a, i)
    requires t.aaaId == id && t.from == s.from && t.acked == s.acked && t.address == s.address && t.auths == s.auths + 1
    ensures Linked(b, o, t)
  {
    assert forall i :: Mine(a, o, i) ==> i in Entries(a, o);
  }

  lemma AfterStartKeeps(d: State, o: nat, via: Via, r: (Aaa.State, Option<u32>))
    requires Inv(d) && o < d.nextObj && Aaa.Entered(d.aaa, r, o) && Aaa.Consistent(r.0)
    ensures Inv(AfterStart(d, o, via, r))
    ensures AfterStart(d, o, via, r).nextObj == d.nextObj
  {
    if r.1.Some? {
      EnteredEntries(d.aaa, r, o);
      assert OwnersExist(r.0, d.nextObj);
      if o in d.objs {
        var s := d.objs[o];
        var env := EnvOf(d.(aaa := r.0), SetAuth(s, via, r.1.value));
        KickPhases(env, s.ipcp);
        BindKeeps(d, o, via, r, Kick(Ipcp, env, s.ipcp).fsm);
        BindIsAfterStart(d, o, via, r);
      } else {
        OrphanKeeps(d, r.0, o);
      }
    }
  }

  lemma BindIsAfterStart(d: State, o: nat, via: Via, r: (Aaa.State, Option<u32>))
    requires o in d.objs && r.1.Some?
    ensures var s := SetAuth(d.objs[o], via, r.1.value);
            AfterStart(d, o, via, r) ==
            Put(d, o, s.(ipcp := Kick(Ipcp, EnvOf(d.(aaa := r.0), s), s.ipcp).fsm)).(aaa := r.0)
  {
  }

  lemma BindKeeps(d: State, o: nat, via: Via, r: (Aaa.State, Option<u32>), ipcp: Fsm)
    requires Inv(d) && o in d.objs && Aaa.Entered(d.aaa, r, o) && Aaa.Consistent(r.0) && r.1.Some?
    requires OwnersExist(r.0, d.nextObj) && Runs.InUse(ipcp.phase) && ipcp.phase != Starting
    requires Runs.OwnAckPhase(ipcp.phase) ==> Runs.OwnAckPhase(d.objs[o].ipcp.phase)
    ensures Inv(Put(d, o, SetAuth(d.objs[o], via, r.1.value).(ipcp := ipcp)).(aaa := r.0))
  {
    var s := d.objs[o];
    BoundLocally(d.conf, s, via, r.1.value, ipcp);
    if IsActive(d, o) {
      ActiveLinked(d, o);
      BoundLinked(d.aaa, r, o, s, via, ipcp);
    }
    EnteredEntries(d.aaa, r, o);
    ReplaceKeeps(d, r.0, o, SetAuth(s, via, r.1.value).(ipcp := ipcp));
  }

  /** An answer for an object that is gone leaves an AAA session without a PPPoE session. */
  lemma OrphanKeeps(d: State, a: Aaa.State, o: nat)
    requires Inv(d) && o !in d.objs && Aaa.Consistent(a) && OwnersExist(a, d.nextObj)
    requires forall x :: x != o ==> SameFor(d.aaa, a, x)
    ensures Inv(d.(aaa := a))
  {
    var d' := d.(aaa := a);
    assert TableOk(d') by { forall x | x in d'.objs ensures IsActive(d', x) <==> IsActive(d, x) {} }
    forall k | k in d.active ensures Linked(a, d.active[k], d.objs[d.active[k]]) {
      LinkedFrame(d.aaa, a, d.active[k], d.objs[d.active[k]]);
    }
  }

  lemma {:induction false} TryMethodsKeeps(d: State, o: nat, via: Via, methods: seq<Aaa.Method>)
    requires Inv(d) && o < d.nextObj
    ensures Inv(TryMethods(d, o, via, methods))
    decreases methods
  {
    if methods == [] || methods[0] == Aaa.RadiusAuth {
    } else {
      if methods[0] == Aaa.LocalAuth {
        TryMethodsKeeps(d, o, via, methods[1..]);
      } else {
        Aaa.StartNoneFacts(d.conf.aaa, d.aaa, o);
        var r := Aaa.StartNone(d.conf.aaa, d.aaa, o);
        AfterStartKeeps(d, o, via, r);
        TryMethodsKeeps(AfterStart(d, o, via, r), o, via, methods[1..]);
      }
    }
  }

  /** Queueing a packet of PAP or CHAP concerns nothing the invariant speaks of. */
  lemma SayKeeps(d: State, o: nat, a: AuthPacket)
    requires Inv(d)
    ensures Inv(Say(d, o, a)) && (o in Say(d, o, a).objs <==> o in d.objs)
    ensures Say(d, o, a).aaa == d.aaa && Say(d, o, a).conf == d.conf && Say(d, o, a).nextObj == d.nextObj
    ensures Say(d, o, a).active == d.active && (o in d.objs ==> Say(d, o, a).objs[o].auths == d.objs[o].auths)
  {
    if o in d.objs {
      var s := d.objs[o];
      var t := s.(answers := s.answers + [a]);
      SaidLocally(d.conf, s, t);
      if IsActive(d, o) {
        ActiveLinked(d, o);
        LinkedSame(d.aaa, o, s, t);
      }
      PutKeeps(d, o, t);
    }
  }

  lemma SaidLocally(conf: Conf, s: Session, t: Session)
    requires LocalOk(conf, s) && t == s.(answers := t.answers)
    ensures LocalOk(conf, t)
  {
  }

  lemma RadiusAnswerKeeps(d: State, o: nat, via: Via, accept: bool, resp: Aaa.RadiusResponse)
    requires Inv(d) && o < d.nextObj
    ensures Inv(AfterAnswer(d, o, via, accept, resp))
  {
    SayKeeps(d, o, Failure(via));
    var told := if accept then d else AuthFails(d, o, via);
    Aaa.StartRadiusFacts(d.conf.aaa, told.aaa, o, resp);
    AfterStartKeeps(told, o, via, Aaa.StartRadius(d.conf.aaa, told.aaa, o, resp));
    SayKeeps(told, o, Failure(via));
  }

  // ---- Frames ------------------------------------------------------------------------------------------------------

  lemma StartedKeeps(d: State, o: nat)
    requires Inv(d) && o in d.objs && IsActive(d, o)
    ensures Inv(Started(d, o)) && IsActive(Started(d, o), o) && o in Started(d, o).objs
    ensures Started(d, o).active == d.active && Started(d, o).nextObj == d.nextObj
  {
    var s := d.objs[o];
    if !s.started {
      var t := s.(started := true, lcp := Kick(Lcp, EnvOf(d, s), s.lcp).fsm);
      ActiveLinked(d, o);
      StartedLocally(d.conf, s, EnvOf(d, s));
      LinkedSame(d.aaa, o, s, t);
      PutKeeps(d, o, t);
    }
    assert Started(d, o).active == d.active;
  }

  lemma StartedLocally(conf: Conf, s: Session, env: Env)
    requires LocalOk(conf, s) && !s.started && env.chap == conf.chap && env.pap == conf.pap
    ensures LocalOk(conf, s.(started := true, lcp := Kick(Lcp, env, s.lcp).fsm))
  {
  }

  lemma AuthStepKeeps(d: State, o: nat, via: Via)
    requires Inv(d) && o in d.objs
    ensures Inv(AuthStep(d, o, via))
  {
    var s := d.objs[o];
    if (if via == Pap then s.papStarted else s.chapStarted) {
      SayKeeps(d, o, Success(via));
      StartIpcpKeeps(Say(d, o, Success(via)), o);
    } else {
      TryMethodsKeeps(d, o, via, d.conf.aaa.methods);
    }
  }

  lemma LcpStepKeeps(d: State, o: nat, pkt: seq<byte>)
    requires Inv(d) && o in d.objs && IsActive(d, o) && Handled(Lcp, pkt)
    ensures Inv(LcpStep(d, o, pkt))
  {
    var s := d.objs[o];
    PacketReaction(Lcp, EnvOf(d, s), s.lcp, pkt);
    LcpEffectKeeps(d, o, pkt, Receive(Lcp, EnvOf(d, s), s.lcp, pkt));
  }

  lemma LcpLocally(conf: Conf, s: Session, pkt: seq<byte>, out: Outcome)
    requires LocalOk(conf, s) && Sound(pkt) && Reacted(Lcp, s.lcp, pkt, out)
    ensures LocalOk(conf, s.(lcp := out.fsm)) && (!conf.chap && !conf.pap ==> out.err)
  {
  }

  /** The echo timer's flag and the automata are no part of what links an object to the AAA side. */
  lemma LinkedSame(a: Aaa.State, o: nat, s: Session, t: Session)
    requires Linked(a, o, s) && t.aaaId == s.aaaId && t.from == s.from && t.acked == s.acked && t.address == s.address
    requires t.auths == s.auths
    ensures Linked(a, o, t)
  {
  }

  lemma LcpEffectKeeps(d: State, o: nat, pkt: seq<byte>, out: Outcome)
    requires Inv(d) && o in d.objs && IsActive(d, o) && Sound(pkt) && Reacted(Lcp, d.objs[o].lcp, pkt, out)
    ensures Inv(LcpEffect(d, o, out))
  {
    var s := d.objs[o].(lcp := out.fsm);
    LcpLocally(d.conf, d.objs[o], pkt, out);
    ActiveLinked(d, o);
    LinkedSame(d.aaa, o, d.objs[o], s);
    PutKeeps(d, o, s);
    var d1 := Put(d, o, s);
    DeallocateKeeps(d1, s.key.sid);
    SayKeeps(d1, o, Challenge);
    LcpEffectCases(d, o, s, out);
  }

  lemma LcpEffectCases(d: State, o: nat, s: Session, out: Outcome)
    requires o in d.objs && s == d.objs[o].(lcp := out.fsm) && (!d.conf.chap && !d.conf.pap ==> out.err)
    ensures LcpEffect(d, o, out) in
            {Put(d, o, s), Say(Put(d, o, s), o, Challenge), Deallocate(Put(d, o, s), s.key.sid)}
  {
  }

  lemma IpcpLocally(conf: Conf, s: Session, lease: Option<Lease>, pkt: seq<byte>, consults: bool, out: Outcome)
    requires LocalOk(conf, s) && Sound(pkt) && Reacted(Ipcp, s.ipcp, pkt, out)
    requires consults ==> lease.Some? && s.aaaId != Aaa.NO_SESSION
    requires IsAck(pkt, out.sent) ==> consults
    ensures LocalOk(conf, AfterIpcp(s, lease, pkt, consults, out))
  {
  }

  lemma IpcpLinked(a: Aaa.State, o: nat, s: Session, lease: Option<Lease>, pkt: seq<byte>, consults: bool, out: Outcome)
    requires Linked(a, o, s) && Sound(pkt)
    requires consults ==> lease.Some? && Mine(a, o, s.aaaId) && lease.value == Values(a, s.aaaId)
    requires IsAck(pkt, out.sent) ==> consults && Agreed(Area(pkt), lease.value)
    ensures Linked(a, o, AfterIpcp(s, lease, pkt, consults, out))
  {
  }

  lemma IpcpStepKeeps(d: State, o: nat, pkt: seq<byte>)
    requires Inv(d) && o in d.objs && IsActive(d, o) && Handled(Ipcp, pkt)
    ensures Inv(IpcpStep(d, o, pkt))
  {
    var s := d.objs[o];
    var env := EnvOf(d, s);
    var out := Receive(Ipcp, env, s.ipcp, pkt);
    PacketReaction(Ipcp, env, s.ipcp, pkt);
    if IsAck(pkt, out.sent) {
      AckMeansAgreed(env, s.ipcp, pkt);
    }
    IpcpChangeKeeps(d, o, pkt, Consults(env, s.ipcp, pkt), out);
  }

  lemma IpcpChangeKeeps(d: State, o: nat, pkt: seq<byte>, consults: bool, out: Outcome)
    requires Inv(d) && o in d.objs && IsActive(d, o) && Sound(pkt) && Reacted(Ipcp, d.objs[o].ipcp, pkt, out)
    requires var lease := LeaseOf(d.aaa, d.objs[o].aaaId);
             (consults ==> lease.Some?) && (IsAck(pkt, out.sent) ==> consults && Agreed(Area(pkt), lease.value))
    ensures var s := d.objs[o];
            Inv(IpcpEffect(d, o, AfterIpcp(s, LeaseOf(d.aaa, s.aaaId), pkt, consults, out), out))
  {
    var s := d.objs[o];
    var lease := LeaseOf(d.aaa, s.aaaId);
    ActiveLinked(d, o);
    IpcpLocally(d.conf, s, lease, pkt, consults, out);
    IpcpLinked(d.aaa, o, s, lease, pkt, consults, out);
    IpcpEffectKeeps(d, o, AfterIpcp(s, lease, pkt, consults, out), out);
  }

  lemma IpcpEffectKeeps(d: State, o: nat, s: Session, out: Outcome)
    requires Inv(d) && o in d.objs && IsActive(d, o) && s.key == d.objs[o].key && LocalOk(d.conf, s) && Linked(d.aaa, o, s)
    ensures Inv(IpcpEffect(d, o, s, out))
  {
    if !out.err && out.action == Action.LayerUp {
      ProvisionKeeps(d, o, s);
    } else {
      PutKeeps(d, o, s);
    }
  }

  lemma ProvisionKeeps(d: State, o: nat, s: Session)
    requires Inv(d) && o in d.objs && IsActive(d, o) && s.key == d.objs[o].key && LocalOk(d.conf, s) && Linked(d.aaa, o, s)
    ensures Inv(Put(d, o, s.(echoOn := true)).(provisions := d.provisions + [Provision(o, s.key, s.address)]))
  {
    var up := s.(echoOn := true);
    LinkedSame(d.aaa, o, s, up);
    EchoLocally(d.conf, s, up);
    PutKeeps(d, o, up);
    LogKeeps(Put(d, o, up), d.provisions + [Provision(o, s.key, s.address)]);
  }

  lemma EchoLocally(conf: Conf, s: Session, up: Session)
    requires LocalOk(conf, s) && up == s.(echoOn := true)
    ensures LocalOk(conf, up)
  {
  }

  lemma LogKeeps(d: State, log: seq<Provision>)
    requires Inv(d)
    ensures Inv(d.(provisions := log))
  {
    var d' := d.(provisions := log);
    assert TableOk(d') by { forall x | x in d'.objs ensures IsActive(d', x) <==> IsActive(d, x) {} }
  }

  lemma FrameStepKeeps(d: State, key: Key, frame: Frame)
    requires Inv(d) && Legible(frame)
    ensures Inv(FrameStep(d, key, frame))
  {
    if key in d.active {
      var o := d.active[key];
      ActiveKey(d, key);
      StartedKeeps(d, o);
      var d1 := Started(d, o);
      match frame
      case LcpFrame(pkt) => LcpStepKeeps(d1, o, pkt);
      case IpcpFrame(pkt) => IpcpStepKeeps(d1, o, pkt);
      case AuthRequest(via) => AuthStepKeeps(d1, o, via);
      case OtherFrame =>
    }
  }

  // ---- Timers ------------------------------------------------------------------------------------------------------

  /** An object that only its echo timer kept can go. */
  lemma ForgetKeeps(d: State, o: nat)
    requires Inv(d) && !IsActive(d, o)
    ensures Inv(d.(objs := d.objs - {o}))
  {
    var d' := d.(objs := d.objs - {o});
    forall k | k in d.active ensures d.active[k] != o { assert IsActive(d, d.active[k]); }
    assert TableOk(d') by { forall x | x in d'.objs ensures IsActive(d', x) <==> IsActive(d, x) {} }
  }

  /** A firing for an object outside the table acts on the table as if the object were not there. */
  lemma StaleFiring(d: State, o: nat, s: Session, sid: u16)
    requires Inv(d) && !IsActive(d, o) && o in d.objs
    ensures var d1 := Deallocate(Put(d, o, s), sid);
            d1.(objs := d1.objs - {o}) == Deallocate(d.(objs := d.objs - {o}), sid)
  {
    assert d.objs[o := s] - {o} == d.objs - {o};
    if sid in d.ids.taken {
      FoundSid(d, sid);
      var k := FindSid(d.active, sid).value;
      assert IsActive(d, d.active[k]);
      StaleErase(d, o, s, sid, k);
    }
  }

  lemma StaleErase(d: State, o: nat, s: Session, sid: u16, k: Key)
    requires sid in d.ids.taken && FindSid(d.active, sid) == Some(k) && d.active[k] in d.objs && d.active[k] != o
    ensures var d1 := Deallocate(Put(d, o, s), sid);
            d1.(objs := d1.objs - {o}) == Deallocate(d.(objs := d.objs - {o}), sid)
  {
    var x := d.active[k];
    assert d.objs[o := s] - {o} == d.objs - {o};
    assert d.objs[o := s] - {x} - {o} == d.objs - {o} - {x};
  }

  lemma NoNewEntries(d: State, sid: u16)
    ensures var d1 := Deallocate(d, sid); forall k :: k in d1.active ==> k in d.active && d1.active[k] == d.active[k]
  {
  }

  lemma StaleStaysOut(d: State, o: nat, s: Session, sid: u16)
    requires !IsActive(d, o)
    ensures !IsActive(Deallocate(Put(d, o, s), sid), o)
  {
    var p := Put(d, o, s);
    NoNewEntries(p, sid);
  }

  lemma EchoStepKeeps(d: State, o: nat)
    requires Inv(d)
    ensures Inv(EchoStep(d, o))
  {
    if o in d.objs && d.objs[o].echoOn {
      var s := d.objs[o];
      var out := EchoFires(EnvOf(d, s), s.lcp);
      if out.action != Action.LayerDown {
        QuietFiringKeeps(d, o, s.(lcp := out.fsm));
      } else if IsActive(d, o) {
        LastOwnFiring(d, o, s.(lcp := out.fsm, echoOn := false));
      } else {
        var s' := s.(lcp := out.fsm, echoOn := false);
        StaleFiring(d, o, s', s.key.sid);
        StaleStaysOut(d, o, s', s.key.sid);
        ForgetKeeps(d, o);
        DeallocateKeeps(d.(objs := d.objs - {o}), s.key.sid);
      }
    }
  }

  lemma QuietFiringKeeps(d: State, o: nat, t: Session)
    requires Inv(d) && o in d.objs && d.objs[o].echoOn
    requires t == d.objs[o].(lcp := d.objs[o].lcp.(echo := t.lcp.echo)) && t.lcp.echo <= ECHO_LIMIT
    ensures Inv(Put(d, o, t))
  {
    if IsActive(d, o) {
      ActiveLinked(d, o);
      LinkedSame(d.aaa, o, d.objs[o], t);
    }
    PutKeeps(d, o, t);
  }

  /** The tenth firing of an active object's timer takes the object itself out of the table. */
  lemma LastOwnFiring(d: State, o: nat, s: Session)
    requires Inv(d) && IsActive(d, o) && o in d.objs && !s.echoOn && s.key == d.objs[o].key && s.aaaId == d.objs[o].aaaId
    ensures var d1 := Deallocate(Put(d, o, s), s.key.sid);
            Inv(d1) && !IsActive(d1, o) && d1.(objs := d1.objs - {o}) == d1
  {
    var off := d.objs[o].(echoOn := false);
    ActiveLinked(d, o);
    LinkedSame(d.aaa, o, d.objs[o], off);
    PutKeeps(d, o, off);
    var j :| j in d.active && d.active[j] == o;
    ActiveKey(d, j);
    var p := Put(d, o, off);
    assert p.active == d.active && p.objs[o] == off;
    DeallocateKeeps(p, j.sid);
    TornDown(p, j);
    SameTeardown(d, o, off, s, j);
  }

  /** What a teardown of an object whose timer is off leaves does not depend on the object's other fields. */
  lemma SameTeardown(d: State, o: nat, s: Session, t: Session, k: Key)
    requires Inv(Put(d, o, s)) && k in d.active && d.active[k] == o && o in d.objs
    requires s.key == k == t.key && s.aaaId == t.aaaId && !s.echoOn && !t.echoOn
    ensures Deallocate(Put(d, o, t), k.sid) == Deallocate(Put(d, o, s), k.sid)
  {
    FoundSid(Put(d, o, s), k.sid);
    assert FindSid(d.active, k.sid) == Some(k);
    assert d.objs[o := s] - {o} == d.objs[o := t] - {o};
  }

  /** Deallocating the id of an active session whose timer is off removes that session and its object. */
  lemma TornDown(d: State, k: Key)
    requires Inv(d) && k in d.active && !d.objs[d.active[k]].echoOn
    ensures var o, d1 := d.active[k], Deallocate(d, k.sid);
            d1.active == d.active - {k} && d1.objs == d.objs - {o} && !IsActive(d1, o) && d1.(objs := d1.objs - {o}) == d1
  {
    FoundSid(d, k.sid);
    ActiveKey(d, k);
    OwnTeardown(d, k);
    NotActiveWithout(d, Deallocate(d, k.sid), k);
  }

  lemma OwnTeardown(d: State, k: Key)
    requires FindSid(d.active, k.sid) == Some(k) && k.sid in d.ids.taken && d.active[k] in d.objs
    requires !d.objs[d.active[k]].echoOn
    ensures var o, d1 := d.active[k], Deallocate(d, k.sid);
            d1.active == d.active - {k} && d1.objs == d.objs - {o} && d1.(objs := d1.objs - {o}) == d1
  {
    assert d.objs - {d.active[k]} - {d.active[k]} == d.objs - {d.active[k]};
  }

  lemma NotActiveWithout(d: State, d1: State, k: Key)
    requires k in d.active && d1.active == d.active - {k}
    requires forall j :: j in d.active && d.active[j] == d.active[k] ==> j == k
    ensures !IsActive(d1, d.active[k])
  {
  }

  lemma AccountingDoneKeeps(d: State, h: nat)
    requires Inv(d)
    ensures Inv(d.(aaa := Aaa.Drop(d.aaa, h)))
  {
    var d' := d.(aaa := Aaa.Drop(d.aaa, h));
    Aaa.DropKeepsConsistent(d.aaa, h);
    assert TableOk(d') by { forall x | x in d'.objs ensures IsActive(d', x) <==> IsActive(d, x) {} }
    forall k | k in d.active ensures Linked(d'.aaa, d.active[k], d.objs[d.active[k]]) {
      DropEntries(d.aaa, h, d.active[k]);
      LinkedFrame(d.aaa, d'.aaa, d.active[k], d.objs[d.active[k]]);
    }
  }

  // ---- All events, all runs ----------------------------------------------------------------------------------------

  lemma StepKeeps(d: State, e: Daemon.Event)
    requires Inv(d) && Possible(d, e)
    ensures Inv(Daemon.Step(d, e))
  {
    if e.Padi? || e.PendingExpires? || e.Padr? {
      DiscoveryKeeps(d, e);
    } else if e.Ppp? {
      FrameStepKeeps(d, e.key, e.frame);
    } else if e.RadiusAnswer? {
      RadiusAnswerKeeps(d, e.obj, e.via, e.accept, e.resp);
    } else if e.RadiusError? {
      SayKeeps(d, e.obj, Failure(e.via));
    } else if e.AccountingDone? {
      AccountingDoneKeeps(d, e.handle);
    } else {
      TeardownKeepsInv(d, e);
    }
  }

  lemma DiscoveryKeeps(d: State, e: Daemon.Event)
    requires Inv(d) && Possible(d, e) && (e.Padi? || e.PendingExpires? || e.Padr?)
    ensures Inv(Daemon.Step(d, e))
  {
    match e
    case Padi(conn) => PendingKeeps(d, d.pending + {conn});
    case PendingExpires(conn) => PendingKeeps(d, d.pending - {conn});
    case Padr(conn, magic, peer) => AdmitKeeps(d, conn, magic, peer);
  }

  lemma TeardownKeepsInv(d: State, e: Daemon.Event)
    requires Inv(d) && Possible(d, e) && (e.Padt? || e.EchoTimer? || e.Cleanup?)
    ensures Inv(Daemon.Step(d, e))
  {
    match e
    case Padt(_, sid) => DeallocateKeeps(d, sid);
    case EchoTimer(o) => EchoStepKeeps(d, o);
    case Cleanup(order) => CleanupKeeps(d, order);
  }

  lemma CleanupKeeps(d: State, order: seq<u32>)
    requires Inv(d) && forall i :: i in d.aaa.table ==> i in order
    ensures Inv(Daemon.Step(d, Daemon.Event.Cleanup(order)))
  {
    Aaa.StopEachEmpties(d.aaa, order);
    var d' := Daemon.Step(d, Daemon.Event.Cleanup(order));
    assert d'.active == map[] && d'.ids.taken == {};
    assert TableOk(d');
  }

  lemma PendingKeeps(d: State, pending: set<Conn>)
    requires Inv(d)
    ensures Inv(d.(pending := pending))
  {
    var d' := d.(pending := pending);
    assert TableOk(d') by { forall x | x in d'.objs ensures IsActive(d', x) <==> IsActive(d, x) {} }
  }

  /** The invariant holds in every state of every run. */
  lemma {:induction false} InvAlways(states: seq<State>, events: seq<Daemon.Event>, i: nat)
    requires Daemon.IsRun(states, events) && i < |states|
    ensures Inv(states[i])
    decreases i
  {
    if i == 0 {
      assert forall p :: Aaa.Held(map[], p) == {};
    } else {
      InvAlways(states, events, i - 1);
      StepKeeps(states[i - 1], events[i - 1]);
    }
  }
}
