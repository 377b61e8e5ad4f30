/** A PPPoE session object with its two automata, and what `processPPP` and the authentication callbacks do with it;
    proved against the steps of the daemon model. */
module PppoeSession {
  import opened Wire
  import opened ControlPacket
  import opened IpcpOptions
  import opened PppFsm
  import opened PppAutomaton
  import Aaa
  import AaaTable
  import LcpOptions
  import opened Daemon

  /** What a frame asks of the session table and the data plane. */
  datatype Effect = Nothing | TearDown | Provisioned

  /** The daemon after that, once the object's new fields `s` are in. */
  ghost function Apply(d: State, o: nat, s: Session, e: Effect): State {
    match e
    case Nothing => Put(d, o, s)
    case TearDown => Deallocate(Put(d, o, s), s.key.sid)
    case Provisioned => Put(d, o, s).(provisions := d.provisions + [Provision(o, s.key, s.address)])
  }

  /** An authentication callback: with an id for a success, without one for an error. */
  function CalledBack(d: State, o: nat, via: Via, sid: Option<u32>): State {
    match sid case None => AuthFails(d, o, via) case Some(id) => AuthSucceeds(d, o, via, id)
  }

  datatype Protocol = LcpProtocol | IpcpProtocol | AuthProtocol(via: Via) | OtherProtocol

  /** A frame of the daemon model from its protocol field and its packet. */
  function FrameOf(protocol: Protocol, pkt: seq<byte>): Frame {
    match protocol
    case LcpProtocol => LcpFrame(pkt)
    case IpcpProtocol => IpcpFrame(pkt)
    case AuthProtocol(via) => AuthRequest(via)
    case OtherProtocol => OtherFrame
  }

  // ---- What is queued ----------------------------------------------------------------------------------------------

  const CODE_REJ: byte := 7

  /** IPCP has not asked for anything yet. */
  predicate Unasked(f: Fsm) { f.phase in {Initial, Starting, Closed} }

  /** Starting IPCP queues its Configure-Request, once. */
  function IpcpAsks(before: Fsm, after: Fsm): seq<seq<byte>> {
    if Unasked(before) && !Unasked(after) then [Request(CONF_REQ, [IP_ADDRESS, 6] + Be32(0x64400001))] else []
  }

  /** Nothing but that was queued, and it is never taken back. */
  predicate AskedOnly(queue: seq<seq<byte>>, before: Fsm, queue1: seq<seq<byte>>, after: Fsm) {
    queue1 == queue + IpcpAsks(before, after) && (Unasked(after) ==> Unasked(before))
  }

  lemma KickAsks(env: Env, f: Fsm, queue: seq<seq<byte>>)
    ensures AskedOnly(queue, f, queue + Kick(Ipcp, env, f).sent, Kick(Ipcp, env, f).fsm)
  {
  }

  lemma AskedThen(q0: seq<seq<byte>>, f0: Fsm, q1: seq<seq<byte>>, f1: Fsm, q2: seq<seq<byte>>, f2: Fsm)
    requires AskedOnly(q0, f0, q1, f1) && AskedOnly(q1, f1, q2, f2)
    ensures AskedOnly(q0, f0, q2, f2)
  {
  }

  /** What LCP queues for a frame in a started session: its answer to an LCP packet. */
  ghost function LcpAnswers(d: State, o: nat, frame: Frame): seq<seq<byte>>
    requires o in d.objs && Legible(frame)
  {
    if frame.LcpFrame? then Receive(Lcp, EnvOf(d, d.objs[o]), d.objs[o].lcp, frame.pkt).sent else []
  }

  /** What IPCP queues: its answer to an IPCP packet, or its request when something else has it started. */
  ghost function IpcpAnswers(d: State, o: nat, frame: Frame, after: Fsm): seq<seq<byte>>
    requires o in d.objs && Legible(frame)
  {
    if frame.IpcpFrame? then Receive(Ipcp, EnvOf(d, d.objs[o]), d.objs[o].ipcp, frame.pkt).sent
    else IpcpAsks(d.objs[o].ipcp, after)
  }

  /** What the first frame of a session has LCP queue. */
  function LcpBegins(d: State, o: nat): seq<seq<byte>>
    requires o in d.objs
  {
    if d.objs[o].started then [] else Kick(Lcp, EnvOf(d, d.objs[o]), d.objs[o].lcp).sent
  }

  class PppoeSession {
    const key: Key
    const magic: u32
    const lcp: Automaton
    const ipcp: Automaton
    var started: bool
    var papStarted: bool
    var chapStarted: bool
    var aaaId: u32
    var address: Option<u32>
    var echoOn: bool
    /** The packets PAP and CHAP have queued. */
    var answers: seq<AuthPacket>
    ghost var from: Option<u32>
    ghost var acked: Option<Acknowledged>
    ghost var auths: nat

    ghost predicate Valid() {
      lcp != ipcp && lcp.kind == Lcp && ipcp.kind == Ipcp
    }

    ghost function Value(): Session
      reads this, lcp, ipcp
    {
      Session(key, started, lcp.Value(), ipcp.Value(), papStarted, chapStarted, magic, aaaId, address, echoOn, answers,
              from, acked, auths)
    }

    /** The object is the one `d` has under the handle `o`, and `lease` is what its AAA id refers to. */
    ghost predicate Is(d: State, o: nat, conf: Conf, lease: Option<Lease>)
      reads this, lcp, ipcp
    {
      Valid() && o in d.objs && d.objs[o] == Value() && d.conf == conf && lease == LeaseOf(d.aaa, aaaId)
    }

    constructor (key: Key, magic: u32, peer: LcpOptions.Peer)
      ensures Valid() && fresh(lcp) && fresh(ipcp) && Value() == NewSession(key, magic, peer)
    {
      this.key, this.magic := key, magic;
      lcp := new Automaton(Lcp, peer);
      ipcp := new Automaton(Ipcp, peer);
      started, papStarted, chapStarted, aaaId, address, echoOn := false, false, false, Aaa.NO_SESSION, None, false;
      answers := [];
      from, acked, auths := None, None, 0;
    }

    function EnvFor(conf: Conf, lease: Option<Lease>): Env {
      Env(conf.chap, conf.pap, conf.mru, magic, lease)
    }

    method Kickoff(a: Automaton, env: Env)
      modifies a
      ensures a.Value() == Kick(a.kind, env, old(a.Value())).fsm
      ensures a.queue == old(a.queue) + Kick(a.kind, env, old(a.Value())).sent
    {
      a.Open(env);
      a.LayerUp(env);
    }

    /** The first frame of a session starts its LCP, which queues our request if there is one. */
    method Begin(conf: Conf, lease: Option<Lease>, ghost d: State, ghost o: nat)
      requires Is(d, o, conf, lease)
      modifies this`started, lcp
      ensures lcp.queue == old(lcp.queue) + LcpBegins(d, o)
      ensures started && Started(d, o) == Put(d, o, Value())
    {
      if !started {
        Kickoff(lcp, EnvFor(conf, lease));
        started := true;
      }
      assert d.objs == d.objs[o := d.objs[o]];
    }

    /** What `processPPP` does when LCP is through; the last branch is for an LCP without authentication protocol. */
    method AfterLcp(conf: Conf, lease: Option<Lease>, action: Action, err: bool, ghost d: State, ghost o: nat,
                    ghost out: Outcome)
      returns (effect: Effect)
      requires Valid() && o in d.objs && d.objs[o].(lcp := out.fsm) == Value() && d.conf == conf
      requires lease == LeaseOf(d.aaa, aaaId) && action == out.action && err == out.err
      modifies this`answers, ipcp
      ensures LcpEffect(d, o, out) == Apply(d, o, Value(), effect)
      ensures AskedOnly(old(ipcp.queue), old(ipcp.Value()), ipcp.queue, ipcp.Value())
    {
      effect := Nothing;
      if !err {
        if action == Action.LayerUp {
          if conf.chap {
            answers := answers + [Challenge];
          } else if !conf.pap {
            KickAsks(EnvFor(conf, lease), ipcp.Value(), ipcp.queue);
            Kickoff(ipcp, EnvFor(conf, lease));
          }
          PutTwice(d, o, d.objs[o].(lcp := out.fsm), Value());
        } else if action == Action.LayerDown {
          effect := TearDown;
        }
      }
    }

    /** LCP's own part: what it queues, and the object with the automaton's next value. */
    method RunLcp(env: Env, pkt: array<byte>) returns (action: Action, err: bool)
      requires Valid() && Handled(Lcp, pkt[..])
      modifies lcp, pkt
      ensures var out := old(Receive(Lcp, env, lcp.Value(), pkt[..]));
              && action == out.action && err == out.err && lcp.queue == old(lcp.queue) + out.sent
              && Value() == old(Value()).(lcp := out.fsm)
    {
      action, err := lcp.Receive(env, pkt);
    }

    method ProcessLcp(conf: Conf, lease: Option<Lease>, pkt: array<byte>, ghost d: State, ghost o: nat)
      returns (effect: Effect)
      requires Is(d, o, conf, lease) && Handled(Lcp, pkt[..])
      modifies this, lcp, ipcp, pkt
      ensures LcpStep(d, o, old(pkt[..])) == Apply(d, o, Value(), effect)
      ensures lcp.queue == old(lcp.queue) + old(Receive(Lcp, EnvFor(conf, lease), lcp.Value(), pkt[..])).sent
      ensures AskedOnly(old(ipcp.queue), old(ipcp.Value()), ipcp.queue, ipcp.Value())
    {
      ghost var out := Receive(Lcp, EnvOf(d, d.objs[o]), lcp.Value(), pkt[..]);
      var action, err := RunLcp(EnvFor(conf, lease), pkt);
      effect := AfterLcp(conf, lease, action, err, d, o, out);
    }

    /** IPCP copies the AAA session's address while it checks the options of a request. */
    method CopyAddress(env: Env, pkt: array<byte>)
      requires Valid() && Sound(pkt[..])
      modifies this`address, this`from
      ensures var s := old(Value());
              Value() == if Consults(env, s.ipcp, pkt[..]) then
                           s.(address := Some(env.lease.value.address), from := Some(aaaId)) else s
    {
      if pkt[0] == CONF_REQ && ReadBe16(pkt[2..]) > HEADER && env.lease.Some? {
        if ipcp.phase in {ReqSent, AckRcvd, AckSent, Stopped} {
          address := Some(env.lease.value.address);
          from := Some(aaaId);
        }
      }
      assert pkt[2..] == pkt[..][2..];
    }

    /** IPCP's own part, and the record of what it acknowledged. */
    method RunIpcp(env: Env, pkt: array<byte>) returns (action: Action, err: bool)
      requires Valid() && Handled(Ipcp, pkt[..])
      modifies this`acked, ipcp, pkt
      ensures var s, out := old(Value()), old(Receive(Ipcp, env, ipcp.Value(), pkt[..]));
              && action == out.action && err == out.err && ipcp.queue == old(ipcp.queue) + out.sent
              && Value() == (if IsAck(old(pkt[..]), out.sent)
                             then s.(acked := Some(Acknowledged(old(Area(pkt[..])), aaaId))) else s).(ipcp := out.fsm)
    {
      ghost var was := pkt[..];
      ghost var out := Receive(Ipcp, env, ipcp.Value(), was);
      action, err := ipcp.Receive(env, pkt);
      if IsAck(was, out.sent) {
        acked := Some(Acknowledged(Area(was), aaaId));
      }
    }

    method CopyAndRun(env: Env, pkt: array<byte>) returns (action: Action, err: bool)
      requires Valid() && Handled(Ipcp, pkt[..])
      modifies this`address, this`from, this`acked, ipcp, pkt
      ensures var s, was := old(Value()), old(pkt[..]);
              var out := old(Receive(Ipcp, env, ipcp.Value(), pkt[..]));
              && action == out.action && err == out.err && ipcp.queue == old(ipcp.queue) + out.sent
              && Value() == AfterIpcp(s, env.lease, was, Consults(env, s.ipcp, was), out)
    {
      CopyAddress(env, pkt);
      action, err := RunIpcp(env, pkt);
    }

    /** What `processPPP` does when IPCP is through. */
    method AfterReceive(action: Action, err: bool, ghost d: State, ghost o: nat, ghost out: Outcome)
      returns (effect: Effect)
      requires Valid() && o in d.objs && action == out.action && err == out.err
      modifies this`echoOn
      ensures IpcpEffect(d, o, old(Value()), out) == Apply(d, o, Value(), effect)
    {
      effect := Nothing;
      if !err && action == Action.LayerUp {
        effect := Provisioned;
        echoOn := true;
      }
    }

    method ProcessIpcp(conf: Conf, lease: Option<Lease>, pkt: array<byte>, ghost d: State, ghost o: nat)
      returns (effect: Effect)
      requires Is(d, o, conf, lease) && Handled(Ipcp, pkt[..])
      modifies this, ipcp, pkt
      ensures IpcpStep(d, o, old(pkt[..])) == Apply(d, o, Value(), effect)
      ensures ipcp.queue == old(ipcp.queue) + old(Receive(Ipcp, EnvFor(conf, lease), ipcp.Value(), pkt[..])).sent
    {
      ghost var out := Receive(Ipcp, EnvOf(d, d.objs[o]), ipcp.Value(), pkt[..]);
      var action, err := CopyAndRun(EnvFor(conf, lease), pkt);
      effect := AfterReceive(action, err, d, o, out);
    }

    /** `auth_callback` with an error. */
    method Refuse(via: Via, ghost d: State, ghost o: nat)
      requires o in d.objs && d.objs[o] == Value()
      modifies this`answers
      ensures Put(d, o, Value()) == AuthFails(d, o, via)
    {
      answers := answers + [Failure(via)];
    }

    /** `auth_callback` with an id: the fields it sets. */
    method Bind(via: Via, sid: u32, ghost d: State, ghost o: nat)
      requires o in d.objs && d.objs[o] == Value()
      modifies this`aaaId, this`auths, this`papStarted, this`chapStarted, this`answers
      ensures Value() == SetAuth(d.objs[o], via, sid)
    {
      aaaId := sid;
      auths := auths + 1;
      if via == Pap {
        papStarted := true;
      } else {
        chapStarted := true;
      }
      answers := answers + [Success(via)];
    }

    /** `auth_callback` with an id. */
    method Succeed(conf: Conf, lease: Option<Lease>, via: Via, sid: u32, ghost d: State, ghost o: nat)
      requires Valid() && o in d.objs && d.objs[o] == Value() && d.conf == conf && lease == LeaseOf(d.aaa, sid)
      modifies this, ipcp
      ensures Put(d, o, Value()) == AuthSucceeds(d, o, via, sid)
      ensures ipcp.queue == old(ipcp.queue) + Kick(Ipcp, EnvFor(conf, lease), old(ipcp.Value())).sent
    {
      Bind(via, sid, d, o);
      Kickoff(ipcp, EnvFor(conf, lease));
      PutTwice(d, o, SetAuth(d.objs[o], via, sid), Value());
    }

    static lemma PutTwice(d: State, o: nat, s: Session, t: Session)
      ensures Put(Put(d, o, s), o, t) == Put(d, o, t)
    {
      assert d.objs[o := s][o := t] == d.objs[o := t];
    }

    /** `auth_callback`: with an id for a success, without one for an error. */
    method AuthCallback(conf: Conf, lease: Option<Lease>, via: Via, sid: Option<u32>, ghost d: State, ghost o: nat)
      requires Valid() && o in d.objs && d.objs[o] == Value() && d.conf == conf
      requires sid.Some? ==> lease == LeaseOf(d.aaa, sid.value)
      modifies this, ipcp
      ensures Put(d, o, Value()) == CalledBack(d, o, via, sid)
      ensures ipcp.queue == old(ipcp.queue) +
                            if sid.None? then [] else Kick(Ipcp, EnvFor(conf, lease), old(ipcp.Value())).sent
    {
      match sid
      case None => Refuse(via, d, o);
      case Some(id) => Succeed(conf, lease, via, id, d, o);
    }

    /** The daemon with this object's and the AAA side's present values. */
    ghost function Now(d: State, o: nat, aaa: AaaTable.Table): State
      requires aaa.Usable()
      reads this, lcp, ipcp, aaa, aaa.pools.Values
    {
      Put(d, o, Value()).(aaa := aaa.Value())
    }

    /** Delivering a callback, with the AAA session its id refers to. */
    method Deliver(aaa: AaaTable.Table, conf: Conf, via: Via, sid: Option<u32>, o: nat, ghost d: State)
      requires Valid() && aaa.Usable() && o in d.objs && d.objs[o] == Value() && d.conf == conf && d.aaa == aaa.Value()
      modifies this, ipcp
      ensures Put(d, o, Value()) == CalledBack(d, o, via, sid)
      ensures AskedOnly(old(ipcp.queue), old(ipcp.Value()), ipcp.queue, ipcp.Value())
    {
      var lease := None;
      if sid.Some? {
        lease := aaa.GetSession(sid.value);
      }
      KickAsks(EnvFor(conf, lease), ipcp.Value(), ipcp.queue);
      ghost var env, f := EnvFor(conf, lease), ipcp.Value();
      AuthCallback(conf, lease, via, sid, d, o);
      CallbackKicks(d, o, via, sid, env, f, lease);
      assert Put(d, o, Value()).objs[o].ipcp == ipcp.Value();
    }

    static lemma CallbackKicks(d: State, o: nat, via: Via, sid: Option<u32>, env: Env, f: Fsm, lease: Option<Lease>)
      requires o in d.objs && f == d.objs[o].ipcp && (sid.Some? ==> lease == LeaseOf(d.aaa, sid.value))
      requires env == Env(d.conf.chap, d.conf.pap, d.conf.mru, d.objs[o].magic, lease)
      ensures var d1 := CalledBack(d, o, via, sid); o in d1.objs
      ensures CalledBack(d, o, via, sid).objs[o].ipcp == if sid.None? then f else Kick(Ipcp, env, f).fsm
    {
    }

    /** One turn of the loop over the methods, for a method that needs no RADIUS server. */
    method TryNone(aaa: AaaTable.Table, conf: Conf, via: Via, o: nat, ghost d: State)
      requires Valid() && aaa.Usable() && aaa.conf == conf.aaa && d.conf == conf && Now(d, o, aaa) == d && o in d.objs
      modifies this, ipcp, aaa, aaa.pools.Values
      ensures Now(d, o, aaa) == AfterStart(d, o, via, Aaa.StartNone(conf.aaa, d.aaa, o))
      ensures AskedOnly(old(ipcp.queue), old(ipcp.Value()), ipcp.queue, ipcp.Value())
    {
      NowIsHere(d, o, aaa);
      var sid := aaa.StartSessionNone(o);
      ghost var r := Aaa.StartNone(conf.aaa, d.aaa, o);
      if sid.Some? {
        Deliver(aaa, conf, via, sid, o, d.(aaa := aaa.Value()));
        StartedIsCalledBack(d, o, via, r);
      } else {
        NoneChangesNothing(conf.aaa, d.aaa, o);
      }
    }

    static lemma StartedIsCalledBack(d: State, o: nat, via: Via, r: (Aaa.State, Option<u32>))
      requires r.1.Some?
      ensures AfterStart(d, o, via, r) == CalledBack(d.(aaa := r.0), o, via, r.1)
    {
    }

    lemma NowIsHere(d: State, o: nat, aaa: AaaTable.Table)
      requires aaa.Usable() && Now(d, o, aaa) == d
      ensures o in d.objs && d.objs[o] == Value() && d.aaa == aaa.Value()
    {
      assert Now(d, o, aaa).objs[o] == Value();
    }

    static lemma NoneChangesNothing(conf: Aaa.AaaConf, a: Aaa.State, o: nat)
      requires Aaa.StartNone(conf, a, o).1 == None
      ensures Aaa.StartNone(conf, a, o).0 == a
    {
    }

    /** One turn of the loop over the methods, after which what was queued is still what starting IPCP queues. */
    method TurnNone(aaa: AaaTable.Table, conf: Conf, via: Via, o: nat, ghost cur: State, ghost q0: seq<seq<byte>>, ghost f0: Fsm)
      returns (ghost next: State)
      requires Valid() && aaa.Usable() && aaa.conf == conf.aaa && cur.conf == conf && Now(cur, o, aaa) == cur && o in cur.objs
      requires AskedOnly(q0, f0, ipcp.queue, ipcp.Value())
      modifies this, ipcp, aaa, aaa.pools.Values
      ensures next == Now(cur, o, aaa) == AfterStart(cur, o, via, Aaa.StartNone(conf.aaa, cur.aaa, o))
      ensures next.conf == conf && o in next.objs && AskedOnly(q0, f0, ipcp.queue, ipcp.Value())
    {
      ghost var q, f := ipcp.queue, ipcp.Value();
      TryNone(aaa, conf, via, o, cur);
      AskedThen(q0, f0, q, f, ipcp.queue, ipcp.Value());
      next := Now(cur, o, aaa);
    }

    /** `startSession` and `startSessionCHAP`: the methods in order, up to the first that asks a RADIUS server. */
    method StartSession(aaa: AaaTable.Table, conf: Conf, via: Via, o: nat, ghost d: State) returns (asked: bool)
      requires Valid() && aaa.Usable() && aaa.conf == conf.aaa && d.conf == conf && Now(d, o, aaa) == d && o in d.objs
      modifies this, ipcp, aaa, aaa.pools.Values
      ensures Now(d, o, aaa) == TryMethods(d, o, via, conf.aaa.methods)
      ensures asked <==> Aaa.RadiusAuth in conf.aaa.methods
      ensures AskedOnly(old(ipcp.queue), old(ipcp.Value()), ipcp.queue, ipcp.Value())
    {
      var methods := conf.aaa.methods;
      ghost var cur := d;
      assert methods[0..] == methods;
      for i := 0 to |methods|
        invariant Now(d, o, aaa) == cur && cur.conf == conf && o in cur.objs
        invariant AskedOnly(old(ipcp.queue), old(ipcp.Value()), ipcp.queue, ipcp.Value())
        invariant TryMethods(d, o, via, methods) == TryMethods(cur, o, via, methods[i..])
        invariant Aaa.RadiusAuth !in methods[..i]
      {
        assert methods[i..][0] == methods[i] && methods[i..][1..] == methods[i + 1..];
        NowOfNow(cur, d, o, aaa);
        match methods[i]
        case NoneAuth =>
          ghost var next := TurnNone(aaa, conf, via, o, cur, old(ipcp.queue), old(ipcp.Value()));
          NowAgain(cur, d, o, aaa);
          cur := next;
        case RadiusAuth => return true;
        case LocalAuth =>
      }
      return false;
    }

    lemma NowOfNow(cur: State, d: State, o: nat, aaa: AaaTable.Table)
      requires aaa.Usable() && cur == Now(d, o, aaa)
      ensures Now(cur, o, aaa) == cur
    {
      assert d.objs[o := Value()][o := Value()] == d.objs[o := Value()];
    }

    lemma NowAgain(cur: State, d: State, o: nat, aaa: AaaTable.Table)
      requires aaa.Usable() && cur.objs.Keys == d.objs.Keys + {o}
      requires cur == d.(objs := cur.objs, aaa := cur.aaa) && forall x :: x in d.objs && x != o ==> cur.objs[x] == d.objs[x]
      ensures Now(cur, o, aaa) == Now(d, o, aaa)
    {
      assert cur.objs[o := Value()] == d.objs[o := Value()];
    }

    /** `recv_auth_req`: acknowledged again once authentication has succeeded, else handed to the AAA side. */
    method ProcessAuth(aaa: AaaTable.Table, conf: Conf, via: Via, o: nat, ghost d: State)
      requires Valid() && aaa.Usable() && aaa.conf == conf.aaa && d.conf == conf && Now(d, o, aaa) == d && o in d.objs
      modifies this, ipcp, aaa, aaa.pools.Values
      ensures Now(d, o, aaa) == AuthStep(d, o, via)
      ensures AskedOnly(old(ipcp.queue), old(ipcp.Value()), ipcp.queue, ipcp.Value())
    {
      NowIsHere(d, o, aaa);
      var done := if via == Pap then papStarted else chapStarted;
      if done {
        var lease := aaa.GetSession(aaaId);
        SucceedAgain(conf, lease, via, d, o);
      } else {
        var _ := StartSession(aaa, conf, via, o, d);
      }
    }

    method SucceedAgain(conf: Conf, lease: Option<Lease>, via: Via, ghost d: State, ghost o: nat)
      requires Is(d, o, conf, lease)
      modifies this`answers, ipcp
      ensures Put(d, o, Value()) == StartIpcp(Say(d, o, Success(via)), o)
      ensures answers == old(answers) + [Success(via)]
      ensures AskedOnly(old(ipcp.queue), old(ipcp.Value()), ipcp.queue, ipcp.Value())
    {
      answers := answers + [Success(via)];
      KickAsks(EnvFor(conf, lease), ipcp.Value(), ipcp.queue);
      Kickoff(ipcp, EnvFor(conf, lease));
      assert Say(d, o, Success(via)).objs[o := Value()] == d.objs[o := Value()];
    }

    /** `processRadiusAnswer` with the callbacks it makes. */
    method RadiusAnswered(aaa: AaaTable.Table, conf: Conf, via: Via, accept: bool, resp: Aaa.RadiusResponse, o: nat,
                          ghost d: State)
      requires Valid() && aaa.Usable() && aaa.conf == conf.aaa && d.conf == conf && Now(d, o, aaa) == d && o in d.objs
      modifies this, ipcp, aaa, aaa.pools.Values
      ensures Now(d, o, aaa) == AfterAnswer(d, o, via, accept, resp)
      ensures AskedOnly(old(ipcp.queue), old(ipcp.Value()), ipcp.queue, ipcp.Value())
    {
      NowIsHere(d, o, aaa);
      var calls := aaa.ProcessRadiusAnswer(o, accept, resp);
      DeliverAll(aaa, conf, via, calls, o, d.(aaa := aaa.Value()));
      AnswerInOrder(conf, d, o, via, accept, resp);
    }

    /** Delivering the one or two callbacks of a RADIUS answer. */
    method DeliverAll(aaa: AaaTable.Table, conf: Conf, via: Via, calls: seq<Option<u32>>, o: nat, ghost d: State)
      requires Valid() && aaa.Usable() && o in d.objs && d.objs[o] == Value() && d.conf == conf && d.aaa == aaa.Value()
      requires |calls| == 1 || (|calls| == 2 && calls[0] == None)
      modifies this, ipcp
      ensures Put(d, o, Value()) == CalledBack(if |calls| == 1 then d else AuthFails(d, o, via), o, via, calls[|calls| - 1])
      ensures AskedOnly(old(ipcp.queue), old(ipcp.Value()), ipcp.queue, ipcp.Value())
    {
      ghost var told := d;
      ghost var q, f := ipcp.queue, ipcp.Value();
      if |calls| == 2 {
        Deliver(aaa, conf, via, calls[0], o, d);
        told := Put(d, o, Value());
        q, f := ipcp.queue, ipcp.Value();
      }
      Deliver(aaa, conf, via, calls[|calls| - 1], o, told);
      AskedThen(old(ipcp.queue), old(ipcp.Value()), q, f, ipcp.queue, ipcp.Value());
      assert told.objs[o := Value()] == d.objs[o := Value()];
    }

    /** The callbacks may be thought of as coming after the change of the AAA table. */
    static lemma AnswerInOrder(conf: Conf, d: State, o: nat, via: Via, accept: bool, resp: Aaa.RadiusResponse)
      requires o in d.objs && d.conf == conf
      ensures var r := Aaa.StartRadius(conf.aaa, d.aaa, o, resp);
              var there := d.(aaa := r.0);
              var told := if accept then there else AuthFails(there, o, via);
              AfterAnswer(d, o, via, accept, resp) == CalledBack(told, o, via, r.1)
    {
    }

    static lemma ApplyAgain(d: State, o: nat, s: Session, t: Session, e: Effect)
      ensures Apply(Put(d, o, s), o, t, e) == Apply(d, o, t, e)
    {
      assert d.objs[o := s][o := t] == d.objs[o := t];
    }

    /** The default branch: a packet of an unknown protocol goes back with its code changed. */
    method Reject(pkt: array<byte>) returns (sent: seq<seq<byte>>)
      requires pkt.Length > 0
      modifies pkt
      ensures sent == [old(pkt[..])[0 := 7]]
    {
      pkt[0] := CODE_REJ;
      sent := [pkt[..]];
    }

    /** The branches for LCP and IPCP. */
    method DispatchControl(conf: Conf, lease: Option<Lease>, protocol: Protocol, pkt: array<byte>, ghost d: State, ghost o: nat)
      returns (effect: Effect)
      requires Is(d, o, conf, lease) && (protocol.LcpProtocol? || protocol.IpcpProtocol?)
      requires Legible(FrameOf(protocol, pkt[..]))
      modifies this, lcp, ipcp, pkt
      ensures ProtocolStep(d, o, FrameOf(protocol, old(pkt[..]))) == Apply(d, o, Value(), effect)
      ensures lcp.queue == old(lcp.queue) + LcpAnswers(d, o, FrameOf(protocol, old(pkt[..])))
      ensures ipcp.queue == old(ipcp.queue) + IpcpAnswers(d, o, FrameOf(protocol, old(pkt[..])), ipcp.Value())
    {
      if protocol == LcpProtocol {
        effect := ProcessLcp(conf, lease, pkt, d, o);
      } else {
        effect := ProcessIpcp(conf, lease, pkt, d, o);
      }
    }

    /** The branches for PAP and CHAP, and the default one. */
    method DispatchOther(aaa: AaaTable.Table, conf: Conf, protocol: Protocol, pkt: array<byte>, o: nat, ghost d: State)
      returns (sent: seq<seq<byte>>)
      requires Valid() && aaa.Usable() && aaa.conf == conf.aaa && d.conf == conf && Now(d, o, aaa) == d && o in d.objs
      requires !protocol.LcpProtocol? && !protocol.IpcpProtocol? && (protocol.OtherProtocol? ==> pkt.Length > 0)
      modifies this, ipcp, pkt, aaa, aaa.pools.Values
      ensures ProtocolStep(d, o, FrameOf(protocol, old(pkt[..]))) == Apply(d.(aaa := aaa.Value()), o, Value(), Nothing)
      ensures ipcp.queue == old(ipcp.queue) + IpcpAnswers(d, o, FrameOf(protocol, old(pkt[..])), ipcp.Value())
      ensures sent == if protocol.OtherProtocol? then [old(pkt[..])[0 := 7]] else []
    {
      NowIsHere(d, o, aaa);
      sent := [];
      if protocol.AuthProtocol? {
        ProcessAuth(aaa, conf, protocol.via, o, d);
      } else {
        sent := Reject(pkt);
      }
    }

    /** The dispatch on the protocol, in a started session; `sent` is what no queue of the automata holds. */
    method Dispatch(aaa: AaaTable.Table, conf: Conf, lease: Option<Lease>, protocol: Protocol, pkt: array<byte>, o: nat,
                    ghost d: State)
      returns (effect: Effect, sent: seq<seq<byte>>)
      requires Is(d, o, conf, lease) && aaa.Usable() && aaa.conf == conf.aaa && Now(d, o, aaa) == d
      requires Legible(FrameOf(protocol, pkt[..])) && (protocol.OtherProtocol? ==> pkt.Length > 0)
      modifies this, lcp, ipcp, pkt, aaa, aaa.pools.Values
      ensures ProtocolStep(d, o, FrameOf(protocol, old(pkt[..]))) == Apply(d.(aaa := aaa.Value()), o, Value(), effect)
      ensures lcp.queue == old(lcp.queue) + LcpAnswers(d, o, FrameOf(protocol, old(pkt[..])))
      ensures ipcp.queue == old(ipcp.queue) + IpcpAnswers(d, o, FrameOf(protocol, old(pkt[..])), ipcp.Value())
      ensures sent == if protocol.OtherProtocol? then [old(pkt[..])[0 := 7]] else []
    {
      NowIsHere(d, o, aaa);
      effect, sent := Nothing, [];
      assert d.(aaa := aaa.Value()) == d;
      if protocol.LcpProtocol? || protocol.IpcpProtocol? {
        effect := DispatchControl(conf, lease, protocol, pkt, d, o);
      } else {
        sent := DispatchOther(aaa, conf, protocol, pkt, o, d);
      }
    }

    /** The session is started, if it is not. */
    method BeginHere(aaa: AaaTable.Table, conf: Conf, o: nat, ghost d: State) returns (lease: Option<Lease>)
      requires Valid() && aaa.Usable() && d.conf == conf && Now(d, o, aaa) == d && o in d.objs
      modifies this`started, lcp
      ensures Is(Started(d, o), o, conf, lease) && Now(Started(d, o), o, aaa) == Started(d, o)
      ensures Started(d, o) == Put(d, o, Value()) && lcp.queue == old(lcp.queue) + LcpBegins(d, o)
    {
      NowIsHere(d, o, aaa);
      lease := aaa.GetSession(aaaId);
      Begin(conf, lease, d, o);
      NowOfNow(Put(d, o, Value()), d, o, aaa);
    }

    /** `processPPP` for a session that is in the table. */
    method ProcessPpp(aaa: AaaTable.Table, conf: Conf, protocol: Protocol, pkt: array<byte>, o: nat, ghost d: State)
      returns (effect: Effect, sent: seq<seq<byte>>)
      requires Valid() && aaa.Usable() && aaa.conf == conf.aaa && d.conf == conf && Now(d, o, aaa) == d
      requires key in d.active && d.active[key] == o
      requires Legible(FrameOf(protocol, pkt[..])) && (protocol.OtherProtocol? ==> pkt.Length > 0)
      modifies this, lcp, ipcp, pkt, aaa, aaa.pools.Values
      ensures o in d.objs
      ensures FrameStep(d, key, FrameOf(protocol, old(pkt[..]))) == Apply(d.(aaa := aaa.Value()), o, Value(), effect)
      ensures o in Started(d, o).objs
      ensures lcp.queue == old(lcp.queue) + LcpBegins(d, o) + LcpAnswers(Started(d, o), o, FrameOf(protocol, old(pkt[..])))
      ensures ipcp.queue == old(ipcp.queue) + IpcpAnswers(Started(d, o), o, FrameOf(protocol, old(pkt[..])), ipcp.Value())
      ensures sent == if protocol.OtherProtocol? then [old(pkt[..])[0 := 7]] else []
    {
      NowIsHere(d, o, aaa);
      var lease := BeginHere(aaa, conf, o, d);
      ghost var s := Value();
      effect, sent := Dispatch(aaa, conf, lease, protocol, pkt, o, Started(d, o));
      ApplyAgain(d.(aaa := aaa.Value()), o, s, Value(), effect);
    }
  }
}
