/** The whole daemon between two packets or timer completions: the session table of `PPPOERuntime`, the PPPoE session
    objects with their automata, and the AAA side; and what each event does to it. Packets, timers and RADIUS answers
    are events that may come in any order. */
module Daemon {
  import opened Wire
  import opened ControlPacket
  import opened IpcpOptions
  import LcpOptions
  import opened PppFsm
  import opened SessionIds
  import opened FramedPool
  import Aaa

  datatype Conf = Conf(chap: bool, pap: bool, mru: u16, aaa: Aaa.AaaConf)

  /** A subscriber line, and with a cookie or a session id the keys of the two tables. */
  datatype Line = Line(mac: Mac, outer: u16, inner: u16)
  datatype Conn = Conn(line: Line, cookie: seq<byte>)
  datatype Key = Key(line: Line, sid: Id)

  datatype Via = Pap | Chap

  /** What PAP and CHAP send. */
  datatype AuthPacket = Success(via: Via) | Failure(via: Via) | Challenge

  /** `PPPOESession`; `answers` are the packets PAP and CHAP have queued for it. `from`, `acked` and `auths` record for the
      proofs where `address` was copied from, what IPCP last acknowledged, and how often an authentication callback
      reported success; the code keeps no such fields. */
  datatype Session = Session(key: Key, started: bool, lcp: Fsm, ipcp: Fsm, papStarted: bool, chapStarted: bool,
                             magic: u32, aaaId: u32, address: Option<u32>, echoOn: bool, answers: seq<AuthPacket>,
                             from: Option<u32>, acked: Option<Acknowledged>, auths: nat)

  datatype Acknowledged = Acknowledged(area: seq<byte>, aaaId: u32)

  /** One call that puts a session into the data plane. */
  datatype Provision = Provision(obj: nat, key: Key, address: Option<u32>)

  /** `objs` holds every session object that is still referenced, `active` those in the session table. */
  datatype State = State(conf: Conf, ids: Ids, active: map<Key, nat>, objs: map<nat, Session>, nextObj: nat,
                         pending: set<Conn>, aaa: Aaa.State, provisions: seq<Provision>)

  /** What arrives inside a PPPoE session. */
  datatype Frame = LcpFrame(pkt: seq<byte>) | IpcpFrame(pkt: seq<byte>) | AuthRequest(via: Via) | OtherFrame

  datatype Event =
    | Padi(conn: Conn)
    | PendingExpires(conn: Conn)
    | Padr(conn: Conn, magic: u32, peer: LcpOptions.Peer)
    | Padt(line: Line, sid: u16)
    | Ppp(key: Key, frame: Frame)
    | RadiusAnswer(obj: nat, via: Via, accept: bool, resp: Aaa.RadiusResponse)
    | RadiusError(obj: nat, via: Via)
    | EchoTimer(obj: nat)
    | AccountingDone(handle: nat)
    | Cleanup(order: seq<u32>)

  function Init(conf: Conf, pools: map<string, Pool>): State {
    State(conf, Ids({}, 1), map[], map[], 0, {}, Aaa.State(map[], map[], pools, 0), [])
  }

  function LeaseOf(a: Aaa.State, id: u32): Option<Lease> {
    if id in a.table && a.table[id] in a.objects then Some(a.objects[a.table[id]].lease) else None
  }

  function EnvOf(d: State, s: Session): Env {
    Env(d.conf.chap, d.conf.pap, d.conf.mru, s.magic, LeaseOf(d.aaa, s.aaaId))
  }

  function Put(d: State, o: nat, s: Session): State {
    d.(objs := d.objs[o := s])
  }

  // ---- Discovery ---------------------------------------------------------------------------------------------------

  function NewSession(key: Key, magic: u32, peer: LcpOptions.Peer): Session {
    Session(key, false, Fresh(peer), Fresh(peer), false, false, magic, Aaa.NO_SESSION, None, false, [], None, None, 0)
  }

  /** `process_padr`: the pending entry is consumed, then a session id is allocated. */
  function Admit(d: State, conn: Conn, magic: u32, peer: LcpOptions.Peer): State {
    if conn !in d.pending then d
    else
      var d1 := d.(pending := d.pending - {conn});
      var (ids, id) := Allocate(d.ids);
      if id.None? then d1
      else
        var key := Key(conn.line, id.value);
        if key in d.active then d1
        else d1.(ids := ids, active := d.active[key := d.nextObj],
                 objs := d.objs[d.nextObj := NewSession(key, magic, peer)], nextObj := d.nextObj + 1)
  }

  // ---- Teardown ----------------------------------------------------------------------------------------------------

  ghost predicate IsActive(d: State, o: nat) {
    exists k :: k in d.active && d.active[k] == o
  }

  /** The search of `deallocateSession` through the active sessions. */
  ghost function FindSid(active: map<Key, nat>, sid: u16): (k: Option<Key>)
    ensures k.None? <==> forall x :: x in active ==> x.sid != sid
    ensures k.Some? ==> k.value in active && k.value.sid == sid
  {
    if exists x :: x in active && x.sid == sid then
      var x :| x in active && x.sid == sid;
      Some(x)
    else None
  }

  /** `deallocateSession`. A session object leaves memory with its table entry unless its echo timer refers to it. */
  ghost function Deallocate(d: State, sid: u16): State {
    if sid !in d.ids.taken then d
    else
      var freed := d.(ids := Release(d.ids, sid));
      match FindSid(d.active, sid)
      case None => freed
      case Some(k) =>
        var o := d.active[k];
        if o !in d.objs then freed.(active := d.active - {k})
        else freed.(active := d.active - {k}, aaa := Aaa.Stop(d.aaa, d.objs[o].aaaId),
                    objs := if d.objs[o].echoOn then d.objs else d.objs - {o})
  }

  /** `sendEchoReq`: on the tenth unanswered firing the timer is not restarted and the session with this object's id is
      deallocated; the object itself goes when nothing refers to it any more. */
  ghost function EchoStep(d: State, o: nat): State {
    if o !in d.objs || !d.objs[o].echoOn then d
    else
      var s := d.objs[o];
      var out := EchoFires(EnvOf(d, s), s.lcp);
      if out.action != Action.LayerDown then Put(d, o, s.(lcp := out.fsm))
      else
        var d1 := Deallocate(Put(d, o, s.(lcp := out.fsm, echoOn := false)), s.key.sid);
        if IsActive(d1, o) then d1 else d1.(objs := d1.objs - {o})
  }

  // ---- Authentication ----------------------------------------------------------------------------------------------

  /** `ipcp.open(); ipcp.layer_up()`. */
  function StartIpcp(d: State, o: nat): State
    requires o in d.objs
  {
    var s := d.objs[o];
    Put(d, o, s.(ipcp := Kick(Ipcp, EnvOf(d, s), s.ipcp).fsm))
  }

  function SetAuth(s: Session, via: Via, id: u32): Session {
    s.(aaaId := id, auths := s.auths + 1, answers := s.answers + [Success(via)],
       papStarted := s.papStarted || via == Pap, chapStarted := s.chapStarted || via == Chap)
  }

  /** An authentication callback with an empty error, delivered to a session object that still exists. */
  function AuthSucceeds(d: State, o: nat, via: Via, id: u32): State {
    if o !in d.objs then d else StartIpcp(Put(d, o, SetAuth(d.objs[o], via, id)), o)
  }

  /** A packet of PAP or CHAP is queued. */
  function Say(d: State, o: nat, a: AuthPacket): State {
    if o !in d.objs then d else Put(d, o, d.objs[o].(answers := d.objs[o].answers + [a]))
  }

  /** An authentication callback with an error: the client is told, and nothing else changes. */
  function AuthFails(d: State, o: nat, via: Via): State {
    Say(d, o, Failure(via))
  }

  /** What a start of an AAA session leads to: the callback, if there is a session. */
  function AfterStart(d: State, o: nat, via: Via, r: (Aaa.State, Option<u32>)): State {
    match r.1 case None => d case Some(id) => AuthSucceeds(d.(aaa := r.0), o, via, id)
  }

  /** `processRadiusAnswer`: an answer that does not accept has the error reported, and is then treated like one that
      does; a full AAA table is one more error. */
  function AfterAnswer(d: State, o: nat, via: Via, accept: bool, resp: Aaa.RadiusResponse): State {
    var told := if accept then d else AuthFails(d, o, via);
    var r := Aaa.StartRadius(d.conf.aaa, told.aaa, o, resp);
    if r.1.None? then AuthFails(told, o, via) else AfterStart(told, o, via, r)
  }

  /** `startSession` and `startSessionCHAP`: a success without RADIUS does not end the loop over the methods, a RADIUS
      request does. */
  function TryMethods(d: State, o: nat, via: Via, methods: seq<Aaa.Method>): State
    decreases methods
  {
    if methods == [] || methods[0] == Aaa.RadiusAuth then d
    else if methods[0] == Aaa.LocalAuth then TryMethods(d, o, via, methods[1..])
    else TryMethods(AfterStart(d, o, via, Aaa.StartNone(d.conf.aaa, d.aaa, o)), o, via, methods[1..])
  }

  // ---- Frames ------------------------------------------------------------------------------------------------------

  /** IPCP looks at its AAA session, and the PPPoE session copies the address, whenever a request with options reaches
      `check_conf`. */
  ghost predicate Consults(env: Env, f: Fsm, pkt: seq<byte>)
    requires Sound(pkt)
  {
    pkt[0] == CONF_REQ && Area(pkt) != [] && env.lease.Some? &&
    f.phase in {ReqSent, AckRcvd, AckSent, Stopped}
  }

  predicate IsAck(pkt: seq<byte>, sent: seq<seq<byte>>)
    requires Sound(pkt)
  {
    pkt[0] == CONF_REQ && sent == [pkt[0 := CONF_ACK]]
  }

  /** The session's fields after an IPCP packet that came out as `out`. */
  function AfterIpcp(s: Session, lease: Option<Lease>, pkt: seq<byte>, consults: bool, out: Outcome): Session
    requires Sound(pkt) && (consults ==> lease.Some?)
  {
    var s1 := if consults then s.(address := Some(lease.value.address), from := Some(s.aaaId)) else s;
    var s2 := if IsAck(pkt, out.sent) then s1.(acked := Some(Acknowledged(Area(pkt), s.aaaId))) else s1;
    s2.(ipcp := out.fsm)
  }

  /** What `processPPP` does once IPCP is through with a packet: provisioning when the layer comes up. */
  function IpcpEffect(d: State, o: nat, s: Session, out: Outcome): State {
    if !out.err && out.action == Action.LayerUp then
      Put(d, o, s.(echoOn := true)).(provisions := d.provisions + [Provision(o, s.key, s.address)])
    else Put(d, o, s)
  }

  ghost function IpcpStep(d: State, o: nat, pkt: seq<byte>): State
    requires o in d.objs && Handled(Ipcp, pkt)
  {
    var s := d.objs[o];
    var env := EnvOf(d, s);
    var out := Receive(Ipcp, env, s.ipcp, pkt);
    IpcpEffect(d, o, AfterIpcp(s, env.lease, pkt, Consults(env, s.ipcp, pkt), out), out)
  }

  /** What `processPPP` does once LCP is through with a packet: authentication when the layer comes up, teardown when
      it goes down. */
  ghost function LcpEffect(d: State, o: nat, out: Outcome): State
    requires o in d.objs
  {
    var s := d.objs[o].(lcp := out.fsm);
    if out.err || out.action == NoAction then Put(d, o, s)
    else if out.action == Action.LayerDown then Deallocate(Put(d, o, s), s.key.sid)
    else if d.conf.chap then Say(Put(d, o, s), o, Challenge)
    else if d.conf.pap then Put(d, o, s)
    else StartIpcp(Put(d, o, s), o)
  }

  ghost function LcpStep(d: State, o: nat, pkt: seq<byte>): State
    requires o in d.objs && Handled(Lcp, pkt)
  {
    LcpEffect(d, o, Receive(Lcp, EnvOf(d, d.objs[o]), d.objs[o].lcp, pkt))
  }

  function AuthStep(d: State, o: nat, via: Via): State
    requires o in d.objs
  {
    var s := d.objs[o];
    if (if via == Pap then s.papStarted else s.chapStarted) then StartIpcp(Say(d, o, Success(via)), o)
    else TryMethods(d, o, via, d.conf.aaa.methods)
  }

  /** The first frame of a session starts its LCP. */
  function Started(d: State, o: nat): State
    requires o in d.objs
  {
    var s := d.objs[o];
    if s.started then d
    else Put(d, o, s.(started := true, lcp := Kick(Lcp, EnvOf(d, s), s.lcp).fsm))
  }

  ghost predicate Legible(frame: Frame) {
    (frame.LcpFrame? ==> Handled(Lcp, frame.pkt)) && (frame.IpcpFrame? ==> Handled(Ipcp, frame.pkt))
  }

  /** What a frame does to a session that is started. */
  ghost function ProtocolStep(d: State, o: nat, frame: Frame): State
    requires o in d.objs && Legible(frame)
  {
    match frame
    case LcpFrame(pkt) => LcpStep(d, o, pkt)
    case IpcpFrame(pkt) => IpcpStep(d, o, pkt)
    case AuthRequest(via) => AuthStep(d, o, via)
    case OtherFrame => d
  }

  /** `processPPP`. */
  ghost function FrameStep(d: State, key: Key, frame: Frame): State
    requires Legible(frame)
  {
    if key !in d.active || d.active[key] !in d.objs then d
    else ProtocolStep(Started(d, d.active[key]), d.active[key], frame)
  }

  // ---- Events and runs ---------------------------------------------------------------------------------------------

  /** What the code takes for granted of an event: packets it can read, answers for session objects that existed, and
      a clean-up that visits the whole AAA table. */
  ghost predicate Possible(d: State, e: Event) {
    && (e.Ppp? ==> Legible(e.frame))
    && (e.RadiusAnswer? || e.RadiusError? ==> e.obj < d.nextObj)
    && (e.Cleanup? ==> forall i :: i in d.aaa.table ==> i in e.order)
  }

  ghost function Step(d: State, e: Event): State
    requires Possible(d, e)
  {
    match e
    case Padi(conn) => d.(pending := d.pending + {conn})
    case PendingExpires(conn) => d.(pending := d.pending - {conn})
    case Padr(conn, magic, peer) => Admit(d, conn, magic, peer)
    case Padt(_, sid) => Deallocate(d, sid)
    case Ppp(key, frame) => FrameStep(d, key, frame)
    case RadiusAnswer(o, via, accept, resp) => AfterAnswer(d, o, via, accept, resp)
    case RadiusError(o, via) => AuthFails(d, o, via)
    case EchoTimer(o) => EchoStep(d, o)
    case AccountingDone(h) => d.(aaa := Aaa.Drop(d.aaa, h))
    case Cleanup(order) =>
      State(d.conf, Ids({}, d.ids.cursor), map[], d.objs - (set o | o in d.objs && !d.objs[o].echoOn), d.nextObj, {},
            Aaa.StopEach(d.aaa, order), d.provisions)
  }

  /** A run of the daemon from its start, with pools nothing has been taken from. */
  ghost predicate IsRun(states: seq<State>, events: seq<Event>) {
    && |states| == |events| + 1
    && (forall p :: p in states[0].aaa.pools ==> states[0].aaa.pools[p].ips == {})
    && states[0] == Init(states[0].conf, states[0].aaa.pools)
    && (forall i :: 0 <= i < |events| ==> Possible(states[i], events[i]) && states[i + 1] == Step(states[i], events[i]))
  }
}
