/** Two sessions with one address: what it takes, and runs in which it happens. And a teardown from somebody else's line. */
module DaemonAddresses {
  import opened Wire
  import opened ControlPacket
  import opened IpcpOptions
  import opened PppFsm
  import opened SessionIds
  import opened FramedPool
  import Aaa
  import opened Daemon
  import opened DaemonInvariant
  import opened DaemonSteps
  import opened DaemonTheorems
  import opened DaemonContinuations
  import opened DaemonGate

  // ---- What it takes -----------------------------------------------------------------------------------------------

  ghost predicate RangesApart(pools: map<string, Pool>) {
    forall p, q, a: u32 :: p in pools && q in pools && pools[p].InRange(a) && pools[q].InRange(a) ==> p == q
  }

  /** The session has an address, and its AAA session took it from a pool. */
  ghost predicate Pooled(d: State, k: Key) {
    exists p :: FromPool(d, k, p)
  }

  /** If the ranges of the pools do not overlap, two active sessions only ever share an address other than 0.0.0.0 when one
      of them has it from a RADIUS answer that names it: nobody asks the pools about such an address. */
  lemma SharingNeedsANamedAddress(states: seq<State>, events: seq<Daemon.Event>, i: nat, j: Key, k: Key, a: u32)
    requires Daemon.IsRun(states, events) && i < |states| && RangesApart(states[i].aaa.pools)
    requires j in states[i].active && k in states[i].active && j != k && a != 0
    requires HasAddress(states[i], j, a) && HasAddress(states[i], k, a)
    ensures !(Pooled(states[i], j) && Pooled(states[i], k))
  {
    var d := states[i];
    if Pooled(d, j) && Pooled(d, k) {
      var p :| FromPool(d, j, p);
      var q :| FromPool(d, k, q);
      InRangeOf(states, events, i, j, p, a);
      InRangeOf(states, events, i, k, q, a);
      NoAddressTwice(states, events, i, j, k, p);
    }
  }

  predicate HasAddress(d: State, k: Key, a: u32) {
    k in d.active && d.active[k] in d.objs && d.objs[d.active[k]].address == Some(a)
  }

  /** An address taken from a pool lies in its range. */
  lemma InRangeOf(states: seq<State>, events: seq<Daemon.Event>, i: nat, k: Key, p: string, a: u32)
    requires Daemon.IsRun(states, events) && i < |states| && FromPool(states[i], k, p) && HasAddress(states[i], k, a)
    ensures p in states[i].aaa.pools && states[i].aaa.pools[p].InRange(a)
  {
    InvAlways(states, events, i);
    HeldInRange(states[i], k, p, a);
  }

  lemma HeldInRange(d: State, k: Key, p: string, a: u32)
    requires Inv(d) && FromPool(d, k, p) && HasAddress(d, k, a)
    ensures p in d.aaa.pools && d.aaa.pools[p].InRange(a)
  {
    ActiveKey(d, k);
    ActiveLinked(d, d.active[k]);
    var h := Source(d, k);
    assert d.aaa.objects[h].lease.address == a;
    assert a in Aaa.Held(d.aaa.objects, p);
  }

  // ---- Steps of a run ----------------------------------------------------------------------------------------------

  /** Two visitors have come, from any lines. */
  ghost predicate TwoVisitors(d: State, conf: Conf, pools: map<string, Pool>, j: Key, k: Key) {
    && d.conf == conf && d.aaa == Init(conf, pools).aaa
    && d.active == map[j := 0, k := 1] && j != k && d.nextObj == 2
    && d.objs == map[0 := NewSession(j, 0, NO_PEER), 1 := NewSession(k, 0, NO_PEER)]
  }

  lemma VisitTwice(conf: Conf, pools: map<string, Pool>, l1: Line, l2: Line)
    returns (states: seq<State>, events: seq<Daemon.Event>, d: State)
    requires forall p :: p in pools ==> pools[p].ips == {}
    ensures Daemon.IsRun(states, events) && |events| == 4 && states[4] == d
    ensures TwoVisitors(d, conf, pools, Key(l1, 1), Key(l2, 2))
  {
    var d2;
    states, events, d2 := AfterDiscovery(conf, pools, l1);
    var c := Conn(l2, []);
    d := SecondVisitor(d2, l1, l2);
    states, events := AppendStep(states, events, Padi(c), Daemon.Step(d2, Padi(c)));
    states, events := AppendStep(states, events, Padr(c, 0, NO_PEER), d);
  }

  lemma SecondVisitor(d: State, l1: Line, l2: Line) returns (d1: State)
    requires d.ids == Ids({1}, 2) && d.pending == {} && d.nextObj == 1
    requires d.active == map[Key(l1, 1) := 0] && d.objs == map[0 := NewSession(Key(l1, 1), 0, NO_PEER)]
    ensures d1 == Daemon.Step(Daemon.Step(d, Padi(Conn(l2, []))), Padr(Conn(l2, []), 0, NO_PEER))
    ensures TwoVisitors(d1.(aaa := Init(d.conf, map[]).aaa), d.conf, map[], Key(l1, 1), Key(l2, 2)) && d1.aaa == d.aaa
  {
    SecondId();
    var between := Daemon.Step(d, Padi(Conn(l2, [])));
    assert Conn(l2, []) in between.pending;
    d1 := Admit(between, Conn(l2, []), 0, NO_PEER);
  }

  lemma SecondId()
    ensures Allocate(Ids({1}, 2)).1 == Some(2)
  {
    assert SessionIds.Ahead(2, 0) == 2;
  }

  /** IPCP of object `o` waits for the peer's request; `id` is what authentication has bound. */
  ghost predicate Waiting(d: State, k: Key, o: nat, id: u32) {
    && k in d.active && d.active[k] == o && o in d.objs
    && var s := d.objs[o];
    && s.key == k && s.ipcp.phase == ReqSent && s.aaaId == id
  }

  /** A PAP request where the one method needs no RADIUS server. */
  lemma PapSucceeds(d: State, k: Key, o: nat, id: u32) returns (d1: State)
    requires k in d.active && d.active[k] == o && o in d.objs && d.objs[o] == NewSession(k, 0, NO_PEER)
    requires d.conf.aaa.methods == [Aaa.NoneAuth] && d.conf.aaa.localTemplate != ""
    requires Aaa.SearchId(d.aaa.table, 0) == Some(id)
    ensures d1 == Daemon.Step(d, Ppp(k, AuthRequest(Pap))) && Waiting(d1, k, o, id)
    ensures d1 == d.(objs := d.objs[o := d1.objs[o]], aaa := Aaa.Enter(d.aaa, id, Aaa.NewNone(d.conf.aaa, d.aaa.pools, o)))
  {
    var s := Started(d, o);
    d1 := NoneSucceeds(s, o, Pap, id);
    OneTurn(s, o, Pap);
    assert s.objs[o := d1.objs[o]] == d.objs[o := d1.objs[o]];
  }

  lemma OneTurn(d: State, o: nat, via: Via)
    requires d.conf.aaa.methods == [Aaa.NoneAuth]
    ensures TryMethods(d, o, via, d.conf.aaa.methods) == AfterStart(d, o, via, Aaa.StartNone(d.conf.aaa, d.aaa, o))
  {
    assert d.conf.aaa.methods[1..] == [];
  }

  /** A RADIUS answer that accepts. */
  lemma RadiusSucceeds(d: State, k: Key, o: nat, id: u32, resp: Aaa.RadiusResponse) returns (d1: State)
    requires k in d.active && d.active[k] == o && o in d.objs && d.objs[o] == NewSession(k, 0, NO_PEER)
    requires Aaa.SearchId(d.aaa.table, 0) == Some(id)
    ensures d1 == AfterAnswer(d, o, Pap, true, resp) && Waiting(d1, k, o, id)
    ensures d1 == d.(objs := d.objs[o := d1.objs[o]],
                     aaa := Aaa.Enter(d.aaa, id, Aaa.NewRadius(d.conf.aaa, d.aaa.pools, o, resp)))
  {
    d1 := AfterAnswer(d, o, Pap, true, resp);
    assert d.objs[o := SetAuth(d.objs[o], Pap, id)][o := d1.objs[o]] == d.objs[o := d1.objs[o]];
  }

  /** The peer's first request. */
  lemma Asks(d: State, k: Key, o: nat, id: u32, lease: Lease) returns (d1: State)
    requires Waiting(d, k, o, id) && LeaseOf(d.aaa, id) == Some(lease)
    ensures Handled(Ipcp, GoodRequest()) && d1 == Daemon.Step(d, Ppp(k, IpcpFrame(GoodRequest())))
    ensures o in d1.objs && d1 == d.(objs := d.objs[o := d1.objs[o]])
    ensures d1.objs[o].key == k && d1.objs[o].address == Some(lease.address) && d1.objs[o].from == Some(id)
  {
    GoodRequestReads();
    StartedWaits(d, k, o, id);
    var s := Started(d, o);
    d1 := StartedAsks(s, k, o, id, lease, GoodRequest());
    assert s.objs[o := d1.objs[o]] == d.objs[o := d1.objs[o]];
  }

  lemma StartedWaits(d: State, k: Key, o: nat, id: u32)
    requires Waiting(d, k, o, id)
    ensures var s := Started(d, o); Waiting(s, k, o, id) && s == d.(objs := d.objs[o := s.objs[o]])
  {
    assert d.objs[o := d.objs[o]] == d.objs;
  }

  lemma StartedAsks(d: State, k: Key, o: nat, id: u32, lease: Lease, pkt: seq<byte>) returns (d1: State)
    requires Waiting(d, k, o, id) && LeaseOf(d.aaa, id) == Some(lease)
    requires Handled(Ipcp, pkt) && pkt[0] == CONF_REQ && Area(pkt) != []
    ensures d1 == IpcpStep(d, o, pkt) && o in d1.objs && d1 == d.(objs := d.objs[o := d1.objs[o]])
    ensures d1.objs[o].key == k && d1.objs[o].address == Some(lease.address) && d1.objs[o].from == Some(id)
  {
    d1 := IpcpStep(d, o, pkt);
    NoLayerUp(EnvOf(d, d.objs[o]), d.objs[o].ipcp, pkt);
  }

  lemma GoodRequestReads()
    ensures Handled(Ipcp, GoodRequest()) && GoodRequest()[0] == CONF_REQ && Area(GoodRequest()) != []
  {
    GoodRequestIsAcked(Env(false, false, 0, 0, Some(NO_ADDRESS)), Fresh(NO_PEER).(phase := ReqSent));
  }

  lemma NoLayerUp(env: Env, f: Fsm, pkt: seq<byte>)
    requires Handled(Ipcp, pkt) && pkt[0] == CONF_REQ && f.phase == ReqSent
    ensures Receive(Ipcp, env, f, pkt).action == NoAction
  {
  }

  // ---- A shared address --------------------------------------------------------------------------------------------

  /** Both sessions have the address `a`, from the AAA sessions with the ids 0 and 1. */
  ghost predicate BothHave(d: State, j: Key, k: Key, a: u32) {
    HasAddress(d, j, a) && HasAddress(d, k, a) && d.objs[d.active[j]].from == Some(0) && d.objs[d.active[k]].from == Some(1)
  }

  /** Both sessions are authenticated, with the same values. */
  ghost predicate BothWait(d: State, j: Key, k: Key, lease: Lease) {
    && j != k && Waiting(d, j, 0, 0) && Waiting(d, k, 1, 1)
    && LeaseOf(d.aaa, 0) == Some(lease) && LeaseOf(d.aaa, 1) == Some(lease)
  }

  /** What asking leaves as it was. */
  ghost predicate SameBut(d: State, d1: State) {
    d1.active == d.active && d1.aaa == d.aaa && d1.conf == d.conf
  }

  lemma AskTwice(d: State, j: Key, k: Key, lease: Lease) returns (d1: State, d2: State)
    requires BothWait(d, j, k, lease)
    ensures Moves(d, Ppp(j, IpcpFrame(GoodRequest())), d1) && Moves(d1, Ppp(k, IpcpFrame(GoodRequest())), d2)
    ensures SameBut(d, d2) && BothHave(d2, j, k, lease.address)
  {
    d1 := Asks(d, j, 0, 0, lease);
    d2 := Asks(d1, k, 1, 1, lease);
  }

  /** The two requests, at the end of a run. */
  lemma BothAsk(before: seq<State>, past: seq<Daemon.Event>, d: State, j: Key, k: Key, lease: Lease)
    returns (states: seq<State>, events: seq<Daemon.Event>)
    requires Daemon.IsRun(before, past) && before[|past|] == d && BothWait(d, j, k, lease)
    ensures Daemon.IsRun(states, events) && |events| == |past| + 2
    ensures SameBut(d, states[|events|]) && BothHave(states[|events|], j, k, lease.address)
  {
    var d1, d2 := AskTwice(d, j, k, lease);
    states, events := AppendStep(before, past, Ppp(j, IpcpFrame(GoodRequest())), d1);
    states, events := AppendStep(states, events, Ppp(k, IpcpFrame(GoodRequest())), d2);
  }

  function Named(a: u32): Aaa.RadiusResponse { Aaa.RadiusResponse(a, 0, 0, "", "") }

  function RadiusHouse(): Conf { Conf(false, true, 1492, Aaa.AaaConf([Aaa.RadiusAuth], "", map[])) }

  lemma NamedTwice(d: State, j: Key, k: Key, a: u32) returns (d1: State, d2: State)
    requires TwoVisitors(d, RadiusHouse(), map[], j, k) && a != 0
    ensures Moves(d, RadiusAnswer(0, Pap, true, Named(a)), d1) && Moves(d1, RadiusAnswer(1, Pap, true, Named(a)), d2)
    ensures BothWait(d2, j, k, Lease(a, 0, 0)) && d2.active == d.active
    ensures forall h :: h in d2.aaa.objects ==> !d2.aaa.objects[h].freeIp
  {
    FirstTwoFree(d.aaa.table);
    d1 := RadiusSucceeds(d, j, 0, 0, Named(a));
    SecondFree(d1.aaa.table);
    d2 := RadiusSucceeds(d1, k, 1, 1, Named(a));
  }

  /** Two RADIUS answers that name the same address give it to two sessions; no pool knows of it. */
  lemma NamedAddressIsShared(l1: Line, l2: Line, a: u32) returns (states: seq<State>, events: seq<Daemon.Event>)
    requires a != 0
    ensures Daemon.IsRun(states, events) && |events| == 8
    ensures var d := states[8]; BothHave(d, Key(l1, 1), Key(l2, 2), a) && !Pooled(d, Key(l1, 1)) && !Pooled(d, Key(l2, 2))
  {
    var j, k := Key(l1, 1), Key(l2, 2);
    var d;
    states, events, d := VisitTwice(RadiusHouse(), map[], l1, l2);
    var d1, d2 := NamedTwice(d, j, k, a);
    states, events := AppendStep(states, events, RadiusAnswer(0, Pap, true, Named(a)), d1);
    states, events := AppendStep(states, events, RadiusAnswer(1, Pap, true, Named(a)), d2);
    states, events := BothAsk(states, events, d2, j, k, Lease(a, 0, 0));
  }

  /** A pool with an empty range. */
  const EMPTY_POOL: Pool := Range(2, 1, {})

  function EmptyHouse(): Conf {
    Conf(false, true, 1492, Aaa.AaaConf([Aaa.NoneAuth], "t", map["t" := Aaa.Template("p", 0, 0)]))
  }

  ghost predicate BothServed(d: State) {
    && 0 in d.aaa.table && d.aaa.table[0] in d.aaa.objects && 1 in d.aaa.table && d.aaa.table[1] in d.aaa.objects
    && d.aaa.objects[d.aaa.table[0]].freeIp && d.aaa.objects[d.aaa.table[0]].pool == "p"
    && d.aaa.objects[d.aaa.table[1]].freeIp && d.aaa.objects[d.aaa.table[1]].pool == "p"
  }

  lemma ZeroTwice(d: State, j: Key, k: Key) returns (d1: State, d2: State)
    requires TwoVisitors(d, EmptyHouse(), map["p" := EMPTY_POOL], j, k)
    ensures Moves(d, Ppp(j, AuthRequest(Pap)), d1) && Moves(d1, Ppp(k, AuthRequest(Pap)), d2)
    ensures BothWait(d2, j, k, Lease(0, 0, 0)) && d2.active == d.active && BothServed(d2)
  {
    FirstTwoFree(d.aaa.table);
    NothingLeft(d.aaa.pools, 0);
    NothingLeft(d.aaa.pools, 1);
    d1 := PapSucceeds(d, j, 0, 0);
    SecondFree(d1.aaa.table);
    d2 := PapSucceeds(d1, k, 1, 1);
  }

  /** Two sessions served by a pool that has nothing left are both given 0.0.0.0. */
  lemma ZeroIsShared(l1: Line, l2: Line) returns (states: seq<State>, events: seq<Daemon.Event>)
    ensures Daemon.IsRun(states, events) && |events| == 8
    ensures var d, j, k := states[8], Key(l1, 1), Key(l2, 2);
            BothHave(d, j, k, 0) && ServedBy(d, j, "p") && ServedBy(d, k, "p")
  {
    var j, k := Key(l1, 1), Key(l2, 2);
    var d;
    states, events, d := VisitTwice(EmptyHouse(), map["p" := EMPTY_POOL], l1, l2);
    var d1, d2 := ZeroTwice(d, j, k);
    states, events := AppendStep(states, events, Ppp(j, AuthRequest(Pap)), d1);
    states, events := AppendStep(states, events, Ppp(k, AuthRequest(Pap)), d2);
    states, events := BothAsk(states, events, d2, j, k, Lease(0, 0, 0));
  }

  lemma NothingLeft(pools: map<string, Pool>, owner: nat)
    requires pools == map["p" := EMPTY_POOL]
    ensures Aaa.NewNone(EmptyHouse().aaa, pools, owner) == (Aaa.AaaSession(owner, Lease(0, 0, 0), "p", true, false), pools)
  {
    AllocationIsLowestFree(EMPTY_POOL);
    assert pools["p" := EMPTY_POOL] == pools;
  }

  // ---- A teardown from another line --------------------------------------------------------------------------------

  /** A PADT from any other line ends a session. */
  lemma StrangerEndsASession(line: Line, stranger: Line) returns (states: seq<State>, events: seq<Daemon.Event>)
    requires stranger != line
    ensures Daemon.IsRun(states, events) && |events| == 3 && events[2] == Padt(stranger, 1)
    ensures states[2].active == map[Key(line, 1) := 0] && states[3].active == map[]
  {
    var d;
    states, events, d := AfterDiscovery(RadiusHouse(), map[], line);
    PadtFromAnyLine(states, events, 2, stranger, 1);
    states, events := AppendStep(states, events, Padt(stranger, 1), Daemon.Step(d, Padt(stranger, 1)));
  }
}
