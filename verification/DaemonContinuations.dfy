/** Two things one might expect of a teardown and that the daemon does not do, each with events that show it. */
module DaemonContinuations {
  import opened Wire
  import opened PppFsm
  import opened SessionIds
  import opened FramedPool
  import LcpOptions
  import Aaa
  import opened Daemon
  import opened DaemonInvariant
  import opened DaemonSteps
  import opened DaemonTheorems

  // ---- Reachable states and continuations --------------------------------------------------------------------------

  ghost predicate Reachable(d: State) {
    exists states, events :: Daemon.IsRun(states, events) && states[|events|] == d
  }

  ghost predicate Moves(d: State, e: Daemon.Event, d1: State) {
    Daemon.Possible(d, e) && d1 == Daemon.Step(d, e)
  }

  ghost predicate IsPath(states: seq<State>, events: seq<Daemon.Event>) {
    |states| == |events| + 1 && forall i :: 0 <= i < |events| ==> Moves(states[i], events[i], states[i + 1])
  }

  /** The events take the daemon from `d` to `d1`. */
  ghost predicate Leads(d: State, events: seq<Daemon.Event>, d1: State) {
    exists states :: IsPath(states, events) && states[0] == d && states[|events|] == d1
  }

  lemma ReachableInv(d: State)
    requires Reachable(d)
    ensures Inv(d)
  {
    var states, events :| Daemon.IsRun(states, events) && states[|events|] == d;
    InvAlways(states, events, |events|);
  }

  lemma HandleIsOld(d: State, o: nat)
    requires Reachable(d) && o in d.objs
    ensures o < d.nextObj
  {
    ReachableInv(d);
  }

  /** Every state of a run is reachable. */
  lemma RunReaches(states: seq<State>, events: seq<Daemon.Event>, i: nat)
    requires Daemon.IsRun(states, events) && i < |states|
    ensures Reachable(states[i])
  {
    var front, evs := states[..i + 1], events[..i];
    forall j | 0 <= j < |evs|
      ensures Daemon.Possible(front[j], evs[j]) && front[j + 1] == Daemon.Step(front[j], evs[j])
    {
      assert front[j] == states[j] && front[j + 1] == states[j + 1] && evs[j] == events[j];
    }
    assert Daemon.IsRun(front, evs) && front[|evs|] == states[i];
  }

  lemma OneStep(d: State, e: Daemon.Event)
    requires Reachable(d) && Daemon.Possible(d, e)
    ensures Reachable(Daemon.Step(d, e)) && Leads(d, [e], Daemon.Step(d, e))
  {
    var d1 := Daemon.Step(d, e);
    var states, events :| Daemon.IsRun(states, events) && states[|events|] == d;
    assert Moves(d, e, d1);
    var more, all := AppendStep(states, events, e, d1);
    assert more[|all|] == d1;
    var path := [d, d1];
    assert IsPath(path, [e]) && path[0] == d && path[|[e]|] == d1;
  }

  /** A run goes on by one event. */
  lemma AppendStep(before: seq<State>, past: seq<Daemon.Event>, e: Daemon.Event, d: State)
    returns (states: seq<State>, events: seq<Daemon.Event>)
    requires Daemon.IsRun(before, past) && Moves(before[|past|], e, d)
    ensures states == before + [d] && events == past + [e] && Daemon.IsRun(states, events)
  {
    states, events := before + [d], past + [e];
    forall i | 0 <= i < |events|
      ensures Daemon.Possible(states[i], events[i]) && states[i + 1] == Daemon.Step(states[i], events[i])
    {
      if i < |past| { assert states[i] == before[i] && states[i + 1] == before[i + 1] && events[i] == past[i]; }
    }
  }

  lemma LeadsNowhere(d: State)
    ensures Leads(d, [], d)
  {
    var path := [d];
    assert IsPath(path, []) && path[0] == d && path[|path| - 1] == d;
  }

  lemma LeadsThen(d: State, a: seq<Daemon.Event>, d1: State, b: seq<Daemon.Event>, d2: State)
    requires Leads(d, a, d1) && Leads(d1, b, d2)
    ensures Leads(d, a + b, d2)
  {
    var p :| IsPath(p, a) && p[0] == d && p[|a|] == d1;
    var q :| IsPath(q, b) && q[0] == d1 && q[|b|] == d2;
    var path, all := p + q[1..], a + b;
    forall i | 0 <= i < |all| ensures Moves(path[i], all[i], path[i + 1]) {
      if i < |a| {
        assert path[i] == p[i] && path[i + 1] == p[i + 1] && all[i] == a[i];
      } else {
        assert path[i] == q[i - |a|] && path[i + 1] == q[i - |a| + 1] && all[i] == b[i - |a|];
      }
    }
    assert IsPath(path, all) && path[0] == d && path[|all|] == d2;
  }

  // ---- The echo timer of a session that was torn down --------------------------------------------------------------

  /** Object `o` is out of the table, and only its running echo timer keeps it. */
  ghost predicate Stale(d: State, o: nat) {
    o in d.objs && d.objs[o].echoOn && !IsActive(d, o)
  }

  /** A firing of a stale object's timer that is not the last changes nothing else. */
  lemma QuietFiring(d: State, o: nat)
    requires Stale(d, o) && !LastFiring(d, o)
    ensures var next, s := EchoStep(d, o), d.objs[o];
            next == Put(d, o, s.(lcp := s.lcp.(echo := (s.lcp.echo + 1) % 0x100))) && Stale(next, o)
  {
    var next := EchoStep(d, o);
    assert next.active == d.active;
  }

  /** The echo timer fires until it is at its last firing. */
  lemma {:induction false} FireUntilLast(d: State, o: nat) returns (events: seq<Daemon.Event>, d1: State)
    requires Reachable(d) && Stale(d, o)
    ensures Reachable(d1) && Leads(d, events, d1) && Stale(d1, o) && LastFiring(d1, o)
    ensures d1.active == d.active && d1.ids == d.ids && d1.objs[o].key == d.objs[o].key
    decreases if d.objs[o].lcp.echo == 255 then 256 else 255 - d.objs[o].lcp.echo
  {
    if LastFiring(d, o) {
      events, d1 := [], d;
      LeadsNowhere(d);
    } else {
      var e := Daemon.Event.EchoTimer(o);
      OneStep(d, e);
      QuietFiring(d, o);
      var more;
      more, d1 := FireUntilLast(Daemon.Step(d, e), o);
      LeadsThen(d, [e], Daemon.Step(d, e), more, d1);
      events := [e] + more;
    }
  }

  const VISITOR := Conn(Line(NO_MAC, 0, 0), [])
  const NO_PEER := LcpOptions.Peer(0, 0)

  /** A PADI and a PADR from some line: the first free id `z` is given out. */
  lemma Visit(d: State, o: nat, z: Id) returns (events: seq<Daemon.Event>, d2: State, k: Key)
    requires Reachable(d) && Stale(d, o) && Allocate(d.ids).1 == Some(z)
    ensures Reachable(d2) && Leads(d, events, d2) && Stale(d2, o) && d2.objs[o] == d.objs[o]
    ensures k.sid == z && k in d2.active && d2.active[k] != o && d2.ids == Ids(d.ids.taken + {z}, Succ(z))
  {
    var e1, e2 := Daemon.Event.Padi(VISITOR), Daemon.Event.Padr(VISITOR, 0, NO_PEER);
    var d1 := Daemon.Step(d, e1);
    OneStep(d, e1);
    d2 := Daemon.Step(d1, e2);
    OneStep(d1, e2);
    LeadsThen(d, [e1], d1, [e2], d2);
    events, k := [e1] + [e2], Key(VISITOR.line, z);
    VisitorIsAdded(d, o, z);
  }

  lemma VisitorIsAdded(d: State, o: nat, z: Id)
    requires Reachable(d) && Stale(d, o) && Allocate(d.ids).1 == Some(z)
    ensures var k, d2 := Key(VISITOR.line, z), Admit(d.(pending := d.pending + {VISITOR}), VISITOR, 0, NO_PEER);
            && Stale(d2, o) && d2.objs[o] == d.objs[o]
            && k in d2.active && d2.active[k] != o && d2.ids == Ids(d.ids.taken + {z}, Succ(z))
  {
    var k, d2 := Key(VISITOR.line, z), Admit(d.(pending := d.pending + {VISITOR}), VISITOR, 0, NO_PEER);
    ReachableInv(d);
    FreshKey(d, VISITOR.line);
    assert d2.active == d.active[k := d.nextObj] && d2.objs == d.objs[d.nextObj := NewSession(k, 0, NO_PEER)];
    assert o < d.nextObj;
    AddedLeavesOut(d, d2, o, k);
  }

  lemma AddedLeavesOut(d: State, d2: State, o: nat, k: Key)
    requires !IsActive(d, o) && d2.active == d.active[k := d.nextObj] && o != d.nextObj
    ensures !IsActive(d2, o)
  {
    forall j | j in d2.active ensures d2.active[j] != o {
      if j != k { assert d2.active[j] == d.active[j] && IsActive(d, d.active[j]); }
    }
  }

  /** The visitor leaves: the ids are as before, with the cursor behind the visitor's. */
  lemma Leave(d: State, o: nat, k: Key) returns (events: seq<Daemon.Event>, d1: State)
    requires Reachable(d) && Stale(d, o) && k in d.active && d.active[k] != o
    ensures Reachable(d1) && Leads(d, events, d1)
    ensures Stale(d1, o) && d1.objs[o] == d.objs[o] && d1.ids == Ids(d.ids.taken - {k.sid}, d.ids.cursor)
  {
    var e := Daemon.Event.Padt(VISITOR.line, k.sid);
    events, d1 := [e], Daemon.Step(d, e);
    OneStep(d, e);
    LeavesQuietly(d, o, k);
  }

  lemma LeavesQuietly(d: State, o: nat, k: Key)
    requires Reachable(d) && Stale(d, o) && k in d.active && d.active[k] != o
    ensures var d1 := Deallocate(d, k.sid);
            Stale(d1, o) && d1.objs[o] == d.objs[o] && d1.ids == Ids(d.ids.taken - {k.sid}, d.ids.cursor)
  {
    ReachableInv(d);
    DeallocateIsOwn(d, k);
    NoNewEntries(d, k.sid);
  }

  lemma Closer(c: Id, z: Id, sid: Id)
    requires Distance(c, z) <= Distance(c, sid) && z != sid
    ensures Distance(Succ(z), sid) < Distance(c, sid)
  {
  }

  lemma FirstFree(d: State, sid: Id) returns (z: Id)
    requires sid !in d.ids.taken
    ensures Allocate(d.ids).1 == Some(z) && z !in d.ids.taken && Distance(d.ids.cursor, z) <= Distance(d.ids.cursor, sid)
  {
    AllocatesFirstFree(d.ids);
    z := Allocate(d.ids).1.value;
  }

  /** Visitors come and go until one of them gets the id of the stale object. */
  lemma {:induction false} IdComesRound(d: State, o: nat) returns (events: seq<Daemon.Event>, d1: State, j: Key)
    requires Reachable(d) && Stale(d, o) && d.objs[o].key.sid !in d.ids.taken
    ensures Reachable(d1) && Leads(d, events, d1) && Stale(d1, o) && d1.objs[o] == d.objs[o]
    ensures j in d1.active && d1.active[j] != o && j.sid == d.objs[o].key.sid
    decreases Distance(d.ids.cursor, d.objs[o].key.sid)
  {
    var sid := d.objs[o].key.sid;
    var z := FirstFree(d, sid);
    events, d1, j := Visit(d, o, z);
    if z == sid {
    } else {
      var a, d3 := Leave(d1, o, j);
      LeadsThen(d, events, d1, a, d3);
      assert d3.ids.taken == d.ids.taken;
      Closer(d.ids.cursor, z, sid);
      var b;
      b, d1, j := IdComesRound(d3, o);
      LeadsThen(d, events + a, d3, b, d1);
      events := events + a + b;
    }
  }

  /** The last firing of a stale timer ends the session that has its id. */
  lemma LastFiringHits(d: State, o: nat, j: Key)
    requires Reachable(d) && Stale(d, o) && LastFiring(d, o) && j in d.active && j.sid == d.objs[o].key.sid
    ensures j !in Daemon.Step(d, Daemon.Event.EchoTimer(o)).active
  {
    LastFiringEnds(d, o);
  }

  lemma LastFiringEnds(d: State, o: nat)
    requires Reachable(d) && LastFiring(d, o)
    ensures forall j :: j in EchoStep(d, o).active ==> j.sid != d.objs[o].key.sid
  {
    ReachableInv(d);
    LastFiringRemoves(d, o);
  }

  lemma BecomesStale(d: State, k: Key) returns (d1: State)
    requires Reachable(d) && k in d.active && d.active[k] in d.objs && d.objs[d.active[k]].echoOn
    ensures Reachable(d1) && Leads(d, [Daemon.Event.Padt(VISITOR.line, k.sid)], d1)
    ensures Stale(d1, d.active[k]) && d1.objs[d.active[k]].key.sid !in d1.ids.taken
  {
    var e := Daemon.Event.Padt(VISITOR.line, k.sid);
    OneStep(d, e);
    d1 := Deallocate(d, k.sid);
    StaysForItsTimer(d, k);
  }

  lemma StaysForItsTimer(d: State, k: Key)
    requires Reachable(d) && k in d.active && d.active[k] in d.objs && d.objs[d.active[k]].echoOn
    ensures var d1 := Deallocate(d, k.sid);
            Stale(d1, d.active[k]) && d1.objs[d.active[k]].key.sid !in d1.ids.taken
  {
    ReachableInv(d);
    FoundSid(d, k.sid);
    assert FindSid(d.active, k.sid) == Some(k);
    ActiveKey(d, k);
  }

  /** The echo timer does not stop with its session. From every reachable state, for every active session whose timer
      runs: a PADT for it, firings of its timer and a few visitors lead to a state where one more firing of that timer
      ends the session of somebody else. */
  lemma StaleTimerEndsAnother(d: State, k: Key) returns (events: seq<Daemon.Event>, d1: State, j: Key)
    requires Reachable(d) && k in d.active && d.active[k] in d.objs && d.objs[d.active[k]].echoOn
    ensures Leads(d, events, d1) && |events| > 0 && events[0] == Daemon.Event.Padt(VISITOR.line, k.sid)
    ensures var o := d.active[k];
            && o in d1.objs && !IsActive(d1, o)
            && j in d1.active && d1.active[j] != o && j !in Daemon.Step(d1, Daemon.Event.EchoTimer(o)).active
  {
    var o := d.active[k];
    var gone := BecomesStale(d, k);
    var firings, last := FireUntilLast(gone, o);
    var visits;
    visits, d1, j := IdComesRound(last, o);
    LastFiringHits(d1, o, j);
    LeadsThen(gone, firings, last, visits, d1);
    LeadsThen(d, [Daemon.Event.Padt(VISITOR.line, k.sid)], gone, firings + visits, d1);
    events := [Daemon.Event.Padt(VISITOR.line, k.sid)] + (firings + visits);
  }

  // ---- AAA entries that are left behind ----------------------------------------------------------------------------

  /** Two methods that need no RADIUS server give one PPPoE session two AAA sessions at its first PAP request, and a
      teardown leaves one of them behind. */
  lemma SecondMethodLeavesAnEntry(line: Line, template: Aaa.Template) returns (states: seq<State>, events: seq<Daemon.Event>)
    ensures Daemon.IsRun(states, events) && |events| == 4 && events[3] == Padt(line, 1)
    ensures states[4].active == map[] && |Entries(states[4].aaa, 0)| == 1
  {
    var k := Key(line, 1);
    states, events := TwiceAuthenticated(line, template);
    states, events := AppendStep(states, events, Padt(line, 1), Daemon.Step(states[3], Padt(line, 1)));
    OnlySessionGoes(states, events, k);
  }

  /** Discovery and a PAP request, with two methods. */
  lemma TwiceAuthenticated(line: Line, template: Aaa.Template) returns (states: seq<State>, events: seq<Daemon.Event>)
    ensures Daemon.IsRun(states, events) && |events| == 3
    ensures var d := states[3]; d.active == map[Key(line, 1) := 0] && 0 in d.objs && d.objs[0].auths == 2
  {
    var conf := Conf(false, true, 1492, Aaa.AaaConf([Aaa.NoneAuth, Aaa.NoneAuth], "t", map["t" := template]));
    var d2;
    states, events, d2 := AfterDiscovery(conf, map[], line);
    var d3 := BothMethodsSucceed(d2, Key(line, 1));
    states, events := AppendStep(states, events, Ppp(Key(line, 1), AuthRequest(Pap)), d3);
  }

  lemma AfterDiscovery(conf: Conf, pools: map<string, Pool>, line: Line)
    returns (states: seq<State>, events: seq<Daemon.Event>, d2: State)
    requires forall p :: p in pools ==> pools[p].ips == {}
    ensures Daemon.IsRun(states, events) && |events| == 2 && states[2] == d2
    ensures var k := Key(line, 1);
            && d2.active == map[k := 0] && d2.objs == map[0 := NewSession(k, 0, NO_PEER)]
            && d2.conf == conf && d2.aaa == Init(conf, pools).aaa && d2.ids == Ids({1}, 2) && d2.nextObj == 1
            && d2.pending == {}
  {
    var d0, c := Init(conf, pools), Conn(line, []);
    d2 := FirstVisitor(d0, line);
    states, events := AppendStep([d0], [], Padi(c), Daemon.Step(d0, Padi(c)));
    states, events := AppendStep(states, events, Padr(c, 0, NO_PEER), d2);
  }

  lemma FirstVisitor(d0: State, line: Line) returns (d2: State)
    requires d0.ids == Ids({}, 1) && d0.active == map[] && d0.objs == map[] && d0.nextObj == 0 && d0.pending == {}
    ensures d2 == Daemon.Step(Daemon.Step(d0, Padi(Conn(line, []))), Padr(Conn(line, []), 0, NO_PEER))
    ensures var k := Key(line, 1);
            && d2.active == map[k := 0] && d2.objs == map[0 := NewSession(k, 0, NO_PEER)]
            && d2.conf == d0.conf && d2.aaa == d0.aaa && d2.ids == Ids({1}, 2) && d2.nextObj == 1 && d2.pending == {}
  {
    FirstId();
    var d1 := Daemon.Step(d0, Padi(Conn(line, [])));
    assert Conn(line, []) in d1.pending;
    d2 := Admit(d1, Conn(line, []), 0, NO_PEER);
  }

  lemma OnlySessionGoes(states: seq<State>, events: seq<Daemon.Event>, k: Key)
    requires Daemon.IsRun(states, events) && |events| == 4 && events[3] == Padt(k.line, k.sid)
    requires states[3].active == map[k := 0] && 0 in states[3].objs && states[3].objs[0].auths == 2
    ensures states[4].active == map[] && |Entries(states[4].aaa, 0)| == 1
  {
    WhatTeardownLeaves(states, events, 3, k);
    TeardownReleasesOwn(states, events, 3, k);
    assert states[4] == Deallocate(states[3], k.sid);
  }

  lemma FirstId()
    ensures Allocate(Ids({}, 1)) == (Ids({1}, 2), Some(1))
  {
    assert Ahead(1, 0) == 1;
    assert {} + {1} == {1};
  }

  lemma BothMethodsSucceed(d: State, k: Key) returns (d1: State)
    requires k in d.active && d.active[k] == 0 && 0 in d.objs && d.objs[0] == NewSession(k, 0, NO_PEER)
    requires d.conf.aaa.methods == [Aaa.NoneAuth, Aaa.NoneAuth] && d.conf.aaa.localTemplate == "t" && d.aaa.table == map[]
    ensures d1 == Daemon.Step(d, Ppp(k, AuthRequest(Pap)))
    ensures d1.active == d.active && 0 in d1.objs && d1.objs[0].auths == 2
  {
    var s := Started(d, 0);
    FirstTwoFree(s.aaa.table);
    var a := NoneSucceeds(s, 0, Pap, 0);
    SecondFree(a.aaa.table);
    d1 := NoneSucceeds(a, 0, Pap, 1);
    TwoTurns(s, 0, Pap);
  }

  /** One turn of the loop over the methods, for one that needs no RADIUS server and gets AAA id `id`. */
  lemma NoneSucceeds(d: State, o: nat, via: Via, id: u32) returns (d1: State)
    requires o in d.objs && d.conf.aaa.localTemplate != "" && Aaa.SearchId(d.aaa.table, 0) == Some(id)
    ensures d1 == AfterStart(d, o, via, Aaa.StartNone(d.conf.aaa, d.aaa, o)) && o in d1.objs
    ensures d1 == d.(objs := d.objs[o := d1.objs[o]], aaa := Aaa.Enter(d.aaa, id, Aaa.NewNone(d.conf.aaa, d.aaa.pools, o)))
    ensures d1.objs[o] == SetAuth(d.objs[o], via, id).(ipcp := d1.objs[o].ipcp)
    ensures d.objs[o].ipcp.phase == Initial ==> d1.objs[o].ipcp.phase == ReqSent
  {
    d1 := AuthSucceeds(d.(aaa := Aaa.StartNone(d.conf.aaa, d.aaa, o).0), o, via, id);
    assert d.objs[o := SetAuth(d.objs[o], via, id)][o := d1.objs[o]] == d.objs[o := d1.objs[o]];
  }

  lemma TwoTurns(d: State, o: nat, via: Via)
    requires d.conf.aaa.methods == [Aaa.NoneAuth, Aaa.NoneAuth]
    ensures var a := AfterStart(d, o, via, Aaa.StartNone(d.conf.aaa, d.aaa, o));
            TryMethods(d, o, via, d.conf.aaa.methods) == AfterStart(a, o, via, Aaa.StartNone(a.conf.aaa, a.aaa, o))
  {
    assert d.conf.aaa.methods[1..] == [Aaa.NoneAuth] && [Aaa.NoneAuth][1..] == [];
  }

  lemma FirstTwoFree(table: map<u32, nat>)
    requires table == map[]
    ensures Aaa.SearchId(table, 0) == Some(0)
  {
  }

  lemma SecondFree(table: map<u32, nat>)
    requires table.Keys == {0}
    ensures Aaa.SearchId(table, 0) == Some(1)
  {
    assert 0 in table && 1 !in table;
  }
}
