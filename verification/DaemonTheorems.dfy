/** What holds in every run of the daemon, whatever the order of packets, timer firings and RADIUS answers. */
module DaemonTheorems {
  import opened Wire
  import opened OptionArea
  import opened ControlPacket
  import opened IpcpOptions
  import opened PppFsm
  import opened PppPackets
  import opened SessionIds
  import Aaa
  import LcpOptions
  import opened Daemon
  import opened DaemonInvariant
  import opened DaemonSteps

  // ---- The three containers ----------------------------------------------------------------------------------------

  /** The ids in use are those of the active sessions, one session per id. So the two branches the code keeps for an
      inconsistent table cannot be reached: a fresh id makes a fresh key on every line, and an id in use belongs to a
      session in the table. */
  lemma IdsAreThoseOfTheTable(states: seq<State>, events: seq<Daemon.Event>, i: nat)
    requires Daemon.IsRun(states, events) && i < |states|
    ensures var d := states[i];
            && d.ids.taken == (set k | k in d.active :: k.sid as u16)
            && (forall j, k :: j in d.active && k in d.active && j.sid == k.sid ==> j == k)
            && (forall line :: Allocate(d.ids).1.Some? ==> Key(line, Allocate(d.ids).1.value) !in d.active)
            && (forall sid :: sid in d.ids.taken <==> FindSid(d.active, sid).Some?)
  {
    InvAlways(states, events, i);
    var d := states[i];
    TakenAreSids(d);
    forall line | Allocate(d.ids).1.Some? ensures Key(line, Allocate(d.ids).1.value) !in d.active {
      FreshKey(d, line);
    }
    forall sid ensures sid in d.ids.taken <==> FindSid(d.active, sid).Some? {
      if sid in d.ids.taken { FoundSid(d, sid); }
    }
  }

  lemma TakenAreSids(d: State)
    requires TableOk(d)
    ensures d.ids.taken == (set k | k in d.active :: k.sid as u16)
  {
  }

  lemma FreshKey(d: State, line: Line)
    requires TableOk(d) && Allocate(d.ids).1.Some?
    ensures Key(line, Allocate(d.ids).1.value) !in d.active
  {
    AllocatesFirstFree(d.ids);
  }

  /** Distinct active sessions are distinct objects, and the AAA ids they carry are distinct and in the AAA table. */
  lemma SessionsOwnTheirAaaIds(states: seq<State>, events: seq<Daemon.Event>, i: nat, j: Key, k: Key)
    requires Daemon.IsRun(states, events) && i < |states| && j in states[i].active && k in states[i].active
    ensures states[i].active[j] in states[i].objs && states[i].active[k] in states[i].objs
    ensures var d := states[i];
            var a, b := d.objs[d.active[j]].aaaId, d.objs[d.active[k]].aaaId;
            (a != Aaa.NO_SESSION ==> a in d.aaa.table) &&
            (j != k ==> d.active[j] != d.active[k] && (a != Aaa.NO_SESSION ==> a != b))
  {
    InvAlways(states, events, i);
    ActiveKey(states[i], j);
    ActiveKey(states[i], k);
    ActiveLinked(states[i], states[i].active[j]);
    ActiveLinked(states[i], states[i].active[k]);
  }

  /** The addresses handed out by a pool are exactly the non-zero ones that live AAA sessions took from it, those still
      finishing their accounting included; and no two of these have the same one. */
  lemma PoolsMatchSessions(states: seq<State>, events: seq<Daemon.Event>, i: nat)
    requires Daemon.IsRun(states, events) && i < |states|
    ensures var a := states[i].aaa;
            && (forall p :: p in a.pools ==> a.pools[p].ips == Aaa.Held(a.objects, p))
            && (forall g, h, p :: g in a.objects && h in a.objects && g != h
                                  && Aaa.Holds(a.objects[g], p) && Aaa.Holds(a.objects[h], p)
                                  ==> a.objects[g].lease.address != a.objects[h].lease.address)
            && (forall h :: h in a.objects && h !in a.table.Values ==> a.objects[h].acct)
  {
    InvAlways(states, events, i);
  }

  /** Two active sessions whose addresses come from the same pool have different addresses. */
  lemma NoAddressTwice(states: seq<State>, events: seq<Daemon.Event>, i: nat, j: Key, k: Key, p: string)
    requires Daemon.IsRun(states, events) && i < |states|
    requires j in states[i].active && k in states[i].active && j != k
    requires FromPool(states[i], j, p) && FromPool(states[i], k, p)
    ensures states[i].objs[states[i].active[j]].address != states[i].objs[states[i].active[k]].address
  {
    InvAlways(states, events, i);
    var d := states[i];
    var g, h := Source(d, j), Source(d, k);
    ActiveKey(d, j);
    ActiveKey(d, k);
    ActiveLinked(d, d.active[j]);
    ActiveLinked(d, d.active[k]);
    assert d.aaa.objects[g].owner == d.active[j] && d.aaa.objects[h].owner == d.active[k];
  }

  /** Two active sessions whose AAA sessions were served by the same pool have the same address if and only if the pool
      had none left for either of them. */
  lemma SameAddressIffNone(states: seq<State>, events: seq<Daemon.Event>, i: nat, j: Key, k: Key, p: string)
    requires Daemon.IsRun(states, events) && i < |states|
    requires j in states[i].active && k in states[i].active && j != k
    requires ServedBy(states[i], j, p) && ServedBy(states[i], k, p)
    ensures var a, b := states[i].objs[states[i].active[j]].address, states[i].objs[states[i].active[k]].address;
            a == b <==> a == Some(0) && b == Some(0)
  {
    InvAlways(states, events, i);
    var d := states[i];
    ActiveKey(d, j);
    ActiveKey(d, k);
    ActiveLinked(d, d.active[j]);
    ActiveLinked(d, d.active[k]);
    if FromPool(d, j, p) && FromPool(d, k, p) {
      NoAddressTwice(states, events, i, j, k, p);
    }
  }

  /** The AAA object the session's address was copied from. */
  function Source(d: State, k: Key): nat
    requires k in d.active && d.active[k] in d.objs
    requires d.objs[d.active[k]].from.Some? && d.objs[d.active[k]].from.value in d.aaa.table
  {
    d.aaa.table[d.objs[d.active[k]].from.value]
  }

  /** That AAA object asked pool `p` for its address. */
  predicate ServedBy(d: State, k: Key, p: string) {
    && k in d.active && d.active[k] in d.objs
    && d.objs[d.active[k]].from.Some? && d.objs[d.active[k]].from.value in d.aaa.table
    && Source(d, k) in d.aaa.objects && d.aaa.objects[Source(d, k)].freeIp && d.aaa.objects[Source(d, k)].pool == p
  }

  /** And it got one. */
  predicate FromPool(d: State, k: Key, p: string) {
    ServedBy(d, k, p) && Aaa.Holds(d.aaa.objects[Source(d, k)], p)
  }

  // ---- Teardown ----------------------------------------------------------------------------------------------------

  /** What one teardown takes out of the daemon: the session of that id, its own AAA entry and, unless its accounting
      is unfinished, its own pool address. Every other session keeps its object and everything it has. */
  ghost predicate OnlyThatSession(d: State, d1: State, k: Key)
    requires k in d.active && d.active[k] in d.objs
  {
    var o, id := d.active[k], d.objs[d.active[k]].aaaId;
    && d1.active == d.active - {k} && d1.ids == Ids(d.ids.taken - {k.sid}, d.ids.cursor)
    && d1.aaa.table == d.aaa.table - {id} && d1.pending == d.pending
    && (forall x :: x in d.objs && x != o ==> x in d1.objs && d1.objs[x] == d.objs[x])
    && (forall x :: x != o ==> SameFor(d.aaa, d1.aaa, x))
    && d1.aaa.pools.Keys == d.aaa.pools.Keys
    && (forall p :: p in d.aaa.pools ==> d1.aaa.pools[p].ips == d.aaa.pools[p].ips - Freed(d.aaa, id, p))
  }

  /** What stopping the session under `id` gives back to pool `p`. */
  ghost function Freed(a: Aaa.State, id: u32, p: string): set<u32> {
    if id in a.table && a.table[id] in a.objects && !a.objects[a.table[id]].acct && Aaa.Holds(a.objects[a.table[id]], p)
    then {a.objects[a.table[id]].lease.address} else {}
  }

  lemma TeardownReleasesOwn(states: seq<State>, events: seq<Daemon.Event>, i: nat, k: Key)
    requires Daemon.IsRun(states, events) && i < |states| && k in states[i].active
    ensures states[i].active[k] in states[i].objs
    ensures OnlyThatSession(states[i], Deallocate(states[i], k.sid), k)
  {
    InvAlways(states, events, i);
    DeallocateIsOwn(states[i], k);
  }

  lemma DeallocateIsOwn(d: State, k: Key)
    requires Inv(d) && k in d.active
    ensures d.active[k] in d.objs && OnlyThatSession(d, Deallocate(d, k.sid), k)
  {
    FoundSid(d, k.sid);
    OwnSid(d, k);
    ActiveKey(d, k);
    var o := d.active[k];
    ActiveLinked(d, o);
    StopIsOwn(d.aaa, o, d.objs[o]);
    ErasedIsOwn(d, k);
  }

  lemma OwnSid(d: State, k: Key)
    requires SidsDistinct(d) && k in d.active
    ensures FindSid(d.active, k.sid) == Some(k)
  {
  }

  lemma ErasedIsOwn(d: State, k: Key)
    requires k in d.active && d.active[k] in d.objs && k.sid in d.ids.taken && FindSid(d.active, k.sid) == Some(k)
    requires var a, b, o := d.aaa, Aaa.Stop(d.aaa, d.objs[d.active[k]].aaaId), d.active[k];
             && b.table == a.table - {d.objs[o].aaaId} && b.pools.Keys == a.pools.Keys
             && (forall x :: x != o ==> SameFor(a, b, x))
             && (forall p :: p in a.pools ==> b.pools[p].ips == a.pools[p].ips - Freed(a, d.objs[o].aaaId, p))
    ensures OnlyThatSession(d, Deallocate(d, k.sid), k)
  {
  }

  lemma StopIsOwn(a: Aaa.State, o: nat, s: Session)
    requires Aaa.Consistent(a) && Linked(a, o, s)
    ensures var b := Aaa.Stop(a, s.aaaId);
            && b.table == a.table - {s.aaaId} && b.pools.Keys == a.pools.Keys
            && (forall x :: x != o ==> SameFor(a, b, x))
            && (forall p :: p in a.pools ==> b.pools[p].ips == a.pools[p].ips - Freed(a, s.aaaId, p))
  {
    if s.aaaId in a.table {
      Aaa.StopReleasesOwn(a, s.aaaId);
      StopEntries(a, s.aaaId, o);
    } else {
      assert a.table - {s.aaaId} == a.table;
    }
  }

  /** A PADT is carried out whoever sent it: it ends a session of another line if and only if the id is that of a session
      of another line. */
  lemma PadtFromAnyLine(states: seq<State>, events: seq<Daemon.Event>, i: nat, line: Line, sid: u16)
    requires Daemon.IsRun(states, events) && i < |states|
    ensures var d := states[i];
            var d1 := Daemon.Step(d, Daemon.Event.Padt(line, sid));
            && d1.active == (map k | k in d.active && k.sid != sid :: d.active[k])
            && ((exists k :: k in d.active && k !in d1.active && k.line != line)
                <==> exists k :: k in d.active && k.sid == sid && k.line != line)
  {
    InvAlways(states, events, i);
    TableAfter(states[i], states[i], sid);
  }

  /** A teardown leaves behind one AAA entry for every successful authentication but the last: the AAA side is clean
      exactly when the session authenticated at most once. */
  lemma WhatTeardownLeaves(states: seq<State>, events: seq<Daemon.Event>, i: nat, k: Key)
    requires Daemon.IsRun(states, events) && i < |states| && k in states[i].active
    ensures states[i].active[k] in states[i].objs
    ensures var d := states[i];
            var o, auths := d.active[k], d.objs[d.active[k]].auths;
            && |Entries(Deallocate(d, k.sid).aaa, o)| == (if auths == 0 then 0 else auths - 1)
            && (Entries(Deallocate(d, k.sid).aaa, o) == {} <==> auths <= 1)
  {
    InvAlways(states, events, i);
    var d := states[i];
    var o := d.active[k];
    FoundSid(d, k.sid);
    assert FindSid(d.active, k.sid) == Some(k);
    ActiveKey(d, k);
    ActiveLinked(d, o);
    if d.objs[o].auths > 0 {
      StopEntries(d.aaa, d.objs[o].aaaId, o);
      assert d.objs[o].aaaId in Entries(d.aaa, o);
    } else {
      assert Entries(d.aaa, o) == {};
    }
  }

  /** When the last accounting callback of a stopped session is dropped, that session's object goes and its own address is
      back in its pool; of one that is still in the AAA table nothing changes, nor does anything else of the daemon. */
  lemma AccountingReleases(states: seq<State>, events: seq<Daemon.Event>, i: nat, h: nat)
    requires Daemon.IsRun(states, events) && i < |events| && events[i] == AccountingDone(h) && h in states[i].aaa.objects
    ensures var d, d1 := states[i], states[i + 1];
            var a, b, o := d.aaa, d1.aaa, d.aaa.objects[h];
            && d1 == d.(aaa := b) && b.table == a.table && b.pools.Keys == a.pools.Keys
            && if h in a.table.Values then b == a
               else
                 && b.objects == a.objects - {h}
                 && forall p :: p in a.pools ==>
                      b.pools[p].ips == a.pools[p].ips - if Aaa.Holds(o, p) then {o.lease.address} else {}
  {
    InvAlways(states, events, i);
    Aaa.DropReleasesOwn(states[i].aaa, h);
  }

  /** A clean-up empties the session table, the pending table and the AAA table, and frees every id. Each pool then holds
      exactly the addresses of sessions whose accounting is unfinished. */
  lemma CleanupReleasesAll(states: seq<State>, events: seq<Daemon.Event>, i: nat)
    requires Daemon.IsRun(states, events) && i < |events| && events[i].Cleanup?
    ensures var d := states[i + 1];
            && d.active == map[] && d.ids.taken == {} && d.pending == {} && d.aaa.table == map[]
            && (forall h :: h in d.aaa.objects ==> d.aaa.objects[h].acct)
            && (forall p :: p in d.aaa.pools ==> d.aaa.pools[p].ips == Aaa.Held(d.aaa.objects, p))
  {
    InvAlways(states, events, i);
    Aaa.StopEachEmpties(states[i].aaa, events[i].order);
  }

  // ---- The echo timer after a teardown -----------------------------------------------------------------------------

  predicate LastFiring(d: State, o: nat) {
    o in d.objs && d.objs[o].echoOn && (d.objs[o].lcp.echo + 1) % 0x100 > ECHO_LIMIT
  }

  /** The last firing is meant to end the session whose peer is silent. It ends whatever session has that session's id at
      the time: exactly if the object is still active, or its id is free, no other session is lost. */
  lemma WhomTheLastFiringEnds(d: State, o: nat)
    requires Inv(d) && LastFiring(d, o)
    ensures var sid := d.objs[o].key.sid;
            && EchoStep(d, o).active == (map k | k in d.active && k.sid != sid :: d.active[k])
            && ((forall k :: k in d.active && d.active[k] != o ==> k in EchoStep(d, o).active)
                <==> IsActive(d, o) || sid !in d.ids.taken)
  {
    var sid := d.objs[o].key.sid;
    LastFiringRemoves(d, o);
    if sid in d.ids.taken {
      FoundSid(d, sid);
      var k := FindSid(d.active, sid).value;
      assert d.objs[d.active[k]].key == k;
    }
    if IsActive(d, o) { ActiveIsItsKey(d, o); }
  }

  /** The tenth firing takes exactly the session with the object's id out of the table. */
  lemma LastFiringRemoves(d: State, o: nat)
    requires Inv(d) && LastFiring(d, o)
    ensures EchoStep(d, o).active == (map k | k in d.active && k.sid != d.objs[o].key.sid :: d.active[k])
  {
    var s := d.objs[o];
    var p := Put(d, o, s.(lcp := EchoFires(EnvOf(d, s), s.lcp).fsm, echoOn := false));
    LastFiringDeallocates(d, o, p);
    TableAfter(d, p, s.key.sid);
  }

  lemma LastFiringDeallocates(d: State, o: nat, p: State)
    requires LastFiring(d, o)
    requires p == Put(d, o, d.objs[o].(lcp := EchoFires(EnvOf(d, d.objs[o]), d.objs[o].lcp).fsm, echoOn := false))
    ensures EchoStep(d, o).active == Deallocate(p, d.objs[o].key.sid).active
  {
  }

  lemma ActiveIsItsKey(d: State, o: nat)
    requires TableOk(d) && IsActive(d, o)
    ensures o in d.objs && d.objs[o].key in d.active && d.active[d.objs[o].key] == o
  {
  }

  /** A teardown removes from the table exactly the session with that id. */
  lemma TableAfter(d: State, p: State, sid: u16)
    requires Inv(d) && p.active == d.active && p.ids == d.ids
    ensures Deallocate(p, sid).active == (map k | k in d.active && k.sid != sid :: d.active[k])
  {
    if sid in d.ids.taken {
      FoundSid(d, sid);
      Without(d.active, FindSid(d.active, sid).value);
    } else {
      assert forall k :: k in d.active ==> k.sid != sid;
    }
  }

  lemma Without(active: map<Key, nat>, k: Key)
    requires k in active && forall j :: j in active && j.sid == k.sid ==> j == k
    ensures active - {k} == (map j | j in active && j.sid != k.sid :: active[j])
  {
  }

  // ---- RADIUS answers ----------------------------------------------------------------------------------------------

  predicate IdFree(a: Aaa.State) { exists i: u32 :: i < Aaa.NO_SESSION && i !in a.table }

  /** Whether a RADIUS answer accepts or not: the session counts as authenticated afterwards if and only if an AAA id was
      free and the session object still exists. An answer that does not accept is told to the client first, so the
      client is then told both. */
  lemma AnswerBindsIff(d: State, o: nat, via: Via, accept: bool, resp: Aaa.RadiusResponse)
    ensures var d1 := AfterAnswer(d, o, via, accept, resp);
            && (o in d1.objs <==> o in d.objs)
            && ((o in d.objs && d1.objs[o].auths > d.objs[o].auths) <==> o in d.objs && IdFree(d.aaa))
            && (o in d.objs ==>
                  d1.objs[o].answers == d.objs[o].answers + (if accept then [] else [Failure(via)]) +
                                        [if IdFree(d.aaa) then Success(via) else Failure(via)])
            && (d1.aaa.table != d.aaa.table <==> IdFree(d.aaa))
  {
    var told := if accept then d else AuthFails(d, o, via);
    var r := Aaa.StartRadius(d.conf.aaa, told.aaa, o, resp);
    assert r.1.Some? <==> IdFree(d.aaa);
    if r.1.Some? {
      assert r.1.value in r.0.table && r.1.value !in d.aaa.table;
    }
  }

  // ---- Authentication comes before addresses -----------------------------------------------------------------------

  /** Whatever the configuration: a session object whose IPCP has left Initial got an authentication callback with an
      empty error; while the session is active, the AAA id that bound is in the AAA table, under this session. */
  lemma AuthenticatedBeforeIpcp(states: seq<State>, events: seq<Daemon.Event>, i: nat, o: nat)
    requires Daemon.IsRun(states, events) && i < |states| && o in states[i].objs
    requires states[i].objs[o].ipcp.phase != Initial
    ensures states[i].objs[o].auths > 0 && states[i].objs[o].aaaId != Aaa.NO_SESSION
    ensures IsActive(states[i], o) ==> Mine(states[i].aaa, o, states[i].objs[o].aaaId)
  {
    InvAlways(states, events, i);
    if IsActive(states[i], o) {
      ActiveLinked(states[i], o);
    }
  }

  /** Once a session has started, its LCP is past Starting if and only if PAP or CHAP is configured. */
  lemma LcpBeginsIff(states: seq<State>, events: seq<Daemon.Event>, i: nat, o: nat)
    requires Daemon.IsRun(states, events) && i < |states| && o in states[i].objs
    ensures var d, s := states[i], states[i].objs[o];
            && (s.started ==> (s.lcp.phase in {Initial, Starting} <==> !d.conf.chap && !d.conf.pap))
            && (!s.started ==> s.lcp.phase == Initial)
  {
    LocalAlways(states, events, i, o);
  }

  lemma LocalAlways(states: seq<State>, events: seq<Daemon.Event>, i: nat, o: nat)
    requires Daemon.IsRun(states, events) && i < |states| && o in states[i].objs
    ensures LocalOk(states[i].conf, states[i].objs[o])
  {
    InvAlways(states, events, i);
  }

  /** The session as it was put into the data plane: authenticated under an id still in the AAA table, with the address
      of an AAA session created for it, and with a request acknowledged that agreed with an AAA session of its own. */
  ghost predicate WellProvisioned(d: State, o: nat) {
    && IsActive(d, o) && o in d.objs
    && var s := d.objs[o];
    && s.auths > 0 && Mine(d.aaa, o, s.aaaId)
    && s.from.Some? && Mine(d.aaa, o, s.from.value) && s.address == Some(Values(d.aaa, s.from.value).address)
    && s.acked.Some? && Mine(d.aaa, o, s.acked.value.aaaId)
    && Agreed(s.acked.value.area, Values(d.aaa, s.acked.value.aaaId))
    && (s.auths == 1 ==> s.from == Some(s.aaaId) && s.acked.value.aaaId == s.aaaId)
  }

  /** The log of data-plane provisionings grows by one entry, when an IPCP packet opens the layer, and then for a
      session in this condition. */
  lemma ProvisionedWell(states: seq<State>, events: seq<Daemon.Event>, i: nat)
    requires Daemon.IsRun(states, events) && i < |events| && states[i + 1].provisions != states[i].provisions
    ensures events[i].Ppp? && events[i].frame.IpcpFrame? && events[i].key in states[i + 1].active
    ensures var d', key := states[i + 1], events[i].key;
            && WellProvisioned(d', d'.active[key]) && d'.objs[d'.active[key]].key == key
            && d'.objs[d'.active[key]].ipcp.phase == Opened
            && d'.provisions == states[i].provisions + [Provision(d'.active[key], key, d'.objs[d'.active[key]].address)]
  {
    InvAlways(states, events, i);
    InvAlways(states, events, i + 1);
    var d, e, d' := states[i], events[i], states[i + 1];
    OnlyIpcpProvisions(d, e);
    var o := d.active[e.key];
    ActiveKey(d, e.key);
    StartedKeeps(d, o);
    IpcpProvisions(Started(d, o), e.key, e.frame.pkt);
    OpenedIsWell(d', e.key);
  }

  lemma OpenedIsWell(d: State, k: Key)
    requires Inv(d) && k in d.active && d.active[k] in d.objs && d.objs[d.active[k]].ipcp.phase == Opened
    ensures WellProvisioned(d, d.active[k])
  {
    ActiveKey(d, k);
    ActiveLinked(d, d.active[k]);
  }

  lemma IpcpProvisions(d: State, k: Key, pkt: seq<byte>)
    requires Inv(d) && k in d.active && Handled(Ipcp, pkt) && d.active[k] in d.objs
    requires IpcpStep(d, d.active[k], pkt).provisions != d.provisions
    ensures var o, d' := d.active[k], IpcpStep(d, d.active[k], pkt);
            && d'.active == d.active && o in d'.objs && d'.objs[o].key == k && d'.objs[o].ipcp.phase == Opened
            && d'.provisions == d.provisions + [Provision(o, k, d'.objs[o].address)]
  {
    var o := d.active[k];
    var s := d.objs[o];
    ActiveKey(d, k);
    PacketReaction(Ipcp, EnvOf(d, s), s.ipcp, pkt);
    EffectProvisions(d, o, k, pkt, Consults(EnvOf(d, s), s.ipcp, pkt), Receive(Ipcp, EnvOf(d, s), s.ipcp, pkt));
  }

  lemma EffectProvisions(d: State, o: nat, k: Key, pkt: seq<byte>, consults: bool, out: Outcome)
    requires o in d.objs && d.objs[o].key == k && Sound(pkt) && Reacted(Ipcp, d.objs[o].ipcp, pkt, out)
    requires consults ==> LeaseOf(d.aaa, d.objs[o].aaaId).Some?
    requires var s := AfterIpcp(d.objs[o], LeaseOf(d.aaa, d.objs[o].aaaId), pkt, consults, out);
             IpcpEffect(d, o, s, out).provisions != d.provisions
    ensures var s := AfterIpcp(d.objs[o], LeaseOf(d.aaa, d.objs[o].aaaId), pkt, consults, out);
            var d' := IpcpEffect(d, o, s, out);
            && d'.active == d.active && o in d'.objs && d'.objs[o].key == k && d'.objs[o].ipcp.phase == Opened
            && d'.provisions == d.provisions + [Provision(o, k, d'.objs[o].address)]
  {
  }

  /** Neither the session table nor the log is touched. */
  ghost predicate SameTable(d: State, d1: State) {
    d1.active == d.active && d1.ids == d.ids && d1.pending == d.pending && d1.provisions == d.provisions
  }

  lemma {:induction false} MethodsKeepTable(d: State, o: nat, via: Via, methods: seq<Aaa.Method>)
    ensures SameTable(d, TryMethods(d, o, via, methods))
    decreases methods
  {
    if methods == [] || methods[0] == Aaa.RadiusAuth {
    } else {
      if methods[0] == Aaa.LocalAuth {
        MethodsKeepTable(d, o, via, methods[1..]);
      } else {
        MethodsKeepTable(AfterStart(d, o, via, Aaa.StartNone(d.conf.aaa, d.aaa, o)), o, via, methods[1..]);
      }
    }
  }

  /** Of all the events only an IPCP packet in an active session provisions. */
  lemma OnlyIpcpProvisions(d: State, e: Daemon.Event)
    requires Daemon.Possible(d, e) && Daemon.Step(d, e).provisions != d.provisions
    ensures e.Ppp? && e.frame.IpcpFrame? && e.key in d.active && d.active[e.key] in d.objs
    ensures Daemon.Step(d, e) == IpcpStep(Started(d, d.active[e.key]), d.active[e.key], e.frame.pkt)
  {
    match e
    case Ppp(key, frame) => FrameProvisions(d, key, frame);
    case EchoTimer(o) => EchoProvisionsNothing(d, o);
    case Padr(conn, magic, peer) => AdmitProvisionsNothing(d, conn, magic, peer);
    case _ =>
  }

  lemma AdmitProvisionsNothing(d: State, conn: Conn, magic: u32, peer: LcpOptions.Peer)
    ensures Admit(d, conn, magic, peer).provisions == d.provisions
  {
  }

  lemma EchoProvisionsNothing(d: State, o: nat)
    ensures EchoStep(d, o).provisions == d.provisions
  {
  }

  lemma FrameProvisions(d: State, key: Key, frame: Frame)
    requires Legible(frame) && FrameStep(d, key, frame).provisions != d.provisions
    ensures frame.IpcpFrame? && key in d.active && d.active[key] in d.objs
  {
    if key in d.active && d.active[key] in d.objs {
      var o := d.active[key];
      var d1 := Started(d, o);
      match frame
      case LcpFrame(pkt) => LcpProvisionsNothing(d1, o, Receive(Lcp, EnvOf(d1, d1.objs[o]), d1.objs[o].lcp, pkt));
      case IpcpFrame(pkt) =>
      case AuthRequest(via) => MethodsKeepTable(d1, o, via, d1.conf.aaa.methods);
      case OtherFrame =>
    }
  }

  lemma LcpProvisionsNothing(d: State, o: nat, out: Outcome)
    requires o in d.objs
    ensures LcpEffect(d, o, out).provisions == d.provisions
  {
  }

  /** With one successful authentication, the address a session is provisioned with is its AAA session's, and so is
      every address option of the request it acknowledged. */
  lemma OneAuthOneAddress(d: State, o: nat, opt: Opt)
    requires WellProvisioned(d, o) && d.objs[o].auths == 1
    requires opt in Parse(d.objs[o].acked.value.area) && opt.kind == IP_ADDRESS
    ensures d.objs[o].address == Some(Values(d.aaa, d.objs[o].aaaId).address)
    ensures |opt.data| >= 4 && Some(ReadBe32(opt.data) as u32) == d.objs[o].address
  {
    var lease := Values(d.aaa, d.objs[o].aaaId);
    AllMembers(Parse(d.objs[o].acked.value.area), (x: Opt) => Agrees(lease, x));
  }

  // ---- When the address is copied ----------------------------------------------------------------------------------

  /** The packets hold an answer to a request: an acknowledgement (2), a Nak (3) or a Reject (4). */
  predicate HasAnswer(sent: seq<seq<byte>>) {
    exists i :: 0 <= i < |sent| && |sent[i]| > 0 && sent[i][0] in {2, 3, 4}
  }

  /** The PPPoE session copies its address exactly when IPCP answers a request, in whatever phase. */
  lemma CopiedIffAnswered(env: Env, f: Fsm, pkt: seq<byte>)
    requires Handled(Ipcp, pkt)
    ensures Consults(env, f, pkt) <==> HasAnswer(Receive(Ipcp, env, f, pkt).sent)
  {
    var reply, noted := Verdict(Ipcp, env, pkt), Noted(Ipcp, f, pkt);
    OurRequestIsSent(Ipcp, env);
    if pkt[0] == CONF_REQ {
      AnswersExactly(env, pkt);
      AnswerToRequest(env, f, pkt, reply, noted);
    } else {
      NoAnswerToOthers(env, f, pkt, reply, noted);
    }
  }

  lemma AnswersExactly(env: Env, pkt: seq<byte>)
    requires Handled(Ipcp, pkt) && pkt[0] == CONF_REQ
    ensures Verdict(Ipcp, env, pkt).Silent? <==> Area(pkt) == [] || env.lease.None?
  {
  }

  lemma AnswerToRequest(env: Env, f: Fsm, pkt: seq<byte>, reply: Reply, noted: LcpOptions.Peer)
    requires Sound(pkt) && pkt[0] == CONF_REQ && JustOurRequest(Ipcp, env, RequestSent(Ipcp, env))
    ensures HasAnswer(Dispatch(Ipcp, env, f, pkt, reply, noted).sent) <==>
            !reply.Silent? && f.phase in {ReqSent, AckRcvd, AckSent, Stopped}
  {
    var own, sent := RequestSent(Ipcp, env), Dispatch(Ipcp, env, f, pkt, reply, noted).sent;
    assert own[0][0] == 1 && |own| == 1;
    if !reply.Silent? && f.phase in {ReqSent, AckRcvd, AckSent, Stopped} {
      assert sent[|sent| - 1][0] in {2, 3, 4};
    }
  }

  lemma NoAnswerToOthers(env: Env, f: Fsm, pkt: seq<byte>, reply: Reply, noted: LcpOptions.Peer)
    requires Sound(pkt) && pkt[0] != CONF_REQ && JustOurRequest(Ipcp, env, RequestSent(Ipcp, env))
    ensures !HasAnswer(Dispatch(Ipcp, env, f, pkt, reply, noted).sent)
  {
    assert RequestSent(Ipcp, env)[0][0] == 1;
  }
}
