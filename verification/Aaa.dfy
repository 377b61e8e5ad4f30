/** The AAA session table and who owns which pool address. AAA sessions are shared objects: the table refers to them
    by handle, and one whose accounting stop is still outstanding lives on after it has left the table. */
module Aaa {
  import opened Wire
  import opened IpcpOptions
  import opened FramedPool

  /** The id that stands for "no AAA session"; the search for a free id stops before it. */
  const NO_SESSION: u32 := 0xFFFF_FFFF

  datatype Method = NoneAuth | LocalAuth | RadiusAuth

  datatype Template = Template(pool: string, dns1: u32, dns2: u32)

  datatype AaaConf = AaaConf(methods: seq<Method>, localTemplate: string, templates: map<string, Template>)

  /** The attributes of a RADIUS answer that a new AAA session reads; zero and the empty string mean absent. */
  datatype RadiusResponse = RadiusResponse(framedIp: u32, dns1: u32, dns2: u32, framedPool: string, template: string)

  /** `owner` is the PPPoE session object it was created for, `freeIp` says that its destructor gives the address back
      to `pool`, `acct` that it reports to an accounting server. */
  datatype AaaSession = AaaSession(owner: nat, lease: Lease, pool: string, freeIp: bool, acct: bool)

  datatype State = State(table: map<u32, nat>, objects: map<nat, AaaSession>, pools: map<string, Pool>, next: nat)

  // ---- Creation ----------------------------------------------------------------------------------------------------

  /** The search for a free id, from `i` on. */
  function SearchId(table: map<u32, nat>, i: u32): (id: Option<u32>)
    ensures id.None? <==> forall x: u32 :: i <= x < NO_SESSION ==> x in table
    ensures id.Some? ==> i <= id.value < NO_SESSION && id.value !in table
    ensures id.Some? ==> forall x: u32 :: i <= x < id.value ==> x in table
    decreases NO_SESSION - i
  {
    if i == NO_SESSION then None else if i !in table then Some(i) else SearchId(table, i + 1)
  }

  /** The constructor for a session without RADIUS. */
  function NewNone(conf: AaaConf, pools: map<string, Pool>, owner: nat): (AaaSession, map<string, Pool>)
  {
    var t := if conf.localTemplate in conf.templates then conf.templates[conf.localTemplate] else Template("", 0, 0);
    if t.pool !in pools then (AaaSession(owner, Lease(0, t.dns1, t.dns2), t.pool, false, false), pools)
    else
      var (pool, a) := AllocateIp(pools[t.pool]);
      (AaaSession(owner, Lease(a, t.dns1, t.dns2), t.pool, true, false), pools[t.pool := pool])
  }

  /** The constructor for a RADIUS answer: an address or pool named there takes precedence over the template. */
  function NewRadius(conf: AaaConf, pools: map<string, Pool>, owner: nat, resp: RadiusResponse)
    : (AaaSession, map<string, Pool>)
  {
    var name := if resp.template != "" then resp.template else conf.localTemplate;
    var t := if name in conf.templates then conf.templates[name] else Template("", 0, 0);
    var pool := if resp.framedPool != "" then resp.framedPool else t.pool;
    var dns1 := if resp.dns1 != 0 then resp.dns1 else t.dns1;
    var dns2 := if resp.dns2 != 0 then resp.dns2 else t.dns2;
    if resp.framedIp == 0 && pool != "" && pool in pools then
      var (p, a) := AllocateIp(pools[pool]);
      (AaaSession(owner, Lease(a, dns1, dns2), pool, true, true), pools[pool := p])
    else (AaaSession(owner, Lease(resp.framedIp, dns1, dns2), pool, false, true), pools)
  }

  /** Entering a new session under the free id `id`. */
  function Enter(s: State, id: u32, made: (AaaSession, map<string, Pool>)): State {
    State(s.table[id := s.next], s.objects[s.next := made.0], made.1, s.next + 1)
  }

  /** `startSessionNone`: the new state and the session's id, unless there is no template or no free id. */
  function StartNone(conf: AaaConf, s: State, owner: nat): (State, Option<u32>)
  {
    if conf.localTemplate == "" then (s, None)
    else match SearchId(s.table, 0)
      case None => (s, None)
      case Some(id) => (Enter(s, id, NewNone(conf, s.pools, owner)), Some(id))
  }

  /** `processRadiusAnswer`: what the answer's code says makes no difference to what is created. */
  function StartRadius(conf: AaaConf, s: State, owner: nat, resp: RadiusResponse): (State, Option<u32>)
  {
    match SearchId(s.table, 0)
    case None => (s, None)
    case Some(id) => (Enter(s, id, NewRadius(conf, s.pools, owner, resp)), Some(id))
  }

  // ---- Destruction -------------------------------------------------------------------------------------------------

  /** The destructor: an address taken from a pool goes back to it. */
  function Destroy(s: State, h: nat): State {
    if h !in s.objects then s
    else
      var o := s.objects[h];
      var pools := if o.freeIp && o.pool in s.pools then s.pools[o.pool := DeallocateIp(s.pools[o.pool], o.lease.address)]
                   else s.pools;
      s.(objects := s.objects - {h}, pools := pools)
  }

  /** `stopSession`: the id is free at once. Without accounting the object goes with it; with accounting it lives until
      the accounting client lets go of it. */
  function Stop(s: State, id: u32): State {
    if id !in s.table then s
    else
      var h := s.table[id];
      var out := s.(table := s.table - {id});
      if h in s.objects && s.objects[h].acct then out else Destroy(out, h)
  }

  /** The last accounting callback that refers to a stopped session is dropped. */
  function Drop(s: State, h: nat): State {
    if h in s.table.Values then s else Destroy(s, h)
  }

  /** `stopAllSessions`, visiting the ids in the given order. */
  function StopEach(s: State, ids: seq<u32>): State
    decreases ids
  {
    if ids == [] then s else StopEach(Stop(s, ids[0]), ids[1..])
  }

  lemma {:induction false} StopEachSnoc(s: State, ids: seq<u32>, i: u32)
    ensures StopEach(s, ids + [i]) == Stop(StopEach(s, ids), i)
    decreases ids
  {
    if ids == [] {
      assert (ids + [i])[1..] == [];
    } else {
      assert (ids + [i])[1..] == ids[1..] + [i];
      StopEachSnoc(Stop(s, ids[0]), ids[1..], i);
    }
  }

  // ---- Ownership ---------------------------------------------------------------------------------------------------

  predicate Holds(o: AaaSession, p: string) {
    o.freeIp && o.pool == p && o.lease.address != 0
  }

  /** The addresses of pool `p` held by live objects, in the table or draining. */
  ghost function Held(objects: map<nat, AaaSession>, p: string): set<u32> {
    set h | h in objects && Holds(objects[h], p) :: objects[h].lease.address
  }

  predicate Listed(s: State, h: nat) {
    h in s.table.Values
  }

  /** An object outside the table has accounting to finish. */
  ghost predicate RestIsDraining(s: State) {
    forall h :: h in s.objects && !s.objects[h].acct ==> Listed(s, h)
  }

  /** The table refers to distinct live objects, and each pool has handed out exactly what live objects hold, each
      address to one of them. */
  ghost predicate Owned(s: State) {
    && (forall h :: h in s.objects ==> h < s.next && (s.objects[h].freeIp ==> s.objects[h].pool in s.pools))
    && (forall i :: i in s.table ==> s.table[i] in s.objects && i != NO_SESSION)
    && (forall i, j :: i in s.table && j in s.table && s.table[i] == s.table[j] ==> i == j)
    && (forall p :: p in s.pools ==> s.pools[p].ips == Held(s.objects, p))
    && NoneTwice(s.objects)
  }

  ghost predicate NoneTwice(objects: map<nat, AaaSession>) {
    forall g, h :: g in objects && h in objects && g != h && Holds(objects[g], objects[g].pool)
                   && Holds(objects[h], objects[g].pool)
                   ==> objects[g].lease.address != objects[h].lease.address
  }

  /** A pool hands out addresses of its range only. */
  ghost predicate WithinRanges(pools: map<string, Pool>) {
    forall p, a: u32 :: p in pools && a in pools[p].ips ==> pools[p].InRange(a)
  }

  ghost predicate Consistent(s: State) {
    Owned(s) && RestIsDraining(s) && WithinRanges(s.pools)
  }

  /** What creating an object does to the pools: nothing, or it takes the object's address from its pool. */
  ghost predicate Takes(pools: map<string, Pool>, made: (AaaSession, map<string, Pool>)) {
    var (o, pools') := made;
    && pools'.Keys == pools.Keys
    && (o.freeIp ==> o.pool in pools)
    && (forall p :: p in pools ==>
          && pools'[p].start == pools[p].start && pools'[p].stop == pools[p].stop
          && pools'[p].ips == pools[p].ips + (if Holds(o, p) then {o.lease.address} else {})
          && (Holds(o, p) ==> o.lease.address !in pools[p].ips && pools[p].InRange(o.lease.address)))
  }

  /** A constructor that takes its address from a pool, and one that does not. */
  lemma PoolTaken(pools: map<string, Pool>, o: AaaSession)
    requires o.freeIp && o.pool in pools && o.lease.address == AllocateIp(pools[o.pool]).1
    ensures Takes(pools, (o, pools[o.pool := AllocateIp(pools[o.pool]).0]))
  {
    AllocationIsLowestFree(pools[o.pool]);
  }

  lemma NonePoolTaken(conf: AaaConf, pools: map<string, Pool>, owner: nat)
    ensures Takes(pools, NewNone(conf, pools, owner)) && NewNone(conf, pools, owner).0.owner == owner
  {
    var o := NewNone(conf, pools, owner).0;
    if o.freeIp {
      PoolTaken(pools, o);
    }
  }

  lemma RadiusPoolTaken(conf: AaaConf, pools: map<string, Pool>, owner: nat, resp: RadiusResponse)
    ensures Takes(pools, NewRadius(conf, pools, owner, resp)) && NewRadius(conf, pools, owner, resp).0.owner == owner
  {
    var o := NewRadius(conf, pools, owner, resp).0;
    if o.freeIp {
      PoolTaken(pools, o);
    }
  }

  lemma HeldByOneMore(objects: map<nat, AaaSession>, h: nat, o: AaaSession, p: string)
    requires h !in objects
    ensures Held(objects[h := o], p) == Held(objects, p) + if Holds(o, p) then {o.lease.address} else {}
  {
    var more := objects[h := o];
    forall x | x in Held(objects, p) ensures x in Held(more, p) {
      var g :| g in objects && Holds(objects[g], p) && objects[g].lease.address == x;
      assert g in more && more[g] == objects[g];
    }
    if Holds(o, p) { assert h in more && more[h] == o; }
  }

  lemma EnterKeepsConsistent(s: State, id: u32, made: (AaaSession, map<string, Pool>))
    requires Consistent(s) && Takes(s.pools, made) && id !in s.table && id != NO_SESSION
    ensures Consistent(Enter(s, id, made))
  {
    EnterKeepsDraining(s, id, made);
    EnterKeepsOwned(s, id, made);
    TakesWithinRanges(s.pools, made);
  }

  lemma TakesWithinRanges(pools: map<string, Pool>, made: (AaaSession, map<string, Pool>))
    requires WithinRanges(pools) && Takes(pools, made)
    ensures WithinRanges(made.1)
  {
  }

  lemma EnterKeepsOwned(s: State, id: u32, made: (AaaSession, map<string, Pool>))
    requires Owned(s) && Takes(s.pools, made) && id !in s.table && id != NO_SESSION
    ensures Owned(Enter(s, id, made))
  {
    EnterKeepsPools(s, id, made);
    NewAddressIsNew(s, made);
    OneMoreNotTwice(s.objects, s.next, made.0);
  }

  lemma OneMoreNotTwice(objects: map<nat, AaaSession>, next: nat, o: AaaSession)
    requires NoneTwice(objects) && next !in objects
    requires forall h :: h in objects && Holds(o, o.pool) && Holds(objects[h], o.pool)
                         ==> objects[h].lease.address != o.lease.address
    ensures NoneTwice(objects[next := o])
  {
  }

  lemma EnterKeepsPools(s: State, id: u32, made: (AaaSession, map<string, Pool>))
    requires Takes(s.pools, made) && s.next !in s.objects && forall p :: p in s.pools ==> s.pools[p].ips == Held(s.objects, p)
    ensures var s' := Enter(s, id, made); forall p :: p in s'.pools ==> s'.pools[p].ips == Held(s'.objects, p)
  {
    var s' := Enter(s, id, made);
    forall p | p in s'.pools ensures s'.pools[p].ips == Held(s'.objects, p) {
      HeldByOneMore(s.objects, s.next, made.0, p);
    }
  }

  lemma NewAddressIsNew(s: State, made: (AaaSession, map<string, Pool>))
    requires Takes(s.pools, made) && forall p :: p in s.pools ==> s.pools[p].ips == Held(s.objects, p)
    ensures var o := made.0;
            forall h :: h in s.objects && Holds(o, o.pool) && Holds(s.objects[h], o.pool)
                        ==> s.objects[h].lease.address != o.lease.address
  {
    var o := made.0;
    forall h | h in s.objects && Holds(o, o.pool) && Holds(s.objects[h], o.pool)
      ensures s.objects[h].lease.address != o.lease.address
    {
      assert s.objects[h].lease.address in Held(s.objects, o.pool);
    }
  }

  lemma EnterKeepsDraining(s: State, id: u32, made: (AaaSession, map<string, Pool>))
    requires RestIsDraining(s) && id !in s.table
    ensures RestIsDraining(Enter(s, id, made))
  {
    var s' := Enter(s, id, made);
    forall h | h in s'.objects && !s'.objects[h].acct ensures Listed(s', h) {
      if h == s.next {
        assert id in s'.table && s'.table[id] == h;
      } else {
        assert Listed(s, h);
        var i :| i in s.table && s.table[i] == h;
        assert i in s'.table && s'.table[i] == h;
      }
    }
  }

  lemma HeldByOneLess(s: State, h: nat, p: string)
    requires Owned(s) && h in s.objects && p in s.pools
    ensures Held(s.objects - {h}, p) ==
            Held(s.objects, p) - if Holds(s.objects[h], p) then {s.objects[h].lease.address} else {}
  {
    var less := s.objects - {h};
    forall x | x in Held(s.objects, p) && !(Holds(s.objects[h], p) && x == s.objects[h].lease.address)
      ensures x in Held(less, p)
    {
      var g :| g in s.objects && Holds(s.objects[g], p) && s.objects[g].lease.address == x;
      assert g in less && less[g] == s.objects[g];
    }
  }

  lemma ZeroIsNotHeld(s: State, p: string)
    ensures 0 !in Held(s.objects, p)
  {
  }

  lemma DestroyKeepsOwned(s: State, h: nat)
    requires Owned(s) && !Listed(s, h)
    ensures Owned(Destroy(s, h))
  {
    if h in s.objects {
      var s' := Destroy(s, h);
      var o := s.objects[h];
      forall p | p in s'.pools ensures s'.pools[p].ips == Held(s'.objects, p) {
        HeldByOneLess(s, h, p);
        ZeroIsNotHeld(s, p);
      }
      forall i | i in s'.table ensures s'.table[i] in s'.objects {
        assert Listed(s, s.table[i]);
      }
    }
  }

  lemma DestroyWithinRanges(s: State, h: nat)
    requires WithinRanges(s.pools)
    ensures WithinRanges(Destroy(s, h).pools)
  {
  }

  lemma DropKeepsConsistent(s: State, h: nat)
    requires Consistent(s)
    ensures Consistent(Drop(s, h))
  {
    if !Listed(s, h) {
      DestroyKeepsOwned(s, h);
      DestroyWithinRanges(s, h);
    }
  }

  lemma StopKeepsConsistent(s: State, id: u32)
    requires Consistent(s)
    ensures Consistent(Stop(s, id))
  {
    if id in s.table {
      var h, out, s' := s.table[id], s.(table := s.table - {id}), Stop(s, id);
      assert Owned(out);
      forall i | i in out.table ensures out.table[i] != h {}
      DestroyKeepsOwned(out, h);
      DestroyWithinRanges(out, h);
      forall g | g in s'.objects && !s'.objects[g].acct ensures Listed(s', g) {
        assert Listed(s, g);
        var i :| i in s.table && s.table[i] == g;
        assert i in s'.table && s'.table[i] == g;
      }
    }
  }

  /** A start gives an unused id to a new object of this owner and touches no other entry or object. */
  ghost predicate Entered(s: State, r: (State, Option<u32>), owner: nat) {
    match r.1
    case None => r.0 == s
    case Some(id) =>
      && id !in s.table && id != NO_SESSION
      && r.0.table == s.table[id := s.next]
      && (exists o: AaaSession :: o.owner == owner && r.0.objects == s.objects[s.next := o])
      && s.next !in s.objects && r.0.pools.Keys == s.pools.Keys
  }

  lemma EnterIsEntered(s: State, id: u32, made: (AaaSession, map<string, Pool>))
    requires Consistent(s) && Takes(s.pools, made) && id !in s.table && id != NO_SESSION
    ensures Entered(s, (Enter(s, id, made), Some(id)), made.0.owner)
  {
    assert made.0.owner == made.0.owner;
  }

  lemma StartNoneFacts(conf: AaaConf, s: State, owner: nat)
    requires Consistent(s)
    ensures Consistent(StartNone(conf, s, owner).0) && Entered(s, StartNone(conf, s, owner), owner)
  {
    NonePoolTaken(conf, s.pools, owner);
    var id := SearchId(s.table, 0);
    if id.Some? {
      EnterKeepsConsistent(s, id.value, NewNone(conf, s.pools, owner));
      EnterIsEntered(s, id.value, NewNone(conf, s.pools, owner));
    }
  }

  lemma StartRadiusFacts(conf: AaaConf, s: State, owner: nat, resp: RadiusResponse)
    requires Consistent(s)
    ensures Consistent(StartRadius(conf, s, owner, resp).0) && Entered(s, StartRadius(conf, s, owner, resp), owner)
  {
    RadiusPoolTaken(conf, s.pools, owner, resp);
    var id := SearchId(s.table, 0);
    if id.Some? {
      EnterKeepsConsistent(s, id.value, NewRadius(conf, s.pools, owner, resp));
      EnterIsEntered(s, id.value, NewRadius(conf, s.pools, owner, resp));
    }
  }

  /** Stopping removes this entry only, and of the objects at most the one it referred to; that one's address is back
      in its pool, and nothing else is, unless it still has accounting to finish. */
  lemma StopReleasesOwn(s: State, id: u32)
    requires Consistent(s) && id in s.table
    ensures var h := s.table[id];
            var o, s' := s.objects[h], Stop(s, id);
            && s'.table == s.table - {id}
            && (o.acct ==> s'.objects == s.objects && s'.pools == s.pools)
            && (!o.acct ==> s'.objects == s.objects - {h})
            && s'.pools.Keys == s.pools.Keys
            && (forall p :: p in s.pools && !o.acct ==>
                  s'.pools[p].ips == s.pools[p].ips - if Holds(o, p) then {o.lease.address} else {})
  {
    var h := s.table[id];
    var o := s.objects[h];
    forall p | p in s.pools && !o.acct
      ensures Stop(s, id).pools[p].ips == s.pools[p].ips - if Holds(o, p) then {o.lease.address} else {}
    {
      ZeroIsNotHeld(s, p);
    }
  }

  /** When a stopped session's accounting is over, its object goes, its own address is back in its pool, and nothing
      else changes; a session that is still in the table is not affected. */
  lemma DropReleasesOwn(s: State, h: nat)
    requires Consistent(s) && h in s.objects
    ensures var o, s' := s.objects[h], Drop(s, h);
            if Listed(s, h) then s' == s
            else
              && s'.table == s.table && s'.objects == s.objects - {h} && s'.pools.Keys == s.pools.Keys
              && forall p :: p in s.pools ==>
                   s'.pools[p].ips == s.pools[p].ips - if Holds(o, p) then {o.lease.address} else {}
  {
    forall p | p in s.pools && !Listed(s, h)
      ensures Drop(s, h).pools[p].ips == s.pools[p].ips - if Holds(s.objects[h], p) then {s.objects[h].lease.address} else {}
    {
      ZeroIsNotHeld(s, p);
    }
  }

  /** The pool still has an address to give. */
  ghost predicate HasFree(p: Pool) {
    exists a: u32 :: p.InRange(a) && a !in p.ips
  }

  /** A session without RADIUS has an address if and only if its template's pool has one left; the session is created
      all the same when it has not. It does no accounting. */
  lemma NoneAddressIff(conf: AaaConf, pools: map<string, Pool>, owner: nat)
    ensures var o := NewNone(conf, pools, owner).0;
            && (o.lease.address != 0 <==> o.pool in pools && HasFree(pools[o.pool]))
            && (o.freeIp <==> o.pool in pools)
            && (o.lease.address != 0 ==> pools[o.pool].InRange(o.lease.address) && o.lease.address !in pools[o.pool].ips)
            && !o.acct
  {
    var o := NewNone(conf, pools, owner).0;
    if o.pool in pools {
      AllocationIsLowestFree(pools[o.pool]);
    }
  }

  /** One for a RADIUS answer has the address named there, or else one of the pool, as long as there is one left. It does
      accounting. */
  lemma RadiusAddressIff(conf: AaaConf, pools: map<string, Pool>, owner: nat, resp: RadiusResponse)
    ensures var o := NewRadius(conf, pools, owner, resp).0;
            && (resp.framedIp != 0 ==> o.lease.address == resp.framedIp && !o.freeIp)
            && (resp.framedIp == 0 ==>
                  && (o.freeIp <==> o.pool != "" && o.pool in pools)
                  && (o.lease.address != 0 <==> o.freeIp && HasFree(pools[o.pool])))
            && (resp.framedPool != "" ==> o.pool == resp.framedPool) && o.acct
  {
    var o := NewRadius(conf, pools, owner, resp).0;
    if o.freeIp {
      AllocationIsLowestFree(pools[o.pool]);
    }
  }

  /** What a template says, if there is one under that name. */
  predicate FromTemplate(conf: AaaConf, name: string, pool: string, dns1: u32, dns2: u32) {
    if name in conf.templates then conf.templates[name] == Template(pool, dns1, dns2) else pool == "" && dns1 == dns2 == 0
  }

  /** A session without RADIUS has pool and name servers of the local template. It has the address, too, that an answer
      without attributes would have been given, unless its pool is one with an empty name: that serves only sessions
      without RADIUS. */
  lemma NoneIsAnEmptyAnswer(conf: AaaConf, pools: map<string, Pool>, owner: nat)
    ensures var none := NewNone(conf, pools, owner).0;
            var empty := NewRadius(conf, pools, owner, RadiusResponse(0, 0, 0, "", "")).0;
            && FromTemplate(conf, conf.localTemplate, none.pool, none.lease.dns1, none.lease.dns2)
            && none.pool == empty.pool && none.lease.dns1 == empty.lease.dns1 && none.lease.dns2 == empty.lease.dns2
            && (none.lease.address == empty.lease.address <==> none.pool != "" || "" !in pools || !HasFree(pools[""]))
  {
    NoneAddressIff(conf, pools, owner);
    RadiusAddressIff(conf, pools, owner, RadiusResponse(0, 0, 0, "", ""));
  }

  /** After `stopAllSessions` the table is empty and the pools hold only what sessions with unfinished accounting
      hold. */
  lemma {:induction false} StopEachEmpties(s: State, ids: seq<u32>)
    requires Consistent(s) && forall i :: i in s.table ==> i in ids
    ensures var s' := StopEach(s, ids);
            && Consistent(s') && s'.table == map[]
            && forall h :: h in s'.objects ==> s'.objects[h].acct && h in s.objects && s'.objects[h] == s.objects[h]
    decreases |ids|
  {
    if ids == [] {
    } else {
      StopKeepsConsistent(s, ids[0]);
      var s' := Stop(s, ids[0]);
      forall i | i in s'.table ensures i in ids[1..] {
        assert i in s.table && i != ids[0];
      }
      StopEachEmpties(s', ids[1..]);
    }
  }
}
