/** What every reachable state of the daemon satisfies, and that every event keeps it. */
module DaemonInvariant {
  import opened Wire
  import opened OptionArea
  import opened IpcpOptions
  import opened PppFsm
  import opened SessionIds
  import LcpOptions
  import Runs = PppFsmRuns
  import Aaa
  import opened Daemon

  // ---- The session table -------------------------------------------------------------------------------------------

  /** The ids in use are exactly those of the active sessions, one session per id, and each table entry refers to an
      object that carries its key. An object outside the table is kept by its echo timer only. */
  ghost predicate TableOk(d: State) {
    KeysOk(d) && IdsCovered(d) && SidsDistinct(d) && ObjsOk(d)
  }

  ghost predicate KeysOk(d: State) {
    forall k :: k in d.active ==> d.active[k] in d.objs && d.objs[d.active[k]].key == k && k.sid in d.ids.taken
  }

  ghost predicate IdsCovered(d: State) {
    forall sid :: sid in d.ids.taken ==> exists k :: k in d.active && k.sid == sid
  }

  ghost predicate SidsDistinct(d: State) {
    forall j, k :: j in d.active && k in d.active && j.sid == k.sid ==> j == k
  }

  ghost predicate ObjsOk(d: State) {
    forall o :: o in d.objs ==> o < d.nextObj && (IsActive(d, o) || d.objs[o].echoOn)
  }

  // ---- One session object by itself --------------------------------------------------------------------------------

  ghost predicate LocalOk(conf: Conf, s: Session) {
    && (s.auths == 0 <==> s.aaaId == Aaa.NO_SESSION)
    && (s.papStarted || s.chapStarted || s.ipcp.phase != Initial ==> s.auths > 0)
    && Runs.InUse(s.lcp.phase) && Runs.InUse(s.ipcp.phase) && s.ipcp.phase != Starting
    && (!s.started ==> s.lcp.phase == Initial)
    && (!conf.chap && !conf.pap ==> !Runs.Hears(s.lcp))
    && (s.started && (conf.chap || conf.pap) ==> Runs.Hears(s.lcp))
    && s.lcp.echo <= ECHO_LIMIT
    && (s.auths == 0 ==> s.from == None && s.acked == None)
    && (s.from == None ==> s.address == None)
    && (s.auths == 1 ==> (s.from.Some? ==> s.from.value == s.aaaId) && (s.acked.Some? ==> s.acked.value.aaaId == s.aaaId))
    && (Runs.OwnAckPhase(s.ipcp.phase) ==> s.from.Some? && s.acked.Some?)
  }

  // ---- An active session and the AAA side --------------------------------------------------------------------------

  /** Entry `i` of the AAA table was made for session object `o`. */
  ghost predicate Mine(a: Aaa.State, o: nat, i: u32) {
    i in a.table && a.table[i] in a.objects && a.objects[a.table[i]].owner == o
  }

  ghost function Entries(a: Aaa.State, o: nat): set<u32> {
    set i | i in a.table && Mine(a, o, i)
  }

  function Values(a: Aaa.State, i: u32): Lease
    requires i in a.table && a.table[i] in a.objects
  {
    a.objects[a.table[i]].lease
  }

  /** Its AAA id is its own; its address is that of an AAA session of its own; so are the values IPCP acknowledged; and
      it has one AAA table entry for each successful authentication. */
  ghost predicate Linked(a: Aaa.State, o: nat, s: Session) {
    && (s.aaaId != Aaa.NO_SESSION ==> Mine(a, o, s.aaaId))
    && (s.from.Some? ==> Mine(a, o, s.from.value) && s.address == Some(Values(a, s.from.value).address))
    && (s.acked.Some? ==> Mine(a, o, s.acked.value.aaaId) && Agreed(s.acked.value.area, Values(a, s.acked.value.aaaId)))
    && |Entries(a, o)| == s.auths
  }

  /** An option area IPCP acknowledges: known options only, each with the AAA session's value. */
  ghost predicate Agreed(area: seq<byte>, lease: Lease) {
    Negotiable(area) && area != [] && Keep(Parse(area), Unknown) == [] && AllAgree(lease, Parse(area))
  }

  ghost predicate Inv(d: State) {
    && TableOk(d)
    && Aaa.Consistent(d.aaa)
    && OwnersExist(d.aaa, d.nextObj)
    && (forall o :: o in d.objs ==> LocalOk(d.conf, d.objs[o]))
    && (forall k :: k in d.active ==> Linked(d.aaa, d.active[k], d.objs[d.active[k]]))
  }

  // ---- Frame lemmas ------------------------------------------------------------------------------------------------

  /** Nothing of what `o` has in the AAA table changed. */
  ghost predicate SameFor(a: Aaa.State, b: Aaa.State, o: nat) {
    && Entries(b, o) == Entries(a, o)
    && forall i :: i in Entries(a, o) ==> b.table[i] == a.table[i] && b.objects[b.table[i]] == a.objects[a.table[i]]
  }

  lemma LinkedFrame(a: Aaa.State, b: Aaa.State, o: nat, s: Session)
    requires Linked(a, o, s) && SameFor(a, b, o)
    ensures Linked(b, o, s)
  {
    assert forall i :: Mine(a, o, i) ==> i in Entries(a, o);
    assert forall i :: i in Entries(b, o) ==> Mine(b, o, i);
  }

  ghost predicate OwnersExist(a: Aaa.State, nextObj: nat) {
    forall h :: h in a.objects ==> a.objects[h].owner < nextObj
  }

  /** Changing an object's own fields and, on the AAA side, what belongs to that object. */
  lemma ReplaceKeeps(d: State, a: Aaa.State, o: nat, s: Session)
    requires Inv(d) && o in d.objs && s.key == d.objs[o].key && LocalOk(d.conf, s)
    requires Aaa.Consistent(a) && OwnersExist(a, d.nextObj) && forall x :: x != o ==> SameFor(d.aaa, a, x)
    requires IsActive(d, o) ==> Linked(a, o, s)
    requires s.echoOn || IsActive(d, o)
    ensures Inv(Put(d, o, s).(aaa := a))
  {
    var d' := Put(d, o, s).(aaa := a);
    PutTable(d, o, s, a);
    forall k | k in d'.active ensures Linked(d'.aaa, d'.active[k], d'.objs[d'.active[k]]) {
      ReplaceLink(d, a, o, s, k);
    }
  }

  lemma ReplaceLink(d: State, a: Aaa.State, o: nat, s: Session, k: Key)
    requires k in d.active && d.active[k] in d.objs && Linked(d.aaa, d.active[k], d.objs[d.active[k]])
    requires forall x :: x != o ==> SameFor(d.aaa, a, x)
    requires IsActive(d, o) ==> Linked(a, o, s)
    ensures Linked(a, d.active[k], Put(d, o, s).objs[d.active[k]])
  {
    var x := d.active[k];
    if x != o {
      LinkedFrame(d.aaa, a, x, d.objs[x]);
    }
  }

  lemma PutTable(d: State, o: nat, s: Session, a: Aaa.State)
    requires TableOk(d) && o in d.objs && s.key == d.objs[o].key && (s.echoOn || IsActive(d, o))
    ensures TableOk(Put(d, o, s).(aaa := a))
  {
    var d' := Put(d, o, s).(aaa := a);
    assert d'.active == d.active;
    forall x | x in d'.objs ensures IsActive(d', x) <==> IsActive(d, x) {}
  }

  lemma PutKeeps(d: State, o: nat, s: Session)
    requires Inv(d) && o in d.objs && s.key == d.objs[o].key && LocalOk(d.conf, s)
    requires IsActive(d, o) ==> Linked(d.aaa, o, s)
    requires s.echoOn || IsActive(d, o)
    ensures Inv(Put(d, o, s))
  {
    ReplaceKeeps(d, d.aaa, o, s);
    assert Put(d, o, s).(aaa := d.aaa) == Put(d, o, s);
  }

  lemma ActiveKey(d: State, k: Key)
    requires TableOk(d) && k in d.active
    ensures IsActive(d, d.active[k]) && d.objs[d.active[k]].key == k
    ensures forall j :: j in d.active && d.active[j] == d.active[k] ==> j == k
  {
  }

  lemma ActiveLinked(d: State, o: nat)
    requires Inv(d) && IsActive(d, o)
    ensures o in d.objs && Linked(d.aaa, o, d.objs[o])
  {
  }

  // ---- The AAA operations, owner by owner --------------------------------------------------------------------------

  lemma EnteredEntries(a: Aaa.State, r: (Aaa.State, Option<u32>), owner: nat)
    requires Aaa.Consistent(a) && Aaa.Entered(a, r, owner) && r.1.Some?
    ensures forall o :: o != owner ==> SameFor(a, r.0, o)
    ensures Mine(r.0, owner, r.1.value) && Entries(r.0, owner) == Entries(a, owner) + {r.1.value}
    ensures r.1.value !in Entries(a, owner)
    ensures forall i :: i in Entries(a, owner) ==>
              r.0.table[i] == a.table[i] && Mine(r.0, owner, i) && Values(r.0, i) == Values(a, i)
  {
    var id := r.1.value;
    forall i | i in a.table
      ensures i in r.0.table && r.0.table[i] == a.table[i] && r.0.objects[a.table[i]] == a.objects[a.table[i]]
    {}
  }

  lemma StopEntries(a: Aaa.State, id: u32, owner: nat)
    requires Aaa.Consistent(a) && Mine(a, owner, id)
    ensures forall o :: o != owner ==> SameFor(a, Aaa.Stop(a, id), o)
    ensures Entries(Aaa.Stop(a, id), owner) == Entries(a, owner) - {id}
  {
    var b := Aaa.Stop(a, id);
    forall i | i in a.table && i != id
      ensures i in b.table && b.table[i] == a.table[i]
      ensures b.table[i] in b.objects && b.objects[b.table[i]] == a.objects[a.table[i]]
    {
      assert a.table[i] != a.table[id];
    }
  }

  lemma DropEntries(a: Aaa.State, h: nat, o: nat)
    requires Aaa.Consistent(a)
    ensures SameFor(a, Aaa.Drop(a, h), o)
  {
    var b := Aaa.Drop(a, h);
    if !Aaa.Listed(a, h) {
      forall i | i in a.table
        ensures a.table[i] != h && b.table[i] == a.table[i] && b.objects[a.table[i]] == a.objects[a.table[i]]
      {
        assert a.table[i] in a.table.Values;
      }
    }
  }

  // ---- Discovery ---------------------------------------------------------------------------------------------------

  lemma AdmitKeeps(d: State, conn: Conn, magic: u32, peer: LcpOptions.Peer)
    requires Inv(d)
    ensures Inv(Admit(d, conn, magic, peer))
  {
    var d1 := d.(pending := d.pending - {conn});
    assert Inv(d1) by { forall o | o in d.objs ensures IsActive(d1, o) <==> IsActive(d, o) {} }
    AllocatesFirstFree(d.ids);
    var id := Allocate(d.ids).1;
    if conn in d.pending && id.Some? {
      var key := Key(conn.line, id.value);
      assert key !in d.active;
      AddedKeeps(d1, key, NewSession(key, magic, peer));
    }
  }

  /** The state with a new object under a new key. */
  ghost function Added(d: State, key: Key, s: Session): State {
    d.(ids := Ids(d.ids.taken + {key.sid}, Succ(key.sid)), active := d.active[key := d.nextObj],
       objs := d.objs[d.nextObj := s], nextObj := d.nextObj + 1)
  }

  lemma AddedKeeps(d: State, key: Key, s: Session)
    requires Inv(d) && key.sid !in d.ids.taken && key !in d.active && s.key == key && s.auths == 0 && LocalOk(d.conf, s)
    ensures Inv(Added(d, key, s))
  {
    AddedTable(d, key, s);
    AddedLinks(d, key, s);
  }

  lemma AddedLinks(d: State, key: Key, s: Session)
    requires KeysOk(d) && ObjsOk(d) && OwnersExist(d.aaa, d.nextObj) && s.auths == 0 && LocalOk(d.conf, s)
    requires forall k :: k in d.active ==> Linked(d.aaa, d.active[k], d.objs[d.active[k]])
    ensures var d' := Added(d, key, s); forall k :: k in d'.active ==> Linked(d'.aaa, d'.active[k], d'.objs[d'.active[k]])
  {
    var o, d' := d.nextObj, Added(d, key, s);
    assert Entries(d.aaa, o) == {};
    forall k | k in d'.active ensures Linked(d'.aaa, d'.active[k], d'.objs[d'.active[k]]) {
      if k != key { assert d.active[k] != o; }
    }
  }

  lemma AddedTable(d: State, key: Key, s: Session)
    requires TableOk(d) && key.sid !in d.ids.taken && key !in d.active && s.key == key
    ensures TableOk(Added(d, key, s))
  {
    AddedObjs(d, key, s);
    AddedCovered(d, key, s);
    AddedKeys(d, key, s);
  }

  lemma AddedKeys(d: State, key: Key, s: Session)
    requires KeysOk(d) && SidsDistinct(d) && ObjsOk(d) && key.sid !in d.ids.taken && key !in d.active && s.key == key
    ensures KeysOk(Added(d, key, s)) && SidsDistinct(Added(d, key, s))
  {
    var d' := Added(d, key, s);
    forall k | k in d.active ensures d.active[k] != d.nextObj && k.sid != key.sid {
      assert d.active[k] in d.objs && k.sid in d.ids.taken;
    }
  }

  lemma AddedCovered(d: State, key: Key, s: Session)
    requires IdsCovered(d)
    ensures IdsCovered(Added(d, key, s))
  {
    var d' := Added(d, key, s);
    forall sid | sid in d.ids.taken ensures exists k :: k in d'.active && k.sid == sid {
      var k :| k in d.active && k.sid == sid;
      assert k in d'.active;
    }
    assert key in d'.active;
  }

  lemma AddedObjs(d: State, key: Key, s: Session)
    requires ObjsOk(d) && key !in d.active
    ensures ObjsOk(Added(d, key, s))
  {
    var d' := Added(d, key, s);
    assert d'.active[key] == d.nextObj;
    forall x | x in d.objs ensures IsActive(d', x) || d'.objs[x].echoOn {
      if IsActive(d, x) {
        var k :| k in d.active && d.active[k] == x;
        assert d'.active[k] == x;
      }
    }
  }

  // ---- Teardown ----------------------------------------------------------------------------------------------------

  lemma FoundSid(d: State, sid: u16)
    requires Inv(d) && sid in d.ids.taken
    ensures FindSid(d.active, sid).Some?
  {
    var k :| k in d.active && k.sid == sid;
  }

  lemma DeallocateKeeps(d: State, sid: u16)
    requires Inv(d)
    ensures Inv(Deallocate(d, sid))
  {
    if sid in d.ids.taken {
      FoundSid(d, sid);
      FoundKeeps(d, sid, FindSid(d.active, sid).value);
    }
  }

  lemma FoundKeeps(d: State, sid: u16, k: Key)
    requires Inv(d) && sid in d.ids.taken && FindSid(d.active, sid) == Some(k)
    ensures Inv(Deallocate(d, sid))
  {
    StopForOwner(d, k);
    TeardownTable(d, sid, k);
    TeardownShape(d, sid, k);
    TornDownInv(d, Deallocate(d, sid), k);
  }

  lemma TeardownShape(d: State, sid: u16, k: Key)
    requires sid in d.ids.taken && FindSid(d.active, sid) == Some(k) && d.active[k] in d.objs
    ensures var d', o := Deallocate(d, sid), d.active[k];
            && d'.conf == d.conf && d'.nextObj == d.nextObj && d'.active == d.active - {k}
            && d'.aaa == Aaa.Stop(d.aaa, d.objs[o].aaaId)
            && (forall x :: x in d'.objs ==> x in d.objs && d'.objs[x] == d.objs[x])
            && (forall x :: x in d.objs && x != o ==> x in d'.objs && d'.objs[x] == d.objs[x])
  {
  }

  /** The parts of the invariant after a teardown put together. */
  lemma TornDownInv(d: State, d': State, k: Key)
    requires Inv(d) && k in d.active && TableOk(d') && d'.conf == d.conf && d'.nextObj == d.nextObj
    requires Aaa.Consistent(d'.aaa) && OwnersExist(d'.aaa, d.nextObj)
    requires d'.active == d.active - {k} && forall x :: x != d.active[k] ==> SameFor(d.aaa, d'.aaa, x)
    requires forall x :: x in d'.objs ==> x in d.objs && d'.objs[x] == d.objs[x]
    requires forall x :: x in d.objs && x != d.active[k] ==> x in d'.objs && d'.objs[x] == d.objs[x]
    ensures Inv(d')
  {
    OthersStayLinked(d, d', k);
    forall o | o in d'.objs ensures LocalOk(d'.conf, d'.objs[o]) {
      assert d'.objs[o] == d.objs[o];
    }
  }

  /** On the AAA side a teardown only touches what the session itself has there. */
  lemma StopForOwner(d: State, k: Key)
    requires Inv(d) && k in d.active
    ensures var o, a := d.active[k], Aaa.Stop(d.aaa, d.objs[d.active[k]].aaaId);
            Aaa.Consistent(a) && OwnersExist(a, d.nextObj) && forall x :: x != o ==> SameFor(d.aaa, a, x)
  {
    var o := d.active[k];
    var id := d.objs[o].aaaId;
    ActiveKey(d, k);
    ActiveLinked(d, o);
    Aaa.StopKeepsConsistent(d.aaa, id);
    if id != Aaa.NO_SESSION {
      StopEntries(d.aaa, id, o);
    }
  }

  lemma OthersStayLinked(d: State, d': State, k: Key)
    requires TableOk(d) && k in d.active && forall j :: j in d.active ==> Linked(d.aaa, d.active[j], d.objs[d.active[j]])
    requires d'.active == d.active - {k} && forall x :: x != d.active[k] ==> SameFor(d.aaa, d'.aaa, x)
    requires forall x :: x in d.objs && x != d.active[k] ==> x in d'.objs && d'.objs[x] == d.objs[x]
    ensures forall j :: j in d'.active ==> d'.active[j] in d'.objs && Linked(d'.aaa, d'.active[j], d'.objs[d'.active[j]])
  {
    ActiveKey(d, k);
    forall j | j in d'.active ensures d'.active[j] in d'.objs && Linked(d'.aaa, d'.active[j], d'.objs[d'.active[j]]) {
      LinkedFrame(d.aaa, d'.aaa, d.active[j], d.objs[d.active[j]]);
    }
  }

  lemma TeardownTable(d: State, sid: u16, k: Key)
    requires Inv(d) && sid in d.ids.taken && FindSid(d.active, sid) == Some(k)
    ensures TableOk(Deallocate(d, sid))
  {
    var o, d' := d.active[k], Deallocate(d, sid);
    ActiveKey(d, k);
    TeardownObjs(d, d', k);
    TeardownKeys(d, d', k);
  }

  lemma TeardownKeys(d: State, d': State, k: Key)
    requires TableOk(d) && k in d.active && d'.active == d.active - {k} && d'.ids.taken == d.ids.taken - {k.sid}
    requires d'.objs == if d.objs[d.active[k]].echoOn then d.objs else d.objs - {d.active[k]}
    ensures KeysOk(d') && IdsCovered(d') && SidsDistinct(d')
  {
    forall j | j in d'.active ensures d'.active[j] in d'.objs && d'.objs[d'.active[j]].key == j && j.sid in d'.ids.taken {
      assert d.active[j] != d.active[k];
    }
    forall y | y in d'.ids.taken ensures exists j :: j in d'.active && j.sid == y {
      var j :| j in d.active && j.sid == y;
      assert j in d'.active;
    }
  }

  lemma TeardownObjs(d: State, d': State, k: Key)
    requires TableOk(d) && k in d.active && d'.active == d.active - {k} && d'.nextObj == d.nextObj
    requires d'.objs == if d.objs[d.active[k]].echoOn then d.objs else d.objs - {d.active[k]}
    ensures ObjsOk(d')
  {
    forall x | x in d'.objs ensures x < d'.nextObj && (IsActive(d', x) || d'.objs[x].echoOn) {
      if x != d.active[k] && IsActive(d, x) {
        var j :| j in d.active && d.active[j] == x;
        assert j in d'.active && d'.active[j] == x;
      }
    }
  }
}
