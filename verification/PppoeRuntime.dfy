/** The session table as the daemon holds it: an object whose methods update the set of ids, the active and the pending
    sessions; proved against the steps of the daemon model. */
module PppoeRuntime {
  import opened Wire
  import opened SessionIds
  import LcpOptions
  import AaaTable
  import opened Daemon
  import opened DaemonInvariant

  class PppoeRuntime {
    const conf: Conf
    const aaa: AaaTable.Table
    var sessionSet: set<u16>
    var nextSessionId: u16
    var activeSessions: map<Key, nat>
    var pendingSession: set<Conn>
    /** The session objects that are referenced, by handle. */
    var objs: map<nat, Session>
    var nextObj: nat
    ghost var provisions: seq<Provision>

    ghost predicate Usable()
      reads this`nextSessionId
    {
      aaa.Usable() && nextSessionId != 0
    }

    ghost function Value(): State
      requires Usable()
      reads this, aaa, aaa.pools.Values
    {
      State(conf, Ids(sessionSet, nextSessionId), activeSessions, objs, nextObj, pendingSession, aaa.Value(), provisions)
    }

    constructor (conf: Conf, aaa: AaaTable.Table)
      requires aaa.Usable() && aaa.sessions == map[] && aaa.objects == map[] && aaa.next == 0
      ensures Usable() && this.aaa == aaa && Value() == Init(conf, aaa.PoolValues())
    {
      this.conf, this.aaa := conf, aaa;
      sessionSet, nextSessionId, activeSessions, pendingSession, objs, nextObj := {}, 1, map[], {}, map[], 0;
      provisions := [];
    }

    method PendeSession(conn: Conn) returns (err: bool)
      requires Usable()
      modifies this`pendingSession
      ensures Value() == old(Value()).(pending := old(pendingSession) + {conn}) && (err <==> conn in old(pendingSession))
    {
      if conn in pendingSession {
        return true;
      }
      pendingSession := pendingSession + {conn};
      err := false;
    }

    method CheckSession(conn: Conn) returns (found: bool)
      requires Usable()
      modifies this`pendingSession
      ensures Value() == old(Value()).(pending := old(pendingSession) - {conn}) && (found <==> conn in old(pendingSession))
    {
      if conn in pendingSession {
        pendingSession := pendingSession - {conn};
        return true;
      }
      found := false;
    }

    method ClearPendingSession(conn: Conn)
      requires Usable()
      modifies this`pendingSession
      ensures Value() == old(Value()).(pending := old(pendingSession) - {conn})
    {
      if conn in pendingSession {
        pendingSession := pendingSession - {conn};
      }
    }

    /** The do-while loop: the first id from `nextSessionId` on that is not in use, or 0. */
    method FindFreeId() returns (id: u16)
      requires nextSessionId != 0
      ensures Search(Ids(sessionSet, nextSessionId), 0) == if id == 0 then None else Some(id)
    {
      ghost var s := Ids(sessionSet, nextSessionId);
      var startId := nextSessionId;
      var currentId := startId;
      ghost var k := 0;
      while true
        invariant 0 <= k < MAX_ID && currentId != 0 && Ahead(startId, k) == currentId
        invariant Search(s, 0) == Search(s, k)
        decreases MAX_ID - k
      {
        // The code first makes 1 out of a 0 here; there is none, the cursor never being 0.
        if currentId !in sessionSet {
          return currentId;
        }
        currentId := Inc16(currentId);
        if currentId == 0 {
          currentId := 1;
        }
        k := k + 1;
        if currentId == startId {
          assert k == MAX_ID;
          return 0;
        }
      }
    }

    /** `allocateSession`, and the error it reports. */
    method AllocateSession(line: Line, magic: u32, peer: LcpOptions.Peer) returns (sid: u16, err: bool)
      requires Usable()
      modifies this
      ensures Usable() && Value() == AllocatedOn(old(Value()), line, magic, peer)
      ensures var r := Allocate(Ids(old(sessionSet), old(nextSessionId))).1;
              && (err <==> r.None? || Key(line, r.value) in old(activeSessions))
              && sid == if err then 0 else r.value
    {
      var id := FindFreeId();
      if id == 0 {
        return 0, true;
      }
      var key := Key(line, id);
      if key in activeSessions {
        return 0, true;
      }
      Register(key, id, magic, peer);
      return id, false;
    }

    /** Entering the new session and moving the cursor behind it. */
    method Register(key: Key, id: u16, magic: u32, peer: LcpOptions.Peer)
      requires Usable() && id != 0 && key.sid == id
      modifies this
      ensures Usable() && Value() == old(Value()).(ids := Ids(old(sessionSet) + {id}, Succ(id)),
                active := old(activeSessions)[key := old(nextObj)],
                objs := old(objs)[old(nextObj) := NewSession(key, magic, peer)], nextObj := old(nextObj) + 1)
    {
      sessionSet := sessionSet + {id};
      activeSessions := activeSessions[key := nextObj];
      objs, nextObj := objs[nextObj := NewSession(key, magic, peer)], nextObj + 1;
      MoveCursor(id);
    }

    method MoveCursor(id: u16)
      requires id != 0
      modifies this`nextSessionId
      ensures nextSessionId == Succ(id)
    {
      nextSessionId := Inc16(id);
      if nextSessionId == 0 {
        nextSessionId := 1;
      }
    }

    /** The session part of `process_padr`: it fails without a pending entry, and when the allocation does. */
    method AcceptPadr(conn: Conn, magic: u32, peer: LcpOptions.Peer) returns (sid: u16, err: bool)
      requires Usable()
      modifies this
      ensures Usable() && Value() == Admit(old(Value()), conn, magic, peer)
      ensures var r := Allocate(Ids(old(sessionSet), old(nextSessionId))).1;
              && (err <==> conn !in old(pendingSession) || r.None? || Key(conn.line, r.value) in old(activeSessions))
              && sid == if err then 0 else r.value
    {
      var found := CheckSession(conn);
      if !found {
        assert pendingSession == old(pendingSession);
        return 0, true;
      }
      sid, err := AllocateSession(conn.line, magic, peer);
    }

    /** The search through the active sessions. */
    method FindBySid(sid: u16) returns (key: Option<Key>)
      requires Usable() && KeysOk(Value()) && SidsDistinct(Value())
      ensures key == FindSid(activeSessions, sid)
    {
      var keys := activeSessions.Keys;
      while keys != {}
        invariant keys <= activeSessions.Keys
        invariant forall k :: k in activeSessions && k !in keys ==> k.sid != sid
        decreases keys
      {
        var k :| k in keys;
        if objs[activeSessions[k]].key.sid == sid {
          return Some(k);
        }
        keys := keys - {k};
      }
      return None;
    }

    method Erase(key: Key, sid: u16)
      requires Usable() && key in activeSessions && activeSessions[key] in objs
      requires sid in sessionSet && FindSid(activeSessions, sid) == Some(key)
      modifies this, aaa, aaa.pools.Values
      ensures Usable() && Value() == Deallocate(old(Value()), sid)
    {
      var o := activeSessions[key];
      aaa.StopSession(objs[o].aaaId);
      activeSessions := activeSessions - {key};
      if !objs[o].echoOn {
        objs := objs - {o};
      }
      sessionSet := sessionSet - {sid};
    }

    /** `deallocateSession`. */
    method DeallocateSession(sid: u16) returns (err: bool)
      requires Usable() && KeysOk(Value()) && SidsDistinct(Value())
      modifies this, aaa, aaa.pools.Values
      ensures Usable() && Value() == Deallocate(old(Value()), sid)
      ensures err <==> sid !in old(sessionSet)
    {
      if sid !in sessionSet {
        return true;
      }
      err := false;
      var key := FindBySid(sid);
      if key.Some? {
        Erase(key.value, sid);
      } else {
        sessionSet := sessionSet - {sid};
      }
    }

    /** `cleanup`; the session objects go unless their echo timers refer to them. */
    method Cleanup() returns (ghost order: seq<u32>)
      requires Usable()
      modifies this, aaa, aaa.pools.Values
      ensures Usable() && Possible(old(Value()), Daemon.Event.Cleanup(order))
      ensures Value() == Daemon.Step(old(Value()), Daemon.Event.Cleanup(order))
    {
      order := aaa.StopAllSessions();
      Clear();
    }

    method Clear()
      requires Usable()
      modifies this`activeSessions, this`sessionSet, this`pendingSession, this`objs
      ensures Value() == var d := old(Value());
                         d.(ids := Ids({}, d.ids.cursor), active := map[], pending := {},
                            objs := d.objs - (set o | o in d.objs && !d.objs[o].echoOn))
    {
      activeSessions, sessionSet, pendingSession := map[], {}, {};
      var held := map o | o in objs && objs[o].echoOn :: objs[o];
      assert held == objs - (set o | o in objs && !objs[o].echoOn);
      objs := held;
    }
  }

  /** The allocation part of `Admit`. */
  function AllocatedOn(d: State, line: Line, magic: u32, peer: LcpOptions.Peer): State {
    var (ids, id) := Allocate(d.ids);
    if id.None? || Key(line, id.value) in d.active then d
    else
      var key := Key(line, id.value);
      d.(ids := ids, active := d.active[key := d.nextObj], objs := d.objs[d.nextObj := NewSession(key, magic, peer)],
         nextObj := d.nextObj + 1)
  }
}
