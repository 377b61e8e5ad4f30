/** The AAA side as the daemon holds it: an object with the session table, over pool objects; proved against the
    functions of `Aaa`. */
module AaaTable {
  import opened Wire
  import opened IpcpOptions
  import opened FramedPool
  import Aaa

  type PoolMap = map<string, Pool>

  class Table {
    const conf: Aaa.AaaConf
    const pools: map<string, FramedPool>
    var sessions: map<u32, nat>
    var objects: map<nat, Aaa.AaaSession>
    var next: nat

    /** Each pool is usable and an object of its own. */
    ghost predicate Usable() {
      && (forall p :: p in pools ==> pools[p].startIp > 0 && pools[p].stopIp < 0xFFFF_FFFF)
      && (forall p, q :: p in pools && q in pools && pools[p] == pools[q] ==> p == q)
    }

    ghost function PoolValues(): (m: PoolMap)
      requires Usable()
      reads pools.Values
    {
      map p | p in pools :: pools[p].Value()
    }

    ghost function Value(): Aaa.State
      requires Usable()
      reads this, pools.Values
    {
      Aaa.State(sessions, objects, PoolValues(), next)
    }

    constructor (conf: Aaa.AaaConf, pools: map<string, FramedPool>)
      ensures this.conf == conf && this.pools == pools && sessions == map[] && objects == map[] && next == 0
    {
      this.conf, this.pools := conf, pools;
      sessions, objects, next := map[], map[], 0;
    }

    method Take(name: string) returns (a: u32)
      requires Usable() && name in pools
      modifies pools[name]
      ensures PoolValues() == old(PoolValues())[name := AllocateIp(old(PoolValues())[name]).0]
      ensures a == AllocateIp(old(PoolValues())[name]).1
    {
      a := pools[name].Allocate();
    }

    method GiveBack(name: string, a: u32)
      requires Usable() && name in pools
      modifies pools[name]
      ensures PoolValues() == old(PoolValues())[name := DeallocateIp(old(PoolValues())[name], a)]
    {
      pools[name].Deallocate(a);
    }

    /** The constructor of a session without RADIUS. */
    method CreateNone(owner: nat) returns (s: Aaa.AaaSession)
      requires Usable()
      modifies pools.Values
      ensures (s, PoolValues()) == Aaa.NewNone(conf, old(PoolValues()), owner)
    {
      var t := Aaa.Template("", 0, 0);
      if conf.localTemplate in conf.templates {
        t := conf.templates[conf.localTemplate];
      }
      if t.pool !in pools {
        return Aaa.AaaSession(owner, Lease(0, t.dns1, t.dns2), t.pool, false, false);
      }
      var address := Take(t.pool);
      s := Aaa.AaaSession(owner, Lease(address, t.dns1, t.dns2), t.pool, true, false);
    }

    /** The constructor of a session for a RADIUS answer. */
    method CreateRadius(owner: nat, resp: Aaa.RadiusResponse) returns (s: Aaa.AaaSession)
      requires Usable()
      modifies pools.Values
      ensures (s, PoolValues()) == Aaa.NewRadius(conf, old(PoolValues()), owner, resp)
    {
      var address, freeIp := resp.framedIp, false;
      var name := conf.localTemplate;
      if resp.template != "" {
        name := resp.template;
      }
      var pool, dns1, dns2 := "", 0, 0;
      if name in conf.templates {
        pool, dns1, dns2 := conf.templates[name].pool, conf.templates[name].dns1, conf.templates[name].dns2;
      }
      if resp.framedPool != "" {
        pool := resp.framedPool;
      }
      if resp.dns1 != 0 {
        dns1 := resp.dns1;
      }
      if resp.dns2 != 0 {
        dns2 := resp.dns2;
      }
      if address == 0 && pool != "" {
        if pool in pools {
          address := Take(pool);
          freeIp := true;
        }
      }
      s := Aaa.AaaSession(owner, Lease(address, dns1, dns2), pool, freeIp, true);
    }

    /** The loop over the ids; `NO_SESSION` when all are in use. */
    method FindFree() returns (i: u32)
      ensures Aaa.SearchId(sessions, 0) == if i == Aaa.NO_SESSION then None else Some(i)
    {
      i := 0;
      while i < Aaa.NO_SESSION
        invariant i <= Aaa.NO_SESSION && Aaa.SearchId(sessions, 0) == Aaa.SearchId(sessions, i)
        decreases Aaa.NO_SESSION - i
      {
        if i !in sessions {
          break;
        }
        i := i + 1;
      }
    }

    /** Entering a new session under a free id. */
    method Register(i: u32, s: Aaa.AaaSession)
      requires Usable()
      modifies this`sessions, this`objects, this`next
      ensures Value() == Aaa.Enter(old(Value()), i, (s, old(PoolValues())))
    {
      sessions, objects, next := sessions[i := next], objects[next := s], next + 1;
    }

    method StartSessionNone(owner: nat) returns (sid: Option<u32>)
      requires Usable()
      modifies this, pools.Values
      ensures (Value(), sid) == Aaa.StartNone(conf, old(Value()), owner)
    {
      if conf.localTemplate == "" {
        return None;
      }
      var i := FindFree();
      if i == Aaa.NO_SESSION {
        return None;
      }
      var s := CreateNone(owner);
      Register(i, s);
      sid := Some(i);
    }

    /** The callbacks made, in order: None for one with an error, the new session's id for a success. An answer that
        does not accept is reported, and then treated like one that does. */
    method ProcessRadiusAnswer(owner: nat, accept: bool, resp: Aaa.RadiusResponse) returns (calls: seq<Option<u32>>)
      requires Usable()
      modifies this, pools.Values
      ensures Value() == Aaa.StartRadius(conf, old(Value()), owner, resp).0
      ensures calls == (if accept then [] else [None]) + [Aaa.StartRadius(conf, old(Value()), owner, resp).1]
    {
      calls := [];
      if !accept {
        calls := calls + [None];
      }
      var i := FindFree();
      if i == Aaa.NO_SESSION {
        return calls + [None];
      }
      var s := CreateRadius(owner, resp);
      Register(i, s);
      calls := calls + [Some(i)];
    }

    method GetSession(sid: u32) returns (lease: Option<Lease>)
      ensures lease == if sid in sessions && sessions[sid] in objects then Some(objects[sessions[sid]].lease) else None
    {
      if sid in sessions && sessions[sid] in objects {
        lease := Some(objects[sessions[sid]].lease);
      } else {
        lease := None;
      }
    }

    /** The destructor. */
    method Destroy(h: nat)
      requires Usable() && h in objects
      modifies this, pools.Values
      ensures Value() == Aaa.Destroy(old(Value()), h)
    {
      var o := objects[h];
      if o.freeIp {
        if o.pool in pools {
          GiveBack(o.pool, o.lease.address);
        }
      }
      objects := objects - {h};
    }

    method StopSession(sid: u32)
      requires Usable()
      modifies this, pools.Values
      ensures Value() == Aaa.Stop(old(Value()), sid)
    {
      if sid in sessions {
        var h := sessions[sid];
        sessions := sessions - {sid};
        if h in objects && !objects[h].acct {
          Destroy(h);
        }
      }
    }

    /** Stopping every session of the table, in whatever order the table gives them. */
    method StopAllSessions() returns (ghost order: seq<u32>)
      requires Usable()
      modifies this, pools.Values
      ensures Value() == Aaa.StopEach(old(Value()), order)
      ensures forall i :: i in old(sessions) ==> i in order
    {
      order := [];
      while sessions.Keys != {}
        invariant Value() == Aaa.StopEach(old(Value()), order)
        invariant sessions.Keys <= old(sessions.Keys)
        invariant forall i :: i in old(sessions) ==> i in sessions || i in order
        decreases sessions.Keys
      {
        var i :| i in sessions.Keys;
        Aaa.StopEachSnoc(old(Value()), order, i);
        StopSession(i);
        order := order + [i];
      }
    }
  }
}
