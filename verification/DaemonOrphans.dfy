/** AAA sessions nobody can stop: once an entry of the AAA table is not the one its PPPoE session refers to, nothing but a
    clean-up takes it out, and its address stays taken. */
module DaemonOrphans {
  import opened Wire
  import opened PppFsm
  import LcpOptions
  import Aaa
  import opened Daemon
  import opened DaemonInvariant
  import opened DaemonSteps
  import opened DaemonTheorems

  /** Entry `i` is in the table, and no active session refers to it. */
  ghost predicate Orphan(d: State, i: u32) {
    && i in d.aaa.table && d.aaa.table[i] in d.aaa.objects
    && forall k :: k in d.active && d.active[k] in d.objs ==> d.objs[d.active[k]].aaaId != i
  }

  predicate EntryStays(a: Aaa.State, b: Aaa.State, i: u32)
    requires i in a.table && a.table[i] in a.objects
  {
    && i in b.table && b.table[i] == a.table[i]
    && b.table[i] in b.objects && b.objects[b.table[i]] == a.objects[a.table[i]]
  }

  /** The entry is as it was, and still nobody's. */
  ghost predicate OrphanStays(d: State, d1: State, i: u32) {
    Orphan(d, i) ==> EntryStays(d.aaa, d1.aaa, i) && Orphan(d1, i)
  }

  // ---- The AAA operations ------------------------------------------------------------------------------------------

  lemma StopStays(a: Aaa.State, id: u32, i: u32)
    requires Aaa.Consistent(a) && i in a.table && i != id
    ensures EntryStays(a, Aaa.Stop(a, id), i)
  {
    if id in a.table {
      assert a.table[i] != a.table[id];
    }
  }

  lemma DropStays(a: Aaa.State, h: nat, i: u32)
    requires Aaa.Consistent(a) && i in a.table
    ensures EntryStays(a, Aaa.Drop(a, h), i)
  {
    assert a.table[i] in a.table.Values;
  }

  /** A start adds an entry under another id. */
  lemma StartStays(d: State, x: nat, via: Via, r: (Aaa.State, Option<u32>), i: u32)
    requires Aaa.Consistent(d.aaa) && Aaa.Entered(d.aaa, r, x)
    ensures OrphanStays(d, AfterStart(d, x, via, r), i)
  {
    if Orphan(d, i) && r.1.Some? {
      EnteredStays(d.aaa, r, x, i);
      SucceedsStays(d.(aaa := r.0), x, via, r.1.value, i);
    }
  }

  lemma EnteredStays(a: Aaa.State, r: (Aaa.State, Option<u32>), x: nat, i: u32)
    requires Aaa.Consistent(a) && Aaa.Entered(a, r, x) && i in a.table && r.1.Some?
    ensures EntryStays(a, r.0, i) && r.1.value != i
  {
  }

  lemma SucceedsStays(d: State, x: nat, via: Via, id: u32, i: u32)
    requires id != i
    ensures OrphanStays(d, AuthSucceeds(d, x, via, id), i)
  {
  }

  // ---- The daemon's functions --------------------------------------------------------------------------------------

  lemma PutStays(d: State, x: nat, s: Session, i: u32)
    requires x in d.objs && s.aaaId == d.objs[x].aaaId
    ensures OrphanStays(d, Put(d, x, s), i)
  {
  }

  lemma SayStays(d: State, x: nat, a: AuthPacket, i: u32)
    ensures OrphanStays(d, Say(d, x, a), i)
  {
  }

  lemma DeallocateStays(d: State, sid: u16, i: u32)
    requires Aaa.Consistent(d.aaa)
    ensures OrphanStays(d, Deallocate(d, sid), i)
  {
    var k := FindSid(d.active, sid);
    if Orphan(d, i) && sid in d.ids.taken && k.Some? && d.active[k.value] in d.objs {
      StopStays(d.aaa, d.objs[d.active[k.value]].aaaId, i);
    }
  }

  lemma DeallocatePutStays(d: State, x: nat, s: Session, i: u32)
    requires Aaa.Consistent(d.aaa) && x in d.objs && s.aaaId == d.objs[x].aaaId
    ensures OrphanStays(d, Deallocate(Put(d, x, s), s.key.sid), i)
  {
    PutStays(d, x, s, i);
    DeallocateStays(Put(d, x, s), s.key.sid, i);
  }

  lemma NoneStays(d: State, x: nat, via: Via, i: u32)
    requires Aaa.Consistent(d.aaa)
    ensures var d1 := AfterStart(d, x, via, Aaa.StartNone(d.conf.aaa, d.aaa, x)); OrphanStays(d, d1, i) && Aaa.Consistent(d1.aaa)
  {
    Aaa.StartNoneFacts(d.conf.aaa, d.aaa, x);
    StartStays(d, x, via, Aaa.StartNone(d.conf.aaa, d.aaa, x), i);
  }

  lemma {:induction false} MethodsStay(d: State, x: nat, via: Via, methods: seq<Aaa.Method>, i: u32)
    requires Aaa.Consistent(d.aaa)
    ensures OrphanStays(d, TryMethods(d, x, via, methods), i)
    decreases methods
  {
    if methods == [] || methods[0] == Aaa.RadiusAuth {
    } else if methods[0] == Aaa.LocalAuth {
      MethodsStay(d, x, via, methods[1..], i);
    } else {
      NoneStays(d, x, via, i);
      MethodsStay(AfterStart(d, x, via, Aaa.StartNone(d.conf.aaa, d.aaa, x)), x, via, methods[1..], i);
    }
  }

  lemma AnswerStays(d: State, x: nat, via: Via, accept: bool, resp: Aaa.RadiusResponse, i: u32)
    requires Aaa.Consistent(d.aaa)
    ensures OrphanStays(d, AfterAnswer(d, x, via, accept, resp), i)
  {
    var told := if accept then d else AuthFails(d, x, via);
    SayStays(d, x, Failure(via), i);
    Aaa.StartRadiusFacts(d.conf.aaa, told.aaa, x, resp);
    StartStays(told, x, via, Aaa.StartRadius(d.conf.aaa, told.aaa, x, resp), i);
    SayStays(told, x, Failure(via), i);
  }

  lemma LcpStays(d: State, x: nat, out: Outcome, i: u32)
    requires Aaa.Consistent(d.aaa) && x in d.objs
    ensures OrphanStays(d, LcpEffect(d, x, out), i)
  {
    var s := d.objs[x].(lcp := out.fsm);
    PutStays(d, x, s, i);
    DeallocatePutStays(d, x, s, i);
    SayStays(Put(d, x, s), x, Challenge, i);
  }

  lemma IpcpStays(d: State, x: nat, pkt: seq<byte>, i: u32)
    requires x in d.objs && Handled(Ipcp, pkt)
    ensures OrphanStays(d, IpcpStep(d, x, pkt), i)
  {
    PutStays(d, x, IpcpStep(d, x, pkt).objs[x], i);
  }

  lemma AuthStays(d: State, x: nat, via: Via, i: u32)
    requires Aaa.Consistent(d.aaa) && x in d.objs
    ensures OrphanStays(d, AuthStep(d, x, via), i)
  {
    SayStays(d, x, Success(via), i);
    MethodsStay(d, x, via, d.conf.aaa.methods, i);
  }

  lemma ProtocolStays(d: State, x: nat, frame: Frame, i: u32)
    requires Aaa.Consistent(d.aaa) && x in d.objs && Legible(frame)
    ensures OrphanStays(d, ProtocolStep(d, x, frame), i)
  {
    match frame
    case LcpFrame(pkt) => LcpStays(d, x, Receive(Lcp, EnvOf(d, d.objs[x]), d.objs[x].lcp, pkt), i);
    case IpcpFrame(pkt) => IpcpStays(d, x, pkt, i);
    case AuthRequest(via) => AuthStays(d, x, via, i);
    case OtherFrame =>
  }

  lemma FrameStays(d: State, key: Key, frame: Frame, i: u32)
    requires Aaa.Consistent(d.aaa) && Legible(frame)
    ensures OrphanStays(d, FrameStep(d, key, frame), i)
  {
    if key in d.active && d.active[key] in d.objs {
      var x := d.active[key];
      StartedStays(d, x, i);
      ProtocolStays(Started(d, x), x, frame, i);
    }
  }

  lemma StartedStays(d: State, x: nat, i: u32)
    requires x in d.objs
    ensures OrphanStays(d, Started(d, x), i) && Started(d, x).aaa == d.aaa
  {
    if !d.objs[x].started {
      PutStays(d, x, Started(d, x).objs[x], i);
    }
  }

  lemma EchoStays(d: State, x: nat, i: u32)
    requires Aaa.Consistent(d.aaa)
    ensures OrphanStays(d, EchoStep(d, x), i)
  {
    if x in d.objs && d.objs[x].echoOn {
      var s := d.objs[x];
      var f := EchoFires(EnvOf(d, s), s.lcp).fsm;
      PutStays(d, x, s.(lcp := f), i);
      DeallocatePutStays(d, x, s.(lcp := f, echoOn := false), i);
    }
  }

  lemma AdmitStays(d: State, conn: Conn, magic: u32, peer: LcpOptions.Peer, i: u32)
    requires Aaa.Consistent(d.aaa)
    ensures OrphanStays(d, Admit(d, conn, magic, peer), i)
  {
  }

  lemma StepStays(d: State, e: Daemon.Event, i: u32)
    requires Aaa.Consistent(d.aaa) && Daemon.Possible(d, e) && !e.Cleanup?
    ensures OrphanStays(d, Daemon.Step(d, e), i)
  {
    if e.Ppp? {
      PppStays(d, e, i);
    } else if e.RadiusAnswer? {
      RadiusStays(d, e, i);
    } else {
      OtherStays(d, e, i);
    }
  }

  lemma PppStays(d: State, e: Daemon.Event, i: u32)
    requires Aaa.Consistent(d.aaa) && Daemon.Possible(d, e) && e.Ppp?
    ensures OrphanStays(d, Daemon.Step(d, e), i)
  {
    FrameStays(d, e.key, e.frame, i);
  }

  lemma RadiusStays(d: State, e: Daemon.Event, i: u32)
    requires Aaa.Consistent(d.aaa) && Daemon.Possible(d, e) && e.RadiusAnswer?
    ensures OrphanStays(d, Daemon.Step(d, e), i)
  {
    AnswerStays(d, e.obj, e.via, e.accept, e.resp, i);
  }

  lemma OtherStays(d: State, e: Daemon.Event, i: u32)
    requires Aaa.Consistent(d.aaa) && Daemon.Possible(d, e) && !e.Cleanup? && !e.Ppp? && !e.RadiusAnswer?
    ensures OrphanStays(d, Daemon.Step(d, e), i)
  {
    match e
    case Padr(conn, magic, peer) => AdmitStays(d, conn, magic, peer, i);
    case Padt(_, sid) => DeallocateStays(d, sid, i);
    case RadiusError(x, via) => SayStays(d, x, Failure(via), i);
    case EchoTimer(x) => EchoStays(d, x, i);
    case AccountingDone(h) => AccountingStays(d, h, i);
    case _ =>
  }

  lemma AccountingStays(d: State, h: nat, i: u32)
    requires Aaa.Consistent(d.aaa)
    ensures OrphanStays(d, d.(aaa := Aaa.Drop(d.aaa, h)), i)
  {
    if i in d.aaa.table { DropStays(d.aaa, h, i); }
  }

  // ---- Over whole runs ---------------------------------------------------------------------------------------------

  /** The entry holds an address of pool `p`, and the pool knows. */
  predicate Occupies(a: Aaa.State, i: u32, p: string) {
    && i in a.table && a.table[i] in a.objects && Aaa.Holds(a.objects[a.table[i]], p)
    && p in a.pools && a.objects[a.table[i]].lease.address in a.pools[p].ips
  }

  lemma OrphanOnward(states: seq<State>, events: seq<Daemon.Event>, n: nat, i: u32)
    requires Daemon.IsRun(states, events) && n < |events| && !events[n].Cleanup? && Orphan(states[n], i)
    ensures EntryStays(states[n].aaa, states[n + 1].aaa, i) && Orphan(states[n + 1], i)
  {
    InvAlways(states, events, n);
    StepStays(states[n], events[n], i);
  }

  /** An entry is an orphan if and only if no teardown would take it out. */
  lemma OrphanIff(states: seq<State>, events: seq<Daemon.Event>, n: nat, i: u32)
    requires Daemon.IsRun(states, events) && n < |states| && i in states[n].aaa.table
    ensures Orphan(states[n], i) <==> forall sid :: i in Deallocate(states[n], sid).aaa.table
  {
    InvAlways(states, events, n);
    var d := states[n];
    if Orphan(d, i) {
      forall sid ensures i in Deallocate(d, sid).aaa.table {
        DeallocateStays(d, sid, i);
      }
    } else {
      var k :| k in d.active && d.active[k] in d.objs && d.objs[d.active[k]].aaaId == i;
      StopsItsEntry(d, k);
    }
  }

  lemma StopsItsEntry(d: State, k: Key)
    requires Inv(d) && k in d.active && d.active[k] in d.objs
    ensures d.objs[d.active[k]].aaaId !in Deallocate(d, k.sid).aaa.table
  {
    DeallocateIsOwn(d, k);
  }

  /** Until a clean-up comes, an orphan stays in the table as it is, and an orphan. */
  lemma {:induction false} OrphansStay(states: seq<State>, events: seq<Daemon.Event>, m: nat, n: nat, i: u32)
    requires Daemon.IsRun(states, events) && m <= n <= |events| && forall x :: m <= x < n ==> !events[x].Cleanup?
    requires Orphan(states[m], i)
    ensures EntryStays(states[m].aaa, states[n].aaa, i) && Orphan(states[n], i)
    decreases n
  {
    if n == m {
    } else {
      OrphansStay(states, events, m, n - 1, i);
      OrphanOnward(states, events, n - 1, i);
    }
  }

  /** And so does its address, which no pool gives to anybody else. */
  lemma OrphansKeepAddresses(states: seq<State>, events: seq<Daemon.Event>, m: nat, n: nat, i: u32, p: string)
    requires Daemon.IsRun(states, events) && m <= n <= |events| && forall x :: m <= x < n ==> !events[x].Cleanup?
    requires Orphan(states[m], i) && Aaa.Holds(states[m].aaa.objects[states[m].aaa.table[i]], p)
    ensures Occupies(states[n].aaa, i, p)
  {
    OrphansStay(states, events, m, n, i);
    HeldIsOut(states, events, n, i, p);
  }

  lemma HeldIsOut(states: seq<State>, events: seq<Daemon.Event>, n: nat, i: u32, p: string)
    requires Daemon.IsRun(states, events) && n < |states|
    requires i in states[n].aaa.table && states[n].aaa.table[i] in states[n].aaa.objects
    requires Aaa.Holds(states[n].aaa.objects[states[n].aaa.table[i]], p)
    ensures Occupies(states[n].aaa, i, p)
  {
    InvAlways(states, events, n);
    var a := states[n].aaa;
    assert a.objects[a.table[i]].lease.address in Aaa.Held(a.objects, p);
  }
}
