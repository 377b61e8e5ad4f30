/** What the daemon's runs conserve: pending discovery handshakes, and the order in which session ids come round. */
module DaemonHistory {
  import opened Wire
  import opened PppFsm
  import opened Daemon
  import opened DaemonInvariant
  import opened DaemonSteps
  import opened DaemonTheorems
  import LcpOptions
  import S = SessionIds

  // ---- Which events touch the pending table and the ids ------------------------------------------------------------

  /** Apart from discovery and clean-up, an event leaves the pending table alone and releases at most one id. */
  ghost predicate AtMostReleases(d: State, d1: State) {
    d1.pending == d.pending && (d1.ids == d.ids || exists sid :: d1.ids == S.Release(d.ids, sid))
  }

  lemma DeallocateReleases(d: State, sid: u16)
    ensures AtMostReleases(d, Deallocate(d, sid))
  {
    if sid in d.ids.taken {
      assert Deallocate(d, sid).ids == S.Release(d.ids, sid);
    }
  }

  lemma LcpReleases(d: State, o: nat, out: Outcome)
    requires o in d.objs
    ensures AtMostReleases(d, LcpEffect(d, o, out))
  {
    var s := d.objs[o].(lcp := out.fsm);
    DeallocateReleases(Put(d, o, s), s.key.sid);
  }

  lemma FrameReleases(d: State, key: Key, frame: Frame)
    requires Legible(frame)
    ensures AtMostReleases(d, FrameStep(d, key, frame))
  {
    if key in d.active && d.active[key] in d.objs {
      var o := d.active[key];
      var d1 := Started(d, o);
      match frame
      case LcpFrame(pkt) => LcpReleases(d1, o, Receive(Lcp, EnvOf(d1, d1.objs[o]), d1.objs[o].lcp, pkt));
      case IpcpFrame(pkt) =>
      case AuthRequest(via) => MethodsKeepTable(d1, o, via, d1.conf.aaa.methods);
      case OtherFrame =>
    }
  }

  lemma EchoReleases(d: State, o: nat)
    ensures AtMostReleases(d, EchoStep(d, o))
  {
    if o in d.objs && d.objs[o].echoOn {
      var s := d.objs[o];
      DeallocateReleases(Put(d, o, s.(lcp := EchoFires(EnvOf(d, s), s.lcp).fsm, echoOn := false)), s.key.sid);
    }
  }

  lemma OthersRelease(d: State, e: Event)
    requires Possible(d, e) && !e.Padi? && !e.PendingExpires? && !e.Padr? && !e.Cleanup?
    ensures AtMostReleases(d, Step(d, e))
  {
    match e
    case Padt(_, sid) => DeallocateReleases(d, sid);
    case Ppp(key, frame) => FrameReleases(d, key, frame);
    case EchoTimer(o) => EchoReleases(d, o);
    case _ =>
  }

  // ---- Conservation of pending handshakes --------------------------------------------------------------------------

  /** A PADI that entered the pending table. */
  predicate Opens(d: State, e: Event, c: Conn) { e == Padi(c) && c !in d.pending }

  /** A PADR that found its pending entry. */
  predicate Consumes(d: State, e: Event, c: Conn) { e.Padr? && e.conn == c && c in d.pending }

  /** An expiry, or a clean-up, that removed an entry. */
  predicate Expires(d: State, e: Event, c: Conn) { (e == PendingExpires(c) || e.Cleanup?) && c in d.pending }

  lemma PendingStep(d: State, e: Event, c: Conn)
    requires Possible(d, e)
    ensures c in Step(d, e).pending <==>
            Opens(d, e, c) || (c in d.pending && !Consumes(d, e, c) && !Expires(d, e, c))
  {
    if !e.Padi? && !e.PendingExpires? && !e.Padr? && !e.Cleanup? {
      OthersRelease(d, e);
    }
  }

  function Count(states: seq<State>, events: seq<Event>, n: nat, p: (State, Event) -> bool): nat
    requires n <= |events| && n <= |states|
  {
    if n == 0 then 0 else Count(states, events, n - 1, p) + if p(states[n - 1], events[n - 1]) then 1 else 0
  }

  /** For every line and cookie: what was opened is what was consumed, what expired, and what is pending. */
  lemma {:induction false} PendingBalance(states: seq<State>, events: seq<Event>, n: nat, c: Conn)
    requires IsRun(states, events) && n <= |events|
    ensures Count(states, events, n, (d, e) => Opens(d, e, c)) ==
            Count(states, events, n, (d, e) => Consumes(d, e, c)) + Count(states, events, n, (d, e) => Expires(d, e, c))
            + (if c in states[n].pending then 1 else 0)
  {
    if n == 0 {
    } else {
      PendingBalance(states, events, n - 1, c);
      PendingStep(states[n - 1], events[n - 1], c);
    }
  }

  lemma {:induction false} PendingSince(states: seq<State>, events: seq<Event>, n: nat, c: Conn) returns (j: nat)
    requires IsRun(states, events) && n <= |events| && c in states[n].pending
    ensures j < n && Opens(states[j], events[j], c) && forall m :: j < m <= n ==> c in states[m].pending
  {
    PendingStep(states[n - 1], events[n - 1], c);
    if Opens(states[n - 1], events[n - 1], c) {
      j := n - 1;
    } else {
      j := PendingSince(states, events, n - 1, c);
    }
  }

  /** A session is only set up on a PADI of its own: before each PADR that gets one comes a PADI for the same line and
      cookie that no other PADR, and no expiry, has used up. */
  lemma EachPadsHasItsPadi(states: seq<State>, events: seq<Event>, n: nat) returns (j: nat)
    requires IsRun(states, events) && n < |events| && events[n].Padr? && states[n + 1].active != states[n].active
    ensures j < n && Opens(states[j], events[j], events[n].conn)
    ensures forall m :: j < m < n ==> !Consumes(states[m], events[m], events[n].conn) &&
                                      !Expires(states[m], events[m], events[n].conn)
  {
    var c := events[n].conn;
    j := PendingSince(states, events, n, c);
    forall m | j < m < n ensures !Consumes(states[m], events[m], c) && !Expires(states[m], events[m], c) {
      PendingStep(states[m], events[m], c);
      assert c in states[m].pending && states[m + 1] == Step(states[m], events[m]);
      var next := m + 1;
      assert c in states[next].pending;
    }
  }

  /** Events that take a pending key out, or would if it were there. */
  predicate TakesOut(e: Event, c: Conn) { e == PendingExpires(c) || e.Cleanup? || (e.Padr? && e.conn == c) }

  /** No event between `i` and `n` takes the key out. */
  predicate Kept(events: seq<Event>, i: nat, n: nat, c: Conn)
    requires n <= |events|
  {
    forall m :: i < m < n ==> !TakesOut(events[m], c)
  }

  /** A PADI entered the key, and nothing has taken it out since. */
  predicate AskedFor(events: seq<Event>, n: nat, c: Conn)
    requires n <= |events|
  {
    exists i :: 0 <= i < n && events[i] == Padi(c) && Kept(events, i, n, c)
  }

  lemma {:induction false} PendingIff(states: seq<State>, events: seq<Event>, n: nat, c: Conn)
    requires IsRun(states, events) && n <= |events|
    ensures c in states[n].pending <==> AskedFor(events, n, c)
  {
    if n == 0 {
      NothingPendingAtFirst(states, events);
    } else {
      PendingIff(states, events, n - 1, c);
      StillPendingIff(states, events, n - 1, c);
    }
  }

  lemma StillPendingIff(states: seq<State>, events: seq<Event>, n: nat, c: Conn)
    requires IsRun(states, events) && n < |events| && (c in states[n].pending <==> AskedFor(events, n, c))
    ensures c in states[n + 1].pending <==> AskedFor(events, n + 1, c)
  {
    PendingOnward(states, events, n, c);
    AskedOnward(events, n, c);
  }

  lemma NothingPendingAtFirst(states: seq<State>, events: seq<Event>)
    requires IsRun(states, events)
    ensures states[0].pending == {}
  {
  }

  lemma AskedOnward(events: seq<Event>, n: nat, c: Conn)
    requires n < |events|
    ensures AskedFor(events, n + 1, c) <==> events[n] == Padi(c) || (AskedFor(events, n, c) && !TakesOut(events[n], c))
  {
    if events[n] == Padi(c) {
      assert Kept(events, n, n + 1, c);
    } else {
      if AskedFor(events, n + 1, c) {
        var i :| 0 <= i < n + 1 && events[i] == Padi(c) && Kept(events, i, n + 1, c);
        assert Kept(events, i, n, c);
      }
      if AskedFor(events, n, c) && !TakesOut(events[n], c) {
        var j :| 0 <= j < n && events[j] == Padi(c) && Kept(events, j, n, c);
        assert Kept(events, j, n + 1, c);
      }
    }
  }

  lemma PendingOnward(states: seq<State>, events: seq<Event>, n: nat, c: Conn)
    requires IsRun(states, events) && n < |events|
    ensures c in states[n + 1].pending <==> events[n] == Padi(c) || (c in states[n].pending && !TakesOut(events[n], c))
  {
    PendingStep(states[n], events[n], c);
  }

  /** A PADR gets a session if and only if a PADI of the same line and cookie came before it, that key has not expired
      since nor been used up or cleaned up, and a session id is free. */
  lemma HandshakeIff(states: seq<State>, events: seq<Event>, j: nat)
    requires IsRun(states, events) && j < |events| && events[j].Padr?
    ensures states[j + 1].active != states[j].active <==> AskedFor(events, j, events[j].conn) && !AllTaken(states[j].ids)
  {
    PendingIff(states, events, j, events[j].conn);
    FreshAlways(states, events, j, events[j].conn.line);
    AdmittedIff(states[j], events[j].conn, events[j].magic, events[j].peer);
  }

  ghost predicate AllTaken(ids: S.Ids) { forall x: S.Id :: x in ids.taken }

  lemma AdmittedIff(d: State, conn: Conn, magic: u32, peer: LcpOptions.Peer)
    requires Fresh(d, conn.line)
    ensures Admit(d, conn, magic, peer).active != d.active <==> conn in d.pending && !AllTaken(d.ids)
  {
    NoneIffAllTaken(d.ids);
    if S.Allocate(d.ids).1.Some? {
      AdmitAdds(d, conn, magic, peer, S.Allocate(d.ids).1.value);
    }
  }

  /** The next id makes a new key. */
  predicate Fresh(d: State, line: Line) {
    S.Allocate(d.ids).1.Some? ==> Key(line, S.Allocate(d.ids).1.value) !in d.active
  }

  lemma FreshAlways(states: seq<State>, events: seq<Event>, j: nat, line: Line)
    requires IsRun(states, events) && j < |states|
    ensures Fresh(states[j], line)
  {
    InvAlways(states, events, j);
    if S.Allocate(states[j].ids).1.Some? { FreshKey(states[j], line); }
  }

  lemma NoneIffAllTaken(ids: S.Ids)
    ensures S.Allocate(ids).1.None? <==> AllTaken(ids)
  {
    S.AllocatesFirstFree(ids);
  }

  lemma AdmitAdds(d: State, conn: Conn, magic: u32, peer: LcpOptions.Peer, id: S.Id)
    requires S.Allocate(d.ids).1 == Some(id) && Key(conn.line, id) !in d.active
    ensures Admit(d, conn, magic, peer).active != d.active <==> conn in d.pending
  {
    assert Key(conn.line, id) in d.active[Key(conn.line, id) := d.nextObj];
  }

  // ---- Session ids come round --------------------------------------------------------------------------------------

  /** A PADR that gets session id `x`. */
  predicate Admits(d: State, e: Event, x: S.Id) {
    e.Padr? && e.conn in d.pending && S.Allocate(d.ids).1 == Some(x)
  }

  lemma AdmitAllocates(d: State, conn: Conn, magic: u32, peer: LcpOptions.Peer)
    requires Inv(d)
    ensures Admit(d, conn, magic, peer).ids == if conn in d.pending then S.Allocate(d.ids).0 else d.ids
  {
    if S.Allocate(d.ids).1.Some? {
      FreshKey(d, conn.line);
    }
  }

  /** For the ids, every event is an allocation, the release of one id, or that of all. */
  lemma StepIds(d: State, e: Event) returns (x: S.Event)
    requires Inv(d) && Possible(d, e)
    ensures Step(d, e).ids == S.Step(d.ids, x) && (e.Padr? && e.conn in d.pending ==> x == S.Allocates)
  {
    TakenAreSids(d);
    assert S.Release(d.ids, 0) == d.ids;
    x := S.Releases(0);
    if e.Padr? {
      AdmitAllocates(d, e.conn, e.magic, e.peer);
      if e.conn in d.pending { x := S.Allocates; }
    } else if e.Cleanup? {
      x := S.ReleasesAll;
    } else if !e.Padi? && !e.PendingExpires? {
      OthersRelease(d, e);
      if Step(d, e).ids != d.ids {
        var sid :| Step(d, e).ids == S.Release(d.ids, sid);
        x := S.Releases(sid);
      }
    }
  }

  /** `x` is what event `e` does to the ids. */
  predicate Tracks(d: State, e: Event, d1: State, x: S.Event) {
    d1.ids == S.Step(d.ids, x) && (e.Padr? && e.conn in d.pending ==> x == S.Allocates)
  }

  /** `evs` are the id events of the stretch that starts with event `i`. */
  ghost predicate Tracked(states: seq<State>, events: seq<Event>, i: nat, evs: seq<S.Event>) {
    && i + |evs| < |states| && i + |evs| <= |events|
    && forall m :: i <= m < i + |evs| ==> Tracks(states[m], events[m], states[m + 1], evs[m - i])
  }

  lemma {:induction false} StretchIds(states: seq<State>, events: seq<Event>, i: nat, n: nat) returns (evs: seq<S.Event>)
    requires IsRun(states, events) && i <= n <= |events|
    ensures |evs| == n - i && Tracked(states, events, i, evs)
  {
    if n == i {
      evs := [];
    } else {
      var front := StretchIds(states, events, i, n - 1);
      evs := StretchOn(states, events, i, front);
    }
  }

  lemma StretchOn(states: seq<State>, events: seq<Event>, i: nat, front: seq<S.Event>) returns (evs: seq<S.Event>)
    requires IsRun(states, events) && Tracked(states, events, i, front) && i + |front| < |events|
    ensures |evs| == |front| + 1 && Tracked(states, events, i, evs)
  {
    var x := RunIds(states, events, i + |front|);
    evs := front + [x];
    TrackedFurther(states, events, i, front, x);
  }

  lemma TrackedFurther(states: seq<State>, events: seq<Event>, i: nat, front: seq<S.Event>, x: S.Event)
    requires Tracked(states, events, i, front) && i + |front| + 1 < |states| && i + |front| < |events|
    requires Tracks(states[i + |front|], events[i + |front|], states[i + |front| + 1], x)
    ensures Tracked(states, events, i, front + [x])
  {
  }

  lemma RunIds(states: seq<State>, events: seq<Event>, n: nat) returns (x: S.Event)
    requires IsRun(states, events) && n < |events|
    ensures Tracks(states[n], events[n], states[n + 1], x)
  {
    InvAlways(states, events, n);
    x := StepIds(states[n], events[n]);
  }

  function IdsFrom(states: seq<State>, i: nat, n: nat): seq<S.Ids>
    requires i <= n < |states|
  {
    seq(n - i + 1, m requires 0 <= m < n - i + 1 => states[i + m].ids)
  }

  /** The ids of a stretch of events are a run of the id table. */
  lemma IdRun(states: seq<State>, events: seq<Event>, i: nat, evs: seq<S.Event>)
    requires Tracked(states, events, i, evs)
    ensures S.IsRun(IdsFrom(states, i, i + |evs|), evs)
  {
    var ids := IdsFrom(states, i, i + |evs|);
    forall m | 0 <= m < |evs| ensures ids[m + 1] == S.Step(ids[m], evs[m]) {
      assert Tracks(states[i + m], events[i + m], states[i + m + 1], evs[i + m - i]);
    }
  }

  lemma AdmissionGives(states: seq<State>, events: seq<Event>, i: nat, evs: seq<S.Event>, m: nat, x: S.Id)
    requires Tracked(states, events, i, evs) && i <= m < i + |evs| && Admits(states[m], events[m], x)
    ensures S.Gives(IdsFrom(states, i, i + |evs|)[m - i], evs[m - i], x)
  {
    assert Tracks(states[m], events[m], states[m + 1], evs[m - i]);
  }

  lemma UsedInBetween(states: seq<State>, i: nat, n: nat, k: nat, y: S.Id) returns (m: nat)
    requires i <= n < |states| && k <= n - i && S.InUse(IdsFrom(states, i, n), 0, k, y)
    ensures i < m <= i + k && y in states[m].ids.taken
  {
    var j :| 0 < j <= k && y in IdsFrom(states, i, n)[j].taken;
    m := i + j;
  }

  lemma RoundTheCircle(states: seq<State>, events: seq<Event>, i: nat, j: nat, evs: seq<S.Event>, x: S.Id, y: S.Id)
    returns (m: nat)
    requires Tracked(states, events, i, evs) && |evs| == j + 1 - i && i < j < |events| && y != x
    requires Admits(states[i], events[i], x) && Admits(states[j], events[j], x)
    ensures i < m <= j && y in states[m].ids.taken
  {
    IdRun(states, events, i, evs);
    AdmissionGives(states, events, i, evs, i, x);
    AdmissionGives(states, events, i, evs, j, x);
    S.FullCircle(IdsFrom(states, i, j + 1), evs, 0, j - i, x, y);
    m := UsedInBetween(states, i, j + 1, j - i, y);
  }

  /** Between two admissions under the same session id, whatever happens in between, every other id was the id of an
      active session at some moment. */
  lemma IdComesBackLast(states: seq<State>, events: seq<Event>, i: nat, j: nat, x: S.Id, y: S.Id) returns (m: nat, k: Key)
    requires IsRun(states, events) && i < j < |events| && y != x
    requires Admits(states[i], events[i], x) && Admits(states[j], events[j], x)
    ensures i < m <= j && k in states[m].active && k.sid == y
  {
    var evs := StretchIds(states, events, i, j + 1);
    m := RoundTheCircle(states, events, i, j, evs, x, y);
    k := Holder(states, events, m, y);
  }

  /** An id in use belongs to an active session. */
  lemma Holder(states: seq<State>, events: seq<Event>, m: nat, y: S.Id) returns (k: Key)
    requires IsRun(states, events) && m < |states| && y in states[m].ids.taken
    ensures k in states[m].active && k.sid == y
  {
    InvAlways(states, events, m);
    k :| k in states[m].active && k.sid == y;
  }
}
