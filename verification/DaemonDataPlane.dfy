/** When a session leaves the data plane. The destructor of a session object takes it out; so it stays in for as long as
    something refers to the object. */
module DaemonDataPlane {
  import opened Wire
  import opened PppFsm
  import Aaa
  import opened Daemon
  import opened DaemonSteps
  import opened DaemonTheorems
  import opened DaemonContinuations
  import opened DaemonEcho

  /** The object leaves memory, and its session the data plane. */
  predicate Leaves(d: State, d1: State, o: nat) { o in d.objs && o !in d1.objs }

  // ---- A running timer keeps its object ----------------------------------------------------------------------------

  predicate Runs(d: State, o: nat) { o in d.objs && d.objs[o].echoOn }

  lemma SayRuns(d: State, x: nat, a: AuthPacket, o: nat)
    requires Runs(d, o)
    ensures Runs(Say(d, x, a), o)
  {
  }

  lemma DeallocateRuns(d: State, sid: u16, o: nat)
    requires Runs(d, o)
    ensures Runs(Deallocate(d, sid), o)
  {
  }

  lemma AfterStartRuns(d: State, x: nat, via: Via, r: (Aaa.State, Option<u32>), o: nat)
    requires Runs(d, o)
    ensures Runs(AfterStart(d, x, via, r), o)
  {
  }

  lemma {:induction false} MethodsRun(d: State, x: nat, via: Via, methods: seq<Aaa.Method>, o: nat)
    requires Runs(d, o)
    ensures Runs(TryMethods(d, x, via, methods), o)
    decreases methods
  {
    if methods == [] || methods[0] == Aaa.RadiusAuth {
    } else if methods[0] == Aaa.LocalAuth {
      MethodsRun(d, x, via, methods[1..], o);
    } else {
      AfterStartRuns(d, x, via, Aaa.StartNone(d.conf.aaa, d.aaa, x), o);
      MethodsRun(AfterStart(d, x, via, Aaa.StartNone(d.conf.aaa, d.aaa, x)), x, via, methods[1..], o);
    }
  }

  lemma AnswerRuns(d: State, x: nat, via: Via, accept: bool, resp: Aaa.RadiusResponse, o: nat)
    requires Runs(d, o)
    ensures Runs(AfterAnswer(d, x, via, accept, resp), o)
  {
    var told := if accept then d else AuthFails(d, x, via);
    AfterStartRuns(told, x, via, Aaa.StartRadius(d.conf.aaa, told.aaa, x, resp), o);
  }

  lemma LcpRuns(d: State, x: nat, out: Outcome, o: nat)
    requires Runs(d, o) && x in d.objs
    ensures Runs(LcpEffect(d, x, out), o)
  {
    var s := d.objs[x].(lcp := out.fsm);
    DeallocateRuns(Put(d, x, s), s.key.sid, o);
    SayRuns(Put(d, x, s), x, Challenge, o);
  }

  lemma ProtocolRuns(d: State, x: nat, frame: Frame, o: nat)
    requires Runs(d, o) && x in d.objs && Legible(frame)
    ensures Runs(ProtocolStep(d, x, frame), o)
  {
    match frame
    case LcpFrame(pkt) => LcpRuns(d, x, Receive(Lcp, EnvOf(d, d.objs[x]), d.objs[x].lcp, pkt), o);
    case IpcpFrame(pkt) =>
    case AuthRequest(via) => MethodsRun(d, x, via, d.conf.aaa.methods, o);
    case OtherFrame =>
  }

  lemma FrameRuns(d: State, key: Key, frame: Frame, o: nat)
    requires Runs(d, o) && Legible(frame)
    ensures Runs(FrameStep(d, key, frame), o)
  {
    if key in d.active && d.active[key] in d.objs {
      ProtocolRuns(Started(d, d.active[key]), d.active[key], frame, o);
    }
  }

  lemma FiringRuns(d: State, x: nat, o: nat)
    requires Runs(d, o) && !(x == o && LastFiring(d, o))
    ensures Runs(EchoStep(d, x), o)
  {
    if Runs(d, x) && x != o {
      var s := d.objs[x];
      DeallocateRuns(Put(d, x, s.(lcp := EchoFires(EnvOf(d, s), s.lcp).fsm, echoOn := false)), s.key.sid, o);
    }
  }

  lemma StepRuns(d: State, e: Daemon.Event, o: nat)
    requires Daemon.Possible(d, e) && Runs(d, o) && o < d.nextObj && !(e == EchoTimer(o) && LastFiring(d, o))
    ensures Runs(Daemon.Step(d, e), o)
  {
    match e
    case Padt(_, sid) => DeallocateRuns(d, sid, o);
    case Ppp(key, frame) => FrameRuns(d, key, frame, o);
    case RadiusAnswer(x, via, accept, resp) => AnswerRuns(d, x, via, accept, resp, o);
    case RadiusError(x, via) => SayRuns(d, x, Failure(via), o);
    case EchoTimer(x) => FiringRuns(d, x, o);
    case Padr(conn, magic, peer) => AdmitQuiet(d, conn, magic, peer, o);
    case _ =>
  }

  // ---- Over whole runs ---------------------------------------------------------------------------------------------

  /** A session object whose timer runs leaves memory at the tenth firing without a heard reply, and at no other event. */
  lemma LeavesIff(states: seq<State>, events: seq<Daemon.Event>, i: nat, o: nat)
    requires Daemon.IsRun(states, events) && i < |events| && Runs(states[i], o)
    ensures Leaves(states[i], states[i + 1], o) <==>
            Fires(states[i], events[i], o) && Unanswered(states, events, i, o) == ECHO_LIMIT
    ensures Leaves(states[i], states[i + 1], o) || Runs(states[i + 1], o)
  {
    var d, e := states[i], events[i];
    RunReaches(states, events, i);
    HandleIsOld(d, o);
    if Fires(d, e, o) {
      TenthFiringIsLast(states, events, i, o);
      LastAtTen(states, events, i, o);
    }
    if !(e == EchoTimer(o) && LastFiring(d, o)) {
      StepRuns(d, e, o);
    }
  }

  lemma LastAtTen(states: seq<State>, events: seq<Daemon.Event>, i: nat, o: nat)
    requires Daemon.IsRun(states, events) && i < |events| && Runs(states[i], o)
    ensures LastFiring(states[i], o) <==> Unanswered(states, events, i, o) == ECHO_LIMIT
  {
    CounterIsUnanswered(states, events, i, o);
    TenIsLast(states[i], o);
  }

  lemma TenIsLast(d: State, o: nat)
    requires Runs(d, o) && d.objs[o].lcp.echo <= ECHO_LIMIT
    ensures LastFiring(d, o) <==> d.objs[o].lcp.echo == ECHO_LIMIT
  {
  }

  /** Entry `n` of the log of provisionings is about object `o`. */
  predicate Provisions(d: State, n: nat, o: nat) { n < |d.provisions| && d.provisions[n].obj == o }

  /** What was put into the data plane has its timer running for as long as it is there. */
  lemma {:induction false} ProvisionedRuns(states: seq<State>, events: seq<Daemon.Event>, i: nat, n: nat, o: nat)
    requires Daemon.IsRun(states, events) && i <= |events| && Provisions(states[i], n, o)
    ensures o < states[i].nextObj && (o in states[i].objs ==> Runs(states[i], o))
    decreases i
  {
    if i == 0 {
      NothingProvisionedAtFirst(states, events);
    } else if Provisions(states[i - 1], n, o) {
      ProvisionedRuns(states, events, i - 1, n, o);
      StillRuns(states, events, i - 1, o);
    } else {
      NewlyProvisioned(states, events, i - 1, n, o);
    }
  }

  lemma NothingProvisionedAtFirst(states: seq<State>, events: seq<Daemon.Event>)
    requires Daemon.IsRun(states, events)
    ensures states[0].provisions == []
  {
  }

  lemma StillRuns(states: seq<State>, events: seq<Daemon.Event>, i: nat, o: nat)
    requires Daemon.IsRun(states, events) && i < |events| && o < states[i].nextObj
    requires o in states[i].objs ==> Runs(states[i], o)
    ensures o < states[i + 1].nextObj && (o in states[i + 1].objs ==> Runs(states[i + 1], o))
  {
    Onward(states, events, i);
    if o in states[i].objs {
      LeavesIff(states, events, i, o);
    }
  }

  lemma NewlyProvisioned(states: seq<State>, events: seq<Daemon.Event>, i: nat, n: nat, o: nat)
    requires Daemon.IsRun(states, events) && i < |events|
    requires Provisions(states[i + 1], n, o) && !Provisions(states[i], n, o)
    ensures Runs(states[i + 1], o) && o < states[i + 1].nextObj
  {
    RunReaches(states, events, i + 1);
    ProvisionedWell(states, events, i);
    OnlyIpcpProvisions(states[i], events[i]);
    var x := states[i].active[events[i].key];
    IpcpSetsTimer(Started(states[i], x), x, events[i].frame.pkt, n, o);
    HandleIsOld(states[i + 1], o);
  }

  lemma IpcpSetsTimer(d: State, x: nat, pkt: seq<byte>, n: nat, o: nat)
    requires x in d.objs && Handled(Ipcp, pkt) && Provisions(IpcpStep(d, x, pkt), n, o) && !Provisions(d, n, o)
    ensures Runs(IpcpStep(d, x, pkt), o)
  {
  }

  /** A session that was put into the data plane leaves it at the tenth firing of its timer without a heard reply, and at
      no other event: not when it is torn down, not at a clean-up. */
  lemma DataPlaneEndsIff(states: seq<State>, events: seq<Daemon.Event>, i: nat, n: nat, o: nat)
    requires Daemon.IsRun(states, events) && i < |events| && Provisions(states[i], n, o) && o in states[i].objs
    ensures Leaves(states[i], states[i + 1], o) <==>
            Fires(states[i], events[i], o) && Unanswered(states, events, i, o) == ECHO_LIMIT
  {
    ProvisionedRuns(states, events, i, n, o);
    LeavesIff(states, events, i, o);
  }

  /** So a PADT for such a session takes it out of the table and leaves it in the data plane, always. */
  lemma PadtLeavesItIn(states: seq<State>, events: seq<Daemon.Event>, i: nat, n: nat, k: Key, line: Line)
    requires Daemon.IsRun(states, events) && i < |events| && k in states[i].active && events[i] == Padt(line, k.sid)
    requires Provisions(states[i], n, states[i].active[k])
    ensures k !in states[i + 1].active && states[i].active[k] in states[i + 1].objs
  {
    ObjectOf(states, events, i, k);
    DataPlaneEndsIff(states, events, i, n, states[i].active[k]);
    OutOfTable(states, events, i, k, line);
  }

  lemma ObjectOf(states: seq<State>, events: seq<Daemon.Event>, i: nat, k: Key)
    requires Daemon.IsRun(states, events) && i < |states| && k in states[i].active
    ensures states[i].active[k] in states[i].objs
  {
    InvAlways(states, events, i);
  }

  lemma OutOfTable(states: seq<State>, events: seq<Daemon.Event>, i: nat, k: Key, line: Line)
    requires Daemon.IsRun(states, events) && i < |events| && events[i] == Padt(line, k.sid)
    ensures k !in states[i + 1].active
  {
    PadtFromAnyLine(states, events, i, line, k.sid);
  }
}
