/** The echo keepalive over whole runs of the daemon: what the counter counts, when it ends a session, and which replies
    it hears. */
module DaemonEcho {
  import opened Wire
  import opened ControlPacket
  import opened PppFsm
  import LcpOptions
  import Aaa
  import opened Daemon
  import opened DaemonInvariant
  import opened DaemonSteps
  import opened DaemonTheorems
  import opened DaemonContinuations
  import opened DaemonGate

  // ---- Counting ----------------------------------------------------------------------------------------------------

  /** The echo timer of object `o` fires. */
  predicate Fires(d: State, e: Daemon.Event, o: nat) {
    e == EchoTimer(o) && o in d.objs && d.objs[o].echoOn
  }

  /** An Echo-Reply arrives for the session of object `o`. */
  predicate Replies(d: State, e: Daemon.Event, o: nat) {
    && e.Ppp? && e.key in d.active && d.active[e.key] == o
    && e.frame.LcpFrame? && |e.frame.pkt| >= HEADER && e.frame.pkt[0] == ECHO_REPLY
  }

  /** Replies are heard exactly if there is an authentication protocol for LCP to ask for. */
  predicate Hearing(conf: Conf) { conf.chap || conf.pap }

  /** The firings of `o`'s timer among the first `i` events, since the last reply that was heard. */
  function Unanswered(states: seq<State>, events: seq<Daemon.Event>, i: nat, o: nat): nat
    requires i <= |events| < |states|
  {
    if i == 0 then 0 else Next(states[i - 1], events[i - 1], o, Unanswered(states, events, i - 1, o))
  }

  /** What an event makes of the count `n`. */
  function Next(d: State, e: Daemon.Event, o: nat, n: nat): nat {
    if Replies(d, e, o) && Hearing(d.conf) then 0 else n + if Fires(d, e, o) then 1 else 0
  }

  // ---- What the events do to the counter ---------------------------------------------------------------------------

  /** No object appears, and `o`'s LCP is as it was. */
  ghost predicate Untouched(d: State, d1: State, o: nat) {
    && (forall x :: x in d1.objs ==> x in d.objs)
    && (o in d1.objs ==> d1.objs[o].lcp == d.objs[o].lcp)
    && d1.conf == d.conf && d1.nextObj == d.nextObj
  }

  lemma DeallocateUntouched(d: State, sid: u16, o: nat)
    ensures Untouched(d, Deallocate(d, sid), o)
  {
  }

  lemma SayUntouched(d: State, x: nat, a: AuthPacket, o: nat)
    ensures Untouched(d, Say(d, x, a), o)
  {
  }

  lemma AfterStartUntouched(d: State, x: nat, via: Via, r: (Aaa.State, Option<u32>), o: nat)
    ensures Untouched(d, AfterStart(d, x, via, r), o)
  {
  }

  lemma {:induction false} MethodsUntouched(d: State, x: nat, via: Via, methods: seq<Aaa.Method>, o: nat)
    ensures Untouched(d, TryMethods(d, x, via, methods), o)
    decreases methods
  {
    if methods == [] || methods[0] == Aaa.RadiusAuth {
    } else if methods[0] == Aaa.LocalAuth {
      MethodsUntouched(d, x, via, methods[1..], o);
    } else {
      var d1 := AfterStart(d, x, via, Aaa.StartNone(d.conf.aaa, d.aaa, x));
      AfterStartUntouched(d, x, via, Aaa.StartNone(d.conf.aaa, d.aaa, x), o);
      MethodsUntouched(d1, x, via, methods[1..], o);
    }
  }

  lemma AuthUntouched(d: State, x: nat, via: Via, o: nat)
    requires x in d.objs
    ensures Untouched(d, AuthStep(d, x, via), o)
  {
    MethodsUntouched(d, x, via, d.conf.aaa.methods, o);
  }

  lemma AnswerUntouched(d: State, x: nat, via: Via, accept: bool, resp: Aaa.RadiusResponse, o: nat)
    ensures Untouched(d, AfterAnswer(d, x, via, accept, resp), o)
  {
    var told := if accept then d else AuthFails(d, x, via);
    AfterStartUntouched(told, x, via, Aaa.StartRadius(d.conf.aaa, told.aaa, x, resp), o);
  }

  lemma IpcpUntouched(d: State, x: nat, pkt: seq<byte>, o: nat)
    requires x in d.objs && Handled(Ipcp, pkt)
    ensures Untouched(d, IpcpStep(d, x, pkt), o)
  {
  }

  /** The counter of `o` goes from `before` to `after`, and no object appears. */
  ghost predicate Counts(d: State, d1: State, o: nat, after: int) {
    && (forall x :: x in d1.objs ==> x in d.objs)
    && (o in d1.objs ==> d1.objs[o].lcp.echo == after)
    && d1.conf == d.conf && d1.nextObj == d.nextObj
  }

  lemma LcpCounts(d: State, x: nat, pkt: seq<byte>, o: nat)
    requires Inv(d) && x in d.objs && d.objs[x].started && Handled(Lcp, pkt) && o in d.objs
    ensures Counts(d, LcpStep(d, x, pkt), o,
                   if x == o && pkt[0] == ECHO_REPLY && Hearing(d.conf) then 0 else d.objs[o].lcp.echo)
  {
    var s := d.objs[x];
    PacketReaction(Lcp, EnvOf(d, s), s.lcp, pkt);
    LcpChangeCounts(d, x, pkt, Receive(Lcp, EnvOf(d, s), s.lcp, pkt), o);
  }

  lemma LcpChangeCounts(d: State, x: nat, pkt: seq<byte>, out: Outcome, o: nat)
    requires Inv(d) && x in d.objs && d.objs[x].started && Sound(pkt) && o in d.objs && Reacted(Lcp, d.objs[x].lcp, pkt, out)
    ensures Counts(d, LcpEffect(d, x, out), o,
                   if x == o && pkt[0] == ECHO_REPLY && Hearing(d.conf) then 0 else d.objs[o].lcp.echo)
  {
    LcpLocally(d.conf, d.objs[x], pkt, out);
    LcpEffectCounts(d, x, out, o);
  }

  lemma LcpEffectCounts(d: State, x: nat, out: Outcome, o: nat)
    requires x in d.objs && o in d.objs && (!d.conf.chap && !d.conf.pap ==> out.err)
    ensures Counts(d, LcpEffect(d, x, out), o, if x == o then out.fsm.echo else d.objs[o].lcp.echo)
  {
    var s := d.objs[x].(lcp := out.fsm);
    LcpEffectCases(d, x, s, out);
    DeallocateUntouched(Put(d, x, s), s.key.sid, o);
    SayUntouched(Put(d, x, s), x, Challenge, o);
  }

  lemma StartedCounts(d: State, x: nat, o: nat)
    requires x in d.objs && o in d.objs
    ensures Counts(d, Started(d, x), o, d.objs[o].lcp.echo) && Started(d, x).objs[x].started
  {
    KickLeavesEcho(EnvOf(d, d.objs[x]), d.objs[x].lcp);
  }

  lemma KickLeavesEcho(env: Env, f: Fsm)
    ensures Kick(Lcp, env, f).fsm.echo == f.echo
  {
  }

  lemma ProtocolCounts(d: State, x: nat, frame: Frame, o: nat)
    requires Inv(d) && x in d.objs && d.objs[x].started && Legible(frame) && o in d.objs
    ensures Counts(d, ProtocolStep(d, x, frame), o,
                   if x == o && frame.LcpFrame? && frame.pkt[0] == ECHO_REPLY && Hearing(d.conf) then 0 else d.objs[o].lcp.echo)
  {
    match frame
    case LcpFrame(pkt) => LcpCounts(d, x, pkt, o);
    case IpcpFrame(pkt) => IpcpUntouched(d, x, pkt, o);
    case AuthRequest(via) => AuthUntouched(d, x, via, o);
    case OtherFrame =>
  }

  lemma FrameCounts(d: State, key: Key, frame: Frame, o: nat)
    requires Inv(d) && Legible(frame) && o in d.objs
    ensures Counts(d, FrameStep(d, key, frame), o,
                   if Replies(d, Ppp(key, frame), o) && Hearing(d.conf) then 0 else d.objs[o].lcp.echo)
  {
    if key in d.active {
      ActiveKey(d, key);
      FirstFrameCounts(d, d.active[key], frame, o);
    }
  }

  lemma FirstFrameCounts(d: State, x: nat, frame: Frame, o: nat)
    requires Inv(d) && IsActive(d, x) && x in d.objs && Legible(frame) && o in d.objs
    ensures Counts(d, ProtocolStep(Started(d, x), x, frame), o,
                   if x == o && frame.LcpFrame? && frame.pkt[0] == ECHO_REPLY && Hearing(d.conf) then 0 else d.objs[o].lcp.echo)
  {
    StartedKeeps(d, x);
    StartedCounts(d, x, o);
    ProtocolCounts(Started(d, x), x, frame, o);
    CountsThen(d, Started(d, x), ProtocolStep(Started(d, x), x, frame), o);
  }

  lemma CountsThen(d: State, d1: State, d2: State, o: nat)
    requires o in d.objs && o in d1.objs && Counts(d, d1, o, d.objs[o].lcp.echo)
    ensures forall n :: Counts(d1, d2, o, n) ==> Counts(d, d2, o, n)
  {
  }

  lemma QuietFiringCounts(d: State, x: nat, o: nat)
    requires x in d.objs && d.objs[x].echoOn && d.objs[x].lcp.echo < ECHO_LIMIT && o in d.objs
    ensures Counts(d, EchoStep(d, x), o, d.objs[o].lcp.echo + if x == o then 1 else 0) && o in EchoStep(d, x).objs
  {
    var s := d.objs[x];
    assert EchoStep(d, x) == Put(d, x, s.(lcp := EchoFires(EnvOf(d, s), s.lcp).fsm));
  }

  lemma EchoAtMost(d: State, x: nat)
    requires Inv(d) && x in d.objs
    ensures d.objs[x].lcp.echo <= ECHO_LIMIT
  {
  }

  /** A firing that is the last leaves no object behind; any other counts. */
  lemma FiringCounts(d: State, x: nat, o: nat)
    requires Inv(d) && o in d.objs
    ensures Counts(d, EchoStep(d, x), o, d.objs[o].lcp.echo + if Fires(d, EchoTimer(x), o) then 1 else 0)
    ensures Fires(d, EchoTimer(x), o) ==> (o !in EchoStep(d, x).objs <==> d.objs[o].lcp.echo == ECHO_LIMIT)
  {
    if x in d.objs && d.objs[x].echoOn {
      EchoAtMost(d, x);
      if d.objs[x].lcp.echo == ECHO_LIMIT {
        LastFiringForgets(d, x, o);
        ForgottenCounts(d, EchoStep(d, x), x, o);
      } else {
        QuietFiringCounts(d, x, o);
      }
    }
  }

  lemma ForgottenCounts(d: State, d1: State, x: nat, o: nat)
    requires x !in d1.objs && (o != x ==> Untouched(d, d1, o)) && Untouched(d, d1, x) && o in d.objs
    ensures Counts(d, d1, o, d.objs[o].lcp.echo + if x == o then 1 else 0)
  {
  }

  lemma LastFiringForgets(d: State, x: nat, o: nat)
    requires Inv(d) && x in d.objs && d.objs[x].echoOn && d.objs[x].lcp.echo == ECHO_LIMIT
    ensures x !in EchoStep(d, x).objs && (o != x ==> Untouched(d, EchoStep(d, x), o))
    ensures Untouched(d, EchoStep(d, x), x)
  {
    var s := d.objs[x];
    var t := s.(lcp := EchoFires(EnvOf(d, s), s.lcp).fsm, echoOn := false);
    LastFiringIs(d, x, t);
    DeallocateUntouched(Put(d, x, t), s.key.sid, o);
    if IsActive(d, x) {
      OwnFiringForgets(d, x, t);
    } else {
      StaleStaysOut(d, x, t, s.key.sid);
    }
  }

  lemma LastFiringIs(d: State, x: nat, t: Session)
    requires x in d.objs && d.objs[x].echoOn && d.objs[x].lcp.echo == ECHO_LIMIT
    requires t == d.objs[x].(lcp := EchoFires(EnvOf(d, d.objs[x]), d.objs[x].lcp).fsm, echoOn := false)
    ensures var d1 := Deallocate(Put(d, x, t), t.key.sid);
            EchoStep(d, x) == if IsActive(d1, x) then d1 else d1.(objs := d1.objs - {x})
  {
  }

  lemma OwnFiringForgets(d: State, x: nat, t: Session)
    requires Inv(d) && IsActive(d, x) && x in d.objs && !t.echoOn && t.key == d.objs[x].key && t.aaaId == d.objs[x].aaaId
    ensures var d1 := Deallocate(Put(d, x, t), t.key.sid); !IsActive(d1, x) && x !in d1.objs
  {
    LastOwnFiring(d, x, t);
    var d1 := Deallocate(Put(d, x, t), t.key.sid);
    assert d1.objs == d1.objs - {x};
  }

  /** The counter of `o`, if it is still there, is what the event makes of it. */
  ghost predicate Right(d: State, e: Daemon.Event, d1: State, o: nat)
    requires o in d.objs
  {
    o in d1.objs ==> d1.objs[o].lcp.echo == Next(d, e, o, d.objs[o].lcp.echo)
  }

  /** Every event, for an object that is there before it. */
  lemma StepCounts(d: State, e: Daemon.Event, o: nat)
    requires Reachable(d) && Daemon.Possible(d, e) && o in d.objs
    ensures Right(d, e, Daemon.Step(d, e), o)
  {
    if e.Ppp? {
      FrameIsRight(d, e, o);
    } else if e.EchoTimer? {
      FiringIsRight(d, e, o);
    } else {
      QuietIsRight(d, e, o);
    }
  }

  lemma FrameIsRight(d: State, e: Daemon.Event, o: nat)
    requires Reachable(d) && e.Ppp? && Legible(e.frame) && o in d.objs
    ensures Right(d, e, Daemon.Step(d, e), o)
  {
    ReachableFrameCounts(d, e.key, e.frame, o);
  }

  lemma ReachableFrameCounts(d: State, key: Key, frame: Frame, o: nat)
    requires Reachable(d) && Legible(frame) && o in d.objs
    ensures Counts(d, FrameStep(d, key, frame), o,
                   if Replies(d, Ppp(key, frame), o) && Hearing(d.conf) then 0 else d.objs[o].lcp.echo)
  {
    ReachableInv(d);
    FrameCounts(d, key, frame, o);
  }

  lemma FiringIsRight(d: State, e: Daemon.Event, o: nat)
    requires Reachable(d) && e.EchoTimer? && o in d.objs
    ensures Right(d, e, Daemon.Step(d, e), o)
  {
    ReachableFiringCounts(d, e.obj, o);
  }

  lemma ReachableFiringCounts(d: State, x: nat, o: nat)
    requires Reachable(d) && o in d.objs
    ensures Counts(d, EchoStep(d, x), o, d.objs[o].lcp.echo + if Fires(d, EchoTimer(x), o) then 1 else 0)
    ensures Fires(d, EchoTimer(x), o) ==> (o !in EchoStep(d, x).objs <==> d.objs[o].lcp.echo == ECHO_LIMIT)
  {
    ReachableInv(d);
    FiringCounts(d, x, o);
  }

  lemma QuietIsRight(d: State, e: Daemon.Event, o: nat)
    requires Reachable(d) && Daemon.Possible(d, e) && o in d.objs && !e.Ppp? && !e.EchoTimer?
    ensures Right(d, e, Daemon.Step(d, e), o)
  {
    HandleIsOld(d, o);
    QuietCounts(d, e, o);
  }

  lemma QuietCounts(d: State, e: Daemon.Event, o: nat)
    requires Daemon.Possible(d, e) && o in d.objs && o < d.nextObj && !e.Ppp? && !e.EchoTimer?
    ensures o in Daemon.Step(d, e).objs ==> Daemon.Step(d, e).objs[o].lcp.echo == d.objs[o].lcp.echo
  {
    match e
    case Padt(_, sid) => DeallocateUntouched(d, sid, o);
    case RadiusAnswer(x, via, accept, resp) => AnswerUntouched(d, x, via, accept, resp, o);
    case RadiusError(x, via) => SayUntouched(d, x, Failure(via), o);
    case Padr(conn, magic, peer) => AdmitQuiet(d, conn, magic, peer, o);
    case _ =>
  }

  lemma AdmitQuiet(d: State, conn: Conn, magic: u32, peer: LcpOptions.Peer, o: nat)
    requires o in d.objs && o < d.nextObj
    ensures o in Admit(d, conn, magic, peer).objs && Admit(d, conn, magic, peer).objs[o] == d.objs[o]
  {
  }

  // ---- Objects that are new ----------------------------------------------------------------------------------------

  /** Objects only appear with the next handle, and with the counter at 0; the configuration stays. */
  ghost predicate Grows(d: State, d1: State) {
    && d1.conf == d.conf && d.nextObj <= d1.nextObj
    && forall x :: x in d1.objs && x !in d.objs ==> x == d.nextObj && d1.objs[x].lcp.echo == 0
  }

  lemma StepGrows(d: State, e: Daemon.Event)
    requires Reachable(d) && Daemon.Possible(d, e)
    ensures Grows(d, Daemon.Step(d, e))
  {
    if e.Ppp? {
      FrameGrows(d, e);
    } else if e.EchoTimer? {
      EchoGrows(d, e);
    } else {
      OtherGrows(d, e);
    }
  }

  lemma OtherGrows(d: State, e: Daemon.Event)
    requires Daemon.Possible(d, e) && !e.Ppp? && !e.EchoTimer?
    ensures Grows(d, Daemon.Step(d, e))
  {
    match e
    case Padr(conn, magic, peer) => AdmitGrows(d, conn, magic, peer);
    case Padt(_, sid) => DeallocateUntouched(d, sid, 0);
    case RadiusAnswer(x, via, accept, resp) => AnswerUntouched(d, x, via, accept, resp, 0);
    case RadiusError(x, via) => SayUntouched(d, x, Failure(via), 0);
    case _ =>
  }

  lemma AdmitGrows(d: State, conn: Conn, magic: u32, peer: LcpOptions.Peer)
    ensures Grows(d, Admit(d, conn, magic, peer))
  {
  }

  lemma FrameGrows(d: State, e: Daemon.Event)
    requires Reachable(d) && e.Ppp? && Legible(e.frame)
    ensures Grows(d, Daemon.Step(d, e))
  {
    if e.key in d.active && d.active[e.key] in d.objs {
      ReachableFrameCounts(d, e.key, e.frame, d.active[e.key]);
    }
  }

  lemma EchoGrows(d: State, e: Daemon.Event)
    requires Reachable(d) && e.EchoTimer?
    ensures Grows(d, Daemon.Step(d, e))
  {
    if e.obj in d.objs {
      ReachableFiringCounts(d, e.obj, e.obj);
    }
  }

  // ---- All runs ----------------------------------------------------------------------------------------------------

  lemma Onward(states: seq<State>, events: seq<Daemon.Event>, i: nat)
    requires Daemon.IsRun(states, events) && i < |events|
    ensures Grows(states[i], states[i + 1])
  {
    RunReaches(states, events, i);
    StepGrows(states[i], events[i]);
  }

  /** Nothing fires or replies for an object before it is there. */
  lemma {:induction false} NothingBefore(states: seq<State>, events: seq<Daemon.Event>, i: nat, o: nat)
    requires Daemon.IsRun(states, events) && i <= |events| && o >= states[i].nextObj
    ensures Unanswered(states, events, i, o) == 0
  {
    if i == 0 {
    } else {
      Onward(states, events, i - 1);
      NothingBefore(states, events, i - 1, o);
      Beyond(states, events, i - 1, o);
      RunReaches(states, events, i - 1);
      AbsentIsQuiet(states[i - 1], events[i - 1], o);
    }
  }

  lemma Beyond(states: seq<State>, events: seq<Daemon.Event>, i: nat, o: nat)
    requires Daemon.IsRun(states, events) && i < |states| && o >= states[i].nextObj
    ensures o !in states[i].objs
  {
    InvAlways(states, events, i);
  }

  lemma AbsentIsQuiet(d: State, e: Daemon.Event, o: nat)
    requires Reachable(d) && o !in d.objs
    ensures !Fires(d, e, o) && !Replies(d, e, o)
  {
    ReachableInv(d);
  }

  /** In every run the echo counter of a session object is the number of firings of its timer since the last reply that
      was heard, and it is at most nine: the object with ten is gone. Replies are heard exactly if CHAP or PAP is
      configured. */
  lemma {:induction false} CounterIsUnanswered(states: seq<State>, events: seq<Daemon.Event>, i: nat, o: nat)
    requires Daemon.IsRun(states, events) && i <= |events| && o in states[i].objs
    ensures states[i].objs[o].lcp.echo == Unanswered(states, events, i, o) <= ECHO_LIMIT
  {
    CounterBounded(states, events, i, o);
    if i == 0 {
      NothingAtFirst(states, events);
    } else if o in states[i - 1].objs {
      CounterIsUnanswered(states, events, i - 1, o);
      OneMore(states, events, i - 1, o);
    } else {
      NewCounter(states, events, i - 1, o);
    }
  }

  lemma NothingAtFirst(states: seq<State>, events: seq<Daemon.Event>)
    requires Daemon.IsRun(states, events)
    ensures states[0].objs == map[]
  {
  }

  lemma CounterBounded(states: seq<State>, events: seq<Daemon.Event>, i: nat, o: nat)
    requires Daemon.IsRun(states, events) && i <= |events| && o in states[i].objs
    ensures states[i].objs[o].lcp.echo <= ECHO_LIMIT
  {
    InvAlways(states, events, i);
  }

  lemma NewCounter(states: seq<State>, events: seq<Daemon.Event>, i: nat, o: nat)
    requires Daemon.IsRun(states, events) && i < |events| && o !in states[i].objs && o in states[i + 1].objs
    ensures states[i + 1].objs[o].lcp.echo == Unanswered(states, events, i + 1, o) == 0
  {
    Onward(states, events, i);
    NothingBefore(states, events, i, o);
    RunReaches(states, events, i);
    AbsentIsQuiet(states[i], events[i], o);
  }

  lemma OneMore(states: seq<State>, events: seq<Daemon.Event>, i: nat, o: nat)
    requires Daemon.IsRun(states, events) && i < |events| && o in states[i].objs && o in states[i + 1].objs
    requires states[i].objs[o].lcp.echo == Unanswered(states, events, i, o)
    ensures states[i + 1].objs[o].lcp.echo == Unanswered(states, events, i + 1, o)
  {
    RunReaches(states, events, i);
    StepCounts(states[i], events[i], o);
  }

  /** A firing is an object's last, after which it is gone, if and only if it is the tenth without a reply that was
      heard. */
  lemma TenthFiringIsLast(states: seq<State>, events: seq<Daemon.Event>, i: nat, o: nat)
    requires Daemon.IsRun(states, events) && i < |events| && Fires(states[i], events[i], o)
    ensures o !in states[i + 1].objs <==> Unanswered(states, events, i, o) == ECHO_LIMIT
  {
    CounterIsUnanswered(states, events, i, o);
    LastIffTenth(states, events, i, o);
  }

  lemma LastIffTenth(states: seq<State>, events: seq<Daemon.Event>, i: nat, o: nat)
    requires Daemon.IsRun(states, events) && i < |events| && Fires(states[i], events[i], o)
    ensures o !in states[i + 1].objs <==> states[i].objs[o].lcp.echo == ECHO_LIMIT
  {
    RunReaches(states, events, i);
    ReachableFiringCounts(states[i], o, o);
  }

  /** The tenth firing without a heard reply ends whatever session has the object's id at the time: no other session is
      lost if and only if the object is still active or its id is free. */
  lemma WhomTheTenthFiringEnds(states: seq<State>, events: seq<Daemon.Event>, i: nat, o: nat)
    requires Daemon.IsRun(states, events) && i < |events| && Fires(states[i], events[i], o)
    requires Unanswered(states, events, i, o) == ECHO_LIMIT
    ensures var d, d1 := states[i], states[i + 1];
            var sid := d.objs[o].key.sid;
            && d1.active == (map k | k in d.active && k.sid != sid :: d.active[k])
            && ((forall k :: k in d.active && d.active[k] != o ==> k in d1.active) <==> IsActive(d, o) || sid !in d.ids.taken)
  {
    CounterIsUnanswered(states, events, i, o);
    RunReaches(states, events, i);
    FiringEnds(states[i], events[i], o);
  }

  lemma FiringEnds(d: State, e: Daemon.Event, o: nat)
    requires Reachable(d) && Fires(d, e, o) && d.objs[o].lcp.echo == ECHO_LIMIT
    ensures var d1, sid := Daemon.Step(d, e), d.objs[o].key.sid;
            && d1.active == (map k | k in d.active && k.sid != sid :: d.active[k])
            && ((forall k :: k in d.active && d.active[k] != o ==> k in d1.active) <==> IsActive(d, o) || sid !in d.ids.taken)
  {
    ReachableFiringEnds(d, o);
  }

  lemma ReachableFiringEnds(d: State, o: nat)
    requires Reachable(d) && LastFiring(d, o)
    ensures var d1, sid := EchoStep(d, o), d.objs[o].key.sid;
            && d1.active == (map k | k in d.active && k.sid != sid :: d.active[k])
            && ((forall k :: k in d.active && d.active[k] != o ==> k in d1.active) <==> IsActive(d, o) || sid !in d.ids.taken)
  {
    ReachableInv(d);
    WhomTheLastFiringEnds(d, o);
  }

  /** Whether a reply resets the counter depends on the configuration only. */
  lemma ReplyCountsIff(states: seq<State>, events: seq<Daemon.Event>, i: nat, o: nat)
    requires Daemon.IsRun(states, events) && i < |events| && Replies(states[i], events[i], o)
    requires o in states[i].objs && states[i].objs[o].lcp.echo > 0
    ensures o in states[i + 1].objs && (states[i + 1].objs[o].lcp.echo == 0 <==> Hearing(states[i].conf))
  {
    RunReaches(states, events, i);
    StepCounts(states[i], events[i], o);
    ReplyStays(states[i], events[i], o);
  }

  /** No Echo-Reply ends the session it arrives for. */
  lemma ReplyStays(d: State, e: Daemon.Event, o: nat)
    requires Daemon.Possible(d, e) && Replies(d, e, o) && o in d.objs
    ensures o in Daemon.Step(d, e).objs
  {
    ReplyEffect(Started(d, o), o, e.frame.pkt);
  }

  lemma ReplyEffect(d: State, o: nat, pkt: seq<byte>)
    requires o in d.objs && Handled(Lcp, pkt) && pkt[0] == ECHO_REPLY
    ensures o in LcpStep(d, o, pkt).objs
  {
    ReplyIsQuiet(EnvOf(d, d.objs[o]), d.objs[o].lcp, pkt);
  }

  lemma ReplyIsQuiet(env: Env, f: Fsm, pkt: seq<byte>)
    requires Handled(Lcp, pkt) && pkt[0] == ECHO_REPLY
    ensures Receive(Lcp, env, f, pkt).action == NoAction
  {
  }

  // ---- A peer that answers every request ---------------------------------------------------------------------------

  ghost function EchoReply(): seq<byte> { Build(ECHO_REPLY, PKT_ID, []) }

  /** Without an authentication protocol a session can be up and its peer answer, and the answer does not count. */
  lemma ReplyIsNotHeard(line: Line) returns (states: seq<State>, events: seq<Daemon.Event>)
    ensures Daemon.IsRun(states, events) && |events| == 7 && Fires(states[5], events[5], 0) && Replies(states[6], events[6], 0)
    ensures 0 in states[7].objs && states[7].objs[0].lcp.echo == 1
  {
    var five, before := ProvisionedWithoutLcp(line, false, false);
    var d1, d2 := AnsweredInVain(five, before, line);
    var e1, e2 := EchoTimer(0), Ppp(Key(line, 1), LcpFrame(EchoReply()));
    states, events := AppendStep(five, before, e1, d1);
    states, events := AppendStep(states, events, e2, d2);
  }

  lemma AnsweredInVain(states: seq<State>, events: seq<Daemon.Event>, line: Line) returns (d1: State, d2: State)
    requires Daemon.IsRun(states, events) && |events| == 5 && LetInFor(states[5], Key(line, 1), false, false)
    ensures var e1, e2 := EchoTimer(0), Ppp(Key(line, 1), LcpFrame(EchoReply()));
            Moves(states[5], e1, d1) && Moves(d1, e2, d2) && Fires(states[5], e1, 0) && Replies(d1, e2, 0)
    ensures 0 in d2.objs && d2.objs[0].lcp.echo == 1
  {
    var d, k := states[5], Key(line, 1);
    RunReaches(states, events, 5);
    FirstFiring(d, k);
    d1 := EchoStep(d, 0);
    OneStep(d, EchoTimer(0));
    d2 := UnheardReply(d1, k);
  }

  lemma FirstFiring(d: State, k: Key)
    requires LetInFor(d, k, false, false)
    ensures var d1 := EchoStep(d, 0);
            && d1 == Put(d, 0, d.objs[0].(lcp := d.objs[0].lcp.(echo := 1))) && Fires(d, EchoTimer(0), 0)
  {
  }

  lemma UnheardReply(d: State, k: Key) returns (d1: State)
    requires Reachable(d) && d.active == map[k := 0] && 0 in d.objs && d.objs[0].lcp.echo == 1 && d.objs[0].started
    requires !d.conf.chap && !d.conf.pap
    ensures Handled(Lcp, EchoReply()) && d1 == Daemon.Step(d, Ppp(k, LcpFrame(EchoReply())))
    ensures Replies(d, Ppp(k, LcpFrame(EchoReply())), 0) && 0 in d1.objs && d1.objs[0].lcp.echo == 1
  {
    BuildIsSound(ECHO_REPLY, PKT_ID, []);
    var s := d.objs[0];
    var pkt := EchoReply();
    var out := Receive(Lcp, EnvOf(d, s), s.lcp, pkt);
    LocalAt(d, 0);
    PacketReaction(Lcp, EnvOf(d, s), s.lcp, pkt);
    assert Started(d, 0) == d;
    d1 := Put(d, 0, s.(lcp := out.fsm));
    DroppedPacket(d, out);
  }

  lemma LocalAt(d: State, o: nat)
    requires Reachable(d) && o in d.objs
    ensures LocalOk(d.conf, d.objs[o])
  {
    ReachableInv(d);
  }

  lemma DroppedPacket(d: State, out: Outcome)
    requires 0 in d.objs && out.err
    ensures LcpEffect(d, 0, out) == Put(d, 0, d.objs[0].(lcp := out.fsm))
  {
  }
}
