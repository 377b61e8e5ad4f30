/** LCP going down over whole runs: which packets end an open session, and that nothing else leaves one half open. */
module DaemonLayers {
  import opened Wire
  import opened ControlPacket
  import opened PppFsm
  import LcpOptions
  import opened Daemon
  import opened DaemonInvariant
  import opened DaemonSteps
  import opened DaemonTheorems
  import opened DaemonContinuations
  import opened DaemonGate
  import opened DaemonEcho

  /** A Configure-Request, a Configure-Ack with our identifier, or a Terminate-Request. */
  predicate Ends(pkt: seq<byte>) {
    |pkt| >= 4 && (pkt[0] == 1 || (pkt[0] == 2 && pkt[1] == 1) || pkt[0] == 5)
  }

  lemma DownIff(env: Env, f: Fsm, pkt: seq<byte>)
    requires Handled(Lcp, pkt) && f.phase == Opened
    ensures var out := Receive(Lcp, env, f, pkt);
            && (out.action == Action.LayerDown && !out.err <==> Ends(pkt))
            && (!Ends(pkt) ==> out.action == NoAction && out.fsm.phase == Opened)
  {
    DownByDispatch(env, f, pkt, Verdict(Lcp, env, pkt), Noted(Lcp, f, pkt));
  }

  lemma DownByDispatch(env: Env, f: Fsm, pkt: seq<byte>, reply: Reply, noted: LcpOptions.Peer)
    requires Sound(pkt) && (pkt[0] == TERM_REQ || pkt[0] == ECHO_REQ ==> |pkt| >= 8) && f.phase == Opened
    ensures var out := Dispatch(Lcp, env, f, pkt, reply, noted);
            && (out.action == Action.LayerDown && !out.err <==> Ends(pkt))
            && (!Ends(pkt) ==> out.action == NoAction && out.fsm.phase == Opened)
  {
  }

  /** An LCP packet ends an open session, its own, if and only if it is one of these three: so a client that asks for new
      options when LCP is open loses its session, although our own request goes out as well. */
  lemma LcpPacketEndsIff(states: seq<State>, events: seq<Daemon.Event>, i: nat, key: Key, pkt: seq<byte>)
    requires Daemon.IsRun(states, events) && i < |events| && events[i] == Ppp(key, LcpFrame(pkt)) && LcpIsOpen(states[i], key)
    ensures states[i + 1].active == if Ends(pkt) then states[i].active - {key} else states[i].active
  {
    RunReaches(states, events, i);
    OpenIsAlone(states[i], key);
    EndsAlone(states[i], key, pkt);
  }

  lemma OpenIsAlone(d: State, key: Key)
    requires Reachable(d) && LcpIsOpen(d, key)
    ensures var o := d.active[key]; Alone(d, o) && d.objs[o].key == key && d.objs[o].started
  {
    ReachableInv(d);
    ActiveKey(d, key);
    ActiveIsAlone(d, d.active[key]);
  }

  lemma EndsAlone(d: State, key: Key, pkt: seq<byte>)
    requires LcpIsOpen(d, key) && Alone(d, d.active[key]) && d.objs[d.active[key]].key == key && d.objs[d.active[key]].started
    requires Handled(Lcp, pkt)
    ensures FrameStep(d, key, LcpFrame(pkt)).active == if Ends(pkt) then d.active - {key} else d.active
  {
    var o := d.active[key];
    DownIff(EnvOf(d, d.objs[o]), d.objs[o].lcp, pkt);
    EffectEnds(d, o, Receive(Lcp, EnvOf(d, d.objs[o]), d.objs[o].lcp, pkt), Ends(pkt));
  }

  lemma EffectEnds(d: State, o: nat, out: Outcome, ends: bool)
    requires Alone(d, o) && (out.action == Action.LayerDown && !out.err <==> ends) && (!ends ==> out.action == NoAction)
    ensures LcpEffect(d, o, out).active == if ends then d.active - {d.objs[o].key} else d.active
  {
  }

  // ---- No session stays without its LCP ----------------------------------------------------------------------------

  /** A session whose LCP is open still has it open after any event, or is no longer in the table. */
  lemma OpenOrEnded(states: seq<State>, events: seq<Daemon.Event>, i: nat, key: Key)
    requires Daemon.IsRun(states, events) && i < |events| && LcpIsOpen(states[i], key) && key in states[i + 1].active
    ensures states[i + 1].active[key] == states[i].active[key] && LcpIsOpen(states[i + 1], key)
  {
    RunReaches(states, events, i);
    RunReaches(states, events, i + 1);
    StepStillOpen(states[i], events[i], key);
    KeyIsThere(states[i + 1], key);
  }

  lemma KeyIsThere(d: State, key: Key)
    requires Reachable(d) && key in d.active
    ensures d.active[key] in d.objs
  {
    ReachableInv(d);
  }

  /** If the key is still in the table, it is under the same object, whose LCP is open if that object is still there. */
  ghost predicate StillOpen(d: State, d1: State, key: Key)
    requires key in d.active
  {
    key in d1.active ==> d1.active[key] == d.active[key] &&
                         (d.active[key] in d1.objs ==> d1.objs[d.active[key]].lcp.phase == Opened)
  }

  /** The table loses sessions at most. */
  ghost predicate Shrinks(d: State, d1: State) {
    forall k :: k in d1.active ==> k in d.active && d1.active[k] == d.active[k]
  }

  lemma UntouchedStillOpen(d: State, d1: State, key: Key)
    requires LcpIsOpen(d, key) && Shrinks(d, d1) && Untouched(d, d1, d.active[key])
    ensures StillOpen(d, d1, key)
  {
  }

  lemma StepStillOpen(d: State, e: Daemon.Event, key: Key)
    requires Reachable(d) && Daemon.Possible(d, e) && LcpIsOpen(d, key)
    ensures StillOpen(d, Daemon.Step(d, e), key)
  {
    var o := d.active[key];
    match e
    case Padr(conn, magic, peer) =>
      HandleIsOld(d, o);
      AdmitStillOpen(d, conn, magic, peer, key);
    case Padt(_, sid) =>
      NoNewEntries(d, sid);
      DeallocateUntouched(d, sid, o);
      UntouchedStillOpen(d, Deallocate(d, sid), key);
    case Ppp(k, frame) => FrameStillOpen(d, k, frame, key);
    case RadiusAnswer(x, via, accept, resp) => AnswerUntouched(d, x, via, accept, resp, o);
    case EchoTimer(x) => EchoStillOpen(d, x, key);
    case _ =>
  }

  lemma AdmitStillOpen(d: State, conn: Conn, magic: u32, peer: LcpOptions.Peer, key: Key)
    requires LcpIsOpen(d, key) && d.active[key] < d.nextObj
    ensures StillOpen(d, Admit(d, conn, magic, peer), key)
  {
    AdmitQuiet(d, conn, magic, peer, d.active[key]);
  }

  lemma EchoStillOpen(d: State, x: nat, key: Key)
    requires LcpIsOpen(d, key)
    ensures StillOpen(d, EchoStep(d, x), key)
  {
    if x in d.objs && d.objs[x].echoOn {
      var s := d.objs[x];
      var t := s.(lcp := EchoFires(EnvOf(d, s), s.lcp).fsm, echoOn := false);
      var p := Put(d, x, t);
      NoNewEntries(p, s.key.sid);
      DeallocateUntouched(p, s.key.sid, d.active[key]);
    }
  }

  lemma FrameStillOpen(d: State, k: Key, frame: Frame, key: Key)
    requires Reachable(d) && Legible(frame) && LcpIsOpen(d, key)
    ensures StillOpen(d, FrameStep(d, k, frame), key)
  {
    if k in d.active {
      KeyIsThere(d, k);
      OpenIsAlone(d, key);
      StartLeavesOpen(d, k, key);
      if k == key && frame.LcpFrame? {
        EndsAlone(d, key, frame.pkt);
        StaysOpen(d, key, frame.pkt);
      } else {
        ProtocolStillOpen(Started(d, d.active[k]), k, frame, key);
      }
    }
  }

  /** The first frame of another session leaves this one open; this one has had its first frame. */
  lemma StartLeavesOpen(d: State, k: Key, key: Key)
    requires Reachable(d) && k in d.active && d.active[k] in d.objs && LcpIsOpen(d, key) && d.objs[d.active[key]].started
    ensures var d1 := Started(d, d.active[k]);
            && d1.active == d.active && LcpIsOpen(d1, key) && d.active[k] in d1.objs && LocalOk(d1.conf, d1.objs[d.active[k]])
            && (k != key ==> d.active[k] != d.active[key]) && (k == key ==> d1 == d)
  {
    StartedIsOk(d, k, key);
    if !d.objs[d.active[k]].started { OtherStarts(d, d.active[k], key); }
  }

  lemma StartedIsOk(d: State, k: Key, key: Key)
    requires Reachable(d) && k in d.active && d.active[k] in d.objs && key in d.active
    ensures var d1 := Started(d, d.active[k]);
            d1.active == d.active && d.active[k] in d1.objs && LocalOk(d1.conf, d1.objs[d.active[k]])
    ensures k != key ==> d.active[k] != d.active[key]
  {
    ReachableInv(d);
    ActiveKey(d, k);
    StartedKeeps(d, d.active[k]);
  }

  lemma OtherStarts(d: State, x: nat, key: Key)
    requires x in d.objs && LcpIsOpen(d, key) && x != d.active[key]
    ensures LcpIsOpen(Started(d, x), key)
  {
  }

  lemma StaysOpen(d: State, key: Key, pkt: seq<byte>)
    requires LcpIsOpen(d, key) && d.objs[d.active[key]].started && Handled(Lcp, pkt)
    ensures !Ends(pkt) ==> StillOpen(d, FrameStep(d, key, LcpFrame(pkt)), key)
  {
    var o := d.active[key];
    DownIff(EnvOf(d, d.objs[o]), d.objs[o].lcp, pkt);
  }

  lemma ProtocolStillOpen(d: State, k: Key, frame: Frame, key: Key)
    requires k in d.active && d.active[k] in d.objs && LocalOk(d.conf, d.objs[d.active[k]]) && Legible(frame) && LcpIsOpen(d, key)
    requires frame.LcpFrame? ==> d.active[k] != d.active[key]
    ensures StillOpen(d, ProtocolStep(d, d.active[k], frame), key)
  {
    var x, o := d.active[k], d.active[key];
    match frame
    case LcpFrame(pkt) => OtherLcpStillOpen(d, x, pkt, key);
    case IpcpFrame(pkt) => IpcpUntouched(d, x, pkt, o);
    case AuthRequest(via) =>
      AuthUntouched(d, x, via, o);
      AuthKeepsTable(d, x, via);
    case OtherFrame =>
  }

  lemma AuthKeepsTable(d: State, x: nat, via: Via)
    requires x in d.objs
    ensures AuthStep(d, x, via).active == d.active
  {
    MethodsKeepTable(d, x, via, d.conf.aaa.methods);
  }

  lemma OtherLcpStillOpen(d: State, x: nat, pkt: seq<byte>, key: Key)
    requires x in d.objs && LocalOk(d.conf, d.objs[x]) && Handled(Lcp, pkt) && LcpIsOpen(d, key) && x != d.active[key]
    ensures StillOpen(d, LcpStep(d, x, pkt), key)
  {
    OtherEffectStillOpen(d, x, Receive(Lcp, EnvOf(d, d.objs[x]), d.objs[x].lcp, pkt), key);
  }

  lemma OtherEffectStillOpen(d: State, x: nat, out: Outcome, key: Key)
    requires x in d.objs && LcpIsOpen(d, key) && x != d.active[key]
    ensures StillOpen(d, LcpEffect(d, x, out), key)
  {
    var p := Put(d, x, d.objs[x].(lcp := out.fsm));
    NoNewEntries(p, d.objs[x].key.sid);
    DeallocateUntouched(p, d.objs[x].key.sid, d.active[key]);
  }
}
