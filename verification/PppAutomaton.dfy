/** The automaton as the daemon holds it: an object whose event methods update its fields and push packets on the
    outgoing queue, proved against the functions of `PppFsm`. */
module PppAutomaton {
  import opened Wire
  import opened OptionArea
  import opened ControlPacket
  import opened LcpOptions
  import opened IpcpOptions
  import opened PppFsm

  class Automaton {
    const kind: Kind
    var phase: Phase
    var seenAck: bool
    var nakCounter: u8
    var peer: Peer
    var echo: u8
    /** What this automaton has pushed on the outgoing queue. */
    var queue: seq<seq<byte>>

    ghost function Value(): Fsm
      reads this
    {
      Fsm(phase, seenAck, nakCounter, peer, echo)
    }

    constructor (kind: Kind, peer: Peer)
      ensures this.kind == kind && Value() == Fresh(peer) && queue == []
    {
      this.kind := kind;
      phase, seenAck, nakCounter, echo, queue := Initial, false, 0, 0, [];
      this.peer := peer;
    }

    method SendConfReq(env: Env) returns (err: bool)
      modifies this`queue
      ensures queue == old(queue) + RequestSent(kind, env)
      ensures err <==> OwnRequest(kind, env).None?
    {
      var request := OwnRequest(kind, env);
      err := request.None?;
      if !err {
        queue := queue + [request.value];
      }
    }

    method Open(env: Env)
      modifies this
      ensures var out := OpenEvent(kind, env, old(Value())); Value() == out.fsm && queue == old(queue) + out.sent
    {
      match phase
      case Initial => phase := Starting;
      case Closed =>
        var err := SendConfReq(env);
        if !err { phase := ReqSent; }
      case Closing => phase := Stopping;
      case _ =>
    }

    method LayerUp(env: Env)
      modifies this
      ensures var out := LayerUpEvent(kind, env, old(Value())); Value() == out.fsm && queue == old(queue) + out.sent
    {
      match phase
      case Initial => phase := Closed;
      case Starting =>
        var err := SendConfReq(env);
        if !err { phase := ReqSent; }
      case _ =>
    }

    method SendConfAck(pkt: array<byte>) returns (action: Action)
      requires Sound(pkt[..])
      modifies this`queue, pkt
      ensures queue == old(queue) + [old(pkt[..])[0 := CONF_ACK]]
      ensures action == if phase == Opened then Action.LayerUp else NoAction
    {
      pkt[0] := CONF_ACK;
      queue := queue + [pkt[..]];
      action := if phase == Opened then Action.LayerUp else NoAction;
    }

    method SendConfRej(rejected: seq<byte>, id: byte)
      modifies this`queue
      ensures queue == old(queue) + [Build(CONF_REJ, id, rejected)]
    {
      queue := queue + [Build(CONF_REJ, id, rejected)];
    }

    method SendConfNak(pkt: array<byte>, lease: Lease)
      requires Sound(pkt[..]) && Negotiable(Area(pkt[..]))
      modifies this`queue, pkt
      ensures queue == old(queue) + [old(NakPacket(pkt[..], Unparse(FixAll(lease, Parse(Area(pkt[..]))))))]
    {
      RewriteToNak(pkt, lease);
      queue := queue + [pkt[..]];
    }

    /** The acknowledging branch `check_conf` has in both protocols. */
    method Accept(pkt: array<byte>) returns (action: Action)
      requires Sound(pkt[..])
      modifies this`phase, this`nakCounter, this`queue, pkt
      ensures phase == (if old(phase) == AckRcvd then Opened else AckSent) && nakCounter == 0
      ensures queue == old(queue) + [old(pkt[..])[0 := CONF_ACK]]
      ensures action == if old(phase) == AckRcvd then Action.LayerUp else NoAction
    {
      phase := if phase == AckRcvd then Opened else AckSent;
      nakCounter := 0;
      action := SendConfAck(pkt);
    }

    method CheckLcp(env: Env, pkt: array<byte>) returns (action: Action, err: bool)
      requires kind == Lcp && Handled(Lcp, pkt[..]) && pkt[0] == CONF_REQ
      modifies this, pkt
      ensures var out := old(CheckConf(Lcp, Value(), pkt[..], Verdict(Lcp, env, pkt[..]), Noted(Lcp, Value(), pkt[..])));
              Value() == out.fsm && queue == old(queue) + out.sent && action == out.action && err == out.err
    {
      ghost var area := Area(pkt[..]);
      NothingRefusedIff(area);
      if |Area(pkt[..])| == 0 {
        return NoAction, true;
      }
      var ack, rejected, noted := Scan(pkt[..], peer);
      peer, action, err := noted, NoAction, false;
      if ack {
        action := Accept(pkt);
      } else {
        if phase != AckRcvd { phase := ReqSent; }
        SendConfRej(rejected, pkt[1]);
      }
    }

    method CheckIpcp(env: Env, pkt: array<byte>) returns (action: Action, err: bool)
      requires kind == Ipcp && Handled(Ipcp, pkt[..]) && pkt[0] == CONF_REQ
      modifies this, pkt
      ensures var out := old(CheckConf(Ipcp, Value(), pkt[..], Verdict(Ipcp, env, pkt[..]), Noted(Ipcp, Value(), pkt[..])));
              Value() == out.fsm && queue == old(queue) + out.sent && action == out.action && err == out.err
    {
      var data := Area(pkt[..]);
      action, err := NoAction, false;
      if |data| == 0 || env.lease.None? {
        return NoAction, true;
      }
      var lease := env.lease.value;
      var at := ParseOptions(data);
      var rejected := CollectRejected(data, at);
      if |rejected| != 0 {
        SendConfRej(rejected, pkt[1]);
        return;
      }
      var ack := CompareValues(data, at, lease);
      action := AckOrNak(pkt, ack, lease);
    }

    /** The last branch of IPCP's `check_conf`. */
    method AckOrNak(pkt: array<byte>, ack: bool, lease: Lease) returns (action: Action)
      requires kind == Ipcp && Sound(pkt[..]) && Negotiable(Area(pkt[..]))
      modifies this, pkt
      ensures var reply := if ack then Acked(old(Area(pkt[..])))
                           else Nakked(old(Unparse(FixAll(lease, Parse(Area(pkt[..]))))));
              var out := old(CheckConf(Ipcp, Value(), pkt[..], reply, peer));
              Value() == out.fsm && queue == old(queue) + out.sent && action == out.action && !out.err
    {
      if ack {
        action := Accept(pkt);
      } else {
        if phase != AckRcvd { phase := ReqSent; }
        nakCounter := (nakCounter + 1) % 0x100;
        SendConfNak(pkt, lease);
        action := NoAction;
      }
    }

    method Check(env: Env, pkt: array<byte>) returns (action: Action, err: bool)
      requires Handled(kind, pkt[..]) && pkt[0] == CONF_REQ
      modifies this, pkt
      ensures var out := old(CheckConf(kind, Value(), pkt[..], Verdict(kind, env, pkt[..]), Noted(kind, Value(), pkt[..])));
              Value() == out.fsm && queue == old(queue) + out.sent && action == out.action && err == out.err
    {
      if kind == Lcp {
        action, err := CheckLcp(env, pkt);
      } else {
        action, err := CheckIpcp(env, pkt);
      }
    }

    method RecvConfReq(env: Env, pkt: array<byte>) returns (action: Action, err: bool)
      requires Handled(kind, pkt[..]) && pkt[0] == CONF_REQ
      modifies this, pkt
      ensures var out := old(PppFsm.RecvConfReq(kind, env, Value(), pkt[..], Verdict(kind, env, pkt[..]),
                                                Noted(kind, Value(), pkt[..])));
              Value() == out.fsm && queue == old(queue) + out.sent && action == out.action && err == out.err
    {
      match phase
      case Closing => return NoAction, true;
      case Stopping => return NoAction, true;
      case Closed => return NoAction, true;
      case Opened =>
        Restart(env);
        return Action.LayerDown, false;
      case Stopped =>
        action, err := RestartAndCheck(env, pkt);
      case _ =>
        action, err := Check(env, pkt);
    }

    method Restart(env: Env)
      modifies this`phase, this`queue
      ensures Value() == old(Value()).(phase := ReqSent) && queue == old(queue) + RequestSent(kind, env)
    {
      var _ := SendConfReq(env);
      phase := ReqSent;
    }

    method RestartAndCheck(env: Env, pkt: array<byte>) returns (action: Action, err: bool)
      requires Handled(kind, pkt[..]) && pkt[0] == CONF_REQ
      modifies this, pkt
      ensures var out := old(CheckConf(kind, Value().(phase := ReqSent), pkt[..], Verdict(kind, env, pkt[..]),
                                       Noted(kind, Value(), pkt[..])));
              && Value() == out.fsm && action == out.action && err == out.err
              && queue == old(queue) + (RequestSent(kind, env) + out.sent)
    {
      Restart(env);
      action, err := Check(env, pkt);
    }

    method RecvConfAck(env: Env, pkt: array<byte>) returns (action: Action, err: bool)
      requires Sound(pkt[..])
      modifies this
      ensures var out := PppFsm.RecvConfAck(kind, env, old(Value()), pkt[..]);
              Value() == out.fsm && queue == old(queue) + out.sent && action == out.action && err == out.err
    {
      if pkt[1] != PKT_ID {
        return NoAction, true;
      }
      seenAck := true;
      action, err := NoAction, false;
      match phase
      case ReqSent => phase := AckRcvd;
      case AckSent =>
        phase := Opened;
        LayerUp(env);
        action := Action.LayerUp;
      case Opened =>
        Restart(env);
        action := Action.LayerDown;
      case _ =>
    }

    /** `send_term_ack` and `send_echo_rep`. */
    method SendBack(env: Env, pkt: array<byte>, code: byte) returns (err: bool)
      requires Sound(pkt[..]) && (kind == Lcp ==> pkt.Length >= 8)
      modifies this`queue, pkt
      ensures queue == old(queue) + old(Echoed(kind, env, Value(), pkt[..], code))
      ensures err <==> kind == Lcp && old(Echoed(kind, env, Value(), pkt[..], code)) == []
    {
      if kind == Ipcp {
        return false;
      }
      ghost var was := pkt[..];
      pkt[0] := code;
      if ReadBe32(pkt[4..]) != peer.magic {
        assert pkt[4..] == was[4..];
        return true;
      }
      assert pkt[4..] == was[4..];
      Put32(pkt, 4, env.magic);
      assert pkt[..] == [code] + was[1..4] + Be32(env.magic) + was[8..];
      queue := queue + [pkt[..]];
      err := false;
    }

    method RecvTermReq(env: Env, pkt: array<byte>) returns (action: Action, err: bool)
      requires Sound(pkt[..]) && (kind == Lcp ==> pkt.Length >= 8)
      modifies this, pkt
      ensures var out := old(PppFsm.RecvTermReq(kind, env, Value(), pkt[..]));
              Value() == out.fsm && queue == old(queue) + out.sent && action == out.action && err == out.err
    {
      action, err := NoAction, false;
      match phase {
        case AckRcvd => phase := ReqSent;
        case AckSent => phase := ReqSent;
        case Opened =>
          phase := Stopping;
          action := Action.LayerDown;
        case _ =>
      }
      var _ := SendBack(env, pkt, TERM_ACK);
    }

    method Receive(env: Env, pkt: array<byte>) returns (action: Action, err: bool)
      requires Handled(kind, pkt[..])
      modifies this, pkt
      ensures var out := old(PppFsm.Receive(kind, env, Value(), pkt[..]));
              Value() == out.fsm && queue == old(queue) + out.sent && action == out.action && err == out.err
    {
      action, err := NoAction, false;
      if phase == Initial || phase == Starting {
        err := true;
      } else if pkt[0] == CONF_REQ {
        action, err := RecvConfReq(env, pkt);
      } else if pkt[0] == CONF_ACK {
        action, err := RecvConfAck(env, pkt);
      } else if pkt[0] == TERM_REQ {
        action, err := RecvTermReq(env, pkt);
      } else if pkt[0] == ECHO_REQ {
        err := SendBack(env, pkt, ECHO_REPLY);
      } else if pkt[0] == ECHO_REPLY && kind == Lcp {
        echo := 0;
      }
    }

    method SendEchoReq(env: Env) returns (action: Action, err: bool)
      modifies this
      ensures var out := EchoFires(env, old(Value()));
              Value() == out.fsm && queue == old(queue) + out.sent && action == out.action && err == out.err
    {
      echo := (echo + 1) % 0x100;
      if echo > ECHO_LIMIT {
        return Action.LayerDown, true;
      }
      queue := queue + [Request(ECHO_REQ, [MAGIC_NUMBER, 6] + Be32(env.magic))];
      return NoAction, false;
    }
  }
}
