/** IPCP address negotiation: IP-Address (section 3.3 of RFC 1332) and the two DNS server options (sections 1.1 and
    1.3 of RFC 1877) must carry the values of the subscriber's AAA session; every other option is rejected. */
module IpcpOptions {
  import opened Wire
  import opened OptionArea
  import opened ControlPacket

  const IP_ADDRESS: byte := 3
  const PRIMARY_DNS: byte := 129
  const SECONDARY_DNS: byte := 131

  /** The AAA session's values a peer has to adopt. */
  datatype Lease = Lease(address: u32, dns1: u32, dns2: u32)

  predicate Known(o: Opt) { o.kind == IP_ADDRESS || o.kind == PRIMARY_DNS || o.kind == SECONDARY_DNS }
  predicate Unknown(o: Opt) { !Known(o) }

  function Want(lease: Lease, kind: byte): u32 {
    if kind == IP_ADDRESS then lease.address else if kind == PRIMARY_DNS then lease.dns1 else lease.dns2
  }

  /** A known option is long enough to hold the value that is read from it and written into it. */
  predicate Sized(o: Opt) { Known(o) ==> |o.data| >= 4 }

  ghost predicate AllSized(opts: seq<Opt>) {
    All(opts, Sized)
  }

  predicate Agrees(lease: Lease, o: Opt) {
    Known(o) ==> |o.data| >= 4 && ReadBe32(o.data) == Want(lease, o.kind)
  }

  ghost predicate AllAgree(lease: Lease, opts: seq<Opt>) {
    All(opts, (o: Opt) => Agrees(lease, o))
  }

  /** The option with its value replaced by the AAA session's. */
  function Fix(lease: Lease, o: Opt): (r: Opt)
    requires Sized(o)
    ensures r.kind == o.kind && |r.data| == |o.data|
  {
    if Known(o) then Opt(o.kind, Be32(Want(lease, o.kind)) + o.data[4..]) else o
  }

  function FixAll(lease: Lease, opts: seq<Opt>): seq<Opt>
    requires AllSized(opts)
  {
    if opts == [] then [] else [Fix(lease, opts[0])] + FixAll(lease, opts[1..])
  }

  ghost predicate Negotiable(area: seq<byte>) {
    WellFormed(area) && AllSized(Parse(area))
  }

  /** How a request with this option area is answered. */
  ghost function Answer(lease: Lease, area: seq<byte>): Reply
    requires Negotiable(area)
  {
    var opts := Parse(area);
    if area == [] then Silent
    else if Keep(opts, Unknown) != [] then Rejected(Unparse(Keep(opts, Unknown)))
    else if AllAgree(lease, opts) then Acked(area)
    else Nakked(Unparse(FixAll(lease, opts)))
  }

  // ---------------------------------------------------------------------------------------------------------------
  // The loops

  /** The places where the options start, the first one at `base`. */
  ghost function Places(opts: seq<Opt>, base: nat): seq<nat> {
    if opts == [] then [] else [base] + Places(opts[1..], base + opts[0].Size())
  }

  /** `parseIPCPOptions`: the places of the options. */
  method ParseOptions(data: seq<byte>) returns (at: seq<nat>)
    requires WellFormed(data)
    ensures at == Places(Parse(data), 0)
  {
    ghost var opts := Parse(data);
    ghost var rest := opts;
    UnparseParse(data);
    at := [];
    var offset := 0;
    while offset < |data|
      invariant offset <= |data| && data[offset..] == Unparse(rest)
      invariant at + Places(rest, offset) == Places(opts, 0)
    {
      ParseTurn(data, rest, offset);
      ghost var places := Places(rest[1..], offset + rest[0].Size());
      assert at + ([offset] + places) == (at + [offset]) + places;
      var opt := First(data[offset..]);
      at := at + [offset];
      offset := offset + opt.Size();
      rest := rest[1..];
    }
  }

  /** One turn of the parsing loop. */
  lemma ParseTurn(data: seq<byte>, rest: seq<Opt>, offset: nat)
    requires offset < |data| && data[offset..] == Unparse(rest)
    ensures rest != [] && offset + rest[0].Size() <= |data|
    ensures var left := data[offset..]; |left| >= 2 && 2 <= left[1] as int <= |left| && First(left) == rest[0]
    ensures data[offset + rest[0].Size()..] == Unparse(rest[1..])
    ensures Places(rest, offset) == [offset] + Places(rest[1..], offset + rest[0].Size())
  {
    FirstOfUnparse(rest);
    assert data[offset..][rest[0].Size()..] == data[offset + rest[0].Size()..];
  }

  /** The loops over the places of the options: `at[i..]` are the places of `rest`, which is what the area still
      holds from `offset` on. */
  ghost predicate Ahead(data: seq<byte>, at: seq<nat>, i: nat, rest: seq<Opt>, offset: nat) {
    i <= |at| && offset <= |data| && at[i..] == Places(rest, offset) && data[offset..] == Unparse(rest)
  }

  lemma Advance(data: seq<byte>, at: seq<nat>, i: nat, rest: seq<Opt>, offset: nat)
    requires Ahead(data, at, i, rest, offset) && i < |at|
    ensures rest != [] && at[i] == offset
    ensures var left := data[offset..]; |left| >= 2 && 2 <= left[1] as int <= |left| && First(left) == rest[0]
    ensures Ahead(data, at, i + 1, rest[1..], offset + rest[0].Size())
  {
    assert at[i..][0] == at[i] && at[i..][1..] == at[i + 1..];
    FirstOfUnparse(rest);
    assert data[offset..][rest[0].Size()..] == data[offset + rest[0].Size()..];
  }

  lemma KeptTurn(rejected: seq<byte>, o: Opt, rest: seq<Opt>)
    ensures rejected + Unparse(Keep([o] + rest, Unknown)) ==
            (if Known(o) then rejected else rejected + o.Bytes()) + Unparse(Keep(rest, Unknown))
  {
    var kept := Keep(rest, Unknown);
    Cons(o, rest, Unknown);
    Cons(o, kept, Unknown);
    assert rejected + (o.Bytes() + Unparse(kept)) == (rejected + o.Bytes()) + Unparse(kept);
  }

  /** The first loop of `check_conf`: collecting what to reject. */
  method CollectRejected(data: seq<byte>, at: seq<nat>) returns (rejected: seq<byte>)
    requires WellFormed(data) && at == Places(Parse(data), 0)
    ensures rejected == Unparse(Keep(Parse(data), Unknown))
  {
    ghost var all := Unparse(Keep(Parse(data), Unknown));
    ghost var rest, offset := Parse(data), 0;
    UnparseParse(data);
    rejected := [];
    for i := 0 to |at|
      invariant 0 <= offset && Ahead(data, at, i, rest, offset)
      invariant rejected + Unparse(Keep(rest, Unknown)) == all
    {
      Advance(data, at, i, rest, offset);
      var opt := First(data[at[i]..]);
      assert rest == [opt] + rest[1..];
      KeptTurn(rejected, opt, rest[1..]);
      if !Known(opt) {
        rejected := rejected + opt.Bytes();
      }
      rest, offset := rest[1..], offset + opt.Size();
    }
  }

  /** The second loop of `check_conf`: does every known option carry the AAA session's value? */
  method CompareValues(data: seq<byte>, at: seq<nat>, lease: Lease) returns (ack: bool)
    requires Negotiable(data) && at == Places(Parse(data), 0)
    ensures ack <==> AllAgree(lease, Parse(data))
  {
    ghost var opts := Parse(data);
    ghost var rest, offset := opts, 0;
    UnparseParse(data);
    ack := true;
    for i := 0 to |at|
      invariant 0 <= offset && Ahead(data, at, i, rest, offset)
      invariant AllSized(rest) && (AllAgree(lease, opts) <==> ack && AllAgree(lease, rest))
    {
      Advance(data, at, i, rest, offset);
      var opt := First(data[at[i]..]);
      if Known(opt) && ReadBe32(opt.data) != Want(lease, opt.kind) {
        ack := false;
      }
      rest, offset := rest[1..], offset + opt.Size();
    }
  }

  method Put32(buf: array<byte>, at: nat, v: u32)
    requires at + 4 <= buf.Length
    modifies buf
    ensures buf[..] == old(buf[..])[..at] + Be32(v) + old(buf[..])[at + 4..]
  {
    var b := Be32(v);
    buf[at], buf[at + 1], buf[at + 2], buf[at + 3] := b[0], b[1], b[2], b[3];
  }

  /** The buffer while the Nak is being written: finished bytes, options still to do, padding. */
  ghost function HalfDone(done: seq<byte>, rest: seq<Opt>, pad: seq<byte>): seq<byte> {
    done + (Unparse(rest) + pad)
  }

  /** Replacing the four bytes `x` in the middle of a buffer by `v`. */
  lemma Splice(done: seq<byte>, h: seq<byte>, x: seq<byte>, d: seq<byte>, tail: seq<byte>, v: seq<byte>)
    requires |h| == 2 && |x| == |v| == 4
    ensures var buf, p := done + ((h + x + d) + tail), |done|;
            buf[..p + 2] + v + buf[p + 6..] == (done + (h + v + d)) + tail
  {
    var buf, p := done + ((h + x + d) + tail), |done|;
    assert buf[..p + 2] == done + h;
    assert buf[p + 6..] == d + tail;
  }

  /** One turn of the rewriting loop, on the buffer: what is found after the finished bytes. */
  lemma BufferFront(done: seq<byte>, rest: seq<Opt>, pad: seq<byte>)
    requires rest != []
    ensures var left := HalfDone(done, rest, pad)[|done|..];
            && left == rest[0].Bytes() + (Unparse(rest[1..]) + pad)
            && |left| >= 2 && 2 <= left[1] as int <= |left| && First(left) == rest[0]
  {
    var left, o, tail := HalfDone(done, rest, pad)[|done|..], rest[0], Unparse(rest[1..]) + pad;
    assert left == o.Bytes() + tail;
    assert left[2..o.Size()] == o.data;
  }

  /** A known option in bytes, before and after fixing: only its value `x` changes. */
  lemma KnownBytes(lease: Lease, o: Opt) returns (h: seq<byte>, x: seq<byte>, d: seq<byte>)
    requires Sized(o) && Known(o)
    ensures |h| == 2 && |x| == 4 && o.Bytes() == h + x + d
    ensures Fix(lease, o).Bytes() == h + Be32(Want(lease, o.kind)) + d
  {
    h, x, d := [o.kind, o.Size() as byte], o.data[..4], o.data[4..];
    assert o.data == x + d;
  }

  lemma HalfDoneFront(done: seq<byte>, rest: seq<Opt>, pad: seq<byte>)
    requires rest != []
    ensures HalfDone(done, rest, pad) == done + (rest[0].Bytes() + (Unparse(rest[1..]) + pad))
  {
    assert Unparse(rest) + pad == rest[0].Bytes() + (Unparse(rest[1..]) + pad);
  }

  /** One turn of the rewriting loop, on the buffer: overwriting the value of a known option fixes it and nothing
      else; an unknown option needs no fixing. */
  lemma KnownTurn(lease: Lease, done: seq<byte>, rest: seq<Opt>, pad: seq<byte>)
    requires rest != [] && Sized(rest[0]) && Known(rest[0])
    ensures var buf, p, o := HalfDone(done, rest, pad), |done|, rest[0];
            && p + 6 <= |buf|
            && buf[..p + 2] + Be32(Want(lease, o.kind)) + buf[p + 6..]
               == HalfDone(done + Fix(lease, o).Bytes(), rest[1..], pad)
  {
    var h, x, d := KnownBytes(lease, rest[0]);
    HalfDoneFront(done, rest, pad);
    Splice(done, h, x, d, Unparse(rest[1..]) + pad, Be32(Want(lease, rest[0].kind)));
  }

  lemma UnknownTurn(lease: Lease, done: seq<byte>, rest: seq<Opt>, pad: seq<byte>)
    requires rest != [] && Unknown(rest[0])
    ensures HalfDone(done, rest, pad) == HalfDone(done + Fix(lease, rest[0]).Bytes(), rest[1..], pad)
  {
    var o, tail := rest[0], Unparse(rest[1..]) + pad;
    assert HalfDone(done, rest, pad) == done + (o.Bytes() + tail);
    assert done + (o.Bytes() + tail) == (done + o.Bytes()) + tail;
  }

  /** One turn of the rewriting loop, on what is still to be written. */
  lemma GoalTurn(lease: Lease, done: seq<byte>, rest: seq<Opt>)
    requires rest != [] && AllSized(rest)
    ensures Sized(rest[0]) && AllSized(rest[1..])
    ensures done + Unparse(FixAll(lease, rest)) == (done + Fix(lease, rest[0]).Bytes()) + Unparse(FixAll(lease, rest[1..]))
  {
    var o, tail := Fix(lease, rest[0]), FixAll(lease, rest[1..]);
    Cons(o, tail, Known);
    assert done + (o.Bytes() + Unparse(tail)) == (done + o.Bytes()) + Unparse(tail);
  }

  lemma PlacesTurn(at: seq<nat>, i: nat, rest: seq<Opt>, base: nat)
    requires i < |at| && at[i..] == Places(rest, base)
    ensures rest != [] && at[i] == base && at[i + 1..] == Places(rest[1..], base + rest[0].Size())
  {
    assert at[i..][0] == at[i] && at[i..][1..] == at[i + 1..];
  }

  lemma NakFront(was: seq<byte>)
    requires Sound(was) && WellFormed(Area(was))
    ensures was[0 := CONF_NAK] == HalfDone([CONF_NAK] + was[1..HEADER], Parse(Area(was)), was[HEADER + |Area(was)|..])
  {
    UnparseParse(Area(was));
    assert was == was[..1] + was[1..HEADER] + (Area(was) + was[HEADER + |Area(was)|..]);
  }

  /** `send_conf_nak`: the request buffer becomes the Nak. The known values are overwritten where they stand; the
      header, every option boundary and any padding stay as they were. */
  method RewriteToNak(pkt: array<byte>, lease: Lease)
    requires Sound(pkt[..]) && Negotiable(Area(pkt[..]))
    modifies pkt
    ensures pkt[..] == old(NakPacket(pkt[..], Unparse(FixAll(lease, Parse(Area(pkt[..]))))))
  {
    ghost var was := pkt[..];
    NakFront(was);
    var data := Area(pkt[..]);
    pkt[0] := CONF_NAK;
    assert pkt[..] == was[0 := CONF_NAK];
    var at := ParseOptions(data);
    RewriteValues(pkt, at, lease, [CONF_NAK] + was[1..HEADER], Parse(data), was[HEADER + |data|..]);
  }

  /** The rewriting loop. */
  method RewriteValues(pkt: array<byte>, at: seq<nat>, lease: Lease, ghost head: seq<byte>, ghost opts: seq<Opt>,
                       ghost pad: seq<byte>)
    requires |head| == HEADER && AllSized(opts) && at == Places(opts, 0) && pkt[..] == HalfDone(head, opts, pad)
    modifies pkt
    ensures pkt[..] == head + Unparse(FixAll(lease, opts)) + pad
  {
    ghost var rest, done, offset := opts, head, 0;
    for i := 0 to |at|
      invariant 0 <= offset && |done| == HEADER + offset && at[i..] == Places(rest, offset)
      invariant AllSized(rest)
      invariant pkt[..] == HalfDone(done, rest, pad)
      invariant head + Unparse(FixAll(lease, opts)) == done + Unparse(FixAll(lease, rest))
    {
      PlacesTurn(at, i, rest, offset);
      GoalTurn(lease, done, rest);
      offset := offset + rest[0].Size();
      done, rest := FixHere(pkt, HEADER + at[i], lease, done, rest, pad);
    }
    assert pkt[..] == done + pad;
  }

  /** The body of the rewriting loop, at the option whose place is `p`. */
  method FixHere(pkt: array<byte>, p: nat, lease: Lease, ghost done: seq<byte>, ghost rest: seq<Opt>, ghost pad: seq<byte>)
    returns (ghost done': seq<byte>, ghost rest': seq<Opt>)
    requires p == |done| && rest != [] && Sized(rest[0]) && pkt[..] == HalfDone(done, rest, pad)
    modifies pkt
    ensures done' == done + Fix(lease, rest[0]).Bytes() && rest' == rest[1..]
    ensures pkt[..] == HalfDone(done', rest', pad)
  {
    BufferFront(done, rest, pad);
    var opt := First(pkt[..][p..]);
    if Known(opt) {
      KnownTurn(lease, done, rest, pad);
      Put32(pkt, p + 2, Want(lease, opt.kind));
    } else {
      UnknownTurn(lease, done, rest, pad);
    }
    done', rest' := done + Fix(lease, opt).Bytes(), rest[1..];
  }

  // ---------------------------------------------------------------------------------------------------------------
  // What the replies mean

  /** A Nak lists the request's options at their old places and sizes; the known ones hold the AAA session's values
      (and whatever followed them), the others are as the peer sent them. */
  lemma NakContents(lease: Lease, opts: seq<Opt>, i: nat)
    requires AllSized(opts) && i < |opts|
    ensures var fixed := FixAll(lease, opts);
            && |fixed| == |opts|
            && WellFormed(Unparse(fixed)) && Parse(Unparse(fixed)) == fixed
            && Places(fixed, 0) == Places(opts, 0)
            && fixed[i].kind == opts[i].kind
            && (Known(opts[i]) ==> |opts[i].data| >= 4 &&
                                   fixed[i].data == Be32(Want(lease, opts[i].kind)) + opts[i].data[4..])
            && (Unknown(opts[i]) ==> fixed[i] == opts[i])
  {
    ParseUnparse(FixAll(lease, opts));
    FixAllAt(lease, opts, i, 0);
  }

  lemma {:induction false} FixAllAt(lease: Lease, opts: seq<Opt>, i: nat, base: nat)
    requires AllSized(opts) && i < |opts|
    ensures Sized(opts[i]) && |FixAll(lease, opts)| == |opts| && FixAll(lease, opts)[i] == Fix(lease, opts[i])
    ensures Places(FixAll(lease, opts), base) == Places(opts, base)
  {
    var tail := opts[1..];
    if tail == [] {
    } else {
      FixAllAt(lease, tail, if i == 0 then 0 else i - 1, base + opts[0].Size());
    }
    assert FixAll(lease, opts)[1..] == FixAll(lease, tail);
  }

  lemma {:induction false} FixAllAgrees(lease: Lease, opts: seq<Opt>)
    requires AllSized(opts)
    ensures AllSized(FixAll(lease, opts)) && AllAgree(lease, FixAll(lease, opts))
    ensures Keep(FixAll(lease, opts), Unknown) == Keep(opts, Unknown)
    ensures FixAll(lease, opts) == [] <==> opts == []
  {
    if opts == [] {
    } else {
      FixAllAgrees(lease, opts[1..]);
      var o := opts[0];
      if Known(o) {
        Be32RoundTrip(Want(lease, o.kind), o.data[4..]);
      }
      assert Agrees(lease, Fix(lease, o)) && Known(o) == Known(Fix(lease, o));
      assert FixAll(lease, opts)[1..] == FixAll(lease, opts[1..]);
    }
  }

  lemma {:induction false} FixAllOfAgreeing(lease: Lease, opts: seq<Opt>)
    requires AllSized(opts) && AllAgree(lease, opts)
    ensures FixAll(lease, opts) == opts
  {
    if opts == [] {
    } else {
      var o := opts[0];
      if Known(o) {
        ReadBe32Injective(o.data);
        assert o.data == o.data[..4] + o.data[4..];
      }
      FixAllOfAgreeing(lease, opts[1..]);
    }
  }

  // ---------------------------------------------------------------------------------------------------------------
  // Which value stands where

  /** Option 3 holds the subscriber's address, option 129 the primary name server and option 131 the secondary one. */
  predicate RightValue(lease: Lease, o: Opt) {
    && (o.kind == 3 ==> |o.data| >= 4 && ReadBe32(o.data) == lease.address)
    && (o.kind == 129 ==> |o.data| >= 4 && ReadBe32(o.data) == lease.dns1)
    && (o.kind == 131 ==> |o.data| >= 4 && ReadBe32(o.data) == lease.dns2)
  }

  predicate OneOfThree(o: Opt) { o.kind == 3 || o.kind == 129 || o.kind == 131 }

  /** What a reader of the reply finds in it. */
  ghost predicate SaysRight(lease: Lease, area: seq<byte>, reply: Reply)
    requires WellFormed(area)
  {
    var opts := Parse(area);
    match reply
    case Silent => area == []
    case Acked(same) =>
      same == area != [] && forall o :: o in opts ==> OneOfThree(o) && RightValue(lease, o)
    case Rejected(bytes) =>
      && (exists o :: o in opts && !OneOfThree(o))
      && WellFormed(bytes) && forall o :: o in Parse(bytes) <==> o in opts && !OneOfThree(o)
    case Nakked(bytes) =>
      && (forall o :: o in opts ==> OneOfThree(o)) && (exists o :: o in opts && !RightValue(lease, o))
      && WellFormed(bytes) && |Parse(bytes)| == |opts|
      && forall i :: 0 <= i < |opts| ==> Parse(bytes)[i].kind == opts[i].kind && RightValue(lease, Parse(bytes)[i])
  }

  /** A request is acknowledged if and only if it holds nothing but these three options, each with its own value; a
      Nak offers each its own value; a Reject names exactly the other options. The four kinds of reply exclude each
      other, so each condition is also sufficient. */
  lemma EachItsOwnValue(lease: Lease, area: seq<byte>)
    requires Negotiable(area)
    ensures SaysRight(lease, area, Answer(lease, area))
    ensures forall reply :: SaysRight(lease, area, reply) ==> SameKind(reply, Answer(lease, area))
  {
    AnswerSaysRight(lease, area);
    forall reply | SaysRight(lease, area, reply) ensures SameKind(reply, Answer(lease, area)) {
      OneKindIsRight(lease, area, reply, Answer(lease, area));
    }
  }

  lemma AnswerSaysRight(lease: Lease, area: seq<byte>)
    requires Negotiable(area)
    ensures SaysRight(lease, area, Answer(lease, area))
  {
    var rejected := Keep(Parse(area), Unknown);
    UnparseParse(area);
    if area == [] {
    } else if rejected != [] {
      RejectSaysRight(lease, area);
    } else {
      VerdictSaysRight(lease, area, AllAgree(lease, Parse(area)));
    }
  }

  lemma RejectSaysRight(lease: Lease, area: seq<byte>)
    requires WellFormed(area) && Keep(Parse(area), Unknown) != []
    ensures SaysRight(lease, area, Rejected(Unparse(Keep(Parse(area), Unknown))))
  {
    var rejected := Keep(Parse(area), Unknown);
    KeepMembers(Parse(area), Unknown);
    assert rejected[0] in Parse(area);
    ParseUnparse(rejected);
  }

  lemma VerdictSaysRight(lease: Lease, area: seq<byte>, ack: bool)
    requires Negotiable(area) && area != [] && Keep(Parse(area), Unknown) == [] && (ack <==> AllAgree(lease, Parse(area)))
    ensures SaysRight(lease, area, if ack then Acked(area) else Nakked(Unparse(FixAll(lease, Parse(area)))))
  {
    var opts := Parse(area);
    AllAreKnown(opts);
    AllFitIff(lease, opts);
    if !ack { NakIsRight(lease, opts); }
  }

  lemma AllAreKnown(opts: seq<Opt>)
    requires Keep(opts, Unknown) == []
    ensures forall o :: o in opts ==> OneOfThree(o)
  {
    KeepMembers(opts, Unknown);
    forall o | o in opts ensures OneOfThree(o) { assert Unknown(o) ==> o in Keep(opts, Unknown); }
  }

  lemma AllFitIff(lease: Lease, opts: seq<Opt>)
    ensures AllAgree(lease, opts) <==> forall o :: o in opts ==> RightValue(lease, o)
  {
    AllMembers(opts, (o: Opt) => Agrees(lease, o));
    forall o ensures Agrees(lease, o) <==> RightValue(lease, o) {}
  }

  lemma OneKindIsRight(lease: Lease, area: seq<byte>, a: Reply, b: Reply)
    requires WellFormed(area) && SaysRight(lease, area, a) && SaysRight(lease, area, b)
    ensures SameKind(a, b)
  {
    UnparseParse(area);
  }

  predicate SameKind(a: Reply, b: Reply) {
    (a.Silent? <==> b.Silent?) && (a.Acked? <==> b.Acked?) && (a.Nakked? <==> b.Nakked?)
  }

  lemma NakIsRight(lease: Lease, opts: seq<Opt>)
    requires AllSized(opts)
    ensures var fixed := FixAll(lease, opts);
            && |fixed| == |opts| && WellFormed(Unparse(fixed)) && Parse(Unparse(fixed)) == fixed
            && forall i :: 0 <= i < |opts| ==> fixed[i].kind == opts[i].kind && RightValue(lease, fixed[i])
  {
    var fixed := FixAll(lease, opts);
    ParseUnparse(fixed);
    FixAllAgrees(lease, opts);
    AllFitIff(lease, fixed);
    if opts != [] { FixAllAt(lease, opts, 0, 0); }
    forall i | 0 <= i < |opts| ensures fixed[i].kind == opts[i].kind && RightValue(lease, fixed[i]) {
      FixAllAt(lease, opts, i, 0);
      assert fixed[i] in fixed;
    }
  }

  // ---------------------------------------------------------------------------------------------------------------
  // Convergence

  /** The next request of a peer that complies: it drops what was rejected, adopts what was naked, and otherwise
      repeats itself. */
  ghost function Comply(area: seq<byte>, reply: Reply): seq<byte>
    requires WellFormed(area)
  {
    match reply
    case Rejected(bytes) => if !WellFormed(bytes) then area else Unparse(Keep(Parse(area), (o: Opt) => o !in Parse(bytes)))
    case Nakked(bytes) => bytes
    case _ => area
  }

  /** The options of a complying peer's next request. */
  ghost function NextOptions(lease: Lease, area: seq<byte>): seq<Opt>
    requires Negotiable(area)
  {
    match Answer(lease, area)
    case Rejected(_) => Keep(Parse(area), Known)
    case Nakked(_) => FixAll(lease, Parse(area))
    case _ => Parse(area)
  }

  lemma AnswerIsUsable(lease: Lease, area: seq<byte>)
    requires Negotiable(area)
    ensures Negotiable(Comply(area, Answer(lease, area)))
    ensures Parse(Comply(area, Answer(lease, area))) == NextOptions(lease, area)
  {
    match Answer(lease, area)
    case Rejected(_) => RejectIsUsable(area);
    case Nakked(_) =>
      ParseUnparse(FixAll(lease, Parse(area)));
      FixAllAgrees(lease, Parse(area));
    case _ =>
  }

  lemma RejectIsUsable(area: seq<byte>)
    requires Negotiable(area)
    ensures var reject := Rejected(Unparse(Keep(Parse(area), Unknown)));
            Negotiable(Comply(area, reject)) && Parse(Comply(area, reject)) == Keep(Parse(area), Known)
  {
    var opts, rej := Parse(area), Keep(Parse(area), Unknown);
    ParseUnparse(rej);
    KeepMembers(opts, Unknown);
    KeepSame(opts, (o: Opt) => o !in rej, Known);
    ParseUnparse(Keep(opts, Known));
    KeepFacts(opts, Known, Sized);
  }

  /** The reply to a complying peer's `n`-th request, the first one asking for `area`. */
  ghost function Exchange(lease: Lease, area: seq<byte>, n: nat): Reply
    requires Negotiable(area) && n >= 1
    decreases n
  {
    AnswerIsUsable(lease, area);
    if n == 1 then Answer(lease, area) else Exchange(lease, Comply(area, Answer(lease, area)), n - 1)
  }

  /** How many requests a complying peer needs: one more if something is rejected, one more if a value is wrong. */
  ghost function Rounds(lease: Lease, opts: seq<Opt>): nat
    requires AllSized(opts)
  {
    1 + (if Keep(opts, Unknown) != [] then 1 else 0) + (if AllAgree(lease, opts) then 0 else 1)
  }

  /** Agreement concerns the known options only. */
  lemma {:induction false} AgreementOfKnown(lease: Lease, opts: seq<Opt>)
    requires AllSized(opts)
    ensures AllSized(Keep(opts, Known)) && Keep(Keep(opts, Known), Unknown) == []
    ensures AllAgree(lease, Keep(opts, Known)) <==> AllAgree(lease, opts)
  {
    if opts == [] {
    } else {
      AgreementOfKnown(lease, opts[1..]);
      var tail := Keep(opts[1..], Known);
      assert ([opts[0]] + tail)[1..] == tail;
    }
  }

  /** A negotiation with at least one known option is acknowledged at request `Rounds`, so at the third at the
      latest, and not earlier. The acknowledged area is the known options in order, with the AAA session's values. */
  lemma NegotiationConverges(lease: Lease, area: seq<byte>)
    requires Negotiable(area) && Keep(Parse(area), Known) != []
    ensures var n, final := Rounds(lease, Parse(area)), FixAllKnown(lease, Parse(area));
            && 1 <= n <= 3
            && Exchange(lease, area, n) == Acked(Unparse(final))
            && (n >= 2 ==> !Exchange(lease, area, 1).Acked?)
            && (n == 3 ==> !Exchange(lease, area, 2).Acked?)
            && AllSized(final) && AllAgree(lease, final)
  {
    var opts := Parse(area);
    AgreementOfKnown(lease, opts);
    FixAllAgrees(lease, Keep(opts, Known));
    if Keep(opts, Unknown) != [] {
      ConvergesAfterReject(lease, area);
    } else {
      OnlyKnown(opts);
      AcceptedOnceKnown(lease, area);
    }
  }

  lemma ConvergesAfterReject(lease: Lease, area: seq<byte>)
    requires Negotiable(area) && Keep(Parse(area), Known) != [] && Keep(Parse(area), Unknown) != []
    ensures Exchange(lease, area, 1).Rejected?
    ensures var final := Unparse(FixAllKnown(lease, Parse(area)));
            if AllAgree(lease, Parse(area)) then Exchange(lease, area, 2) == Acked(final)
            else Exchange(lease, area, 2).Nakked? && Exchange(lease, area, 3) == Acked(final)
  {
    AgreementOfKnown(lease, Parse(area));
    var second := AfterReject(lease, area);
    AcceptedOnceKnown(lease, second);
  }

  /** Once something was rejected, the rest of the exchange is that of the peer's second request. */
  lemma AfterReject(lease: Lease, area: seq<byte>) returns (second: seq<byte>)
    requires Negotiable(area) && Keep(Parse(area), Unknown) != []
    ensures Exchange(lease, area, 1).Rejected?
    ensures Negotiable(second) && Parse(second) == Keep(Parse(area), Known)
    ensures Exchange(lease, area, 2) == Exchange(lease, second, 1)
    ensures Exchange(lease, area, 3) == Exchange(lease, second, 2)
  {
    AnswerIsUsable(lease, area);
    second := Comply(area, Answer(lease, area));
  }

  ghost function FixAllKnown(lease: Lease, opts: seq<Opt>): seq<Opt>
    requires AllSized(opts)
  {
    KeepFacts(opts, Known, Sized);
    FixAll(lease, Keep(opts, Known))
  }

  lemma OnlyKnown(opts: seq<Opt>)
    requires Keep(opts, Unknown) == []
    ensures Keep(opts, Known) == opts
  {
    KeepNothing(opts, Unknown, Known);
    KeepFacts(opts, Known, Known);
  }

  /** With known options only, the request is acknowledged at once if the values agree and otherwise after one Nak. */
  lemma AcceptedOnceKnown(lease: Lease, area: seq<byte>)
    requires Negotiable(area) && Parse(area) != [] && Keep(Parse(area), Unknown) == []
    ensures var opts := Parse(area);
            var final := Unparse(FixAll(lease, opts));
            if AllAgree(lease, opts) then Exchange(lease, area, 1) == Acked(final)
            else Exchange(lease, area, 1) == Nakked(final) && Exchange(lease, area, 2) == Acked(final)
  {
    var opts := Parse(area);
    UnparseParse(area);
    if AllAgree(lease, opts) {
      FixAllOfAgreeing(lease, opts);
    } else {
      AnswerIsUsable(lease, area);
      FixAllAgrees(lease, opts);
      var second := Comply(area, Answer(lease, area));
      UnparseParse(second);
      assert Answer(lease, second) == Acked(second);
      assert Exchange(lease, area, 2) == Exchange(lease, second, 1);
    }
  }

  /** Without a known option the peer is never acknowledged: the only requests left are empty, and those get no
      answer. Together with `NegotiationConverges`: a complying peer is acknowledged if and only if it asked for at
      least one of the three options. */
  lemma {:induction false} NothingKnownNeverAcked(lease: Lease, area: seq<byte>, n: nat)
    requires Negotiable(area) && Keep(Parse(area), Known) == [] && n >= 1
    ensures !Exchange(lease, area, n).Acked? && !Exchange(lease, area, n).Nakked?
    ensures n >= 2 ==> Exchange(lease, area, n) == Silent
    decreases n
  {
    var opts := Parse(area);
    KeepNothing(opts, Known, Unknown);
    AnswerIsUsable(lease, area);
    if n <= 1 {
    } else {
      var second := Comply(area, Answer(lease, area));
      UnparseParse(second);
      assert Parse(second) == [];
      NothingKnownNeverAcked(lease, second, n - 1);
    }
  }
}
