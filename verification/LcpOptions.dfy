/** What LCP does with a peer's option list: MRU and Magic-Number are taken over, anything else is rejected. */
module LcpOptions {
  import opened Wire
  import opened OptionArea
  import opened ControlPacket

  const MRU: byte := 1
  const AUTH_PROTO: byte := 3
  const MAGIC_NUMBER: byte := 5

  predicate IsMru(o: Opt) { o.kind == MRU }
  predicate IsMagic(o: Opt) { o.kind == MAGIC_NUMBER }
  predicate Accepted(o: Opt) { o.kind == MRU || o.kind == MAGIC_NUMBER }

  /** The two options whose value is read are long enough to hold it. */
  predicate Readable(o: Opt) {
    (IsMru(o) ==> |o.data| >= 2) && (IsMagic(o) ==> |o.data| >= 4)
  }

  ghost predicate AllReadable(opts: seq<Opt>) {
    All(opts, Readable)
  }

  /** What the session remembers of the peer. */
  datatype Peer = Peer(mru: u16, magic: u32)

  function Note(peer: Peer, o: Opt): Peer
    requires Readable(o)
  {
    if IsMru(o) then peer.(mru := ReadBe16(o.data))
    else if IsMagic(o) then peer.(magic := ReadBe32(o.data))
    else peer
  }

  function NoteAll(peer: Peer, opts: seq<Opt>): Peer
    requires AllReadable(opts)
    decreases opts
  {
    if opts == [] then peer else NoteAll(Note(peer, opts[0]), opts[1..])
  }

  ghost predicate AllAccepted(opts: seq<Opt>) {
    All(opts, Accepted)
  }

  function Refused(opts: seq<Opt>): seq<Opt> {
    Keep(opts, (o: Opt) => !Accepted(o))
  }

  /** The bytes a Configure-Reject carries for this area: again a well-formed area, whose options are the refused
      ones in order. */
  function RejectBytes(area: seq<byte>): (rej: seq<byte>)
    requires WellFormed(area)
    ensures WellFormed(rej) && Parse(rej) == Refused(Parse(area))
  {
    ParseUnparse(Refused(Parse(area)));
    Unparse(Refused(Parse(area)))
  }

  /** The loop's variables, and what a run of the loop from them over `rest` ends with. */
  datatype Scanned = Scanned(ack: bool, rejected: seq<byte>, peer: Peer)

  ghost function Turn(acc: Scanned, o: Opt): Scanned
    requires Readable(o)
  {
    if Accepted(o) then acc.(peer := Note(acc.peer, o)) else Scanned(false, acc.rejected + o.Bytes(), acc.peer)
  }

  ghost function Turns(acc: Scanned, opts: seq<Opt>): Scanned
    requires AllReadable(opts)
    decreases |opts|
  {
    if opts == [] then acc else Turns(Turn(acc, opts[0]), opts[1..])
  }

  lemma {:induction false} TurnsVerdict(acc: Scanned, opts: seq<Opt>)
    requires AllReadable(opts)
    ensures Turns(acc, opts).ack == (acc.ack && AllAccepted(opts))
    ensures Turns(acc, opts).peer == NoteAll(acc.peer, opts)
    decreases |opts|
  {
    if opts == [] {
    } else {
      TurnsVerdict(Turn(acc, opts[0]), opts[1..]);
    }
  }

  lemma {:induction false} TurnsRejected(acc: Scanned, opts: seq<Opt>)
    requires AllReadable(opts)
    ensures Turns(acc, opts).rejected == acc.rejected + Unparse(Refused(opts))
    decreases |opts|
  {
    if opts == [] {
      assert acc.rejected + [] == acc.rejected;
    } else {
      var o, left := opts[0], Refused(opts[1..]);
      TurnsRejected(Turn(acc, o), opts[1..]);
      if !Accepted(o) {
        assert ([o] + left)[1..] == left;
        assert acc.rejected + (o.Bytes() + Unparse(left)) == acc.rejected + o.Bytes() + Unparse(left);
      }
    }
  }

  /** The scanning loop of `check_conf` over the packet buffer. */
  method Scan(pkt: seq<byte>, before: Peer) returns (ack: bool, rejected: seq<byte>, peer: Peer)
    requires Sound(pkt) && WellFormed(Area(pkt)) && AllReadable(Parse(Area(pkt)))
    ensures ack <==> AllAccepted(Parse(Area(pkt)))
    ensures rejected == RejectBytes(Area(pkt))
    ensures peer == NoteAll(before, Parse(Area(pkt)))
  {
    ack, rejected, peer := true, [], before;
    var data := Area(pkt);
    var offset := 0;
    ghost var opts := Parse(data);
    ghost var rest := opts;
    UnparseParse(data);
    while |data| > offset
      invariant 0 <= offset <= |data|
      invariant AllReadable(rest) && data[offset..] == Unparse(rest)
      invariant Turns(Scanned(ack, rejected, peer), rest) == Turns(Scanned(true, [], before), opts)
    {
      FirstOfUnparse(rest);
      var opt := First(data[offset..]);
      offset := offset + opt.Size();
      if opt.kind == MRU {
        peer := peer.(mru := ReadBe16(opt.data));
      } else if opt.kind == MAGIC_NUMBER {
        peer := peer.(magic := ReadBe32(opt.data));
      } else {
        ack := false;
        rejected := rejected + opt.Bytes();
      }
      rest := rest[1..];
    }
    TurnsVerdict(Scanned(true, [], before), opts);
    TurnsRejected(Scanned(true, [], before), opts);
  }

  /** LCP acknowledges a list exactly when it holds nothing but MRU and Magic-Number options. */
  lemma NothingRefusedIff(area: seq<byte>)
    requires WellFormed(area)
    ensures RejectBytes(area) == [] <==> AllAccepted(Parse(area))
  {
    KeepNothing(Parse(area), (o: Opt) => !Accepted(o), Accepted);
  }

  /** A peer that drops what was rejected and asks again is not rejected again, loses no accepted option, and
      gets the same MRU and magic number noted. */
  lemma ResubmissionIsAcked(area: seq<byte>, before: Peer)
    requires WellFormed(area) && AllReadable(Parse(area))
    ensures var rej := Parse(RejectBytes(area));
            var again := Unparse(Keep(Parse(area), (o: Opt) => o !in rej));
            && WellFormed(again) && AllReadable(Parse(again))
            && RejectBytes(again) == []
            && Parse(again) == Keep(Parse(area), Accepted)
            && NoteAll(before, Parse(again)) == NoteAll(before, Parse(area))
  {
    var opts, rej := Parse(area), Parse(RejectBytes(area));
    LeftAfterReject(area);
    var kept := Keep(opts, (o: Opt) => o !in rej);
    KeepFacts(opts, Accepted, Readable);
    ParseUnparse(kept);
    NothingRefusedIff(Unparse(kept));
    NoteIgnoresRefused(before, opts);
  }

  lemma LeftAfterReject(area: seq<byte>)
    requires WellFormed(area)
    ensures var rej := Parse(RejectBytes(area));
            Keep(Parse(area), (o: Opt) => o !in rej) == Keep(Parse(area), Accepted)
  {
    var opts, rej := Parse(area), Parse(RejectBytes(area));
    KeepMembers(opts, (o: Opt) => !Accepted(o));
    KeepSame(opts, (o: Opt) => o !in rej, Accepted);
  }

  lemma {:induction false} NoteIgnoresRefused(peer: Peer, opts: seq<Opt>)
    requires AllReadable(opts)
    ensures AllReadable(Keep(opts, Accepted))
    ensures NoteAll(peer, opts) == NoteAll(peer, Keep(opts, Accepted))
    decreases opts
  {
    KeepFacts(opts, Accepted, Readable);
    if opts == [] {
    } else {
      NoteIgnoresRefused(Note(peer, opts[0]), opts[1..]);
      assert opts == [opts[0]] + opts[1..];
      Cons(opts[0], opts[1..], Accepted);
      if Accepted(opts[0]) {
        assert Keep(opts, Accepted)[1..] == Keep(opts[1..], Accepted);
      }
    }
  }

  /** The noted MRU is that of the last MRU option, or the old one when there is none. */
  lemma {:induction false} LastMruCounts(peer: Peer, opts: seq<Opt>)
    requires AllReadable(opts)
    ensures var mrus := Keep(opts, IsMru);
            if mrus == [] then NoteAll(peer, opts).mru == peer.mru
            else var o := mrus[|mrus| - 1]; |o.data| >= 2 && NoteAll(peer, opts).mru == ReadBe16(o.data)
    decreases opts
  {
    if opts == [] {
    } else {
      LastMruCounts(Note(peer, opts[0]), opts[1..]);
    }
  }

  /** Likewise the magic number. */
  lemma {:induction false} LastMagicCounts(peer: Peer, opts: seq<Opt>)
    requires AllReadable(opts)
    ensures var magics := Keep(opts, IsMagic);
            if magics == [] then NoteAll(peer, opts).magic == peer.magic
            else var o := magics[|magics| - 1]; |o.data| >= 4 && NoteAll(peer, opts).magic == ReadBe32(o.data)
    decreases opts
  {
    if opts == [] {
    } else {
      LastMagicCounts(Note(peer, opts[0]), opts[1..]);
    }
  }
}
