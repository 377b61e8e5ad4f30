/** The option area of a configuration packet (section 6 of RFC 1661): options one after the other,
    each a type byte, a length byte counting the whole option, and its data. */
module OptionArea {
  import opened Wire

  type Body = d: seq<byte> | |d| <= 253

  /** One option; its length byte is `2 + |data|`. */
  datatype Opt = Opt(kind: byte, data: Body) {
    function Size(): nat { 2 + |data| }
    function Bytes(): (s: seq<byte>)
      ensures |s| == Size()
    {
      [kind, Size() as byte] + data
    }
  }

  /** Every length byte is at least 2 and the last option ends where the area does. */
  predicate WellFormed(area: seq<byte>) {
    area == [] || (|area| >= 2 && 2 <= area[1] as int <= |area| && WellFormed(area[area[1] as int..]))
  }

  /** The option an area starts with, as the source's overlay of the option header reads it. */
  function First(area: seq<byte>): (o: Opt)
    requires |area| >= 2 && 2 <= area[1] as int <= |area|
    ensures o.Bytes() == area[..area[1] as int]
  {
    Opt(area[0], area[2..area[1] as int])
  }

  /** The options of an area, in order. */
  function Parse(area: seq<byte>): seq<Opt>
    requires WellFormed(area)
  {
    if area == [] then [] else [First(area)] + Parse(area[area[1] as int..])
  }

  /** The area holding these options, in order. */
  function Unparse(opts: seq<Opt>): seq<byte> {
    if opts == [] then [] else opts[0].Bytes() + Unparse(opts[1..])
  }

  function Keep(opts: seq<Opt>, p: Opt -> bool): seq<Opt> {
    if opts == [] then []
    else if p(opts[0]) then [opts[0]] + Keep(opts[1..], p)
    else Keep(opts[1..], p)
  }

  predicate All(opts: seq<Opt>, p: Opt -> bool) {
    opts == [] || (p(opts[0]) && All(opts[1..], p))
  }

  lemma {:induction false} AllMembers(opts: seq<Opt>, p: Opt -> bool)
    ensures All(opts, p) <==> forall o :: o in opts ==> p(o)
  {
    if opts == [] {
    } else {
      AllMembers(opts[1..], p);
      assert opts[0] in opts;
    }
  }

  lemma {:induction false} KeepMembers(opts: seq<Opt>, p: Opt -> bool)
    ensures forall o :: o in Keep(opts, p) <==> o in opts && p(o)
  {
    if opts == [] {
    } else {
      KeepMembers(opts[1..], p);
    }
  }

  lemma {:induction false} KeepFacts(opts: seq<Opt>, p: Opt -> bool, q: Opt -> bool)
    ensures All(Keep(opts, p), p)
    ensures All(opts, q) ==> All(Keep(opts, p), q)
    ensures All(opts, p) ==> Keep(opts, p) == opts
  {
    if opts == [] {
    } else {
      KeepFacts(opts[1..], p, q);
      var tail := Keep(opts[1..], p);
      assert ([opts[0]] + tail)[1..] == tail;
    }
  }

  /** Nothing is kept exactly when everything is the opposite. */
  lemma {:induction false} KeepNothing(opts: seq<Opt>, p: Opt -> bool, q: Opt -> bool)
    requires forall o: Opt :: p(o) == !q(o)
    ensures Keep(opts, p) == [] <==> All(opts, q)
  {
    if opts == [] {
    } else {
      KeepNothing(opts[1..], p, q);
    }
  }

  /** Reading an area and writing it back changes nothing. */
  lemma {:induction false} UnparseParse(area: seq<byte>)
    requires WellFormed(area)
    ensures Unparse(Parse(area)) == area
  {
    if area == [] {
    } else {
      UnparseParse(area[area[1] as int..]);
      assert area == area[..area[1] as int] + area[area[1] as int..];
    }
  }

  /** Writing options and reading them back gives the same options. */
  lemma {:induction false} ParseUnparse(opts: seq<Opt>)
    ensures WellFormed(Unparse(opts)) && Parse(Unparse(opts)) == opts
  {
    if opts == [] {
    } else {
      ParseUnparse(opts[1..]);
      FirstOfUnparse(opts);
    }
  }

  /** The recursion steps of the functions above, on an explicit head. */
  lemma Cons(o: Opt, tail: seq<Opt>, p: Opt -> bool)
    ensures Unparse([o] + tail) == o.Bytes() + Unparse(tail)
    ensures Keep([o] + tail, p) == if p(o) then [o] + Keep(tail, p) else Keep(tail, p)
  {
    assert ([o] + tail)[1..] == tail;
  }

  /** Overlaying the option header at the front of a written list finds its first option; the rest follows. */
  lemma FirstOfUnparse(opts: seq<Opt>)
    requires opts != []
    ensures var area, n := Unparse(opts), opts[0].Size();
            && |area| >= n && area[1] as int == n && First(area) == opts[0] && area[n..] == Unparse(opts[1..])
  {
    var area, n := Unparse(opts), opts[0].Size();
    assert area[..n] == opts[0].Bytes();
    assert area[2..n] == opts[0].data;
  }

  lemma {:induction false} KeepSame(opts: seq<Opt>, p: Opt -> bool, q: Opt -> bool)
    requires forall o :: o in opts ==> p(o) == q(o)
    ensures Keep(opts, p) == Keep(opts, q)
  {
    if opts == [] {
    } else {
      assert opts[0] in opts;
      KeepSame(opts[1..], p, q);
    }
  }
}
