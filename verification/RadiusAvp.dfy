/** RADIUS attributes (section 5 of RFC 2865): a type byte, a length byte that counts both, and a value. */
module RadiusAvp {
  import opened Wire

  const VSA: byte := 26

  /** `vendor` is what a vendor-specific attribute was read with; an attribute of the standard set has none. */
  datatype Avp = Avp(kind: byte, vendor: Option<u32>, value: seq<byte>)

  // ---- Writing -----------------------------------------------------------------------------------------------------

  /** The four bytes of `v` as they lie in memory. */
  function Le32(v: u32): (s: seq<byte>)
    ensures |s| == 4
  {
    [Be32(v)[3], Be32(v)[2], Be32(v)[1], Be32(v)[0]]
  }

  predicate HasVendor(a: Avp) { a.vendor.Some? && a.vendor.value != 0 }

  /** What stands before the value. For a vendor's attribute the type byte of the container is missing; lengths are cast to
      eight bits. */
  function Head(a: Avp): (s: seq<byte>)
    ensures |s| == if HasVendor(a) then 7 else 2
  {
    (if HasVendor(a) then [((8 + |a.value|) % 0x100) as byte] + Le32(a.vendor.value) else []) +
    [a.kind, ((2 + |a.value|) % 0x100) as byte]
  }

  /** An attribute as it is sent. */
  function Bytes(a: Avp): seq<byte> {
    Head(a) + a.value
  }

  function Serialize(avps: seq<Avp>): seq<byte> {
    if avps == [] then [] else Bytes(avps[0]) + Serialize(avps[1..])
  }

  /** Adding to a set that is ordered by type: of attributes with the same type the first stays. */
  function Emplace(avps: seq<Avp>, a: Avp): seq<Avp> {
    if avps == [] || a.kind < avps[0].kind then [a] + avps
    else if a.kind == avps[0].kind then avps
    else [avps[0]] + Emplace(avps[1..], a)
  }

  predicate Ascending(avps: seq<Avp>) {
    forall i, j :: 0 <= i < j < |avps| ==> avps[i].kind < avps[j].kind
  }

  lemma {:induction false} EmplaceKeepsOrder(avps: seq<Avp>, a: Avp)
    requires Ascending(avps)
    ensures Ascending(Emplace(avps, a))
    ensures forall x :: x in Emplace(avps, a) <==> x in avps || (x == a && forall y :: y in avps ==> y.kind != a.kind)
  {
    if avps == [] || avps[0].kind >= a.kind {
    } else {
      var rest := avps[1..];
      EmplaceKeepsOrder(rest, a);
      EmplaceMembers(rest, a);
      assert avps == [avps[0]] + rest;
      assert forall x :: x in avps <==> x == avps[0] || x in rest;
      assert forall y :: y in Emplace(rest, a) ==> avps[0].kind < y.kind;
    }
  }

  lemma {:induction false} EmplaceMembers(avps: seq<Avp>, a: Avp)
    ensures forall x :: x in Emplace(avps, a) ==> x in avps || x == a
  {
    if avps == [] || avps[0].kind >= a.kind {
    } else {
      EmplaceMembers(avps[1..], a);
    }
  }

  // ---- Reading -----------------------------------------------------------------------------------------------------

  /** Reading stops at a single byte that is left over, and at a value whose length would be negative. */
  predicate Stops(v: seq<byte>) {
    |v| < 2 || (if v[0] != VSA then v[1] < 2 else |v| >= 8 && v[7] < 2)
  }

  /** The place and the size of the value an attribute is read with. */
  function ValueOf(v: seq<byte>): seq<byte>
    requires !Stops(v) && (v[0] != VSA ==> v[1] as int <= |v|) && (v[0] == VSA ==> |v| >= 8 && 6 + v[7] as int <= |v|)
  {
    if v[0] != VSA then v[2..v[1] as int] else v[8..6 + v[7] as int]
  }

  /** Every value lies inside the buffer, and every length leads forward to the next attribute or the end. */
  predicate Readable(v: seq<byte>) {
    || Stops(v)
    || (&& 0 < v[1] as int <= |v| && (v[0] == VSA ==> |v| >= 8 && 6 + v[7] as int <= |v|)
        && Readable(v[v[1] as int..]))
  }

  /** The first attribute of a buffer. */
  function First(v: seq<byte>): Avp
    requires Readable(v) && !Stops(v)
  {
    if v[0] != VSA then Avp(v[0], None, ValueOf(v)) else Avp(v[6], Some(ReadBe32(v[2..])), ValueOf(v))
  }

  function Parse(v: seq<byte>): seq<Avp>
    requires Readable(v)
  {
    if Stops(v) then [] else [First(v)] + Parse(v[v[1] as int..])
  }

  /** The parsing constructor at place `it`; None stands for the exception that ends the loop. */
  method ReadAvp(v: seq<byte>, it: nat) returns (a: Option<Avp>)
    requires it < |v| && Readable(v[it..])
    ensures a.None? <==> Stops(v[it..])
    ensures a.Some? ==> a.value == First(v[it..])
  {
    ghost var rest := v[it..];
    if |v| - it < 2 {
      return None;
    }
    var vendor, at := None, it;
    if v[it] == VSA {
      vendor := Some(ReadBe32(v[it + 2..]));
      assert v[it + 2..] == rest[2..];
      at := it + 6;
    }
    var length := v[at + 1] as int;
    if length < 2 {
      return None;
    }
    assert v[at + 2..at + length] == ValueOf(rest);
    a := Some(Avp(v[at], vendor, v[at + 2..at + length]));
  }

  method ParseAvp(v: seq<byte>) returns (ret: seq<Avp>)
    requires Readable(v)
    ensures ret == Parse(v)
  {
    ret := [];
    var it := 0;
    assert v[0..] == v;
    while it != |v|
      invariant it <= |v| && Readable(v[it..]) && Parse(v) == ret + Parse(v[it..])
      decreases |v| - it
    {
      ghost var rest := v[it..];
      var a := ReadAvp(v, it);
      if a == None {
        return;
      }
      assert ret + ([a.value] + Parse(rest[rest[1] as int..])) == (ret + [a.value]) + Parse(rest[rest[1] as int..]);
      ret := ret + [a.value];
      it := it + v[it + 1] as int;
      assert v[it..] == rest[rest[1] as int..];
    }
  }

  /** `AVP::serialize`. */
  method SerializeOne(a: Avp) returns (ret: seq<byte>)
    ensures ret == Bytes(a)
  {
    ret := [];
    if !HasVendor(a) {
      ret := ret + [a.kind];
    } else {
      ret := ret + [((8 + |a.value|) % 0x100) as byte];
      ret := ret + Le32(a.vendor.value);
      ret := ret + [a.kind];
    }
    ret := ret + [((2 + |a.value|) % 0x100) as byte];
    ret := ret + a.value;
  }

  method SerializeAvp(avps: seq<Avp>) returns (ret: seq<byte>)
    ensures ret == Serialize(avps)
  {
    ret := [];
    assert avps[0..] == avps;
    for i := 0 to |avps|
      invariant Serialize(avps) == ret + Serialize(avps[i..])
    {
      var temp := SerializeOne(avps[i]);
      assert avps[i..][0] == avps[i] && avps[i..][1..] == avps[i + 1..];
      assert ret + (temp + Serialize(avps[i + 1..])) == (ret + temp) + Serialize(avps[i + 1..]);
      ret := ret + temp;
    }
  }

  // ---- Round trip --------------------------------------------------------------------------------------------------

  /** An attribute the format has room for: not the vendor container, and at most 253 bytes of value. */
  predicate Plain(a: Avp) { a.vendor == None && a.kind != VSA && |a.value| <= 253 }

  lemma HeadRead(a: Avp, rest: seq<byte>)
    requires Plain(a)
    ensures var v := Bytes(a) + rest;
            && |v| >= 2 && !Stops(v) && v[0] == a.kind && v[1] as int == 2 + |a.value| <= |v|
            && v[2..v[1] as int] == a.value && v[v[1] as int..] == rest
  {
  }

  lemma ReadOne(a: Avp, rest: seq<byte>)
    requires Plain(a) && Readable(rest)
    ensures Readable(Bytes(a) + rest) && Parse(Bytes(a) + rest) == [a] + Parse(rest)
  {
    HeadRead(a, rest);
  }

  lemma SerializeFront(avps: seq<Avp>, rest: seq<byte>)
    requires avps != []
    ensures Serialize(avps) + rest == Bytes(avps[0]) + (Serialize(avps[1..]) + rest)
  {
  }

  lemma Regroup(avps: seq<Avp>, more: seq<Avp>)
    requires avps != []
    ensures avps + more == [avps[0]] + (avps[1..] + more)
  {
  }

  /** The attributes are read back, in order, and reading goes on exactly where they end. */
  lemma {:induction false} ReadBack(avps: seq<Avp>, rest: seq<byte>)
    requires Readable(rest) && forall a :: a in avps ==> Plain(a)
    ensures Readable(Serialize(avps) + rest) && Parse(Serialize(avps) + rest) == avps + Parse(rest)
  {
    if avps == [] {
      assert [] + rest == rest;
    } else {
      var tail := Serialize(avps[1..]) + rest;
      ReadBack(avps[1..], rest);
      SerializeFront(avps, rest);
      ReadOne(avps[0], tail);
      Regroup(avps, Parse(rest));
    }
  }

  /** What is read without a vendor is plain. */
  lemma {:induction false} ReadIsPlain(v: seq<byte>)
    requires Readable(v)
    ensures forall a :: a in Parse(v) && a.vendor == None ==> Plain(a)
  {
    if Stops(v) {
    } else {
      ReadIsPlain(v[v[1] as int..]);
    }
  }

  /** Attributes without vendor survive the round trip if and only if all of them are plain. */
  lemma RoundTripIff(avps: seq<Avp>)
    requires forall a :: a in avps ==> a.vendor == None
    ensures Readable(Serialize(avps)) && Parse(Serialize(avps)) == avps <==> forall a :: a in avps ==> Plain(a)
  {
    assert Serialize(avps) + [] == Serialize(avps);
    if forall a :: a in avps ==> Plain(a) {
      ReadBack(avps, []);
    } else if Readable(Serialize(avps)) {
      ReadIsPlain(Serialize(avps));
    }
  }

  lemma FirstIsAnother(a: Avp)
    requires HasVendor(a) && Readable(Bytes(a)) && !Stops(Bytes(a))
    ensures First(Bytes(a)) != a
  {
    var v := Bytes(a);
    assert |v| == 7 + |a.value| && (|a.value| > 0 ==> v[7] == a.value[0]);
  }

  /** A vendor's attribute is never read back: without its type byte it is taken for something else. */
  lemma VendorIsLost(a: Avp)
    requires HasVendor(a)
    ensures !(Readable(Bytes(a)) && Parse(Bytes(a)) == [a])
  {
    if Readable(Bytes(a)) && !Stops(Bytes(a)) {
      FirstIsAnother(a);
      assert Parse(Bytes(a))[0] == First(Bytes(a));
    }
  }

  /** What goes out: for a standard attribute its type, a length that counts both bytes before the value, and the value. For a
      vendor's, a length byte that stands where the container's type should, the vendor's number with its least significant byte
      first, and then the same. Lengths are cut to eight bits. */
  lemma WrittenAs(a: Avp)
    ensures var v, at := Bytes(a), if HasVendor(a) then 5 else 0;
            && |v| == at + 2 + |a.value| && v[at] == a.kind && v[at + 1] as int == (2 + |a.value|) % 0x100 && v[at + 2..] == a.value
            && (HasVendor(a) ==> v[0] as int == (8 + |a.value|) % 0x100
                                 && ReadBe32([v[4], v[3], v[2], v[1]]) == a.vendor.value)
  {
    if HasVendor(a) {
      var v, n := Bytes(a), a.vendor.value;
      Be32RoundTrip(n, []);
      assert v[1..5] == Le32(n) && [v[4], v[3], v[2], v[1]] == Be32(n) + [];
    }
  }

  /** Reading is right where writing is not: a vendor's attribute in the format of section 5.26 of RFC 2865 is read with the
      vendor's number, type and value, and reading goes on behind it. */
  lemma VendorIsRead(vendor: u32, kind: byte, value: seq<byte>, rest: seq<byte>)
    requires |value| <= 247 && Readable(rest)
    ensures var v := [26, (8 + |value|) as byte] + Be32(vendor) + [kind, (2 + |value|) as byte] + value + rest;
            Readable(v) && Parse(v) == [Avp(kind, Some(vendor), value)] + Parse(rest)
  {
    var v := [26, (8 + |value|) as byte] + Be32(vendor) + [kind, (2 + |value|) as byte] + value + rest;
    var tail := [kind, (2 + |value|) as byte] + value + rest;
    assert v[2..] == Be32(vendor) + tail;
    Be32RoundTrip(vendor, tail);
    assert v[8..8 + |value|] == value && v[8 + |value|..] == rest;
  }

  /** The set a request is serialized from, its attributes added one after the other. */
  function EmplaceAll(list: seq<Avp>): seq<Avp> {
    if list == [] then [] else Emplace(EmplaceAll(list[..|list| - 1]), list[|list| - 1])
  }

  /** `x` is in the list, and no attribute before it has its type. */
  ghost predicate FirstOfKind(list: seq<Avp>, x: Avp) {
    exists k :: 0 <= k < |list| && list[k] == x && forall i :: 0 <= i < k ==> list[i].kind != x.kind
  }

  lemma FirstOfKindSnoc(front: seq<Avp>, a: Avp, x: Avp)
    ensures FirstOfKind(front + [a], x) <==> FirstOfKind(front, x) || (x == a && forall y :: y in front ==> y.kind != a.kind)
  {
    var list := front + [a];
    if FirstOfKind(list, x) {
      var k :| 0 <= k < |list| && list[k] == x && forall i :: 0 <= i < k ==> list[i].kind != x.kind;
      if k < |front| {
        assert front[k] == x && forall i :: 0 <= i < k ==> front[i].kind == list[i].kind;
      } else {
        forall y | y in front ensures y.kind != a.kind {
          var i :| 0 <= i < |front| && front[i] == y;
          assert list[i] == y;
        }
      }
    }
    if FirstOfKind(front, x) {
      var k :| 0 <= k < |front| && front[k] == x && forall i :: 0 <= i < k ==> front[i].kind != x.kind;
      assert list[k] == x && forall i :: 0 <= i < k ==> list[i].kind != x.kind;
    }
    if x == a && forall y :: y in front ==> y.kind != a.kind {
      assert list[|front|] == x && forall i :: 0 <= i < |front| ==> list[i].kind != x.kind;
    }
  }

  /** Some attribute of each type in the list is the first of it. */
  lemma {:induction false} KindHasFirst(list: seq<Avp>, y: Avp) returns (x: Avp)
    requires y in list
    ensures FirstOfKind(list, x) && x.kind == y.kind
  {
    var front, a := list[..|list| - 1], list[|list| - 1];
    assert list == front + [a];
    if z :| z in front && z.kind == y.kind {
      x := KindHasFirst(front, z);
    } else {
      x := a;
    }
    FirstOfKindSnoc(front, a, x);
  }

  /** The set is in ascending order and holds exactly the first attribute of each type. */
  lemma {:induction false} EmplaceAllIsSet(list: seq<Avp>)
    ensures Ascending(EmplaceAll(list)) && forall x :: x in EmplaceAll(list) <==> FirstOfKind(list, x)
  {
    if list == [] {
    } else {
      var front, a := list[..|list| - 1], list[|list| - 1];
      assert list == front + [a];
      EmplaceAllIsSet(front);
      EmplaceKeepsOrder(EmplaceAll(front), a);
      forall y | y in front && y.kind == a.kind ensures exists x :: x in EmplaceAll(front) && x.kind == a.kind {
        var x := KindHasFirst(front, y);
      }
      forall x ensures x in EmplaceAll(list) <==> FirstOfKind(list, x) {
        FirstOfKindSnoc(front, a, x);
      }
    }
  }

  /** What a request is built from comes out at the other end: the first attribute of each type, in ascending order. */
  lemma RequestRoundTrip(list: seq<Avp>)
    requires forall a :: a in list ==> Plain(a)
    ensures Readable(Serialize(EmplaceAll(list)))
    ensures var read := Parse(Serialize(EmplaceAll(list)));
            Ascending(read) && forall x :: x in read <==> FirstOfKind(list, x)
  {
    EmplaceAllIsSet(list);
    forall a | a in EmplaceAll(list) ensures Plain(a) {
      assert FirstOfKind(list, a);
    }
    RoundTripIff(EmplaceAll(list));
  }
}
