/** The tags of PPPoE discovery packets (section 4 and Appendix A of RFC 2516): a two-byte type, a two-byte length and a
    value each. */
module Tags {
  import opened Wire

  const END_OF_LIST: u16 := 0x0000
  const SERVICE_NAME: u16 := 0x0101
  const AC_NAME: u16 := 0x0102
  const HOST_UNIQ: u16 := 0x0103
  const AC_COOKIE: u16 := 0x0104

  const TLV := 4

  datatype Tag = Tag(kind: u16, value: seq<byte>) {
    function Size(): nat { TLV + |value| }

    /** The length field is cast to 16 bits. */
    function Bytes(): (s: seq<byte>)
      ensures |s| == Size()
    {
      Be16(kind) + Be16(|value| % 0x1_0000) + value
    }
  }

  type TagMap = map<u16, seq<byte>>

  const NO_TAGS: TagMap := map[]

  function Kind(pkt: seq<byte>): u16
    requires |pkt| >= TLV
  {
    ReadBe16(pkt)
  }

  /** The size of the tag a packet starts with. */
  function Span(pkt: seq<byte>): nat
    requires |pkt| >= TLV
  {
    TLV + ReadBe16(pkt[2..])
  }

  /** Every tag the loop comes to lies inside the packet; it stops at an end tag, at a type it has `seen`, and at the
      end of the packet. */
  ghost predicate Readable(pkt: seq<byte>, seen: set<u16>)
    decreases |pkt|
  {
    && |pkt| >= TLV
    && (Kind(pkt) == END_OF_LIST
        || (Span(pkt) <= |pkt| && (Kind(pkt) in seen || Span(pkt) == |pkt| || Readable(pkt[Span(pkt)..], seen + {Kind(pkt)}))))
  }

  /** The tags found, added to `acc`; the flag reports a repeated type. */
  ghost function Parse(pkt: seq<byte>, acc: TagMap): (TagMap, bool)
    requires Readable(pkt, acc.Keys)
    decreases |pkt|
  {
    if Kind(pkt) == END_OF_LIST then (acc, false)
    else if Kind(pkt) in acc then (acc, true)
    else
      var more := acc[Kind(pkt) := pkt[TLV..Span(pkt)]];
      if Span(pkt) == |pkt| then (more, false)
      else
        assert more.Keys == acc.Keys + {Kind(pkt)};
        Parse(pkt[Span(pkt)..], more)
  }

  method ParseTags(pkt: seq<byte>) returns (tags: TagMap, err: bool)
    requires Readable(pkt, NO_TAGS.Keys)
    ensures (tags, err) == Parse(pkt, NO_TAGS)
  {
    tags := NO_TAGS;
    var offset := 0;
    assert pkt[0..] == pkt;
    while true
      invariant offset <= |pkt| && Readable(pkt[offset..], tags.Keys)
      invariant Parse(pkt[offset..], tags) == Parse(pkt, NO_TAGS)
      decreases |pkt| - offset
    {
      ghost var here, acc := pkt[offset..], tags;
      var tag := ReadBe16(pkt[offset..]);
      var len := ReadBe16(pkt[offset..][2..]);
      if tag == END_OF_LIST {
        return tags, false;
      }
      var val := if len > 0 then pkt[offset..][TLV..TLV + len] else [];
      assert val == here[TLV..Span(here)];
      if tag in tags {
        return tags, true;
      }
      tags := tags[tag := val];
      offset := offset + TLV + len;
      if offset >= |pkt| {
        return tags, false;
      }
      assert pkt[offset..] == here[Span(here)..];
      assert tags.Keys == acc.Keys + {tag};
    }
  }

  // ---- Writing and reading back ------------------------------------------------------------------------------------

  function Concat(tags: seq<Tag>): seq<byte> {
    if tags == [] then [] else tags[0].Bytes() + Concat(tags[1..])
  }

  /** A type the parser does not take for the end, and a value whose length fits its field. */
  predicate Writable(t: Tag) { t.kind != END_OF_LIST && |t.value| < 0x1_0000 }

  /** What the parser makes of written tags. */
  function Collect(tags: seq<Tag>, acc: TagMap): (TagMap, bool) {
    if tags == [] then (acc, false)
    else if tags[0].kind in acc then (acc, true)
    else Collect(tags[1..], acc[tags[0].kind := tags[0].value])
  }

  lemma HeadOfTag(t: Tag, rest: seq<byte>)
    requires Writable(t)
    ensures var pkt := t.Bytes() + rest;
            && |pkt| >= TLV && Kind(pkt) == t.kind && Span(pkt) == t.Size() <= |pkt|
            && pkt[TLV..Span(pkt)] == t.value && pkt[Span(pkt)..] == rest
  {
    var pkt := t.Bytes() + rest;
    assert pkt == Be16(t.kind) + (Be16(|t.value|) + t.value + rest);
    Be16RoundTrip(t.kind, Be16(|t.value|) + t.value + rest);
    assert pkt[2..] == Be16(|t.value|) + (t.value + rest);
    Be16RoundTrip(|t.value|, t.value + rest);
  }

  /** What may follow the tags: nothing, or an end tag with anything behind it. */
  ghost predicate Ending(tail: seq<byte>) {
    tail == [] || (|tail| >= TLV && Kind(tail) == END_OF_LIST)
  }

  lemma {:induction false} ParseWritten(tags: seq<Tag>, tail: seq<byte>, acc: TagMap)
    requires tags + [] != [] && Ending(tail) && forall t :: t in tags ==> Writable(t)
    ensures Readable(Concat(tags) + tail, acc.Keys)
    ensures Parse(Concat(tags) + tail, acc) == Collect(tags, acc)
    decreases |tags|
  {
    var t, rest := tags[0], Concat(tags[1..]) + tail;
    assert Concat(tags) + tail == t.Bytes() + rest;
    HeadOfTag(t, rest);
    if t.kind in acc {
    } else {
      var more := acc[t.kind := t.value];
      assert more.Keys == acc.Keys + {t.kind};
      if |tags| > 1 {
        ParseWritten(tags[1..], tail, more);
      } else {
        assert rest == tail;
      }
    }
  }

  predicate Distinct(tags: seq<Tag>) {
    forall i, j :: 0 <= i < j < |tags| ==> tags[i].kind != tags[j].kind
  }

  /** The map with exactly these tags; of repeated types the first counts. */
  function MapOf(tags: seq<Tag>): TagMap {
    if tags == [] then map[] else MapOf(tags[1..])[tags[0].kind := tags[0].value]
  }

  lemma {:induction false} MapOfMembers(tags: seq<Tag>, k: u16)
    ensures k in MapOf(tags) <==> exists i :: 0 <= i < |tags| && tags[i].kind == k
  {
    if tags == [] {
    } else {
      MapOfMembers(tags[1..], k);
      assert forall i :: 1 <= i < |tags| ==> tags[i] == tags[1..][i - 1];
      assert forall i :: 0 <= i < |tags| - 1 ==> tags[1..][i] == tags[i + 1];
    }
  }

  /** Each tag can be looked up under its type. */
  lemma {:induction false} MapOfValue(tags: seq<Tag>, i: nat)
    requires Distinct(tags) && i < |tags|
    ensures tags[i].kind in MapOf(tags) && MapOf(tags)[tags[i].kind] == tags[i].value
  {
    if i == 0 {
    } else {
      MapOfValue(tags[1..], i - 1);
    }
  }

  /** Collecting fails exactly when a type comes twice; otherwise it adds exactly the tags. */
  lemma {:induction false} CollectFails(tags: seq<Tag>, acc: TagMap)
    ensures Collect(tags, acc).1 <==> !Distinct(tags) || exists i :: 0 <= i < |tags| && tags[i].kind in acc
    ensures !Collect(tags, acc).1 ==> Collect(tags, acc).0 == acc + MapOf(tags)
    decreases |tags|
  {
    if tags == [] {
    } else {
      var t, rest, more := tags[0], tags[1..], acc[tags[0].kind := tags[0].value];
      CollectFails(rest, more);
      assert forall i :: 1 <= i < |tags| ==> tags[i] == rest[i - 1];
      assert forall i :: 0 <= i < |rest| ==> rest[i] == tags[i + 1];
      if t.kind !in acc && !Collect(rest, more).1 {
        if t.kind in MapOf(rest) { MapOfMembers(rest, t.kind); }
        assert more + MapOf(rest) == acc + MapOf(tags);
      }
    }
  }

  /** Tags written one after the other, with or without an end tag and trailing bytes, are read back as exactly the
      same tags if their types are distinct, and refused if a type is repeated. */
  lemma TagsRoundTrip(tags: seq<Tag>, tail: seq<byte>)
    requires tags != [] && Ending(tail) && forall t :: t in tags ==> Writable(t)
    ensures Readable(Concat(tags) + tail, NO_TAGS.Keys)
    ensures Parse(Concat(tags) + tail, NO_TAGS).1 <==> !Distinct(tags)
    ensures Distinct(tags) ==> Parse(Concat(tags) + tail, NO_TAGS) == (MapOf(tags), false)
  {
    ParseWritten(tags, tail, NO_TAGS);
    CollectFails(tags, NO_TAGS);
    assert NO_TAGS + MapOf(tags) == MapOf(tags);
  }

  // ---- Lengths -----------------------------------------------------------------------------------------------------

  /** What `insertTag` returns: the size of the tag, as a byte. */
  function Reported(t: Tag): u8 { t.Size() % 0x100 }

  method InsertTag(pkt: Packet, t: Tag) returns (size: u8)
    modifies pkt
    ensures pkt.bytes == old(pkt.bytes) + t.Bytes() && size == Reported(t)
  {
    var tagvec := Be16(t.kind) + Be16(|t.value| % 0x1_0000);
    tagvec := tagvec + t.value;
    pkt.bytes := pkt.bytes + tagvec;
    size := |tagvec| % 0x100;
  }

  /** The 16-bit sum the length field and the final size of an answer are taken from. */
  function Declared(tags: seq<Tag>): u16 {
    if tags == [] then 0 else (Declared(tags[..|tags| - 1]) + Reported(tags[|tags| - 1])) % 0x1_0000
  }

  /** The same sum without the cast to 16 bits. */
  function Summed(tags: seq<Tag>): nat {
    if tags == [] then 0 else Summed(tags[..|tags| - 1]) + Reported(tags[|tags| - 1])
  }

  lemma {:induction false} ConcatSnoc(tags: seq<Tag>, t: Tag)
    ensures Concat(tags + [t]) == Concat(tags) + t.Bytes()
  {
    if tags == [] {
      assert (tags + [t])[1..] == [];
    } else {
      assert (tags + [t])[1..] == tags[1..] + [t];
      ConcatSnoc(tags[1..], t);
    }
  }

  lemma {:induction false} DeclaredIsSummed(tags: seq<Tag>)
    ensures Declared(tags) == Summed(tags) % 0x1_0000
  {
    if tags == [] {
    } else {
      DeclaredIsSummed(tags[..|tags| - 1]);
    }
  }

  predicate Short(t: Tag) { |t.value| <= 251 }

  lemma {:induction false} SummedBound(tags: seq<Tag>)
    ensures Summed(tags) <= |Concat(tags)|
    ensures Summed(tags) == |Concat(tags)| <==> forall t :: t in tags ==> Short(t)
  {
    if tags == [] {
    } else {
      var front, t := tags[..|tags| - 1], tags[|tags| - 1];
      assert tags == front + [t];
      SummedBound(front);
      ConcatSnoc(front, t);
      assert forall x :: x in tags <==> x in front || x == t;
      assert Reported(t) <= t.Size() && (Reported(t) == t.Size() <==> Short(t));
    }
  }

  /** The declared length never exceeds what was written, and it is exact if and only if no value is longer than 251
      bytes and the whole fits 16 bits. */
  lemma DeclaredIsExactIff(tags: seq<Tag>)
    ensures Declared(tags) <= |Concat(tags)|
    ensures Declared(tags) == |Concat(tags)| <==> (forall t :: t in tags ==> Short(t)) && |Concat(tags)| < 0x1_0000
  {
    SummedBound(tags);
    DeclaredIsSummed(tags);
  }

  /** A Host-Uniq of 252 bytes counts as nothing: the whole tag is cut off. */
  lemma LongValueIsLost(value: seq<byte>)
    requires |value| == 252
    ensures Declared([Tag(HOST_UNIQ, value)]) == 0 && |Concat([Tag(HOST_UNIQ, value)])| == 256
  {
    var t := Tag(HOST_UNIQ, value);
    assert [t][..0] == [];
    ConcatSnoc([], t);
  }

  // ---- Answers to PADI and PADR ------------------------------------------------------------------------------------

  const PADO: byte := 0x07
  const PADS: byte := 0x65
  const DISC_HEADER := 6

  datatype Policy = Policy(acName: seq<byte>, serviceNames: seq<seq<byte>>, ignoreServiceName: bool, insertCookie: bool)

  function Echo(tags: TagMap, kind: u16): seq<Tag> {
    if kind in tags then [Tag(kind, tags[kind])] else []
  }

  /** A requested service is refused if the policy neither lists nor ignores it, or if it is the empty name and the
      policy does not ignore names. */
  predicate ServiceRefused(policy: Policy, tags: TagMap) {
    SERVICE_NAME in tags && !policy.ignoreServiceName &&
    (tags[SERVICE_NAME] == [] || tags[SERVICE_NAME] !in policy.serviceNames)
  }

  function OfferTags(policy: Policy, tags: TagMap, cookie: seq<byte>): seq<Tag> {
    [Tag(AC_NAME, policy.acName)] + Echo(tags, HOST_UNIQ) + Echo(tags, SERVICE_NAME) + CookieTags(policy, cookie)
  }

  function ConfirmTags(tags: TagMap): seq<Tag> {
    Echo(tags, SERVICE_NAME) + Echo(tags, HOST_UNIQ)
  }

  /** A discovery packet as the final `resize` leaves it. */
  function Answer(code: byte, session: u16, tags: seq<Tag>): seq<byte>
    requires Declared(tags) <= |Concat(tags)|
  {
    [0x11, code] + Be16(session) + Be16(Declared(tags)) + Concat(tags)[..Declared(tags)]
  }

  /** Inserting tags one after the other, with the running 16-bit sum. */
  method Insert(pkt: Packet, taglen: u16, t: Tag, ghost head: seq<byte>, ghost done: seq<Tag>) returns (sum: u16)
    requires pkt.bytes == head + Concat(done) && taglen == Declared(done)
    modifies pkt
    ensures pkt.bytes == head + Concat(done + [t]) && sum == Declared(done + [t])
  {
    var size := InsertTag(pkt, t);
    sum := (taglen + size) % 0x1_0000;
    ConcatSnoc(done, t);
    assert head + (Concat(done) + t.Bytes()) == head + Concat(done) + t.Bytes();
    assert (done + [t])[..|done + [t]| - 1] == done;
  }

  method InsertIfPresent(pkt: Packet, taglen: u16, tags: TagMap, kind: u16, ghost head: seq<byte>, ghost done: seq<Tag>)
    returns (sum: u16)
    requires pkt.bytes == head + Concat(done) && taglen == Declared(done)
    modifies pkt
    ensures pkt.bytes == head + Concat(done + Echo(tags, kind)) && sum == Declared(done + Echo(tags, kind))
  {
    if kind in tags {
      sum := Insert(pkt, taglen, Tag(kind, tags[kind]), head, done);
    } else {
      sum := taglen;
      assert done + [] == done;
    }
  }

  /** Writing the length field and cutting the packet to the declared size. */
  method Finish(pkt: Packet, code: byte, session: u16, taglen: u16, ghost tags: seq<Tag>) returns (out: seq<byte>)
    requires pkt.bytes == [0x11, code] + Be16(session) + Be16(0) + Concat(tags) && taglen == Declared(tags)
    ensures Declared(tags) <= |Concat(tags)| && out == Answer(code, session, tags)
  {
    DeclaredIsExactIff(tags);
    out := pkt.bytes[..4] + Be16(taglen) + pkt.bytes[DISC_HEADER..];
    out := out[..DISC_HEADER + taglen];
    assert pkt.bytes[..4] == [0x11, code] + Be16(session);
    assert pkt.bytes[DISC_HEADER..] == Concat(tags);
  }

  /** The service part of `process_padi`. */
  method SelectService(policy: Policy, wanted: seq<byte>) returns (refused: bool, selected: seq<byte>)
    ensures refused <==> !policy.ignoreServiceName && (wanted == [] || wanted !in policy.serviceNames)
    ensures !refused ==> selected == wanted
  {
    selected := [];
    var i := 0;
    while i < |policy.serviceNames|
      invariant i <= |policy.serviceNames| && selected == [] && wanted !in policy.serviceNames[..i]
    {
      if policy.serviceNames[i] == wanted {
        selected := wanted;
        break;
      }
      i := i + 1;
    }
    if selected == [] && policy.ignoreServiceName {
      selected := wanted;
    }
    refused := selected == [] && !policy.ignoreServiceName;
  }

  method InsertService(policy: Policy, pkt: Packet, taglen: u16, tags: TagMap, ghost head: seq<byte>, ghost done: seq<Tag>)
    returns (refused: bool, sum: u16)
    requires pkt.bytes == head + Concat(done) && taglen == Declared(done)
    modifies pkt
    ensures refused <==> ServiceRefused(policy, tags)
    ensures !refused ==> pkt.bytes == head + Concat(done + Echo(tags, SERVICE_NAME)) &&
                         sum == Declared(done + Echo(tags, SERVICE_NAME))
  {
    refused, sum := false, taglen;
    if SERVICE_NAME in tags {
      var selected;
      refused, selected := SelectService(policy, tags[SERVICE_NAME]);
      if !refused {
        sum := Insert(pkt, taglen, Tag(SERVICE_NAME, selected), head, done);
      }
    } else {
      assert done + [] == done;
    }
  }

  function CookieTags(policy: Policy, cookie: seq<byte>): seq<Tag> {
    if policy.insertCookie then [Tag(AC_COOKIE, cookie)] else []
  }

  method InsertCookie(policy: Policy, pkt: Packet, taglen: u16, cookie: seq<byte>, ghost head: seq<byte>, ghost done: seq<Tag>)
    returns (sum: u16)
    requires pkt.bytes == head + Concat(done) && taglen == Declared(done)
    modifies pkt
    ensures pkt.bytes == head + Concat(done + CookieTags(policy, cookie)) && sum == Declared(done + CookieTags(policy, cookie))
  {
    if policy.insertCookie {
      sum := Insert(pkt, taglen, Tag(AC_COOKIE, cookie), head, done);
    } else {
      sum := taglen;
      assert done + [] == done;
    }
  }

  /** The PADO for a PADI with these tags. */
  method Offer(policy: Policy, tags: TagMap, cookie: seq<byte>) returns (err: bool, out: seq<byte>)
    ensures err <==> ServiceRefused(policy, tags)
    ensures !err ==> var all := OfferTags(policy, tags, cookie);
                     Declared(all) <= |Concat(all)| && out == Answer(PADO, 0, all)
  {
    ghost var head := [0x11, PADO] + Be16(0) + Be16(0);
    var pkt := new Packet([0x11, PADO] + Be16(0) + Be16(0));
    assert pkt.bytes == head + Concat([]);
    var taglen := Insert(pkt, 0, Tag(AC_NAME, policy.acName), head, []);
    ghost var done := [] + [Tag(AC_NAME, policy.acName)];
    taglen := InsertIfPresent(pkt, taglen, tags, HOST_UNIQ, head, done);
    done := done + Echo(tags, HOST_UNIQ);
    err, taglen := InsertService(policy, pkt, taglen, tags, head, done);
    if err {
      return err, [];
    }
    done := done + Echo(tags, SERVICE_NAME);
    taglen := InsertCookie(policy, pkt, taglen, cookie, head, done);
    assert done + CookieTags(policy, cookie) == OfferTags(policy, tags, cookie);
    out := Finish(pkt, PADO, 0, taglen, OfferTags(policy, tags, cookie));
  }

  /** The PADS for a PADR with these tags. */
  method Confirm(tags: TagMap, session: u16) returns (out: seq<byte>)
    ensures var all := ConfirmTags(tags); Declared(all) <= |Concat(all)| && out == Answer(PADS, session, all)
  {
    ghost var head := [0x11, PADS] + Be16(session) + Be16(0);
    var pkt := new Packet([0x11, PADS] + Be16(session) + Be16(0));
    ghost var done: seq<Tag> := [];
    var taglen := InsertIfPresent(pkt, 0, tags, SERVICE_NAME, head, done);
    done := done + Echo(tags, SERVICE_NAME);
    taglen := InsertIfPresent(pkt, taglen, tags, HOST_UNIQ, head, done);
    out := Finish(pkt, PADS, session, taglen, ConfirmTags(tags));
  }

  lemma {:induction false} FewTags(tags: seq<Tag>)
    requires |tags| <= 4 && forall t :: t in tags ==> Short(t)
    ensures |Concat(tags)| <= 255 * |tags| < 0x1_0000
  {
    if tags == [] {
    } else {
      FewTags(tags[1..]);
      assert Short(tags[0]);
    }
  }

  /** A client's reading of a discovery packet: version and type, code, session id, a length that is right, and tags
      among which no type comes twice. */
  ghost predicate Reads(out: seq<byte>, code: byte, session: u16, tags: TagMap) {
    && |out| >= 6 && out[0] == 0x11 && out[1] == code && ReadBe16(out[2..]) == session && ReadBe16(out[4..]) == |out| - 6
    && Readable(out[6..], NO_TAGS.Keys) && Parse(out[6..], NO_TAGS) == (tags, false)
  }

  /** Whatever becomes of the tags, the first four bytes stand. */
  lemma HeaderReads(code: byte, session: u16, tags: seq<Tag>)
    requires Declared(tags) <= |Concat(tags)|
    ensures var out := Answer(code, session, tags);
            |out| >= 6 && out[0] == 0x11 && out[1] == code && ReadBe16(out[2..]) == session
  {
    var out := Answer(code, session, tags);
    var rest := Be16(Declared(tags)) + Concat(tags)[..Declared(tags)];
    assert out[2..] == Be16(session) + rest;
    Be16RoundTrip(session, rest);
  }

  lemma AnswerBody(code: byte, session: u16, tags: seq<Tag>)
    requires Declared(tags) == |Concat(tags)|
    ensures var out := Answer(code, session, tags);
            out[6..] == Concat(tags) + [] && ReadBe16(out[4..]) == |out| - 6
  {
    var out := Answer(code, session, tags);
    assert out[4..] == Be16(Declared(tags)) + Concat(tags);
    Be16RoundTrip(Declared(tags), Concat(tags));
  }

  lemma AnswerReads(code: byte, session: u16, tags: seq<Tag>)
    requires tags != [] && Distinct(tags) && Declared(tags) == |Concat(tags)| && forall t :: t in tags ==> Writable(t)
    ensures Reads(Answer(code, session, tags), code, session, MapOf(tags))
  {
    HeaderReads(code, session, tags);
    AnswerBody(code, session, tags);
    TagsRoundTrip(tags, []);
  }

  /** What a client is to find in a PADO: our name (type 0x0102), its own service name (0x0101) and Host-Uniq (0x0103) if it
      sent them, the cookie (0x0104) if the policy has one, and nothing else. */
  ghost predicate Offers(policy: Policy, tags: TagMap, cookie: seq<byte>, seen: TagMap) {
    && seen.Keys == {0x0102} + (tags.Keys * {0x0101, 0x0103}) + (if policy.insertCookie then {0x0104} else {})
    && seen[0x0102] == policy.acName && (policy.insertCookie ==> seen[0x0104] == cookie)
    && forall k :: k in tags && (k == 0x0101 || k == 0x0103) ==> seen[k] == tags[k]
  }

  /** A PADO whose values have at most 251 bytes can be read: code 0x07, session id 0, a length that is right, and exactly
      these tags. */
  lemma OfferIsReadBack(policy: Policy, tags: TagMap, cookie: seq<byte>)
    requires forall t :: t in OfferTags(policy, tags, cookie) ==> Short(t)
    ensures var all := OfferTags(policy, tags, cookie);
            && Declared(all) == |Concat(all)|
            && Reads(Answer(PADO, 0, all), 0x07, 0, MapOf(all)) && Offers(policy, tags, cookie, MapOf(all))
  {
    var all := OfferTags(policy, tags, cookie);
    FewTags(all);
    DeclaredIsExactIff(all);
    OfferLookups(policy, tags, cookie);
    AnswerReads(PADO, 0, all);
  }

  /** The map of tags that follow each other: of repeated types the first counts. */
  lemma {:induction false} MapOfConcat(a: seq<Tag>, b: seq<Tag>)
    ensures MapOf(a + b) == MapOf(b) + MapOf(a)
  {
    if a == [] {
      assert a + b == b;
    } else {
      assert (a + b)[1..] == a[1..] + b;
      MapOfConcat(a[1..], b);
    }
  }

  lemma MapOfOne(t: Tag)
    ensures MapOf([t]) == map[t.kind := t.value]
  {
    assert [t][1..] == [];
  }

  /** The tags of one type. */
  function Only(tags: TagMap, kind: u16): TagMap {
    if kind in tags then map[kind := tags[kind]] else map[]
  }

  lemma MapOfEcho(tags: TagMap, kind: u16)
    ensures MapOf(Echo(tags, kind)) == Only(tags, kind)
  {
    if kind in tags { MapOfOne(Tag(kind, tags[kind])); }
  }

  lemma OfferLookups(policy: Policy, tags: TagMap, cookie: seq<byte>)
    ensures var all := OfferTags(policy, tags, cookie); Distinct(all) && Offers(policy, tags, cookie, MapOf(all))
  {
    var name, rest := [Tag(AC_NAME, policy.acName)], CookieTags(policy, cookie);
    var unique, service := Echo(tags, HOST_UNIQ), Echo(tags, SERVICE_NAME);
    MapOfOne(name[0]);
    if policy.insertCookie { MapOfOne(rest[0]); }
    MapOfEcho(tags, HOST_UNIQ);
    MapOfEcho(tags, SERVICE_NAME);
    MapOfConcat(name + unique + service, rest);
    MapOfConcat(name + unique, service);
    MapOfConcat(name, unique);
    OffersThese(policy, tags, cookie, MapOf(rest));
    OfferDistinct(policy, tags, cookie);
  }

  lemma OffersThese(policy: Policy, tags: TagMap, cookie: seq<byte>, rest: TagMap)
    requires rest == if policy.insertCookie then map[AC_COOKIE := cookie] else map[]
    ensures Offers(policy, tags, cookie,
                   rest + (Only(tags, SERVICE_NAME) + (Only(tags, HOST_UNIQ) + map[AC_NAME := policy.acName])))
  {
  }

  lemma OfferDistinct(policy: Policy, tags: TagMap, cookie: seq<byte>)
    ensures Distinct(OfferTags(policy, tags, cookie))
  {
  }

  /** What a client is to find in a PADS: its own service name and Host-Uniq. */
  ghost predicate Confirms(tags: TagMap, seen: TagMap) {
    seen == map k | k in tags && (k == 0x0101 || k == 0x0103) :: tags[k]
  }

  /** A PADS with such values can be read, too: code 0x65, the session id, and exactly these tags; if there are none, it ends
      with its header. */
  lemma ConfirmIsReadBack(tags: TagMap, session: u16)
    requires forall t :: t in ConfirmTags(tags) ==> Short(t)
    ensures var all := ConfirmTags(tags);
            && Declared(all) == |Concat(all)| && Confirms(tags, MapOf(all))
            && if 0x0101 !in tags && 0x0103 !in tags then Answer(PADS, session, all) == [0x11, 0x65] + Be16(session) + [0, 0]
               else Reads(Answer(PADS, session, all), 0x65, session, MapOf(all))
  {
    var all := ConfirmTags(tags);
    FewTags(all);
    DeclaredIsExactIff(all);
    ConfirmLookups(tags);
    if all != [] { AnswerReads(PADS, session, all); }
  }

  lemma ConfirmLookups(tags: TagMap)
    ensures var all := ConfirmTags(tags); Distinct(all) && Confirms(tags, MapOf(all))
  {
    MapOfEcho(tags, SERVICE_NAME);
    MapOfEcho(tags, HOST_UNIQ);
    MapOfConcat(Echo(tags, SERVICE_NAME), Echo(tags, HOST_UNIQ));
  }
}
