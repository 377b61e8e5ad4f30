/** The RADIUS messages: a request from its fields to its attributes' bytes, and an answer from its bytes to what the AAA
    side reads in it. The dictionary gives attributes their types and some of their texts a number. */
module RadiusMessages {
  import opened Wire
  import opened RadiusAvp
  import P = PapHiding
  import F = FramedPool
  import Aaa

  /** An attribute of the dictionary, with the texts that stand for numbers. */
  datatype Attribute = Attribute(id: byte, name: string, values: seq<(u32, seq<byte>)>)

  datatype Vendor = Vendor(id: u32, section: seq<Attribute>)

  /** `standard` is the section without vendor. Sections, and the vendors, are in the order of their ids. */
  datatype Dict = Dict(standard: seq<Attribute>, vendors: seq<Vendor>)

  /** What an attribute's name stands for. */
  datatype Id = Id(kind: byte, vendor: Option<u32>)

  // ---- Lookups -----------------------------------------------------------------------------------------------------

  function IdIn(section: seq<Attribute>, name: string): Option<byte> {
    if section == [] then None else if section[0].name == name then Some(section[0].id) else IdIn(section[1..], name)
  }

  function VendorId(vendors: seq<Vendor>, name: string): Id {
    if vendors == [] then Id(0, None)
    else match IdIn(vendors[0].section, name)
      case Some(k) => Id(k, Some(vendors[0].id))
      case None => VendorId(vendors[1..], name)
  }

  /** `getIdByName`: the standard section comes first, and an unknown name has type 0. */
  function IdOf(dict: Dict, name: string): Id {
    match IdIn(dict.standard, name) case Some(k) => Id(k, None) case None => VendorId(dict.vendors, name)
  }

  function Number(values: seq<(u32, seq<byte>)>, text: seq<byte>): Option<u32> {
    if values == [] then None else if values[0].1 == text then Some(values[0].0) else Number(values[1..], text)
  }

  /** `getValueByName`: 0 for a text that stands for no number. */
  function ValueByName(section: seq<Attribute>, name: string, text: seq<byte>): u32 {
    if section == [] then 0
    else if section[0].name == name && Number(section[0].values, text).Some? then Number(section[0].values, text).value
    else ValueByName(section[1..], name, text)
  }

  function NameIn(section: seq<Attribute>, id: byte): string {
    if section == [] then "" else if section[0].id == id then section[0].name else NameIn(section[1..], id)
  }

  /** `getAttrById`; the empty name for an attribute that is not in the dictionary. */
  function NameOf(dict: Dict, a: Avp): string {
    if a.vendor == None || a.vendor == Some(0) then NameIn(dict.standard, a.kind)
    else NameIn(SectionOf(dict.vendors, a.vendor.value), a.kind)
  }

  function SectionOf(vendors: seq<Vendor>, id: u32): seq<Attribute> {
    if vendors == [] then [] else if vendors[0].id == id then vendors[0].section else SectionOf(vendors[1..], id)
  }

  /** Place `i` is the first of the section with this name. */
  predicate FirstNamed(section: seq<Attribute>, name: string, i: nat) {
    i < |section| && section[i].name == name && forall j :: 0 <= j < i ==> section[j].name != name
  }

  predicate Named(section: seq<Attribute>, name: string) {
    exists i :: 0 <= i < |section| && section[i].name == name
  }

  lemma {:induction false} IdInIsFirst(section: seq<Attribute>, name: string, i: nat)
    requires FirstNamed(section, name, i)
    ensures IdIn(section, name) == Some(section[i].id)
  {
    if i > 0 {
      assert section[0].name != name;
      IdInIsFirst(section[1..], name, i - 1);
    }
  }

  lemma {:induction false} NoIdIn(section: seq<Attribute>, name: string)
    ensures IdIn(section, name).None? <==> !Named(section, name)
  {
    if section == [] {
    } else if section[0].name == name {
    } else {
      var rest := section[1..];
      NoIdIn(rest, name);
      assert forall i :: 0 <= i < |rest| ==> rest[i] == section[i + 1];
      if i :| 0 <= i < |section| && section[i].name == name { assert rest[i - 1].name == name; }
    }
  }

  /** Place `v` is the first of the vendors that has the name, and `i` its first place there. */
  predicate FirstVendor(vendors: seq<Vendor>, name: string, v: nat, i: nat) {
    v < |vendors| && FirstNamed(vendors[v].section, name, i) && forall u :: 0 <= u < v ==> !Named(vendors[u].section, name)
  }

  lemma {:induction false} VendorIdIsFirst(vendors: seq<Vendor>, name: string, v: nat, i: nat)
    requires FirstVendor(vendors, name, v, i)
    ensures VendorId(vendors, name) == Id(vendors[v].section[i].id, Some(vendors[v].id))
  {
    NoIdIn(vendors[0].section, name);
    if v == 0 {
      IdInIsFirst(vendors[0].section, name, i);
    } else {
      assert forall u :: 0 <= u < v - 1 ==> vendors[1..][u] == vendors[u + 1];
      VendorIdIsFirst(vendors[1..], name, v - 1, i);
    }
  }

  lemma {:induction false} NoVendorId(vendors: seq<Vendor>, name: string)
    requires forall v :: v in vendors ==> !Named(v.section, name)
    ensures VendorId(vendors, name) == Id(0, None)
  {
    if vendors == [] {
    } else {
      NoIdIn(vendors[0].section, name);
      NoVendorId(vendors[1..], name);
    }
  }

  /** The attribute a name stands for: the first with this name in the standard section; */
  lemma NameStandsFor(dict: Dict, name: string, i: nat)
    requires FirstNamed(dict.standard, name, i)
    ensures IdOf(dict, name) == Id(dict.standard[i].id, None)
  {
    IdInIsFirst(dict.standard, name, i);
  }

  /** or else the first in the first vendor's section that has one; or else type 0. */
  lemma OtherNameStandsFor(dict: Dict, name: string, v: nat, i: nat)
    requires !Named(dict.standard, name)
    ensures FirstVendor(dict.vendors, name, v, i) ==>
            IdOf(dict, name) == Id(dict.vendors[v].section[i].id, Some(dict.vendors[v].id))
    ensures (forall w :: w in dict.vendors ==> !Named(w.section, name)) ==> IdOf(dict, name) == Id(0, None)
  {
    NoIdIn(dict.standard, name);
    if FirstVendor(dict.vendors, name, v, i) { VendorIdIsFirst(dict.vendors, name, v, i); }
    if forall w :: w in dict.vendors ==> !Named(w.section, name) { NoVendorId(dict.vendors, name); }
  }

  predicate Listed(values: seq<(u32, seq<byte>)>, text: seq<byte>) {
    exists j :: 0 <= j < |values| && values[j].1 == text
  }

  lemma {:induction false} NumberIsFirst(values: seq<(u32, seq<byte>)>, text: seq<byte>, j: nat)
    requires j < |values| && values[j].1 == text && forall k :: 0 <= k < j ==> values[k].1 != text
    ensures Number(values, text) == Some(values[j].0)
  {
    if j > 0 {
      assert values[0].1 != text;
      NumberIsFirst(values[1..], text, j - 1);
    }
  }

  lemma {:induction false} NoNumber(values: seq<(u32, seq<byte>)>, text: seq<byte>)
    requires !Listed(values, text)
    ensures Number(values, text).None?
  {
    if values == [] {
    } else {
      assert values[0].1 != text;
      assert forall k :: 0 <= k < |values| - 1 ==> values[1..][k] == values[k + 1];
      NoNumber(values[1..], text);
    }
  }

  /** Attribute `i` is the first with this name that lists the text, and does so first at place `j`. */
  predicate Counts(section: seq<Attribute>, name: string, text: seq<byte>, i: nat, j: nat) {
    && i < |section| && section[i].name == name && j < |section[i].values| && section[i].values[j].1 == text
    && (forall k :: 0 <= k < j ==> section[i].values[k].1 != text)
    && (forall k :: 0 <= k < i ==> Lacks(section[k], name, text))
  }

  predicate Lacks(a: Attribute, name: string, text: seq<byte>) { a.name == name ==> !Listed(a.values, text) }

  /** The number a text stands for: that of the first of the attributes with the name that has one for it; */
  lemma {:induction false} TextStandsFor(section: seq<Attribute>, name: string, text: seq<byte>, i: nat, j: nat)
    requires Counts(section, name, text, i, j)
    ensures ValueByName(section, name, text) == section[i].values[j].0
  {
    if i == 0 {
      NumberIsFirst(section[0].values, text, j);
    } else {
      assert Lacks(section[0], name, text);
      if section[0].name == name { NoNumber(section[0].values, text); }
      assert forall k :: 0 <= k < i - 1 ==> section[1..][k] == section[k + 1];
      TextStandsFor(section[1..], name, text, i - 1, j);
    }
  }

  /** and 0 if none has. */
  lemma {:induction false} OtherTextIsZero(section: seq<Attribute>, name: string, text: seq<byte>)
    requires forall k :: 0 <= k < |section| ==> Lacks(section[k], name, text)
    ensures ValueByName(section, name, text) == 0
  {
    if section == [] {
    } else {
      assert Lacks(section[0], name, text);
      if section[0].name == name { NoNumber(section[0].values, text); }
      assert forall k :: 0 <= k < |section| - 1 ==> section[1..][k] == section[k + 1];
      OtherTextIsZero(section[1..], name, text);
    }
  }

  /** Ids are unique: in a section, and among the vendors, of which none is 0. */
  predicate Unambiguous(dict: Dict) {
    && UniqueIds(dict.standard)
    && (forall v :: v in dict.vendors ==> UniqueIds(v.section) && v.id != 0)
    && (forall u, v :: 0 <= u < v < |dict.vendors| ==> dict.vendors[u].id != dict.vendors[v].id)
  }

  predicate UniqueIds(section: seq<Attribute>) {
    forall i, j :: 0 <= i < j < |section| ==> section[i].id != section[j].id
  }

  lemma {:induction false} NameInFinds(section: seq<Attribute>, name: string)
    requires UniqueIds(section) && Named(section, name)
    ensures IdIn(section, name).Some? && NameIn(section, IdIn(section, name).value) == name
  {
    if section[0].name == name {
    } else {
      var rest := section[1..];
      assert forall i :: 0 <= i < |rest| ==> rest[i] == section[i + 1];
      var k :| 0 <= k < |section| && section[k].name == name;
      assert rest[k - 1].name == name;
      NameInFinds(rest, name);
      IdIsThere(rest, name);
    }
  }

  lemma {:induction false} IdIsThere(section: seq<Attribute>, name: string)
    requires IdIn(section, name).Some?
    ensures exists i :: 0 <= i < |section| && section[i].id == IdIn(section, name).value && section[i].name == name
  {
    if section[0].name == name {
    } else {
      IdIsThere(section[1..], name);
      var i :| 0 <= i < |section[1..]| && section[1..][i].id == IdIn(section, name).value && section[1..][i].name == name;
      assert section[i + 1] == section[1..][i];
    }
  }

  lemma {:induction false} VendorFinds(vendors: seq<Vendor>, name: string)
    requires forall v :: v in vendors ==> UniqueIds(v.section)
    requires forall u, v :: 0 <= u < v < |vendors| ==> vendors[u].id != vendors[v].id
    requires exists v :: v in vendors && Named(v.section, name)
    ensures var id := VendorId(vendors, name);
            id.vendor.Some? && (exists v :: v in vendors && v.id == id.vendor.value) &&
            NameIn(SectionOf(vendors, id.vendor.value), id.kind) == name
  {
    NoIdIn(vendors[0].section, name);
    if Named(vendors[0].section, name) {
      NameInFinds(vendors[0].section, name);
      assert vendors[0] in vendors;
    } else {
      var rest := vendors[1..];
      assert forall i :: 0 <= i < |rest| ==> rest[i] == vendors[i + 1];
      var v :| v in vendors && Named(v.section, name);
      assert v in rest;
      VendorFinds(rest, name);
      var w :| w in rest && w.id == VendorId(rest, name).vendor.value;
      var i :| 0 <= i < |rest| && rest[i] == w;
      assert vendors[i + 1] == w && vendors[0].id != w.id;
    }
  }

  /** A name that the dictionary has is read back: an attribute made under it has it, if the ids are unique. */
  lemma NameComesBack(dict: Dict, name: string, value: seq<byte>)
    requires Unambiguous(dict) && (Named(dict.standard, name) || exists v :: v in dict.vendors && Named(v.section, name))
    ensures NameOf(dict, Avp(IdOf(dict, name).kind, IdOf(dict, name).vendor, value)) == name
  {
    NoIdIn(dict.standard, name);
    if Named(dict.standard, name) {
      NameInFinds(dict.standard, name);
    } else {
      VendorFinds(dict.vendors, name);
    }
  }

  method FindId(section: seq<Attribute>, name: string) returns (id: Option<byte>)
    ensures id == IdIn(section, name)
  {
    assert section[0..] == section;
    for i := 0 to |section|
      invariant IdIn(section, name) == IdIn(section[i..], name)
    {
      if section[i].name == name {
        return Some(section[i].id);
      }
      assert section[i..][1..] == section[i + 1..];
    }
    id := None;
  }

  method GetIdByName(dict: Dict, name: string) returns (id: Id)
    ensures id == IdOf(dict, name)
  {
    var k := FindId(dict.standard, name);
    if k.Some? {
      return Id(k.value, None);
    }
    var vendors := dict.vendors;
    assert vendors[0..] == vendors;
    for i := 0 to |vendors|
      invariant VendorId(vendors, name) == VendorId(vendors[i..], name)
    {
      k := FindId(vendors[i].section, name);
      if k.Some? {
        return Id(k.value, Some(vendors[i].id));
      }
      assert vendors[i..][1..] == vendors[i + 1..];
    }
    id := Id(0, None);
  }

  method FindNumber(values: seq<(u32, seq<byte>)>, text: seq<byte>) returns (n: Option<u32>)
    ensures n == Number(values, text)
  {
    assert values[0..] == values;
    for j := 0 to |values|
      invariant Number(values, text) == Number(values[j..], text)
    {
      if values[j].1 == text {
        return Some(values[j].0);
      }
      assert values[j..][1..] == values[j + 1..];
    }
    n := None;
  }

  method GetValueByName(section: seq<Attribute>, name: string, text: seq<byte>) returns (v: u32)
    ensures v == ValueByName(section, name, text)
  {
    assert section[0..] == section;
    for i := 0 to |section|
      invariant ValueByName(section, name, text) == ValueByName(section[i..], name, text)
    {
      if section[i].name == name {
        var n := FindNumber(section[i].values, text);
        if n.Some? {
          return n.value;
        }
      }
      assert section[i..][1..] == section[i + 1..];
    }
    v := 0;
  }

  // ---- Requests ----------------------------------------------------------------------------------------------------

  datatype Credentials =
    | PapUser(password: P.Octets)
    | ChapUser(challenge: seq<byte>, response: seq<byte>)

  datatype Request = Request(username: seq<byte>, who: Credentials, nasId: seq<byte>, framedProtocol: seq<byte>,
                             serviceType: seq<byte>, callingStationId: seq<byte>, nasPortId: seq<byte>)

  datatype Keying = Keying(md5: P.Digest, secret: P.Octets, auth: P.Block)

  function NamedAvp(dict: Dict, name: string, value: seq<byte>): Avp {
    Avp(IdOf(dict, name).kind, IdOf(dict, name).vendor, value)
  }

  /** A text attribute: sent as its number if the dictionary has one for the text, else as it is. */
  function TextAvp(dict: Dict, name: string, text: seq<byte>): Avp {
    var n := ValueByName(dict.standard, name, text);
    NamedAvp(dict, name, if n != 0 then Be32(n) else text)
  }

  function OptionalText(dict: Dict, name: string, text: seq<byte>): seq<Avp> {
    if text == [] then [] else [TextAvp(dict, name, text)]
  }

  /** An attribute that is sent only if the dictionary knows a number for it. */
  function OptionalNumber(dict: Dict, name: string, text: seq<byte>): seq<Avp> {
    var n := ValueByName(dict.standard, name, text);
    if text == [] || n == 0 then [] else [NamedAvp(dict, name, Be32(n))]
  }

  function ToBytes(s: P.Octets): (r: seq<byte>)
    ensures |r| == |s|
  {
    seq(|s|, i requires 0 <= i < |s| => s[i] as byte)
  }

  function ToOctets(s: seq<byte>): (r: P.Octets)
    ensures |r| == |s|
  {
    seq(|s|, i requires 0 <= i < |s| => s[i] as bv8)
  }

  function HiddenPassword(k: Keying, password: P.Octets): seq<byte> {
    ToBytes(P.Hide(k.md5, k.secret, k.auth, password))
  }

  function CredentialAvps(dict: Dict, who: Credentials, k: Keying): seq<Avp> {
    match who
    case PapUser(password) => [TextAvp(dict, "User-Password", HiddenPassword(k, password))]
    case ChapUser(challenge, response) =>
      [TextAvp(dict, "CHAP-Password", response), TextAvp(dict, "CHAP-Challenge", challenge)]
  }

  /** The attributes of a request, in the order in which they are added to its set. */
  function RequestAvps(dict: Dict, req: Request, k: Keying): seq<Avp> {
    [TextAvp(dict, "User-Name", req.username)] + CredentialAvps(dict, req.who, k)
    + OptionalText(dict, "NAS-Identifier", req.nasId)
    + OptionalNumber(dict, "Framed-Protocol", req.framedProtocol)
    + OptionalNumber(dict, "Service-Type", req.serviceType)
    + OptionalText(dict, "Calling-Station-Id", req.callingStationId)
    + OptionalText(dict, "NAS-Port-Id", req.nasPortId)
  }

  lemma EmplaceAllSnoc(list: seq<Avp>, a: Avp)
    ensures EmplaceAll(list + [a]) == Emplace(EmplaceAll(list), a)
  {
    assert (list + [a])[..|list|] == list;
  }

  method MakeText(dict: Dict, name: string, text: seq<byte>) returns (a: Avp)
    ensures a == TextAvp(dict, name, text)
  {
    var id := GetIdByName(dict, name);
    var n := GetValueByName(dict.standard, name, text);
    a := Avp(id.kind, id.vendor, if n != 0 then Be32(n) else text);
  }

  method AddText(dict: Dict, avps: seq<Avp>, name: string, text: seq<byte>, ghost list: seq<Avp>) returns (more: seq<Avp>)
    requires avps == EmplaceAll(list)
    ensures more == EmplaceAll(list + [TextAvp(dict, name, text)])
  {
    var a := MakeText(dict, name, text);
    more := Emplace(avps, a);
    EmplaceAllSnoc(list, a);
  }

  method AddOptionalText(dict: Dict, avps: seq<Avp>, name: string, text: seq<byte>, ghost list: seq<Avp>)
    returns (more: seq<Avp>)
    requires avps == EmplaceAll(list)
    ensures more == EmplaceAll(list + OptionalText(dict, name, text))
  {
    if text != [] {
      more := AddText(dict, avps, name, text, list);
    } else {
      more := avps;
      assert list + [] == list;
    }
  }

  method AddOptionalNumber(dict: Dict, avps: seq<Avp>, name: string, text: seq<byte>, ghost list: seq<Avp>)
    returns (more: seq<Avp>)
    requires avps == EmplaceAll(list)
    ensures more == EmplaceAll(list + OptionalNumber(dict, name, text))
  {
    more := avps;
    assert list + [] == list;
    if text != [] {
      var n := GetValueByName(dict.standard, name, text);
      if n != 0 {
        var id := GetIdByName(dict, name);
        more := Emplace(avps, Avp(id.kind, id.vendor, Be32(n)));
        EmplaceAllSnoc(list, Avp(id.kind, id.vendor, Be32(n)));
      }
    }
  }

  method AddCredentials(dict: Dict, avps: seq<Avp>, who: Credentials, k: Keying, ghost list: seq<Avp>)
    returns (more: seq<Avp>)
    requires avps == EmplaceAll(list)
    ensures more == EmplaceAll(list + CredentialAvps(dict, who, k))
  {
    match who
    case PapUser(password) =>
      var hidden := P.PasswordPapProcess(k.md5, k.auth, k.secret, password);
      more := AddText(dict, avps, "User-Password", ToBytes(hidden), list);
    case ChapUser(challenge, response) =>
      more := AddText(dict, avps, "CHAP-Password", response, list);
      ghost var first := [TextAvp(dict, "CHAP-Password", response)];
      more := AddText(dict, more, "CHAP-Challenge", challenge, list + first);
      assert list + first + [TextAvp(dict, "CHAP-Challenge", challenge)] == list + CredentialAvps(dict, who, k);
  }

  /** `serialize` for a PAP or a CHAP request. */
  method SerializeRequest(dict: Dict, req: Request, k: Keying) returns (ret: seq<byte>)
    ensures ret == Serialize(EmplaceAll(RequestAvps(dict, req, k)))
  {
    var avps := AddText(dict, [], "User-Name", req.username, []);
    ghost var list := [] + [TextAvp(dict, "User-Name", req.username)];
    avps := AddCredentials(dict, avps, req.who, k, list);
    list := list + CredentialAvps(dict, req.who, k);
    avps := AddOptionalText(dict, avps, "NAS-Identifier", req.nasId, list);
    list := list + OptionalText(dict, "NAS-Identifier", req.nasId);
    avps := AddOptionalNumber(dict, avps, "Framed-Protocol", req.framedProtocol, list);
    list := list + OptionalNumber(dict, "Framed-Protocol", req.framedProtocol);
    avps := AddOptionalNumber(dict, avps, "Service-Type", req.serviceType, list);
    list := list + OptionalNumber(dict, "Service-Type", req.serviceType);
    avps := AddOptionalText(dict, avps, "Calling-Station-Id", req.callingStationId, list);
    list := list + OptionalText(dict, "Calling-Station-Id", req.callingStationId);
    avps := AddOptionalText(dict, avps, "NAS-Port-Id", req.nasPortId, list);
    ret := SerializeAvp(avps);
  }

  /** No two different attributes have the same type. */
  predicate TypesDiffer(list: seq<Avp>) {
    forall x, y :: x in list && y in list && x.kind == y.kind ==> x == y
  }

  /** A list of attributes reaches the other end as a whole if and only if each fits its format and no two different ones
      have the same type. */
  lemma AllArriveIff(list: seq<Avp>)
    requires forall a :: a in list ==> a.vendor == None
    ensures var v := Serialize(EmplaceAll(list));
            Readable(v) && (forall a :: a in list ==> a in Parse(v)) <==>
            (forall a :: a in list ==> Plain(a)) && TypesDiffer(list)
  {
    var v := Serialize(EmplaceAll(list));
    if forall a :: a in list ==> Plain(a) {
      RequestRoundTrip(list);
      if TypesDiffer(list) {
        forall a | a in list ensures a in Parse(v) {
          var x := KindHasFirst(list, a);
          FirstIsMember(list, x);
        }
      }
    } else if Readable(v) {
      ReadIsPlain(v);
    }
  }

  lemma FirstIsMember(list: seq<Avp>, x: Avp)
    requires FirstOfKind(list, x)
    ensures x in list
  {
  }

  /** What a request says to the server, if it all arrives: the user's name and the password, hidden, and nothing that
      is not in the request. */
  lemma UserArrives(dict: Dict, req: Request, k: Keying)
    requires forall a :: a in RequestAvps(dict, req, k) ==> Plain(a)
    requires TypesDiffer(RequestAvps(dict, req, k))
    ensures var v := Serialize(EmplaceAll(RequestAvps(dict, req, k)));
            Readable(v) && forall a :: a in Parse(v) <==> a in RequestAvps(dict, req, k)
  {
    var list := RequestAvps(dict, req, k);
    AllArriveIff(list);
    RequestRoundTrip(list);
    forall a | a in Parse(Serialize(EmplaceAll(list))) ensures a in list {
      FirstIsMember(list, a);
    }
  }

  // ---- What the server is told -------------------------------------------------------------------------------------

  /** The attribute named so says `text`: as the number the dictionary has for it, or else as it is. */
  predicate Says(dict: Dict, list: seq<Avp>, name: string, text: seq<byte>) {
    var n := ValueByName(dict.standard, name, text);
    NamedAvp(dict, name, if n == 0 then text else Be32(n)) in list
  }

  /** The attribute is there, if its text is one for which the dictionary has a number, with that number. */
  predicate SaysNumber(dict: Dict, list: seq<Avp>, name: string, text: seq<byte>) {
    var n := ValueByName(dict.standard, name, text);
    text != [] && n != 0 ==> NamedAvp(dict, name, Be32(n)) in list
  }

  /** Who asks: the user's name with the hidden password, or with the response to the challenge and the challenge. */
  ghost predicate SaysWho(dict: Dict, list: seq<Avp>, req: Request, k: Keying) {
    && Says(dict, list, "User-Name", req.username)
    && match req.who
       case PapUser(password) => Says(dict, list, "User-Password", HiddenPassword(k, password))
       case ChapUser(challenge, response) =>
         Says(dict, list, "CHAP-Password", response) && Says(dict, list, "CHAP-Challenge", challenge)
  }

  /** And from where, as far as that is configured. */
  predicate SaysWhere(dict: Dict, list: seq<Avp>, req: Request) {
    && (req.nasId != [] ==> Says(dict, list, "NAS-Identifier", req.nasId))
    && SaysNumber(dict, list, "Framed-Protocol", req.framedProtocol)
    && SaysNumber(dict, list, "Service-Type", req.serviceType)
    && (req.callingStationId != [] ==> Says(dict, list, "Calling-Station-Id", req.callingStationId))
    && (req.nasPortId != [] ==> Says(dict, list, "NAS-Port-Id", req.nasPortId))
  }

  function One(b: bool): nat { if b then 1 else 0 }

  /** How many attributes that takes. */
  function Size(dict: Dict, req: Request): nat {
    (if req.who.PapUser? then 2 else 3) + One(req.nasId != [])
    + One(req.framedProtocol != [] && ValueByName(dict.standard, "Framed-Protocol", req.framedProtocol) != 0)
    + One(req.serviceType != [] && ValueByName(dict.standard, "Service-Type", req.serviceType) != 0)
    + One(req.callingStationId != []) + One(req.nasPortId != [])
  }

  /** A request says all of this, under these names, and nothing more. */
  lemma RequestSays(dict: Dict, req: Request, k: Keying)
    ensures var list := RequestAvps(dict, req, k);
            SaysWho(dict, list, req, k) && SaysWhere(dict, list, req) && |list| == Size(dict, req)
  {
    WhoIsSaid(dict, req, k);
    WhereIsSaid(dict, req, k);
  }

  /** The parts of a request, in order. */
  lemma RequestParts(dict: Dict, req: Request, k: Keying)
      returns (who: seq<Avp>, nas: seq<Avp>, protocol: seq<Avp>, service: seq<Avp>, station: seq<Avp>, port: seq<Avp>)
    ensures who == [TextAvp(dict, "User-Name", req.username)] + CredentialAvps(dict, req.who, k)
    ensures nas == OptionalText(dict, "NAS-Identifier", req.nasId)
    ensures protocol == OptionalNumber(dict, "Framed-Protocol", req.framedProtocol)
    ensures service == OptionalNumber(dict, "Service-Type", req.serviceType)
    ensures station == OptionalText(dict, "Calling-Station-Id", req.callingStationId)
    ensures port == OptionalText(dict, "NAS-Port-Id", req.nasPortId)
    ensures RequestAvps(dict, req, k) == who + nas + protocol + service + station + port
  {
    who := [TextAvp(dict, "User-Name", req.username)] + CredentialAvps(dict, req.who, k);
    nas := OptionalText(dict, "NAS-Identifier", req.nasId);
    protocol := OptionalNumber(dict, "Framed-Protocol", req.framedProtocol);
    service := OptionalNumber(dict, "Service-Type", req.serviceType);
    station := OptionalText(dict, "Calling-Station-Id", req.callingStationId);
    port := OptionalText(dict, "NAS-Port-Id", req.nasPortId);
  }

  lemma WhoIsSaid(dict: Dict, req: Request, k: Keying)
    ensures SaysWho(dict, RequestAvps(dict, req, k), req, k)
  {
    var who, nas, protocol, service, station, port := RequestParts(dict, req, k);
    assert forall a :: a in who ==> a in RequestAvps(dict, req, k);
    assert who[0] in who && who[1] in who;
    if req.who.ChapUser? { assert who[2] in who; }
  }

  lemma WhereIsSaid(dict: Dict, req: Request, k: Keying)
    ensures SaysWhere(dict, RequestAvps(dict, req, k), req) && |RequestAvps(dict, req, k)| == Size(dict, req)
  {
    var who, nas, protocol, service, station, port := RequestParts(dict, req, k);
    assert forall a :: a in nas || a in protocol || a in service || a in station || a in port ==> a in RequestAvps(dict, req, k);
  }

  /** If all of it arrives, the server reads the text or number under the type the dictionary has for the name, and under
      that type nothing else. */
  lemma ServerReads(dict: Dict, req: Request, k: Keying, name: string, text: seq<byte>)
    requires forall a :: a in RequestAvps(dict, req, k) ==> Plain(a)
    requires TypesDiffer(RequestAvps(dict, req, k)) && Says(dict, RequestAvps(dict, req, k), name, text)
    ensures var v, n := Serialize(EmplaceAll(RequestAvps(dict, req, k))), ValueByName(dict.standard, name, text);
            && Readable(v) && Says(dict, Parse(v), name, text)
            && forall a :: a in Parse(v) && a.kind == IdOf(dict, name).kind ==> a.value == if n == 0 then text else Be32(n)
  {
    UserArrives(dict, req, k);
  }

  /** So for a CHAP login: the server reads the client's response as the CHAP password and our challenge as the challenge. */
  lemma ServerReadsChap(dict: Dict, req: Request, k: Keying)
    requires forall a :: a in RequestAvps(dict, req, k) ==> Plain(a)
    requires TypesDiffer(RequestAvps(dict, req, k)) && req.who.ChapUser?
    requires ValueByName(dict.standard, "CHAP-Password", req.who.response) == 0
    requires ValueByName(dict.standard, "CHAP-Challenge", req.who.challenge) == 0
    ensures var v := Serialize(EmplaceAll(RequestAvps(dict, req, k)));
            && Readable(v)
            && NamedAvp(dict, "CHAP-Password", req.who.response) in Parse(v)
            && NamedAvp(dict, "CHAP-Challenge", req.who.challenge) in Parse(v)
            && (forall a :: a in Parse(v) && a.kind == IdOf(dict, "CHAP-Password").kind ==> a.value == req.who.response)
            && (forall a :: a in Parse(v) && a.kind == IdOf(dict, "CHAP-Challenge").kind ==> a.value == req.who.challenge)
  {
    WhoIsSaid(dict, req, k);
    ServerReads(dict, req, k, "CHAP-Password", req.who.response);
    ServerReads(dict, req, k, "CHAP-Challenge", req.who.challenge);
  }

  lemma OctetsRoundTrip(s: P.Octets)
    ensures ToOctets(ToBytes(s)) == s
  {
    forall i | 0 <= i < |s| ensures (s[i] as byte) as bv8 == s[i] {}
  }

  /** What a server with the same secret makes of the attribute's value, zeros at the end dropped. */
  function RecoveredPassword(k: Keying, value: seq<byte>): P.Octets
    requires |value| % P.BLOCK == 0
  {
    P.StripZeros(P.Unhide(k.md5, k.secret, k.auth, ToOctets(value)))
  }

  lemma RecoversPadded(k: Keying, password: P.Octets)
    ensures |HiddenPassword(k, password)| == |P.Pad(password)|
    ensures RecoveredPassword(k, HiddenPassword(k, password)) == P.StripZeros(P.Pad(password))
  {
    P.HideRoundTrip(k.md5, k.secret, k.auth, password);
    OctetsRoundTrip(P.Hide(k.md5, k.secret, k.auth, password));
  }

  lemma HiddenFitsIff(k: Keying, password: P.Octets)
    ensures |HiddenPassword(k, password)| <= 253 <==> |password| <= 240
  {
    P.FitsAnAttributeIff(k.md5, k.secret, k.auth, password);
  }

  lemma CredentialsAreSent(dict: Dict, req: Request, k: Keying, a: Avp)
    requires a in CredentialAvps(dict, req.who, k)
    ensures a in RequestAvps(dict, req, k)
  {
  }

  /** Unless the dictionary turns it into a number, the hidden password is in a PAP request. */
  lemma PasswordIsSent(dict: Dict, req: Request, k: Keying)
    requires req.who.PapUser? && ValueByName(dict.standard, "User-Password", HiddenPassword(k, req.who.password)) == 0
    ensures NamedAvp(dict, "User-Password", HiddenPassword(k, req.who.password)) in RequestAvps(dict, req, k)
  {
    CredentialsAreSent(dict, req, k, TextAvp(dict, "User-Password", HiddenPassword(k, req.who.password)));
  }

  /** It has room there exactly if the password has at most 240 bytes. */
  lemma PasswordFitsIff(dict: Dict, k: Keying, password: P.Octets)
    ensures var a := NamedAvp(dict, "User-Password", HiddenPassword(k, password));
            Plain(a) <==> |password| <= 240 && a.kind != VSA && a.vendor == None
  {
    HiddenFitsIff(k, password);
  }

  /** And a server with the same secret recovers the password exactly if it does not end in a zero. */
  lemma PasswordRecoveredIff(k: Keying, password: P.Octets)
    ensures |HiddenPassword(k, password)| % P.BLOCK == 0
    ensures RecoveredPassword(k, HiddenPassword(k, password)) == password <==>
            password == [] || password[|password| - 1] != 0
  {
    RecoversPadded(k, password);
    P.PaddingIsReversibleIff(password);
  }

  // ---- Answers -----------------------------------------------------------------------------------------------------

  const NOTHING := Aaa.RadiusResponse(0, 0, 0, "", "")

  function Text(s: seq<byte>): string {
    seq(|s|, i requires 0 <= i < |s| => s[i] as int as char)
  }

  /** One turn of the loop over the attributes; an address that has not four bytes is passed over. */
  function NoteAvp(dict: Dict, res: Aaa.RadiusResponse, a: Avp): Aaa.RadiusResponse {
    var name := NameOf(dict, a);
    if name == "Framed-IP-Address" then if |a.value| == 4 then res.(framedIp := ReadBe32(a.value)) else res
    else if name == "Client-DNS-Pri" then if |a.value| == 4 then res.(dns1 := ReadBe32(a.value)) else res
    else if name == "Client-DNS-Sec" then if |a.value| == 4 then res.(dns2 := ReadBe32(a.value)) else res
    else if name == "Framed-Pool" then res.(framedPool := Text(a.value))
    else if name == "Subscriber-Profile-Name" then res.(template := Text(a.value))
    else res
  }

  function NoteAvps(dict: Dict, avps: seq<Avp>): Aaa.RadiusResponse {
    if avps == [] then NOTHING else NoteAvp(dict, NoteAvps(dict, avps[..|avps| - 1]), avps[|avps| - 1])
  }

  method Deserialize(dict: Dict, v: seq<byte>) returns (res: Aaa.RadiusResponse)
    requires Readable(v)
    ensures res == NoteAvps(dict, Parse(v))
  {
    var avps := ParseAvp(v);
    res := NOTHING;
    for i := 0 to |avps|
      invariant res == NoteAvps(dict, avps[..i])
    {
      assert avps[..i + 1][..i] == avps[..i];
      res := NoteAvp(dict, res, avps[i]);
    }
    assert avps[..|avps|] == avps;
  }

  /** The last attribute with the name, of those with four bytes if it is to be an address. */
  function LastNamed(dict: Dict, avps: seq<Avp>, name: string, isAddress: bool): Option<seq<byte>> {
    if avps == [] then None
    else
      var a := avps[|avps| - 1];
      if NameOf(dict, a) == name && (isAddress ==> |a.value| == 4) then Some(a.value)
      else LastNamed(dict, avps[..|avps| - 1], name, isAddress)
  }

  function AddressIn(v: Option<seq<byte>>): u32 {
    if v.Some? && |v.value| == 4 then ReadBe32(v.value) else 0
  }

  function TextIn(v: Option<seq<byte>>): string {
    if v.Some? then Text(v.value) else ""
  }

  /** Each field of the answer is what the last fitting attribute of its name says. */
  lemma {:induction false} LastCounts(dict: Dict, avps: seq<Avp>)
    ensures NoteAvps(dict, avps) == Aaa.RadiusResponse(
              AddressIn(LastNamed(dict, avps, "Framed-IP-Address", true)),
              AddressIn(LastNamed(dict, avps, "Client-DNS-Pri", true)),
              AddressIn(LastNamed(dict, avps, "Client-DNS-Sec", true)),
              TextIn(LastNamed(dict, avps, "Framed-Pool", false)),
              TextIn(LastNamed(dict, avps, "Subscriber-Profile-Name", false)))
  {
    if avps == [] {
    } else {
      LastCounts(dict, avps[..|avps| - 1]);
    }
  }

  /** From the server's attributes to the AAA session: the address is the last Framed-IP-Address of four bytes; without
      one, or with 0.0.0.0, it comes from the pool that the answer's Framed-Pool, or else the answer's or the local
      template, names. Addresses of name servers in the answer come before the template's. */
  lemma AnswerReachesSession(dict: Dict, avps: seq<Avp>, conf: Aaa.AaaConf, pools: map<string, F.Pool>, owner: nat)
    requires forall a :: a in avps ==> Plain(a)
    ensures Readable(Serialize(avps))
    ensures var s := Aaa.NewRadius(conf, pools, owner, NoteAvps(dict, Parse(Serialize(avps)))).0;
            var ip := AddressIn(LastNamed(dict, avps, "Framed-IP-Address", true));
            var wanted := TextIn(LastNamed(dict, avps, "Framed-Pool", false));
            var t := TemplateFor(conf, TextIn(LastNamed(dict, avps, "Subscriber-Profile-Name", false)));
            && (ip != 0 ==> s.lease.address == ip && !s.freeIp)
            && s.pool == (if wanted != "" then wanted else t.pool)
            && (ip == 0 ==> (s.freeIp <==> s.pool != "" && s.pool in pools))
            && s.lease.dns1 == FirstGiven(AddressIn(LastNamed(dict, avps, "Client-DNS-Pri", true)), t.dns1)
            && s.lease.dns2 == FirstGiven(AddressIn(LastNamed(dict, avps, "Client-DNS-Sec", true)), t.dns2)
  {
    RoundTripAll(avps);
    LastCounts(dict, avps);
  }

  /** The template an answer names, or the local one; an unknown one gives nothing. */
  function TemplateFor(conf: Aaa.AaaConf, named: string): Aaa.Template {
    var name := if named != "" then named else conf.localTemplate;
    if name in conf.templates then conf.templates[name] else Aaa.Template("", 0, 0)
  }

  function FirstGiven(a: u32, b: u32): u32 { if a != 0 then a else b }

  lemma RoundTripAll(avps: seq<Avp>)
    requires forall a :: a in avps ==> Plain(a)
    ensures Readable(Serialize(avps)) && Parse(Serialize(avps)) == avps
  {
    RoundTripIff(avps);
  }
}
