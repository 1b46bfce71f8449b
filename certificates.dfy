/** Certificate shape of the provisioning tool: distinguished names, the
    subject-alternative-name list with its hand-rolled DER UTF8String, and
    the root and leaf certificates (RFC 5280). Keys and signatures are
    opaque: a key is an identifier, a signature records the signing key. */
module Certificates {
  import opened Wrappers
  import opened Text
  import opened XmlTree

  type byte = x: int | 0 <= x < 256

  /** What made a provisioning step raise in the source. */
  datatype Fault =
    | MissingElement(tag: string)      // `find(tag)` was None, then `.text` raised
    | MissingText(tag: string)         // the element had no text where a string was needed
    | NotAnInteger(text: string)       // `int(text)` raised
    | BadIpAddress(text: string)       // `ipaddress.ip_address(text)` raised
    | LengthOverflow(length: nat)      // `len(val).to_bytes(1, 'big')` raised
    | KeySizeRejected(size: int)       // the key generator refused the size
    | ValidityBeforeStart(days: int)   // `not_valid_after` fell before `not_valid_before`
    | BadObjectIdentifier(text: string) // `x509.ObjectIdentifier(text)` raised
    | BadCountryCode(text: string)     // `x509.NameAttribute` refused a country that is not 2 UTF-8 bytes
    | NonAsciiDnsName(text: string)    // `x509.DNSName` refused a name that is not an ASCII A-label string

  // ---------------------------------------------------------------- names

  datatype AttributeType =
    | CountryName | StateOrProvinceName | LocalityName
    | OrganizationName | OrganizationalUnitName | CommonName
  {
    /** The configuration element that supplies this attribute. */
    function Tag(): string {
      match this
      case CountryName => "Country"
      case StateOrProvinceName => "State"
      case LocalityName => "Locality"
      case OrganizationName => "Organization"
      case OrganizationalUnitName => "OrganizationalUnit"
      case CommonName => "CommonName"
    }

    /** Position of the attribute in the fixed DN order. */
    function Rank(): nat {
      match this
      case CountryName => 0
      case StateOrProvinceName => 1
      case LocalityName => 2
      case OrganizationName => 3
      case OrganizationalUnitName => 4
      case CommonName => 5
    }
  }

  datatype NameAttribute = NameAttribute(attr: AttributeType, value: string)

  type Name = seq<NameAttribute>

  /** The DN attributes in the order the builder visits them. */
  const DnOrder: seq<AttributeType> :=
    [CountryName, StateOrProvinceName, LocalityName, OrganizationName, OrganizationalUnitName, CommonName]

  lemma DnOrderRanks()
    ensures forall k :: 0 <= k < 6 ==> DnOrder[k].Rank() == k
    ensures forall t: AttributeType :: t.Rank() < 6 && DnOrder[t.Rank()] == t
  {
  }

  /** build_subject_name from position `k` of the fixed order on. */
  function BuildNameFrom(cfg: Element, k: nat): Result<Name, Fault>
    decreases 6 - k
  {
    if k >= 6 then Ok([])
    else
      var t := DnOrder[k];
      match Find(cfg, t.Tag())
      case None => BuildNameFrom(cfg, k + 1)
      case Some(node) =>
        if node.text.None? then Err(MissingText(t.Tag()))
        else if !AttributeAccepts(t, node.text.value) then Err(BadCountryCode(node.text.value))
        else match BuildNameFrom(cfg, k + 1)
          case Err(e) => Err(e)
          case Ok(rest) => Ok([NameAttribute(t, node.text.value)] + rest)
  }

  /** build_subject_name: one attribute per present naming element. */
  function BuildSubjectName(cfg: Element): Result<Name, Fault> {
    BuildNameFrom(cfg, 0)
  }

  /** The element for attribute `t` is present. */
  predicate Present(cfg: Element, t: AttributeType) {
    Find(cfg, t.Tag()).Some?
  }

  /** `x509.NameAttribute`'s own check on a value: a country name must be
      a two-byte code (its UTF-8 encoding is 2 bytes long). */
  predicate AttributeAccepts(t: AttributeType, v: string) {
    t == CountryName ==> |Utf8(v)| == 2
  }

  /** Every present naming element from rank `k` on has text that
      `x509.NameAttribute` accepts for its attribute. */
  predicate TextsPresentFrom(cfg: Element, k: nat) {
    forall t: AttributeType :: t.Rank() >= k && Present(cfg, t) ==>
      Find(cfg, t.Tag()).value.text.Some? && AttributeAccepts(t, Find(cfg, t.Tag()).value.text.value)
  }

  /** The attributes appear in strictly increasing DN order. */
  predicate InDnOrder(n: Name) {
    forall i, j :: 0 <= i < j < |n| ==> n[i].attr.Rank() < n[j].attr.Rank()
  }

  lemma {:induction false} BuildNameFromOk(cfg: Element, k: nat)
    requires k <= 6
    decreases 6 - k
    ensures BuildNameFrom(cfg, k).Ok? <==> TextsPresentFrom(cfg, k)
  {
    DnOrderRanks();
    if k < 6 {
      BuildNameFromOk(cfg, k + 1);
      var t := DnOrder[k];
      forall u: AttributeType | u.Rank() >= k ensures u.Rank() == k ==> u == t {}
    }
  }

  /** The attributes built from position `k` on: in order, each with its
      element's text, and every present element from `k` on is there. */
  predicate NameFrom(cfg: Element, k: nat, n: Name) {
    && InDnOrder(n)
    && (forall i :: 0 <= i < |n| ==> n[i].attr.Rank() >= k && Present(cfg, n[i].attr) && Find(cfg, n[i].attr.Tag()).value.text == Some(n[i].value))
    && (forall t: AttributeType :: t.Rank() >= k && Present(cfg, t) ==> exists i :: 0 <= i < |n| && n[i].attr == t)
  }

  lemma ConsNameFrom(cfg: Element, k: nat, v: string, rest: Name)
    requires k < 6 && NameFrom(cfg, k + 1, rest)
    requires Present(cfg, DnOrder[k]) && Find(cfg, DnOrder[k].Tag()).value.text == Some(v)
    ensures NameFrom(cfg, k, [NameAttribute(DnOrder[k], v)] + rest)
  {
    DnOrderRanks();
    var t := DnOrder[k];
    ConsOrdered(t, v, rest);
    ConsFields(cfg, t, v, rest);
    ConsCovers(cfg, k, t, v, rest);
  }

  lemma ConsOrdered(t: AttributeType, v: string, rest: Name)
    requires InDnOrder(rest) && forall i :: 0 <= i < |rest| ==> rest[i].attr.Rank() > t.Rank()
    ensures InDnOrder([NameAttribute(t, v)] + rest)
  {
    var n := [NameAttribute(t, v)] + rest;
    forall i, j | 0 <= i < j < |n| ensures n[i].attr.Rank() < n[j].attr.Rank() {
      if i > 0 { assert n[i] == rest[i - 1]; }
      assert n[j] == rest[j - 1];
    }
  }

  lemma ConsFields(cfg: Element, t: AttributeType, v: string, rest: Name)
    requires Present(cfg, t) && Find(cfg, t.Tag()).value.text == Some(v)
    requires forall i :: 0 <= i < |rest| ==> rest[i].attr.Rank() > t.Rank() && Present(cfg, rest[i].attr) && Find(cfg, rest[i].attr.Tag()).value.text == Some(rest[i].value)
    ensures var n := [NameAttribute(t, v)] + rest;
      forall i :: 0 <= i < |n| ==> n[i].attr.Rank() >= t.Rank() && Present(cfg, n[i].attr) && Find(cfg, n[i].attr.Tag()).value.text == Some(n[i].value)
  {
    var n := [NameAttribute(t, v)] + rest;
    forall i | 0 <= i < |n|
      ensures n[i].attr.Rank() >= t.Rank() && Present(cfg, n[i].attr) && Find(cfg, n[i].attr.Tag()).value.text == Some(n[i].value)
    {
      if i > 0 { assert n[i] == rest[i - 1]; }
    }
  }

  lemma ConsCovers(cfg: Element, k: nat, t: AttributeType, v: string, rest: Name)
    requires t.Rank() == k
    requires forall u: AttributeType :: u.Rank() >= k + 1 && Present(cfg, u) ==> exists i :: 0 <= i < |rest| && rest[i].attr == u
    ensures var n := [NameAttribute(t, v)] + rest;
      forall u: AttributeType :: u.Rank() >= k && Present(cfg, u) ==> exists i :: 0 <= i < |n| && n[i].attr == u
  {
    var n := [NameAttribute(t, v)] + rest;
    forall u: AttributeType | u.Rank() >= k && Present(cfg, u) ensures exists i :: 0 <= i < |n| && n[i].attr == u {
      if u.Rank() == k {
        assert u == t by { RankDistinct(u, t); }
        assert n[0].attr == u;
      } else {
        var i :| 0 <= i < |rest| && rest[i].attr == u;
        assert n[i + 1] == rest[i];
      }
    }
  }

  lemma RankDistinct(u: AttributeType, t: AttributeType)
    requires u.Rank() == t.Rank()
    ensures u == t
  {
  }

  lemma SkipNameFrom(cfg: Element, k: nat, rest: Name)
    requires k < 6 && NameFrom(cfg, k + 1, rest) && !Present(cfg, DnOrder[k])
    ensures NameFrom(cfg, k, rest)
  {
    DnOrderRanks();
    forall u: AttributeType | u.Rank() >= k && Present(cfg, u) ensures u.Rank() >= k + 1 {}
  }

  lemma {:induction false} BuildNameFromShape(cfg: Element, k: nat)
    requires k <= 6
    requires BuildNameFrom(cfg, k).Ok?
    decreases 6 - k
    ensures NameFrom(cfg, k, BuildNameFrom(cfg, k).value)
  {
    if k < 6 {
      var t := DnOrder[k];
      BuildNameFromShape(cfg, k + 1);
      var rest := BuildNameFrom(cfg, k + 1).value;
      if Present(cfg, t) {
        ConsNameFrom(cfg, k, Find(cfg, t.Tag()).value.text.value, rest);
      } else {
        SkipNameFrom(cfg, k, rest);
      }
    }
  }

  lemma {:induction false} RankAtLeast(n: Name, i: nat)
    requires InDnOrder(n) && i < |n|
    ensures n[i].attr.Rank() >= i
  {
    if i > 0 { RankAtLeast(n, i - 1); }
  }

  /** The DN holds exactly the present naming elements, each with its text,
      in the fixed order Country, State, Locality, Organization,
      OrganizationalUnit, CommonName; it fails exactly when a present
      element has no text or a Country text that is not a two-byte code. */
  lemma SubjectNameShape(cfg: Element)
    ensures BuildSubjectName(cfg).Ok? <==> TextsPresentFrom(cfg, 0)
    ensures BuildSubjectName(cfg).Ok? ==>
      var n := BuildSubjectName(cfg).value;
      && InDnOrder(n)
      && |n| <= 6
      && (forall i :: 0 <= i < |n| ==> Present(cfg, n[i].attr) && Find(cfg, n[i].attr.Tag()).value.text == Some(n[i].value))
      && (forall t: AttributeType :: Present(cfg, t) <==> exists i :: 0 <= i < |n| && n[i].attr == t)
  {
    BuildNameFromOk(cfg, 0);
    if BuildSubjectName(cfg).Ok? {
      BuildNameFromShape(cfg, 0);
      var n := BuildSubjectName(cfg).value;
      if |n| > 0 { RankAtLeast(n, |n| - 1); }
    }
  }

  /** A present Country whose text is not a two-byte code makes the name
      builder raise, whatever the other elements hold: Country is the
      first attribute built. */
  lemma CountryCodeRefused(cfg: Element)
    requires Find(cfg, "Country").Some? && Find(cfg, "Country").value.text.Some?
    requires |Utf8(Find(cfg, "Country").value.text.value)| != 2
    ensures BuildSubjectName(cfg) == Err(BadCountryCode(Find(cfg, "Country").value.text.value))
  {
    assert DnOrder[0].Tag() == "Country";
  }

  /** "USA" is three bytes, so a Country of "USA" is refused; "US" is accepted. */
  lemma ThreeLetterCountry()
    ensures !AttributeAccepts(CountryName, "USA") && AttributeAccepts(CountryName, "US")
  {
    Utf8LengthIsCharCountIffAscii("USA");
    Utf8LengthIsCharCountIffAscii("US");
  }

  // ------------------------------------------------------- IPv4 addresses

  /** One dotted-decimal component as `ipaddress` accepts it: one to three
      digits, no leading zero, at most 255. */
  function ParseOctet(s: string): Option<byte> {
    if 1 <= |s| <= 3 && AllDigits(s) && (|s| == 1 || s[0] != '0') && DigitsValue(s) <= 255 then
      Some(DigitsValue(s))
    else None
  }

  lemma {:induction false} NatToStringShort(n: nat)
    ensures n < 10 ==> |NatToString(n)| == 1
    ensures n < 100 ==> |NatToString(n)| <= 2
    ensures n < 1000 ==> |NatToString(n)| <= 3
  {
    if n >= 10 { NatToStringShort(n / 10); }
  }

  lemma OctetOfNatToString(v: byte)
    ensures ParseOctet(NatToString(v)) == Some(v)
  {
    NatToStringShort(v);
    DigitsValueOfNatToString(v);
  }

  /** `ipaddress.ip_address(text)` restricted to IPv4 literals. */
  function ParseIpv4(s: string): (r: Option<seq<byte>>)
    ensures r.Some? ==> |r.value| == 4
  {
    var parts := Split(s, '.');
    if |parts| != 4 then None
    else match (ParseOctet(parts[0]), ParseOctet(parts[1]), ParseOctet(parts[2]), ParseOctet(parts[3]))
      case (Some(a), Some(b), Some(c), Some(d)) => Some([a, b, c, d])
      case _ => None
  }

  /** The four components of an address in decimal. */
  function Octets(o: seq<byte>): (r: seq<string>)
    requires |o| == 4
  {
    [NatToString(o[0]), NatToString(o[1]), NatToString(o[2]), NatToString(o[3])]
  }

  /** `str(ipaddress.ip_address(…))` for an IPv4 address: the components
      joined with dots. */
  function FormatIpv4(o: seq<byte>): string
    requires |o| == 4
  {
    JoinWith(Octets(o), '.')
  }

  lemma ParseFourParts(s: string, o: seq<byte>)
    requires |o| == 4 && Split(s, '.') == Octets(o)
    ensures ParseIpv4(s) == Some(o)
  {
    OctetOfNatToString(o[0]);
    OctetOfNatToString(o[1]);
    OctetOfNatToString(o[2]);
    OctetOfNatToString(o[3]);
    assert o == [o[0], o[1], o[2], o[3]];
  }

  /** Parsing a formatted address gives the address back. */
  lemma Ipv4RoundTrip(o: seq<byte>)
    requires |o| == 4
    ensures ParseIpv4(FormatIpv4(o)) == Some(o)
  {
    var parts := Octets(o);
    forall i | 0 <= i < 4 ensures '.' !in parts[i] {
      assert forall j :: 0 <= j < |parts[i]| ==> IsDigit(parts[i][j]);
    }
    SplitJoin(parts, '.');
    ParseFourParts(FormatIpv4(o), o);
  }

  // --------------------------------------------------------------- UTF-8

  /** UTF-8 encoding of a string of Unicode scalar values. */
  function Utf8(s: string): (r: seq<byte>)
    ensures |r| >= |s|
  {
    if |s| == 0 then []
    else
      var c := s[0] as int;
      var head: seq<byte> :=
        if c < 0x80 then [c]
        else if c < 0x800 then [0xC0 + c / 64, 0x80 + c % 64]
        else if c < 0x10000 then [0xE0 + c / 4096, 0x80 + (c / 64) % 64, 0x80 + c % 64]
        else [0xF0 + c / 262144, 0x80 + (c / 4096) % 64, 0x80 + (c / 64) % 64, 0x80 + c % 64];
      head + Utf8(s[1..])
  }

  predicate IsAscii(s: string) {
    forall i :: 0 <= i < |s| ==> s[i] as int < 0x80
  }

  /** The UTF-8 byte count equals the character count exactly for ASCII text. */
  lemma {:induction false} Utf8LengthIsCharCountIffAscii(s: string)
    ensures |Utf8(s)| == |s| <==> IsAscii(s)
  {
    if |s| > 0 {
      Utf8LengthIsCharCountIffAscii(s[1..]);
      if IsAscii(s) { assert IsAscii(s[1..]); }
      if |Utf8(s)| == |s| && s[0] as int < 0x80 {
        forall i | 0 <= i < |s| ensures s[i] as int < 0x80 {
          if i > 0 { assert s[i] == s[1..][i - 1]; }
        }
      }
    }
  }

  // ----------------------------------------------------- subject alt names

  datatype GeneralName =
    | DnsName(name: string)
    | IpAddressName(octets: seq<byte>)
    | OtherName(typeId: string, value: seq<byte>)

  /** The OtherName value as the tool writes it: tag 12 (UTF8String), one
      length byte holding the CHARACTER count, then the UTF-8 bytes. The
      length is written with `to_bytes(1, ...)`, which raises from 256 on. */
  function OtherNameValue(val: string): (r: Result<seq<byte>, Fault>)
    ensures r.Ok? <==> |val| < 256
    ensures r.Ok? ==> |r.value| >= 2 && r.value[..2] == [0x0C, |val|] && r.value[2..] == Utf8(val)
  {
    if |val| >= 256 then Err(LengthOverflow(|val|))
    else Ok([0x0C, |val|] + Utf8(val))
  }

  /** A DER decoder for a UTF8String in short-form length (ITU-T X.690
      8.1.3.4): tag 12, a length byte below 128, exactly that many bytes. */
  function DecodeShortUtf8String(b: seq<byte>): (r: Option<seq<byte>>)
    ensures r.Some? ==> |r.value| < 128 && b == [0x0C, |r.value|] + r.value
  {
    if |b| >= 2 && b[0] == 0x0C && b[1] < 128 && |b| == 2 + b[1] then Some(b[2..]) else None
  }

  /** For ASCII values shorter than 128 characters the hand-rolled encoding
      is proper DER and decodes to the UTF-8 bytes of the value. */
  lemma OtherNameDecodes(val: string)
    requires IsAscii(val) && |val| < 128
    ensures OtherNameValue(val).Ok?
    ensures DecodeShortUtf8String(OtherNameValue(val).value) == Some(Utf8(val))
  {
    Utf8LengthIsCharCountIffAscii(val);
  }

  /** A non-ASCII value gets a length byte that is not its UTF-8 byte
      length, so the encoding does not decode. */
  lemma OtherNameNonAsciiDoesNotDecode(val: string)
    requires !IsAscii(val) && |val| < 256
    ensures OtherNameValue(val).Ok?
    ensures OtherNameValue(val).value[1] != |Utf8(val)|
    ensures DecodeShortUtf8String(OtherNameValue(val).value).None?
  {
    Utf8LengthIsCharCountIffAscii(val);
  }

  /** From 128 characters the length byte has its top bit set, which DER
      reads as a long-form length marker: the encoding does not decode. */
  lemma OtherNameLongDoesNotDecode(val: string)
    requires 128 <= |val| < 256
    ensures OtherNameValue(val).Ok?
    ensures OtherNameValue(val).value[1] >= 0x80
    ensures DecodeShortUtf8String(OtherNameValue(val).value).None?
  {
  }

  /** The dotted form `x509.ObjectIdentifier` accepts: at least two arcs,
      each a non-empty run of decimal digits, the first arc 0, 1 or 2, and
      the second arc below 40 under the first two (ITU-T X.660). */
  predicate ValidOid(s: string) {
    var arcs := Split(s, '.');
    && |arcs| >= 2
    && (forall i :: 0 <= i < |arcs| ==> |arcs[i]| > 0 && AllDigits(arcs[i]))
    && DigitsValue(arcs[0]) <= 2
    && (DigitsValue(arcs[0]) < 2 ==> DigitsValue(arcs[1]) < 40)
  }

  /** The OtherName part of build_san_extension: the OID and Value
      elements must exist, the value must encode, and the OID text must be
      an object identifier. */
  function OtherNameEntry(o: Element): (r: Result<GeneralName, Fault>)
    ensures r.Ok? <==>
      && Find(o, "OID").Some? && Find(o, "OID").value.text.Some?
      && Find(o, "Value").Some? && Find(o, "Value").value.text.Some?
      && |Find(o, "Value").value.text.value| < 256
      && ValidOid(Find(o, "OID").value.text.value)
    ensures r.Ok? ==> r.value.OtherName? && r.value.typeId == Find(o, "OID").value.text.value
  {
    match (Find(o, "OID"), Find(o, "Value"))
    case (None, _) => Err(MissingElement("OID"))
    case (_, None) => Err(MissingElement("Value"))
    case (Some(oid), Some(v)) =>
      if v.text.None? then Err(MissingText("Value"))
      else match OtherNameValue(v.text.value)
        case Err(e) => Err(e)
        case Ok(bytes) =>
          if oid.text.None? then Err(MissingText("OID"))
          else if !ValidOid(oid.text.value) then Err(BadObjectIdentifier(oid.text.value))
          else Ok(OtherName(oid.text.value, bytes))
  }

  /** The decimal arcs of an object identifier. */
  function ArcStrings(arcs: seq<nat>): (r: seq<string>)
    ensures |r| == |arcs| && forall i :: 0 <= i < |arcs| ==> r[i] == NatToString(arcs[i])
  {
    if |arcs| == 0 then [] else [NatToString(arcs[0])] + ArcStrings(arcs[1..])
  }

  /** The accepted OID texts are exactly the dotted decimal renderings of
      arc lists with a valid head: every such rendering is accepted, and
      text without a dot, such as "abc", is refused. */
  lemma OidOfArcs(arcs: seq<nat>, text: string)
    requires |arcs| >= 2 && arcs[0] <= 2 && (arcs[0] < 2 ==> arcs[1] < 40)
    ensures ValidOid(JoinWith(ArcStrings(arcs), '.'))
    ensures '.' !in text ==> !ValidOid(text)
  {
    var parts := ArcStrings(arcs);
    forall i | 0 <= i < |parts| ensures '.' !in parts[i] {
      NotInNumber(arcs[i], '.');
    }
    SplitJoin(parts, '.');
    assert Split(JoinWith(parts, '.'), '.') == parts;
    DigitsValueOfNatToString(arcs[0]);
    DigitsValueOfNatToString(arcs[1]);
    assert forall i :: 0 <= i < |parts| ==> |parts[i]| > 0 && AllDigits(parts[i]);
  }

  /** A DNS element `x509.DNSName` accepts: it has text, all of it ASCII. */
  predicate DnsAccepted(e: Element) {
    e.text.Some? && IsAscii(e.text.value)
  }

  function DnsEntries(es: seq<Element>): (r: Result<seq<GeneralName>, Fault>)
    ensures r.Ok? <==> forall i :: 0 <= i < |es| ==> DnsAccepted(es[i])
    ensures r.Ok? ==> |r.value| == |es| && forall i :: 0 <= i < |es| ==> es[i].text.Some? && r.value[i] == DnsName(es[i].text.value)
  {
    if |es| == 0 then Ok([])
    else if es[0].text.None? then Err(MissingText("DNS"))
    else if !IsAscii(es[0].text.value) then Err(NonAsciiDnsName(es[0].text.value))
    else match DnsEntries(es[1..])
      case Err(e) => assert exists i :: 0 <= i < |es[1..]| && !DnsAccepted(es[1..][i]); Err(e)
      case Ok(rest) => Ok([DnsName(es[0].text.value)] + rest)
  }

  /** An IP element parses when it has text that is an address literal. */
  predicate IpParses(e: Element) {
    e.text.Some? && ParseIpv4(e.text.value).Some?
  }

  /** The IP element's text is the address literal of `o`. */
  predicate IpOf(e: Element, o: seq<byte>) {
    e.text.Some? && ParseIpv4(e.text.value) == Some(o)
  }

  function IpEntries(es: seq<Element>): (r: Result<seq<GeneralName>, Fault>)
    ensures r.Ok? <==> forall i :: 0 <= i < |es| ==> IpParses(es[i])
    ensures r.Ok? ==> |r.value| == |es| && forall i :: 0 <= i < |es| ==> r.value[i] == IpAddressName(ParseIpv4(es[i].text.value).value)
  {
    if |es| == 0 then Ok([])
    else if es[0].text.None? then Err(BadIpAddress(""))
    else match ParseIpv4(es[0].text.value)
      case None => Err(BadIpAddress(es[0].text.value))
      case Some(o) =>
        match IpEntries(es[1..])
        case Err(e) => assert !IpParses(es[1..][|es[1..]| - 1]) || exists i :: 0 <= i < |es[1..]| && !IpParses(es[1..][i]); Err(e)
        case Ok(rest) => Ok([IpAddressName(o)] + rest)
  }

  /** The OtherName entries: none, or the one from the first OtherName element. */
  function OtherEntries(s: Element): (r: Result<seq<GeneralName>, Fault>)
    ensures r.Ok? ==> (|r.value| == 1 <==> Find(s, "OtherName").Some?) && |r.value| <= 1
    ensures r.Ok? && |r.value| == 1 ==> r.value[0].OtherName?
  {
    match Find(s, "OtherName")
    case None => Ok([])
    case Some(o) =>
      match OtherNameEntry(o)
      case Err(e) => Err(e)
      case Ok(g) => Ok([g])
  }

  /** build_san_extension: None without a SubjectAltNames element or when
      it yields no entry; otherwise all DNS names, then all IP addresses,
      then at most one OtherName. */
  function BuildSan(san: Option<Element>): Result<Option<seq<GeneralName>>, Fault> {
    if san.None? then Ok(None)
    else
      var s := san.value;
      match (DnsEntries(FindAll(s, "DNS")), IpEntries(FindAll(s, "IP")), OtherEntries(s))
      case (Ok(dns), Ok(ips), Ok(on)) =>
        var all := dns + ips + on;
        if |all| == 0 then Ok(None) else Ok(Some(all))
      case (Err(e), _, _) => Err(e)
      case (_, Err(e), _) => Err(e)
      case (_, _, Err(e)) => Err(e)
  }

  /** An IP entry that is not a dotted IPv4 literal is an error, never
      dropped (IPv6 literals, which the tool accepts, are outside this
      model). */
  lemma SanBadIpFails(san: Element)
    requires exists i :: 0 <= i < |FindAll(san, "IP")| && !IpParses(FindAll(san, "IP")[i])
    ensures BuildSan(Some(san)).Err?
  {
  }

  /** A DNS entry with a non-ASCII character (an internationalised name
      not given as an A-label) makes the whole SAN fail. */
  lemma SanNonAsciiDnsFails(san: Element)
    requires exists i :: 0 <= i < |FindAll(san, "DNS")| && !DnsAccepted(FindAll(san, "DNS")[i])
    ensures BuildSan(Some(san)).Err?
  {
  }

  /** `l` lists the DNS names in document order, then the IP addresses in
      document order, then one OtherName exactly when the element has one. */
  predicate SanListShape(san: Element, l: seq<GeneralName>) {
    PartsShape(FindAll(san, "DNS"), FindAll(san, "IP"), Find(san, "OtherName").Some?, l)
  }

  /** `l` is the DNS names of `ds`, then the addresses of `ipEls`, then one
      OtherName exactly when `other` holds. */
  predicate PartsShape(ds: seq<Element>, ipEls: seq<Element>, other: bool, l: seq<GeneralName>) {
    && |ds| + |ipEls| <= |l| <= |ds| + |ipEls| + 1
    && (forall i :: 0 <= i < |ds| ==> l[i].DnsName? && ds[i].text == Some(l[i].name))
    && (forall i :: |ds| <= i < |ds| + |ipEls| ==> l[i].IpAddressName? && IpOf(ipEls[i - |ds|], l[i].octets))
    && (|l| == |ds| + |ipEls| + 1 <==> other)
    && (|l| == |ds| + |ipEls| + 1 ==> l[|ds| + |ipEls|].OtherName?)
  }

  lemma SanOrder(san: Element)
    requires BuildSan(Some(san)).Ok? && BuildSan(Some(san)).value.Some?
    ensures SanListShape(san, BuildSan(Some(san)).value.value)
  {
    SanParts(san);
    var ds := FindAll(san, "DNS");
    var ipEls := FindAll(san, "IP");
    var dns := DnsEntries(ds).value;
    var ips := IpEntries(ipEls).value;
    var on := OtherEntries(san).value;
    ConcatShape(san, dns, ips, on);
  }

  lemma ConcatShape(san: Element, dns: seq<GeneralName>, ips: seq<GeneralName>, on: seq<GeneralName>)
    requires DnsEntries(FindAll(san, "DNS")) == Ok(dns)
    requires IpEntries(FindAll(san, "IP")) == Ok(ips)
    requires OtherEntries(san) == Ok(on)
    ensures SanListShape(san, dns + ips + on)
  {
    var ds := FindAll(san, "DNS");
    var ipEls := FindAll(san, "IP");
    forall i | 0 <= i < |ipEls| ensures ips[i].IpAddressName? && IpOf(ipEls[i], ips[i].octets) {
      assert IpParses(ipEls[i]);
    }
    ConcatParts(ds, ipEls, Find(san, "OtherName").Some?, dns, ips, on);
  }

  /** The three parts of the SAN list, each in its own document order,
      placed one after another. */
  lemma ConcatParts(ds: seq<Element>, ipEls: seq<Element>, other: bool,
                    dns: seq<GeneralName>, ips: seq<GeneralName>, on: seq<GeneralName>)
    requires |dns| == |ds| && forall i :: 0 <= i < |ds| ==> dns[i].DnsName? && ds[i].text == Some(dns[i].name)
    requires |ips| == |ipEls| && forall i :: 0 <= i < |ipEls| ==> ips[i].IpAddressName? && IpOf(ipEls[i], ips[i].octets)
    requires |on| <= 1 && (|on| == 1 <==> other) && (|on| == 1 ==> on[0].OtherName?)
    ensures PartsShape(ds, ipEls, other, dns + ips + on)
  {
    ConcatIndex(dns, ips, on);
  }

  lemma SanParts(san: Element)
    requires BuildSan(Some(san)).Ok? && BuildSan(Some(san)).value.Some?
    ensures DnsEntries(FindAll(san, "DNS")).Ok? && IpEntries(FindAll(san, "IP")).Ok? && OtherEntries(san).Ok?
    ensures BuildSan(Some(san)).value.value
      == DnsEntries(FindAll(san, "DNS")).value + IpEntries(FindAll(san, "IP")).value + OtherEntries(san).value
  {
  }

  lemma ConcatIndex<T>(a: seq<T>, b: seq<T>, c: seq<T>)
    ensures forall i :: 0 <= i < |a| ==> (a + b + c)[i] == a[i]
    ensures forall i :: |a| <= i < |a| + |b| ==> (a + b + c)[i] == b[i - |a|]
    ensures forall i :: |a| + |b| <= i < |a| + |b| + |c| ==> (a + b + c)[i] == c[i - |a| - |b|]
  {
  }

  /** No empty extension is ever produced: the builder answers None exactly
      when the element holds no DNS, IP or OtherName entry. */
  lemma SanNoneIffEmpty(san: Element)
    requires BuildSan(Some(san)).Ok?
    ensures BuildSan(Some(san)).value.None? <==>
      |FindAll(san, "DNS")| == 0 && |FindAll(san, "IP")| == 0 && Find(san, "OtherName").None?
  {
  }

  lemma NoSanWithoutElement()
    ensures BuildSan(None) == Ok(None)
  {
  }

  // -------------------------------------------------------- certificates

  /** An RSA key pair, opaque: its identity and its size. */
  datatype KeyPair = KeyPair(id: nat, size: int) {
    function Public(): PublicKey { PublicKey(id) }
  }

  datatype PublicKey = PublicKey(id: nat)

  datatype KeyUsageBit =
    | DigitalSignature | ContentCommitment | KeyEncipherment | DataEncipherment
    | KeyAgreement | KeyCertSign | CrlSign | EncipherOnly | DecipherOnly

  datatype Purpose = ServerAuth | ClientAuth

  datatype Extension =
    | BasicConstraints(ca: bool, pathLength: Option<nat>)
    | KeyUsage(bits: set<KeyUsageBit>)
    | ExtendedKeyUsage(purposes: seq<Purpose>)
    | SubjectKeyIdentifier(keyId: PublicKey)
    | AuthorityKeyIdentifier(keyId: PublicKey)
    | SubjectAltName(names: seq<GeneralName>)

  datatype CertExtension = CertExtension(ext: Extension, critical: bool)

  /** `signer` stands for the SHA-256 signature: the public key it verifies under. */
  datatype Certificate = Certificate(
    subject: Name, issuer: Name, publicKey: PublicKey, serial: nat,
    notBefore: int, notAfter: int, extensions: seq<CertExtension>, signer: PublicKey)

  const SecondsPerDay := 86400

  /** generate_ca_certificate's certificate: self-signed, CA with path
      length 1, keyCertSign and crlSign, and its own key identifier. */
  function RootCertificate(subject: Name, key: KeyPair, serial: nat, now: int, days: int): Certificate {
    Certificate(subject, subject, key.Public(), serial, now, now + days * SecondsPerDay,
      [ CertExtension(BasicConstraints(true, Some(1)), true),
        CertExtension(KeyUsage({KeyCertSign, CrlSign}), true),
        CertExtension(SubjectKeyIdentifier(key.Public()), false) ],
      key.Public())
  }

  datatype Role = Server | Client {
    function Purpose(): Purpose {
      if Server? then ServerAuth else ClientAuth
    }
  }

  /** The leaf built by generate_server_certificates and
      generate_client_certificates: issued by the root, not a CA, signing
      and key encipherment, one extended key usage by role, the root's key
      identifier, and the SAN extension when the builder returned one. */
  function LeafCertificate(role: Role, subject: Name, key: KeyPair, root: Certificate, rootKey: KeyPair,
                           serial: nat, now: int, days: int, san: Option<seq<GeneralName>>): Certificate {
    Certificate(subject, root.subject, key.Public(), serial, now, now + days * SecondsPerDay,
      [ CertExtension(BasicConstraints(false, None), false),
        CertExtension(KeyUsage({DigitalSignature, KeyEncipherment}), true),
        CertExtension(ExtendedKeyUsage([role.Purpose()]), false),
        CertExtension(AuthorityKeyIdentifier(rootKey.Public()), false) ]
      + (if san.Some? then [CertExtension(SubjectAltName(san.value), false)] else []),
      rootKey.Public())
  }

  // ----------------------------------------- an independent chain check

  predicate HasExtension(c: Certificate, x: CertExtension) {
    exists i :: 0 <= i < |c.extensions| && c.extensions[i] == x
  }

  predicate HasExt(c: Certificate, x: Extension) {
    exists i :: 0 <= i < |c.extensions| && c.extensions[i].ext == x
  }

  /** A trust anchor as RFC 5280 section 4.2.1.9 / 4.2.1.3 requires of an
      issuer: self-issued and self-signed, a critical CA basic constraint,
      a critical key usage allowing certificate and CRL signing, and a
      non-critical subject key identifier of its own key. */
  ghost predicate IsTrustAnchor(root: Certificate) {
    && root.issuer == root.subject
    && root.signer == root.publicKey
    && (exists p :: HasExtension(root, CertExtension(BasicConstraints(true, p), true)))
    && (exists bits :: KeyCertSign in bits && CrlSign in bits && HasExtension(root, CertExtension(KeyUsage(bits), true)))
    && HasExtension(root, CertExtension(SubjectKeyIdentifier(root.publicKey), false))
  }

  /** A leaf that chains to `root` for `purpose` at instant `t`: issuer and
      signature match the root, the authority key identifier names the
      root's key, it is not a CA, its key usage allows signing and key
      encipherment, its extended key usage includes `purpose`, and `t` lies
      within its validity. */
  ghost predicate ChainsTo(leaf: Certificate, root: Certificate, purpose: Purpose, t: int) {
    && leaf.issuer == root.subject
    && leaf.signer == root.publicKey
    && HasExt(leaf, AuthorityKeyIdentifier(root.publicKey))
    && HasExt(leaf, BasicConstraints(false, None))
    && (exists bits :: DigitalSignature in bits && KeyEncipherment in bits && HasExt(leaf, KeyUsage(bits)))
    && (exists ps :: purpose in ps && HasExt(leaf, ExtendedKeyUsage(ps)))
    && leaf.notBefore <= t <= leaf.notAfter
  }

  /** The root the tool issues is a trust anchor valid from `now` for
      ValidityDays days. */
  lemma RootIsTrustAnchor(subject: Name, key: KeyPair, serial: nat, now: int, days: int)
    ensures var c := RootCertificate(subject, key, serial, now, days);
      IsTrustAnchor(c) && c.notBefore == now && c.notAfter == now + days * SecondsPerDay
  {
    var c := RootCertificate(subject, key, serial, now, days);
    assert HasExtension(c, CertExtension(BasicConstraints(true, Some(1)), true)) by { assert c.extensions[0] == CertExtension(BasicConstraints(true, Some(1)), true); }
    assert HasExtension(c, CertExtension(KeyUsage({KeyCertSign, CrlSign}), true)) by { assert c.extensions[1].ext == KeyUsage({KeyCertSign, CrlSign}); }
    assert HasExtension(c, CertExtension(SubjectKeyIdentifier(c.publicKey), false)) by { assert c.extensions[2].ext == SubjectKeyIdentifier(c.publicKey); }
  }

  /** Every leaf the tool issues chains to the root that signed it, for its
      own role's purpose, throughout its validity window; it never chains
      for the other role's purpose. */
  lemma LeafChainsToRoot(role: Role, subject: Name, key: KeyPair, root: Certificate, rootKey: KeyPair,
                         serial: nat, now: int, days: int, san: Option<seq<GeneralName>>, t: int)
    requires root.publicKey == rootKey.Public()
    requires now <= t <= now + days * SecondsPerDay
    ensures ChainsTo(LeafCertificate(role, subject, key, root, rootKey, serial, now, days, san), root, role.Purpose(), t)
    ensures !ChainsTo(LeafCertificate(role, subject, key, root, rootKey, serial, now, days, san), root,
                      if role.Server? then ClientAuth else ServerAuth, t)
  {
    var c := LeafCertificate(role, subject, key, root, rootKey, serial, now, days, san);
    assert c.extensions[0].ext == BasicConstraints(false, None);
    assert c.extensions[1].ext == KeyUsage({DigitalSignature, KeyEncipherment});
    assert c.extensions[2].ext == ExtendedKeyUsage([role.Purpose()]);
    assert c.extensions[3].ext == AuthorityKeyIdentifier(rootKey.Public());
    forall ps | HasExt(c, ExtendedKeyUsage(ps)) ensures ps == [role.Purpose()] {
      var i :| 0 <= i < |c.extensions| && c.extensions[i].ext == ExtendedKeyUsage(ps);
      assert i == 2;
    }
  }

  /** The SAN extension is present exactly when the builder returned one. */
  lemma LeafSanPresence(role: Role, subject: Name, key: KeyPair, root: Certificate, rootKey: KeyPair,
                        serial: nat, now: int, days: int, san: Option<seq<GeneralName>>)
    ensures var c := LeafCertificate(role, subject, key, root, rootKey, serial, now, days, san);
      (exists names :: HasExt(c, SubjectAltName(names))) <==> san.Some?
  {
    var c := LeafCertificate(role, subject, key, root, rootKey, serial, now, days, san);
    if san.Some? {
      assert c.extensions[4].ext == SubjectAltName(san.value);
    }
  }
}
