/** The 3GPP TS 23.060 field-format TFT validator of the MAGIC server
    (the AT+CGTFT layout ARINC 839 uses): "_iTFT=" or "+CGTFT=" followed by
    comma-separated fields, addresses written as a dotted IP and a dotted
    mask, port ranges as "start.end", and the check of a requested rule
    against the allowed TFTs of a client's profile, entry by entry. The
    rule structure, addresses and bitwise operators are those of the range
    validator. */
module MagicTftValidator3gpp {
  import opened Wrappers
  import opened Text
  import opened CString
  import V = MagicTftValidator
  import Certificates
  import CertArtifacts

  /** `char *fields[15]`. */
  const MaxFields := 15
  /** `char octets[8][16]`: four address and four mask components. */
  const MaxOctets := 8
  /** A component must be shorter than its 16-byte slot. */
  const OctetSlot := 16

  // ------------------------------------------------------------ addresses

  /** `parse_ip_with_mask`: from the network address `ip & mask` to the
      broadcast address `ip | ~mask`; None when either text is not a
      dotted-decimal address. */
  function ParseIpWithMask(ipText: string, maskText: string): (r: Option<V.IpRange>)
    ensures r.Some? <==> V.Pton(ipText).Some? && V.Pton(maskText).Some?
    ensures r.Some? ==> r.value.start <= V.Pton(ipText).value <= r.value.end
  {
    match (V.Pton(ipText), V.Pton(maskText))
    case (Some(ip), Some(mask)) =>
      V.MaskedRangeHolds(ip, mask);
      Some(V.IpRange(V.And32(ip, mask), V.Or32(ip, V.Not32(mask))))
    case _ => None
  }

  /** An address field cut at its dots the way the C loop does it: at most
      `n` more components, each shorter than 16 characters; a component of
      16 or more stops the cut. */
  function OctetPieces(s: string, n: nat): (r: seq<string>)
    ensures |r| <= n
  {
    if n == 0 then []
    else match IndexOf(s, '.')
      case Some(k) => if k < OctetSlot then [s[..k]] + OctetPieces(s[k + 1..], n - 1) else []
      case None => if |s| < OctetSlot then [s] else []
  }

  /** Field 3, the source: eight components make an address and a mask
      (each group of four fits the 64-byte `snprintf` buffer); anything
      else leaves the range unset. */
  function AddressField(f: string): (r: Option<V.IpRange>)
    ensures r.Some? ==> r.value.start <= r.value.end
  {
    var o := OctetPieces(f, MaxOctets);
    if |o| == MaxOctets then ParseIpWithMask(JoinWith(o[..4], '.'), JoinWith(o[4..], '.'))
    else None
  }

  /** Field 4, the destination: as field 3, with the literal
      "0.0.0.0.0.0.0.0" also meaning every address. */
  function DestField(f: string): (r: Option<V.IpRange>)
    ensures r.Some? ==> r.value.start <= r.value.end
  {
    if |OctetPieces(f, MaxOctets)| == MaxOctets then AddressField(f)
    else if f == "0.0.0.0.0.0.0.0" then Some(V.IpRange(0, V.AllOnes))
    else None
  }

  // ------------------------------------------------------------ ports

  /** One `%d` of `sscanf`: white space, an optional sign and at least one
      digit; the value read and the text after it. */
  function ScanInt(s: string): (r: Option<(int, string)>)
    ensures r.Some? ==> r.value.0 == Atoi(s)
  {
    var t := SkipSpace(s);
    var neg := |t| > 0 && t[0] == '-';
    var u := if |t| > 0 && (t[0] == '-' || t[0] == '+') then t[1..] else t;
    var d := DigitRun(u, 10);
    if |d| == 0 then None
    else
      var v: int := RunValue(d, 10);
      Some((if neg then -v else v, u[|d|..]))
  }

  /** `parse_port_range_3gpp`: `sscanf(s, "%d.%d")` must read both numbers,
      and they must lie in 0..65535 in order. */
  function ParsePortRange3gpp(s: string): (r: Option<V.PortRange>)
    ensures r.Some? ==> r.value.valid && r.value.start <= r.value.end <= V.MaxPort
  {
    match ScanInt(s)
    case None => None
    case Some((a, rest)) =>
      if |rest| == 0 || rest[0] != '.' then None
      else match ScanInt(rest[1..])
        case None => None
        case Some((b, _)) => if 0 <= a <= b <= V.MaxPort then Some(V.PortRange(a, b, true)) else None
  }

  /** Fields 6 and 7: the port range, or 0-65535 when the field is empty,
      absent or unreadable. */
  function PortField(f: string): (r: V.PortRange)
    ensures r.valid && r.start <= r.end <= V.MaxPort
  {
    if f == "" then V.AnyPort else ParsePortRange3gpp(f).GetOr(V.AnyPort)
  }

  // ------------------------------------------------------------ fields

  /** The split at commas, at most `n` pieces, the last taking the rest
      of the text; empty pieces are kept. */
  function Pieces(s: string, n: nat): (r: seq<string>)
    requires n >= 1
    ensures 1 <= |r| <= n
  {
    if n == 1 then [s]
    else match IndexOf(s, ',')
      case None => [s]
      case Some(k) => [s[..k]] + Pieces(s[k + 1..], n - 1)
  }

  /** The fields after the prefix; an empty text has none. */
  function Fields(s: string): (r: seq<string>)
    ensures |r| <= MaxFields
  {
    if s == "" then [] else Pieces(s, MaxFields)
  }

  /** `fields[k]`, which is "" when the text has fewer fields. */
  function Field(fs: seq<string>, k: nat): string {
    if k < |fs| then fs[k] else ""
  }

  /** The prefix: "_iTFT=" is aircraft-to-ground, "+CGTFT=" and no prefix
      ground-to-aircraft; the text after it. */
  function Body(b: string): (r: (string, bool)) {
    if IsPrefix("_iTFT=", b) then (b[6..], true)
    else if IsPrefix("+CGTFT=", b) then (b[7..], false)
    else (b, false)
  }

  /** The rule made of the fields: 3 source address, 4 destination
      address, 5 protocol (`(uint8_t)atoi`), 6 destination ports, 7
      source ports. */
  function RuleOfFields(fs: seq<string>, outbound: bool): (r: V.TftRule) {
    V.TftRule(
      AddressField(Field(fs, 3)), DestField(Field(fs, 4)),
      PortField(Field(fs, 7)), PortField(Field(fs, 6)),
      if Field(fs, 5) == "" then 0 else CastU8(Atoi(Field(fs, 5))),
      Field(fs, 5) != "", outbound)
  }

  /** `tft_parse_rule` (3GPP form), on at most 511 characters; it succeeds
      for every text, leaving what it cannot read unset or at its default. */
  function ParseRule3gpp(s: string): (r: V.TftRule)
    ensures r.dstPort.valid && r.dstPort.start <= r.dstPort.end <= V.MaxPort
    ensures r.srcPort.valid && r.srcPort.start <= r.srcPort.end <= V.MaxPort
    ensures r.protocol < 0x100
  {
    var body := Body(Bounded(s, V.MaxTftLen - 1));
    RuleOfFields(Fields(body.0), body.1)
  }

  // ------------------------------------------------------------ validation

  /** A port range of the whitelist entry holds the requested one; the
      entry range 0-65535 means any port and is not compared. */
  predicate PortAdmits(w: V.PortRange, q: V.PortRange) {
    w.valid && q.valid && !(w.start == 0 && w.end == V.MaxPort) ==> w.start <= q.start && q.end <= w.end
  }

  /** An address range of the entry holds the requested one; either one
      unset means no check. */
  predicate RangeAdmits(w: Option<V.IpRange>, q: Option<V.IpRange>) {
    w.Some? && q.Some? ==> w.value.start <= q.value.start && q.value.end <= w.value.end
  }

  /** The checks one whitelist entry makes of the requested rule: the
      protocol when the entry names one, then the source and destination
      addresses, then the destination and source ports. */
  predicate Admits(w: V.TftRule, q: V.TftRule) {
    && (!w.hasProtocol || w.protocol == 0 || q.protocol == w.protocol)
    && RangeAdmits(w.src, q.src) && RangeAdmits(w.dst, q.dst)
    && PortAdmits(w.dstPort, q.dstPort) && PortAdmits(w.srcPort, q.srcPort)
  }

  /** The allowed TFTs, each parsed as the loop parses it. */
  function Entries(allowed: seq<string>): (rs: seq<V.TftRule>)
    ensures |rs| == |allowed|
  {
    if |allowed| == 0 then [] else [ParseRule3gpp(allowed[0])] + Entries(allowed[1..])
  }

  /** The first entry that admits the request, in whitelist order. */
  predicate AnyAdmits(rules: seq<V.TftRule>, q: V.TftRule) {
    |rules| > 0 && (Admits(rules[0], q) || AnyAdmits(rules[1..], q))
  }

  /** The trailing white space the C loop removes; it never removes the
      first character. */
  function TrimEnd(t: string): (r: string)
    ensures IsPrefix(r, t) && (|t| > 0 ==> |r| > 0)
    ensures forall i :: |r| <= i < |t| ==> CIsSpace(t[i])
    ensures |r| > 1 ==> !CIsSpace(r[|r| - 1])
  {
    if |t| > 1 && CIsSpace(t[|t| - 1]) then TrimEnd(t[..|t| - 1]) else t
  }

  /** The request with its surrounding white space removed, at most 511
      characters. */
  function Normalize(s: string): string {
    TrimEnd(Bounded(SkipSpace(s), V.MaxTftLen - 1))
  }

  /** `tft_validate_against_whitelist` (3GPP form): −1 with no allowed
      TFTs, 0 when one admits the parsed request, else −1. The request
      always parses, so −2 is never returned for a text. */
  function Validate3gpp(s: string, allowed: seq<string>): (rc: int)
    ensures rc == 0 || rc == -1
  {
    if |allowed| == 0 then -1
    else if AnyAdmits(Entries(allowed), ParseRule3gpp(Normalize(s))) then 0
    else -1
  }

  // ------------------------------------------------------------ the split

  /** The split loses no text: joining the pieces with commas gives the
      text back. */
  lemma {:induction false} PiecesJoin(s: string, n: nat)
    requires n >= 1
    ensures JoinWith(Pieces(s, n), ',') == s
    decreases n
  {
    if n > 1 {
      match IndexOf(s, ',')
      case None =>
      case Some(k) =>
        PiecesJoin(s[k + 1..], n - 1);
        JoinCons(s[..k], Pieces(s[k + 1..], n - 1), ',');
        CutAt(s, k);
    }
  }

  /** With at most `n` fields the split is Python's `split(',')`: every
      comma separates two fields and empty fields are kept. */
  lemma {:induction false} PiecesSplit(s: string, n: nat)
    requires n >= 1 && |Split(s, ',')| <= n
    ensures Pieces(s, n) == Split(s, ',')
    decreases n
  {
    match IndexOf(s, ',')
    case None =>
    case Some(k) =>
      assert |Split(s[k + 1..], ',')| < n;
      PiecesSplit(s[k + 1..], n - 1);
  }

  /** Components a dotted field can be cut into: each shorter than its
      slot and free of dots. */
  predicate Slotted(ps: seq<string>) {
    forall i :: 0 <= i < |ps| ==> |ps[i]| < OctetSlot && '.' !in ps[i]
  }

  /** Components joined with dots, each shorter than its slot, are cut back
      into the same components. */
  lemma {:induction false} OctetPiecesJoin(ps: seq<string>, n: nat)
    requires 0 < |ps| <= n && Slotted(ps)
    ensures OctetPieces(JoinWith(ps, '.'), n) == ps
    decreases n
  {
    if |ps| == 1 {
      assert JoinWith(ps, '.') == ps[0];
      assert IndexOf(ps[0], '.') == None;
      assert OctetPieces(ps[0], n) == [ps[0]];
      assert [ps[0]] == ps;
    } else {
      var rest := ps[1..];
      assert Slotted(rest) by {
        forall i | 0 <= i < |rest|
          ensures |rest[i]| < OctetSlot && '.' !in rest[i]
        {
          assert rest[i] == ps[i + 1];
        }
      }
      OctetPiecesJoin(rest, n - 1);
      var j := JoinWith(rest, '.');
      assert JoinWith(ps, '.') == ps[0] + ['.'] + j;
      calc {
        OctetPieces(JoinWith(ps, '.'), n);
        OctetPieces(ps[0] + ['.'] + j, n);
        { OctetStep(ps[0], j, n); }
        [ps[0]] + OctetPieces(j, n - 1);
        [ps[0]] + rest;
        { HeadTail(ps); }
        ps;
      }
    }
  }

  lemma HeadTail(ps: seq<string>)
    requires |ps| > 0
    ensures [ps[0]] + ps[1..] == ps
  {
  }

  lemma OctetStep(p: string, t: string, n: nat)
    requires |p| < OctetSlot && '.' !in p && n > 0
    ensures OctetPieces(p + ['.'] + t, n) == [p] + OctetPieces(t, n - 1)
  {
    var s := p + ['.'] + t;
    IndexOfAfter(p, '.', t);
    assert s[..|p|] == p && s[|p| + 1..] == t;
  }

  lemma {:induction false} JoinAppend(xs: seq<string>, ys: seq<string>, c: char)
    requires |xs| > 0 && |ys| > 0
    ensures JoinWith(xs + ys, c) == JoinWith(xs, c) + [c] + JoinWith(ys, c)
    decreases |xs|
  {
    if |xs| == 1 {
      JoinCons(xs[0], ys, c);
      assert [xs[0]] + ys == xs + ys;
    } else {
      JoinAppend(xs[1..], ys, c);
      assert (xs + ys)[1..] == xs[1..] + ys;
      JoinCons(xs[0], xs[1..] + ys, c);
      assert [xs[0]] + (xs[1..] + ys) == xs + ys;
    }
  }

  // ------------------------------------------------------------ addresses

  /** The components of a written address: one to three digits, no dot. */
  lemma ComponentsShort(a: V.Addr)
    ensures Slotted(Certificates.Octets(V.OctetsOf(a)))
  {
    var o := V.OctetsOf(a);
    Certificates.NatToStringShort(o[0]);
    Certificates.NatToStringShort(o[1]);
    Certificates.NatToStringShort(o[2]);
    Certificates.NatToStringShort(o[3]);
  }

  /** An address field written as an address and a mask reads back as the
      network of that address under that mask. */
  lemma AddressFieldReadsBack(a: V.Addr, m: V.Addr)
    ensures AddressField(V.IpText(a) + "." + V.IpText(m)) == Some(V.IpRange(V.And32(a, m), V.Or32(a, V.Not32(m))))
  {
    var pa := Certificates.Octets(V.OctetsOf(a));
    var pm := Certificates.Octets(V.OctetsOf(m));
    ComponentsShort(a);
    ComponentsShort(m);
    JoinAppend(pa, pm, '.');
    assert V.IpText(a) + "." + V.IpText(m) == JoinWith(pa + pm, '.');
    OctetPiecesJoin(pa + pm, MaxOctets);
    assert (pa + pm)[..4] == pa && (pa + pm)[4..] == pm;
    V.IpTextReadsBack(a);
    V.IpTextReadsBack(m);
  }

  /** A dotted mask of `p` leading ones gives the same network as the
      prefix length `p` does in the range validator. */
  lemma MaskIsPrefix(ip: V.Addr, p: nat)
    requires p <= 32
    ensures ParseIpWithMask(V.IpText(ip), V.IpText(V.PrefixMask(p))) == Some(V.CidrRange(ip, p))
  {
    V.IpTextReadsBack(ip);
    V.IpTextReadsBack(V.PrefixMask(p));
  }

  /** "0.0.0.0.0.0.0.0" already has eight components, so it is read as the
      zero address under the zero mask, which is every address; the
      literal comparison after it never decides. */
  lemma ZeroDestination()
    ensures |OctetPieces("0.0.0.0.0.0.0.0", MaxOctets)| == MaxOctets
    ensures DestField("0.0.0.0.0.0.0.0") == Some(V.IpRange(0, V.AllOnes))
  {
    V.ZeroText();
    AddressFieldReadsBack(0, 0);
    ZeroLiteral();
    V.MaskExtremes(0);
  }

  lemma ZeroLiteral()
    ensures "0.0.0.0" + "." + "0.0.0.0" == "0.0.0.0.0.0.0.0"
  {
  }

  // ------------------------------------------------------------ ports

  /** `%d` reads a written number and stops at the first non-digit. */
  lemma ScanNat(n: nat, rest: string)
    requires |rest| == 0 || !IsDigit(rest[0])
    ensures ScanInt(NatToString(n) + rest) == Some((n as int, rest))
  {
    var digits := NatToString(n);
    var s := digits + rest;
    assert s[0] == digits[0];
    NoLeadingSpace(s);
    DecimalDigits(digits);
    DigitRunPrefix(digits, rest);
    DigitsValueOfNatToString(n);
    assert s[|digits|..] == rest;
  }

  /** "start.end" reads back exactly when the range lies in 0..65535 in
      order. */
  lemma PortRangeReadsBack(a: nat, b: nat)
    ensures ParsePortRange3gpp(NatToString(a) + "." + NatToString(b))
         == if a <= b <= V.MaxPort then Some(V.PortRange(a, b, true)) else None
  {
    PortScans(a, b);
  }

  lemma PortScans(a: nat, b: nat)
    ensures var rest := "." + NatToString(b);
            ScanInt(NatToString(a) + "." + NatToString(b)) == Some((a as int, rest))
            && |rest| > 0 && rest[0] == '.' && ScanInt(rest[1..]) == Some((b as int, ""))
  {
    ScanFirst(a, b);
    ScanWhole(b);
    assert ("." + NatToString(b))[1..] == NatToString(b);
  }

  lemma ScanFirst(a: nat, b: nat)
    ensures ScanInt(NatToString(a) + "." + NatToString(b)) == Some((a as int, "." + NatToString(b)))
  {
    ScanNat(a, "." + NatToString(b));
    Regroup(NatToString(a), ".", NatToString(b));
  }

  lemma ScanWhole(b: nat)
    ensures ScanInt(NatToString(b)) == Some((b as int, ""))
  {
    ScanNat(b, "");
    assert NatToString(b) + "" == NatToString(b);
  }

  // ------------------------------------------------------------ the rule read from a text

  lemma PiecesCons(a: string, rest: string, n: nat)
    requires n >= 2 && ',' !in a
    ensures Pieces(a + "," + rest, n) == [a] + Pieces(rest, n - 1)
  {
    IndexOfAfter(a, ',', rest);
    var s := a + "," + rest;
    assert s[..|a|] == a && s[|a| + 1..] == rest;
  }

  /** A text of at most fifteen comma-free fields is cut back into them. */
  lemma FieldsOfJoin(fs: seq<string>)
    requires 1 < |fs| <= MaxFields && forall i :: 0 <= i < |fs| ==> ',' !in fs[i]
    ensures Fields(JoinWith(fs, ',')) == fs
  {
    SplitJoin(fs, ',');
    JoinCons(fs[0], fs[1..], ',');
    assert [fs[0]] + fs[1..] == fs;
    PiecesSplit(JoinWith(fs, ','), MaxFields);
  }

  /** A text with no comma is a single field: no address, no protocol,
      and every port; so the request is never rejected as unreadable. */
  lemma NoCommaRequest(s: string)
    requires ',' !in Body(Bounded(s, V.MaxTftLen - 1)).0
    ensures var r := ParseRule3gpp(s);
      r.src.None? && r.dst.None? && !r.hasProtocol && r.protocol == 0
      && r.srcPort == V.AnyPort && r.dstPort == V.AnyPort
  {
    var b := Body(Bounded(s, V.MaxTftLen - 1)).0;
    if b != "" {
      assert Fields(b) == [b];
    }
  }

  // ------------------------------------------------------------ the verdict

  /** Some allowed TFT admits the request exactly when one of the entries,
      parsed, admits it. */
  lemma {:induction false} AnyAdmitsSome(rules: seq<V.TftRule>, q: V.TftRule)
    ensures AnyAdmits(rules, q) <==> exists i :: 0 <= i < |rules| && Admits(rules[i], q)
    decreases |rules|
  {
    if |rules| > 0 {
      var rest := rules[1..];
      AnyAdmitsSome(rest, q);
      if !Admits(rules[0], q) && AnyAdmits(rest, q) {
        var k :| 0 <= k < |rest| && Admits(rest[k], q);
        assert rules[k + 1] == rest[k];
      }
      if exists i :: 0 <= i < |rules| && Admits(rules[i], q) {
        var i :| 0 <= i < |rules| && Admits(rules[i], q);
        if i > 0 {
          assert rest[i - 1] == rules[i];
        }
      }
    }
  }

  /** The request is granted exactly when some allowed TFT, parsed,
      admits the normalized request. */
  lemma ValidateGrants(s: string, allowed: seq<string>)
    ensures Validate3gpp(s, allowed) == 0
        <==> exists i :: 0 <= i < |allowed| && Admits(ParseRule3gpp(allowed[i]), ParseRule3gpp(Normalize(s)))
  {
    var q := ParseRule3gpp(Normalize(s));
    var rs := Entries(allowed);
    AnyAdmitsSome(rs, q);
    forall i | 0 <= i < |allowed| ensures rs[i] == ParseRule3gpp(allowed[i]) {
      EntryIs(allowed, i);
    }
  }

  lemma {:induction false} EntryIs(allowed: seq<string>, i: nat)
    requires i < |allowed|
    ensures Entries(allowed)[i] == ParseRule3gpp(allowed[i])
    decreases i
  {
    if i > 0 {
      EntryIs(allowed[1..], i - 1);
      assert allowed[1..][i - 1] == allowed[i];
    }
  }

  /** Every rule admits itself. */
  lemma AdmitsItself(r: V.TftRule)
    ensures Admits(r, r)
  {
  }

  /** A request written exactly as one of the allowed TFTs, up to
      surrounding white space, is granted. */
  lemma ListedGranted(s: string, allowed: seq<string>, i: nat)
    requires i < |allowed| && allowed[i] == Normalize(s)
    ensures Validate3gpp(s, allowed) == 0
  {
    AdmitsItself(ParseRule3gpp(Normalize(s)));
    ValidateGrants(s, allowed);
  }

  /** The request `q2` asks for no more than `q1`: the same protocol,
      addresses set exactly where `q1` sets them and inside its ranges,
      and ports inside its ports. */
  predicate Within(q2: V.TftRule, q1: V.TftRule) {
    && q2.protocol == q1.protocol
    && (q2.src.Some? <==> q1.src.Some?) && RangeAdmits(q1.src, q2.src)
    && (q2.dst.Some? <==> q1.dst.Some?) && RangeAdmits(q1.dst, q2.dst)
    && q1.srcPort.valid && q2.srcPort.valid && q1.srcPort.start <= q2.srcPort.start && q2.srcPort.end <= q1.srcPort.end
    && q1.dstPort.valid && q2.dstPort.valid && q1.dstPort.start <= q2.dstPort.start && q2.dstPort.end <= q1.dstPort.end
  }

  /** An entry that admits a request admits every request inside it. */
  lemma AdmitsNarrower(w: V.TftRule, q1: V.TftRule, q2: V.TftRule)
    requires Admits(w, q1) && Within(q2, q1)
    ensures Admits(w, q2)
  {
  }

  /** An address the request leaves unset is not checked: a request with
      neither address, and the protocol and ports of an entry, is
      admitted by that entry whatever addresses it names. */
  lemma UnsetAddressesAdmitted(w: V.TftRule)
    requires w.srcPort.valid && w.dstPort.valid
    ensures Admits(w, w.(src := None, dst := None))
  {
  }

  // ------------------------------------------------------------ the default rules

  /** The address of the ground gateway in the default rules, 10.2.2.8. */
  const Gateway: V.Addr := 0x0A02_0208

  /** Eight comma-free fields, joined, written out one after another. */
  lemma JoinEight(fs: seq<string>)
    requires |fs| == 8
    ensures JoinWith(fs, ',') == fs[0] + "," + (fs[1] + "," + (fs[2] + "," + (fs[3] + "," + (fs[4] + "," + (fs[5] + "," + (fs[6] + "," + fs[7]))))))
  {
    assert fs[7..] == [fs[7]];
    JoinStep(fs, 6);
    JoinStep(fs, 5);
    JoinStep(fs, 4);
    JoinStep(fs, 3);
    JoinStep(fs, 2);
    JoinStep(fs, 1);
    JoinStep(fs, 0);
    assert fs[0..] == fs;
  }

  lemma JoinStep(fs: seq<string>, k: nat)
    requires k + 1 < |fs|
    ensures JoinWith(fs[k..], ',') == fs[k] + "," + JoinWith(fs[k + 1..], ',')
  {
    assert fs[k..][1..] == fs[k + 1..];
  }

  /** A rule "_iTFT=" followed by eight comma-free fields, short enough
      for the buffer, is outbound and has those fields. */
  lemma OutboundFields(fs: seq<string>)
    requires |fs| == 8 && forall i :: 0 <= i < 8 ==> ',' !in fs[i] && |fs[i]| <= 60
    ensures var b := Body(Bounded("_iTFT=" + JoinWith(fs, ','), V.MaxTftLen - 1));
      b.1 && Fields(b.0) == fs
  {
    var j := JoinWith(fs, ',');
    JoinEight(fs);
    var t := "_iTFT=" + j;
    assert IsPrefix("_iTFT=", t);
    assert t[6..] == j;
    FieldsOfJoin(fs);
  }

  /** The decimal text of `10 n + d` is that of `n` followed by the digit. */
  lemma AppendDigit(n: nat, d: nat)
    requires 0 < n && d < 10
    ensures NatToString(10 * n + d) == NatToString(n) + [DigitChar(d)]
  {
  }

  lemma SmallTexts()
    ensures NatToString(255) == "255" && NatToString(10) == "10" && NatToString(80) == "80"
    ensures NatToString(2) == "2" && NatToString(8) == "8" && NatToString(0) == "0"
  {
    AppendDigit(2, 5);
    AppendDigit(25, 5);
    AppendDigit(1, 0);
    AppendDigit(8, 0);
  }

  lemma PortMaxText()
    ensures NatToString(65535) == "65535"
  {
    AppendDigit(6, 5);
    AppendDigit(65, 5);
    AppendDigit(655, 3);
    AppendDigit(6553, 5);
  }

  /** An address whose components are written `t0`..`t3` is written
      with dots between them. */
  lemma FormatFour(o: seq<Certificates.byte>, t0: string, t1: string, t2: string, t3: string)
    requires |o| == 4 && Certificates.Octets(o) == [t0, t1, t2, t3]
    ensures Certificates.FormatIpv4(o) == t0 + "." + (t1 + "." + (t2 + "." + t3))
  {
    var n := Certificates.Octets(o);
    JoinCons(n[0], n[1..], '.');
    JoinCons(n[1], n[2..], '.');
    JoinCons(n[2], n[3..], '.');
    assert n[1..][1..] == n[2..] && n[2..][1..] == n[3..];
  }

  lemma AllOnesText()
    ensures V.IpText(V.AllOnes) == "255.255.255.255"
  {
    var o := V.OctetsOf(V.AllOnes);
    assert o == [255, 255, 255, 255];
    SmallTexts();
    FormatFour(o, "255", "255", "255", "255");
    assert "255" + "." + ("255" + "." + ("255" + "." + "255")) == "255.255.255.255";
  }

  lemma GatewayText()
    ensures V.IpText(Gateway) == "10.2.2.8"
  {
    var o := V.OctetsOf(Gateway);
    assert o == [10, 2, 2, 8];
    SmallTexts();
    FormatFour(o, "10", "2", "2", "8");
    assert "10" + "." + ("2" + "." + ("2" + "." + "8")) == "10.2.2.8";
  }

  lemma HostMask(ip: string)
    ensures CertArtifacts.HostField(ip) == ip + ['.'] + "255.255.255.255"
  {
    assert ".255.255.255.255" == ['.'] + "255.255.255.255";
    Regroup(ip, ['.'], "255.255.255.255");
  }

  /** A written address with the all-ones mask is the one-address range. */
  lemma HostRange(a: V.Addr)
    ensures AddressField(CertArtifacts.HostField(V.IpText(a))) == Some(V.IpRange(a, a))
    ensures DestField(CertArtifacts.HostField(V.IpText(a))) == Some(V.IpRange(a, a))
  {
    AllOnesText();
    HostMask(V.IpText(a));
    AddressFieldReadsBack(a, V.AllOnes);
    V.MaskExtremes(a);
  }

  /** A written address has no comma and fits its field. */
  lemma HostFieldShape(a: V.Addr)
    ensures ',' !in CertArtifacts.HostField(V.IpText(a)) && |CertArtifacts.HostField(V.IpText(a))| <= 31
  {
    V.IpTextDotted(a);
  }

  lemma DefaultPorts()
    ensures PortField("0.65535") == V.AnyPort && PortField("80.80") == V.PortRange(80, 80, true)
  {
    AnyPortText();
    Port80Text();
  }

  lemma AnyPortText()
    ensures PortField("0.65535") == V.AnyPort
  {
    assert "0.65535" == "0" + "." + "65535";
    SmallTexts();
    PortMaxText();
    PortRangeReadsBack(0, 65535);
  }

  lemma Port80Text()
    ensures PortField("80.80") == V.PortRange(80, 80, true)
  {
    assert "80.80" == "80" + "." + "80";
    SmallTexts();
    PortRangeReadsBack(80, 80);
  }

  lemma TcpField()
    ensures CastU8(Atoi("6")) == 6
  {
    AtoiOfDigits("6");
  }

  /** The default ground rule the generator writes for a client reads
      back as: from the client's address to the gateway 10.2.2.8, TCP,
      destination port 80, any source port, outbound. */
  lemma GroundDefault(a: V.Addr)
    ensures ParseRule3gpp(CertArtifacts.GroundTft(V.IpText(a)))
         == V.TftRule(Some(V.IpRange(a, a)), Some(V.IpRange(Gateway, Gateway)),
                      V.AnyPort, V.PortRange(80, 80, true), 6, true, true)
  {
    var fs := CertArtifacts.GroundFields(V.IpText(a));
    HostFieldShape(a);
    HostFieldShape(Gateway);
    GatewayText();
    OutboundFields(fs);
    HostRange(a);
    HostRange(Gateway);
    DefaultPorts();
    TcpField();
  }

  /** The default air rule: from the gateway to the client, TCP, any
      destination port, source port 80, outbound. */
  lemma AirDefault(a: V.Addr)
    ensures ParseRule3gpp(CertArtifacts.AirTft(V.IpText(a)))
         == V.TftRule(Some(V.IpRange(Gateway, Gateway)), Some(V.IpRange(a, a)),
                      V.PortRange(80, 80, true), V.AnyPort, 6, true, true)
  {
    var fs := CertArtifacts.AirFields(V.IpText(a));
    HostFieldShape(a);
    HostFieldShape(Gateway);
    GatewayText();
    OutboundFields(fs);
    HostRange(a);
    HostRange(Gateway);
    DefaultPorts();
    TcpField();
  }

  // ------------------------------------------------------------ the profile's rules

  /** The placeholder address the profile's default rules keep is not an
      address: the field has five components, so the range stays unset. */
  lemma PlaceholderUnset()
    ensures AddressField(CertArtifacts.HostField(CertArtifacts.ClientIpPlaceholder)) == None
    ensures DestField(CertArtifacts.HostField(CertArtifacts.ClientIpPlaceholder)) == None
  {
    var p := CertArtifacts.ClientIpPlaceholder;
    var ones := Certificates.Octets(V.OctetsOf(V.AllOnes));
    HostMask(p);
    assert '.' !in p && |p| < OctetSlot;
    OctetStep(p, "255.255.255.255", MaxOctets);
    AllOnesText();
    ComponentsShort(V.AllOnes);
    OctetPiecesJoin(ones, MaxOctets - 1);
    assert |OctetPieces(CertArtifacts.HostField(p), MaxOctets)| == 5;
  }

  /** The default ground rule of the profile, read as the server reads
      it: no source address, so every source is admitted. */
  lemma PlaceholderGround()
    ensures ParseRule3gpp(CertArtifacts.GroundTft(CertArtifacts.ClientIpPlaceholder))
         == V.TftRule(None, Some(V.IpRange(Gateway, Gateway)), V.AnyPort, V.PortRange(80, 80, true), 6, true, true)
  {
    var fs := CertArtifacts.GroundFields(CertArtifacts.ClientIpPlaceholder);
    HostFieldShape(Gateway);
    GatewayText();
    assert ',' !in CertArtifacts.HostField(CertArtifacts.ClientIpPlaceholder);
    OutboundFields(fs);
    PlaceholderUnset();
    HostRange(Gateway);
    DefaultPorts();
    TcpField();
  }

  /** The default air rule of the profile: no destination address. */
  lemma PlaceholderAir()
    ensures ParseRule3gpp(CertArtifacts.AirTft(CertArtifacts.ClientIpPlaceholder))
         == V.TftRule(Some(V.IpRange(Gateway, Gateway)), None, V.PortRange(80, 80, true), V.AnyPort, 6, true, true)
  {
    var fs := CertArtifacts.AirFields(CertArtifacts.ClientIpPlaceholder);
    HostFieldShape(Gateway);
    GatewayText();
    assert ',' !in CertArtifacts.HostField(CertArtifacts.ClientIpPlaceholder);
    OutboundFields(fs);
    PlaceholderUnset();
    HostRange(Gateway);
    DefaultPorts();
    TcpField();
  }

  /** What the profile's default ground entry (as `PlaceholderGround`
      reads it) grants: TCP to the gateway on port 80, whatever the
      request's source address and source ports. */
  lemma PlaceholderGroundGrants(q: V.TftRule)
    requires q.dstPort.valid && q.dstPort.start <= q.dstPort.end
    ensures Admits(V.TftRule(None, Some(V.IpRange(Gateway, Gateway)), V.AnyPort, V.PortRange(80, 80, true), 6, true, true), q)
        <==> q.protocol == 6 && RangeAdmits(Some(V.IpRange(Gateway, Gateway)), q.dst)
             && q.dstPort.start == 80 && q.dstPort.end == 80
  {
  }

  // ------------------------------------------------------------ the C walk

  /** The field split of `tft_parse_rule` over the buffer after the
      prefix. `fields[15]` starts out as empty strings; while fewer than
      fifteen fields are open, each comma is overwritten by '\0' and opens
      the next field, so a field runs to the next such comma and the last
      one to the end of the text. A field is stored here once the comma
      that ends it is met. */
  method SplitFields(b: string) returns (fields: array<string>, count: nat)
    ensures fresh(fields) && fields.Length == MaxFields
    ensures count <= MaxFields && fields[..count] == Fields(b)
    ensures forall k :: count <= k < MaxFields ==> fields[k] == ""
  {
    fields := new string[MaxFields](_ => "");
    count := 0;
    if b == "" {
      return;
    }
    var p;
    count, p := SplitLoop(b, fields);
    fields[count - 1] := p;
    assert fields[..count] == fields[..count - 1] + [p];
  }

  /** The loop over the buffer: while fewer than fifteen fields are open,
      a comma closes the open field and opens the next; the open field
      when it stops. */
  method SplitLoop(b: string, fields: array<string>) returns (count: nat, p: string)
    requires fields.Length == MaxFields && forall k :: 0 <= k < MaxFields ==> fields[k] == ""
    modifies fields
    ensures 1 <= count <= MaxFields && fields[..count - 1] + [p] == Pieces(b, MaxFields)
    ensures forall k :: count <= k < MaxFields ==> fields[k] == ""
  {
    count := 1;
    p := b;
    ghost var left: nat := MaxFields;   // pieces still allowed, the open one included
    ghost var done: seq<string> := [];
    assert fields[..] == Blanks(MaxFields);
    ghost var whole := Pieces(b, MaxFields);
    while count < MaxFields
      invariant 1 <= count <= MaxFields && left == MaxFields - count + 1 && |done| == count - 1
      invariant done + Pieces(p, left) == whole
      invariant fields[..] == done + Blanks(MaxFields - |done|)
    {
      var j := ScanComma(p);
      if j == |p| {
        break;
      }
      CloseField(done, p, j, left);
      ghost var before := fields[..];
      fields[count - 1] := p[..j];
      assert fields[..] == before[count - 1 := p[..j]];
      BlankPut(done, p[..j], MaxFields - |done|);
      done := done + [p[..j]];
      count := count + 1;
      p := p[j + 1..];
      left := left - 1;
    }
    LastPiece(p, left);
    assert fields[..count - 1] == done;
    assert forall k :: count <= k < MaxFields ==> fields[k] == Blanks(MaxFields - |done|)[k - |done|];
  }

  /** `count` empty fields. */
  function Blanks(count: nat): (r: seq<string>)
    ensures |r| == count && forall k :: 0 <= k < count ==> r[k] == ""
  {
    seq(count, _ => "")
  }

  /** Storing a field over the first blank. */
  lemma BlankPut(done: seq<string>, x: string, m: nat)
    requires m >= 1
    ensures (done + Blanks(m))[|done| := x] == (done + [x]) + Blanks(m - 1)
  {
  }

  /** The scan of the open field for its closing comma: the position of
      the first comma, or the length when there is none. */
  method ScanComma(p: string) returns (j: nat)
    ensures j <= |p| && (j < |p| ==> p[j] == ',')
    ensures forall t :: 0 <= t < j ==> p[t] != ','
  {
    j := 0;
    while j < |p| && p[j] != ','
      invariant j <= |p| && forall t :: 0 <= t < j ==> p[t] != ','
    {
      j := j + 1;
    }
  }

  /** A comma at `j` with none before it closes the first piece. */
  lemma PiecesAt(s: string, j: nat, n: nat)
    requires n >= 2 && j < |s| && s[j] == ',' && forall t :: 0 <= t < j ==> s[t] != ','
    ensures Pieces(s, n) == [s[..j]] + Pieces(s[j + 1..], n - 1)
  {
    CutAt(s, j);
    assert s == s[..j] + "," + s[j + 1..];
    PiecesCons(s[..j], s[j + 1..], n);
  }

  /** Closing the open field keeps the pieces seen so far, in order. */
  lemma CloseField(done: seq<string>, s: string, j: nat, n: nat)
    requires n >= 2 && j < |s| && s[j] == ',' && forall t :: 0 <= t < j ==> s[t] != ','
    ensures (done + [s[..j]]) + Pieces(s[j + 1..], n - 1) == done + Pieces(s, n)
  {
    PiecesAt(s, j, n);
    Regroup(done, [s[..j]], Pieces(s[j + 1..], n - 1));
  }

  /** With one piece left, or no comma, the rest is one piece. */
  lemma LastPiece(s: string, n: nat)
    requires n >= 1 && (n == 1 || forall t :: 0 <= t < |s| ==> s[t] != ',')
    ensures Pieces(s, n) == [s]
  {
    if n > 1 {
      assert ',' !in s;
    }
  }

  /** The component cut of fields 3 and 4 into `octets[8][16]`: `strchr`
      finds the next dot; a component of 16 characters or more stops the
      loop, and the text after the last dot is the last component when it
      fits. */
  method SplitOctets(f: string) returns (octets: array<string>, count: nat)
    ensures fresh(octets) && octets.Length == MaxOctets
    ensures count <= MaxOctets && octets[..count] == OctetPieces(f, MaxOctets)
  {
    octets := new string[MaxOctets](_ => "");
    var p;
    count, p := CutComponents(f, octets);
    OctetLast(p, MaxOctets - count);
    if count < MaxOctets && |p| < OctetSlot {
      octets[count] := p;
      assert octets[..count + 1] == octets[..count] + [p];
      count := count + 1;
    }
  }

  /** The `strchr` loop: components cut at dots into `octets` while there
      are slots and each fits; the text after the last cut. */
  method CutComponents(f: string, octets: array<string>) returns (count: nat, p: string)
    requires octets.Length == MaxOctets
    modifies octets
    ensures count <= MaxOctets && octets[..count] + OctetPieces(p, MaxOctets - count) == OctetPieces(f, MaxOctets)
    ensures count == MaxOctets || IndexOf(p, '.').None? || IndexOf(p, '.').value >= OctetSlot
  {
    count := 0;
    p := f;
    ghost var got: seq<string> := [];
    while count < MaxOctets
      invariant count <= MaxOctets && octets[..count] == got
      invariant got + OctetPieces(p, MaxOctets - count) == OctetPieces(f, MaxOctets)
    {
      var dot := IndexOf(p, '.');
      if dot.None? || dot.value >= OctetSlot {
        return;
      }
      var k := dot.value;
      OctetCut(p, k, MaxOctets - count);
      octets[count] := p[..k];
      Regroup(got, [p[..k]], OctetPieces(p[k + 1..], MaxOctets - count - 1));
      got := got + [p[..k]];
      count := count + 1;
      p := p[k + 1..];
    }
  }

  /** A dot within the slot closes the next component. */
  lemma OctetCut(p: string, k: nat, n: nat)
    requires IndexOf(p, '.') == Some(k) && k < OctetSlot && n > 0
    ensures OctetPieces(p, n) == [p[..k]] + OctetPieces(p[k + 1..], n - 1)
  {
  }

  /** Where the loop stops: no more slots, no dot, or a component too long
      (which leaves a text of 16 characters or more). */
  lemma OctetLast(p: string, n: nat)
    requires n == 0 || IndexOf(p, '.').None? || IndexOf(p, '.').value >= OctetSlot
    ensures OctetPieces(p, n) == if n > 0 && |p| < OctetSlot then [p] else []
  {
  }

  /** An address field: its components, and the address and mask
      `snprintf("%s.%s.%s.%s")` writes back from them. */
  method ReadAddress(f: string) returns (r: Option<V.IpRange>, count: nat)
    ensures count == |OctetPieces(f, MaxOctets)| && r == AddressField(f)
  {
    var octets, n := SplitOctets(f);
    count := n;
    r := None;
    if n == MaxOctets {
      assert octets[..4] == octets[..n][..4] && octets[4..] == octets[..n][4..];
      r := ParseIpWithMask(JoinWith(octets[..4], '.'), JoinWith(octets[4..], '.'));
    }
  }

  /** `tft_parse_rule` (3GPP form): the copy into the 512-byte buffer,
      the prefix, the split, and each field read in turn; it returns 0
      for every text. The test `field_count > k` before each field is
      implied by the field being non-empty, since the fields past the
      count stay empty. */
  method ParseTft3gpp(s: string) returns (rc: int, rule: V.TftRule)
    ensures rc == 0 && rule == ParseRule3gpp(s)
  {
    var buffer := Bounded(s, V.MaxTftLen - 1);
    var start := buffer;
    var outbound := false;
    if IsPrefix("_iTFT=", start) {
      start := start[6..];
      outbound := true;
    } else if IsPrefix("+CGTFT=", start) {
      start := start[7..];
    }
    assert (start, outbound) == Body(buffer);
    var fields, count := SplitFields(start);
    rule := ReadFields(fields, count, start, outbound);
    rc := 0;
  }

  /** The fields 3 to 7 read into the rule. */
  method ReadFields(fields: array<string>, count: nat, ghost b: string, outbound: bool) returns (rule: V.TftRule)
    requires fields.Length == MaxFields && count <= MaxFields && fields[..count] == Fields(b)
    requires forall k :: count <= k < MaxFields ==> fields[k] == ""
    ensures rule == RuleOfFields(Fields(b), outbound)
  {
    ghost var fs := Fields(b);
    assert forall k :: 0 <= k < MaxFields ==> fields[k] == Field(fs, k) by {
      forall k | 0 <= k < MaxFields ensures fields[k] == Field(fs, k) {
        if k < count {
          assert fields[k] == fields[..count][k];
        }
      }
    }
    var src := ReadSource(fields[3]);
    var dst := ReadDest(fields[4]);
    var protocol, hasProtocol := ReadProtocol(fields[5]);
    var dstPort := ReadPorts(fields[6]);
    var srcPort := ReadPorts(fields[7]);
    rule := V.TftRule(src, dst, srcPort, dstPort, protocol, hasProtocol, outbound);
  }

  /** Field 3: the source address and mask. */
  method ReadSource(f: string) returns (r: Option<V.IpRange>)
    ensures r == AddressField(f)
  {
    r := None;
    if f != "" {
      var n;
      r, n := ReadAddress(f);
    } else {
      assert OctetPieces(f, MaxOctets) == [f];
    }
  }

  /** Field 4: the destination address and mask, or the literal
      "0.0.0.0.0.0.0.0" when the field is not eight components. */
  method ReadDest(f: string) returns (r: Option<V.IpRange>)
    ensures r == DestField(f)
  {
    r := None;
    if f != "" {
      var n;
      r, n := ReadAddress(f);
      if n != MaxOctets && f == "0.0.0.0.0.0.0.0" {
        r := Some(V.IpRange(0, V.AllOnes));
      }
    } else {
      assert OctetPieces(f, MaxOctets) == [f];
    }
  }

  /** Field 5: `(uint8_t)atoi`, and whether a protocol was given. */
  method ReadProtocol(f: string) returns (protocol: nat, hasProtocol: bool)
    ensures hasProtocol == (f != "") && protocol == if f == "" then 0 else CastU8(Atoi(f))
  {
    protocol := 0;
    hasProtocol := false;
    if f != "" {
      protocol := CastU8(Atoi(f));
      hasProtocol := true;
    }
  }

  /** Fields 6 and 7: `parse_port_range_3gpp`, and 0-65535 when the
      field is empty or does not parse. */
  method ReadPorts(f: string) returns (r: V.PortRange)
    ensures r == PortField(f)
  {
    r := V.AnyPort;
    if f != "" {
      var parsed := ParsePortRange3gpp(f);
      if parsed.Some? {
        r := parsed.value;
      }
    }
  }

  /** The checks of one whitelist entry, each failing one moving on to
      the next entry. */
  method EntryAdmits(w: V.TftRule, q: V.TftRule) returns (ok: bool)
    ensures ok == Admits(w, q)
  {
    ok := false;
    var srcOk := RangeWithin(w.src, q.src);
    var dstOk := RangeWithin(w.dst, q.dst);
    var dstPortOk := PortsWithin(w.dstPort, q.dstPort);
    var srcPortOk := PortsWithin(w.srcPort, q.srcPort);
    if w.hasProtocol && w.protocol != 0 && q.protocol != w.protocol {
      // protocol mismatch
    } else if !srcOk || !dstOk || !dstPortOk || !srcPortOk {
      // an address or a port range out of the entry's
    } else {
      ok := true;
    }
  }

  /** The address check: made only when both ranges are set. */
  method RangeWithin(w: Option<V.IpRange>, q: Option<V.IpRange>) returns (ok: bool)
    ensures ok == RangeAdmits(w, q)
  {
    ok := true;
    if w.Some? && q.Some? {
      if q.value.start < w.value.start || q.value.end > w.value.end {
        ok := false;
      }
    }
  }

  /** The port check: made only when both ranges are valid and the
      entry's is not exactly 0-65535. */
  method PortsWithin(w: V.PortRange, q: V.PortRange) returns (ok: bool)
    ensures ok == PortAdmits(w, q)
  {
    ok := true;
    if w.valid && q.valid {
      if !(w.start == 0 && w.end == V.MaxPort) {
        if q.start < w.start || q.end > w.end {
          ok := false;
        }
      }
    }
  }

  /** `tft_validate_against_whitelist` (3GPP form): the request trimmed
      into a 512-byte buffer, the trailing white space overwritten from
      the end, then the whitelist walked entry by entry. The request
      always parses, so the −2 of a parse failure cannot arise. */
  method ValidateAgainstWhitelist3gpp(s: string, allowed: seq<string>) returns (rc: int)
    ensures rc == Validate3gpp(s, allowed)
  {
    var normalized := NormalizeRequest(s);
    if |allowed| == 0 {
      return -1;
    }
    var parsed, request := ParseTft3gpp(normalized);
    rc := WalkWhitelist(request, allowed);
  }

  /** The leading white space skipped, the copy into the 512-byte buffer,
      and the trailing white space overwritten with '\0' from the end,
      never at the first character. */
  method NormalizeRequest(s: string) returns (normalized: string)
    ensures normalized == Normalize(s)
  {
    var start := V.SkipSpaces(s);
    var buffer := Bounded(start, V.MaxTftLen - 1);
    var n := |buffer|;
    assert buffer[..n] == buffer;
    while n > 1 && CIsSpace(buffer[n - 1])
      invariant 0 <= n <= |buffer|
      invariant TrimEnd(buffer[..n]) == TrimEnd(buffer)
    {
      TrimStep(buffer, n);
      n := n - 1;
    }
    TrimDone(buffer, n);
    normalized := buffer[..n];
  }

  lemma TrimStep(t: string, n: nat)
    requires 1 < n <= |t| && CIsSpace(t[n - 1])
    ensures TrimEnd(t[..n]) == TrimEnd(t[..n - 1])
  {
    assert t[..n][..n - 1] == t[..n - 1];
  }

  lemma TrimDone(t: string, n: nat)
    requires n <= |t| && TrimEnd(t[..n]) == TrimEnd(t) && !(n > 1 && CIsSpace(t[n - 1]))
    ensures t[..n] == TrimEnd(t)
  {
  }

  /** The walk over the allowed TFTs: 0 at the first entry that admits
      the request, −1 after the last. */
  method WalkWhitelist(request: V.TftRule, allowed: seq<string>) returns (rc: int)
    ensures rc == if AnyAdmits(Entries(allowed), request) then 0 else -1
  {
    ghost var rules := Entries(allowed);
    var i := 0;
    while i < |allowed|
      invariant 0 <= i <= |allowed|
      invariant AnyAdmits(rules, request) <==> AnyAdmits(rules[i..], request)
    {
      var ok := CheckEntry(allowed, i, request);
      assert rules[i..][1..] == rules[i + 1..];
      if ok {
        return 0;
      }
      i := i + 1;
    }
    return -1;
  }

  /** One entry of the walk: parsed, then checked. */
  method CheckEntry(allowed: seq<string>, i: nat, request: V.TftRule) returns (ok: bool)
    requires i < |allowed|
    ensures ok == Admits(Entries(allowed)[i], request)
  {
    var entryRc, w := ParseTft3gpp(allowed[i]);
    EntryIs(allowed, i);
    ok := EntryAdmits(w, request);
  }
}
