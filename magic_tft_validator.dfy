/** The range-checking TFT whitelist validator of the MAGIC server: the
    ipfw-style rule "permit out|in ip from SRC to DST[:PORTS] [PROTO]",
    IP ranges in CIDR, "a-b" or single-address form, comma-separated port
    lists, protocol names, and the check of a requested rule against the
    dest_ip_range / dest_port_range / source_port_range / allowed-protocol
    fields of a client's traffic-security profile. Addresses are host-order
    32-bit numbers; the bitwise operators are written out bit by bit. */
module MagicTftValidator {
  import opened Wrappers
  import opened Text
  import opened CString
  import Certificates
  import MihProtocol

  const MaxTftLen := 512
  const MaxPort := 65535
  /** 0xFFFFFFFF, the broadcast address and the all-ones mask. */
  const AllOnes := 0xFFFF_FFFF

  /** A `uint32_t` address in host byte order. */
  type Addr = x: int | 0 <= x <= 0xFFFF_FFFF

  /** `IPRange` with `is_valid` set; an unset range is `None` where one
      can occur. */
  datatype IpRange = IpRange(start: Addr, end: Addr)

  /** `PortRange`; `valid` is `is_valid`, false in a zeroed structure. */
  datatype PortRange = PortRange(start: nat, end: nat, valid: bool)

  /** The zeroed `PortRange` `memset` leaves behind. */
  const Unset := PortRange(0, 0, false)
  /** 0-65535, "any port". */
  const AnyPort := PortRange(0, 65535, true)

  /** `TFTRule`: both parsers fill the same structure. */
  datatype TftRule = TftRule(
    src: Option<IpRange>, dst: Option<IpRange>,
    srcPort: PortRange, dstPort: PortRange,
    protocol: nat, hasProtocol: bool, outbound: bool)

  /** The fields of `TrafficSecurityConfig` the range validator reads; an
      empty string is an unconfigured field. */
  datatype Whitelist = Whitelist(
    allowedProtocols: seq<string>,
    destIpRange: string, destPortRange: string, sourcePortRange: string)

  // ------------------------------------------------------ bitwise operators

  /** `a & b` on the low `n` bits. */
  function AndBits(a: nat, b: nat, n: nat): (r: nat)
    ensures r < MihProtocol.Pow2(n)
  {
    if n == 0 then 0
    else 2 * AndBits(a / 2, b / 2, n - 1) + (if a % 2 == 1 && b % 2 == 1 then 1 else 0)
  }

  /** `a | b` on the low `n` bits. */
  function OrBits(a: nat, b: nat, n: nat): (r: nat)
    ensures r < MihProtocol.Pow2(n)
  {
    if n == 0 then 0
    else 2 * OrBits(a / 2, b / 2, n - 1) + (if a % 2 == 1 || b % 2 == 1 then 1 else 0)
  }

  lemma Pow2Of32()
    ensures MihProtocol.Pow2(32) == 0x1_0000_0000
  {
    assert MihProtocol.Pow2(8) == 256;
    assert MihProtocol.Pow2(16) == 0x1_0000 by { Pow2Add(8, 8); }
    Pow2Add(16, 16);
  }

  lemma {:induction false} Pow2Add(a: nat, b: nat)
    ensures MihProtocol.Pow2(a + b) == MihProtocol.Pow2(a) * MihProtocol.Pow2(b)
    decreases a
  {
    if a > 0 {
      Pow2Add(a - 1, b);
    }
  }

  /** The 32-bit `&`, `|` and `~`. */
  function And32(a: Addr, b: Addr): (r: Addr)
  {
    Pow2Of32();
    AndBits(a, b, 32)
  }

  function Or32(a: Addr, b: Addr): (r: Addr)
  {
    Pow2Of32();
    OrBits(a, b, 32)
  }

  function Not32(a: Addr): Addr {
    AllOnes - a
  }

  /** Masking never raises a number, and or-ing never lowers it. */
  lemma {:induction false} AndBelow(a: nat, b: nat, n: nat)
    requires a < MihProtocol.Pow2(n)
    ensures AndBits(a, b, n) <= a
    decreases n
  {
    if n > 0 {
      AndBelow(a / 2, b / 2, n - 1);
    }
  }

  lemma {:induction false} OrAbove(a: nat, b: nat, n: nat)
    requires a < MihProtocol.Pow2(n)
    ensures OrBits(a, b, n) >= a
    decreases n
  {
    if n > 0 {
      OrAbove(a / 2, b / 2, n - 1);
    }
  }

  /** `a & ~0` is `a`, `a & 0` is 0, `a | 0` is `a` and `a | ~0` is all
      ones. */
  lemma {:induction false} AndOrUnits(a: nat, n: nat)
    requires a < MihProtocol.Pow2(n)
    ensures AndBits(a, MihProtocol.Pow2(n) - 1, n) == a && AndBits(a, 0, n) == 0
    ensures OrBits(a, 0, n) == a && OrBits(a, MihProtocol.Pow2(n) - 1, n) == MihProtocol.Pow2(n) - 1
    decreases n
  {
    if n > 0 {
      AndOrUnits(a / 2, n - 1);
    }
  }

  /** A range computed as `ip & mask` .. `ip | ~mask` holds `ip`. */
  lemma MaskedRangeHolds(ip: Addr, mask: Addr)
    ensures And32(ip, mask) <= ip <= Or32(ip, Not32(mask))
  {
    Pow2Of32();
    AndBelow(ip, mask, 32);
    OrAbove(ip, Not32(mask), 32);
  }

  /** The all-ones mask gives the one-address range, the zero mask the
      whole space. */
  lemma MaskExtremes(ip: Addr)
    ensures And32(ip, AllOnes) == ip && Or32(ip, Not32(AllOnes)) == ip
    ensures And32(ip, 0) == 0 && Or32(ip, Not32(0)) == AllOnes
  {
    Pow2Of32();
    AndOrUnits(ip, 32);
  }

  // ------------------------------------------------------------ addresses

  /** The host-order number of four octets. */
  function AddrOf(o: seq<Certificates.byte>): Addr
    requires |o| == 4
  {
    var hi: int := o[0];
    ((hi * 0x100 + o[1]) * 0x100 + o[2]) * 0x100 + o[3]
  }

  /** The four octets of an address, most significant first. */
  function OctetsOf(a: Addr): (o: seq<Certificates.byte>)
    ensures |o| == 4
  {
    var a1 := a / 0x100;
    var a2 := a1 / 0x100;
    [a2 / 0x100, a2 % 0x100, a1 % 0x100, a % 0x100]
  }

  lemma DivMod256(x: nat, hi: nat, lo: nat)
    requires lo < 0x100 && x == hi * 0x100 + lo
    ensures x / 0x100 == hi && x % 0x100 == lo
  {
  }

  lemma AddrOctets(a: Addr)
    ensures AddrOf(OctetsOf(a)) == a
  {
  }

  lemma OctetsAddr(o: seq<Certificates.byte>)
    requires |o| == 4
    ensures OctetsOf(AddrOf(o)) == o
  {
    var hi: int := o[0];
    var x1: nat := hi * 0x100 + o[1];
    var x2: nat := x1 * 0x100 + o[2];
    DivMod256(AddrOf(o), x2, o[3]);
    DivMod256(x2, x1, o[2]);
    DivMod256(x1, o[0], o[1]);
  }

  /** `inet_pton(AF_INET, …)`, which accepts exactly the dotted-decimal
      literals `ipaddress` does: four components of at most 255 without
      leading zeros. */
  function Pton(s: string): Option<Addr> {
    match Certificates.ParseIpv4(s)
    case Some(o) => Some(AddrOf(o))
    case None => None
  }

  /** `ip_str_to_uint32`: the address, or 0 when the text is not one. */
  function IpValue(s: string): Addr {
    Pton(s).GetOr(0)
  }

  /** `uint32_to_ip_str` (`inet_ntop`). */
  function IpText(a: Addr): string {
    Certificates.FormatIpv4(OctetsOf(a))
  }

  /** `inet_pton` reads back what `inet_ntop` writes. */
  lemma IpTextReadsBack(a: Addr)
    ensures Pton(IpText(a)) == Some(a)
  {
    Certificates.Ipv4RoundTrip(OctetsOf(a));
    AddrOctets(a);
  }

  /** What `inet_ntop` writes: one to three digits per component, four
      components, nothing but digits and dots. */
  predicate Dotted(t: string) {
    0 < |t| <= 15 && IsDigit(t[0]) && IsDigit(t[|t| - 1])
    && forall i :: 0 <= i < |t| ==> IsDigit(t[i]) || t[i] == '.'
  }

  lemma IpTextDotted(a: Addr)
    ensures Dotted(IpText(a))
  {
    var o := OctetsOf(a);
    var n := Certificates.Octets(o);
    Certificates.NatToStringShort(o[0]);
    Certificates.NatToStringShort(o[1]);
    Certificates.NatToStringShort(o[2]);
    Certificates.NatToStringShort(o[3]);
    JoinCons(n[0], n[1..], '.');
    JoinCons(n[1], n[2..], '.');
    JoinCons(n[2], n[3..], '.');
    assert n[1..][1..] == n[2..] && n[2..][1..] == n[3..];
    var t := n[0] + ['.'] + (n[1] + ['.'] + (n[2] + ['.'] + n[3]));
    assert IpText(a) == t;
    forall i | 0 <= i < |t| ensures IsDigit(t[i]) || t[i] == '.' {
    }
  }

  /** The components `inet_pton` accepts are written without leading
      zeros, so the accepted text is exactly what `inet_ntop` writes back. */
  lemma {:induction false} CanonicalDigits(s: string)
    requires 0 < |s| && AllDigits(s) && (|s| == 1 || s[0] != '0')
    ensures NatToString(DigitsValue(s)) == s
    ensures |s| > 1 ==> DigitsValue(s) >= 10
    decreases |s|
  {
    if |s| > 1 {
      var init := s[..|s| - 1];
      assert init[0] == s[0];
      CanonicalDigits(init);
      if |init| == 1 {
        assert DigitsValue(init[..0]) == 0;
      }
      var v := DigitsValue(s);
      assert v / 10 == DigitsValue(init) && v % 10 == DigitValue(s[|s| - 1]);
      assert s == init + [s[|s| - 1]];
    } else {
      assert DigitsValue(s[..0]) == 0;
    }
  }

  lemma PtonCanonical(b: string)
    requires Pton(b).Some?
    ensures b == IpText(Pton(b).value)
  {
    var parts := Split(b, '.');
    var o := Certificates.ParseIpv4(b).value;
    forall i | 0 <= i < 4 ensures parts[i] == NatToString(o[i]) {
      CanonicalDigits(parts[i]);
    }
    assert parts == Certificates.Octets(o);
    JoinSplit(b, '.');
    OctetsAddr(o);
  }

  lemma ZeroText()
    ensures IpText(0) == "0.0.0.0"
  {
    var n := Certificates.Octets(OctetsOf(0));
    assert n == ["0", "0", "0", "0"];
    JoinCons(n[0], n[1..], '.');
    JoinCons(n[1], n[2..], '.');
    JoinCons(n[2], n[3..], '.');
    assert n[1..][1..] == n[2..] && n[2..][1..] == n[3..];
  }

  // ------------------------------------------------------------ IP ranges

  lemma {:induction false} Pow2Mono(a: nat, b: nat)
    requires a <= b
    ensures MihProtocol.Pow2(a) <= MihProtocol.Pow2(b)
    decreases b - a
  {
    if a < b {
      Pow2Mono(a, b - 1);
    }
  }

  /** The mask of a prefix length: `~0U << (32 - p)` kept to 32 bits, and
      0 for /0. */
  function PrefixMask(p: nat): (m: Addr)
    requires p <= 32
  {
    Pow2Of32();
    Pow2Mono(32 - p, 32);
    if p == 0 then 0 else 0x1_0000_0000 - MihProtocol.Pow2(32 - p)
  }

  /** The network of `ip/p`: `ip & mask` .. `ip | ~mask`. */
  function CidrRange(ip: Addr, p: nat): (r: IpRange)
    requires p <= 32
    ensures r.start <= ip <= r.end
  {
    var m := PrefixMask(p);
    MaskedRangeHolds(ip, m);
    IpRange(And32(ip, m), Or32(ip, Not32(m)))
  }

  /** /32 is the address alone and /0 the whole space. */
  lemma CidrExtremes(ip: Addr)
    ensures CidrRange(ip, 32) == IpRange(ip, ip)
    ensures CidrRange(ip, 0) == IpRange(0, AllOnes)
  {
    assert MihProtocol.Pow2(0) == 1;
    MaskExtremes(ip);
  }

  /** `parse_ip_range`: the text, cut to the 127 characters of the buffer
      and trimmed (`isspace` and `Strip` remove the same six characters),
      is "ip/prefix", "a-b" or a single address. The CIDR and range forms
      refuse the address 0, whose text `ip_str_to_uint32` cannot tell from
      a failure; the single form accepts it only as "0.0.0.0". */
  function ParseIpRange(text: string): (r: Option<IpRange>)
    ensures r.Some? ==> r.value.start <= r.value.end
  {
    ParseTrimmed(Strip(Bounded(text, 127)))
  }

  /** The three forms, told apart by the first '/' or else the first '-'. */
  function ParseTrimmed(b: string): (r: Option<IpRange>)
    ensures r.Some? ==> r.value.start <= r.value.end
  {
    if '/' in b then ParseCidr(BeforeFirst(b, '/'), AfterFirst(b, '/'))
    else if '-' in b then ParseDash(Strip(BeforeFirst(b, '-')), Strip(AfterFirst(b, '-')))
    else ParseSingle(b)
  }

  function ParseCidr(ipText: string, prefixText: string): (r: Option<IpRange>)
    ensures r.Some? ==> r.value.start <= r.value.end
  {
    var ip := IpValue(ipText);
    var p := CastI32(Atoi(prefixText));
    if ip == 0 || p < 0 || p > 32 then None else Some(CidrRange(ip, p))
  }

  function ParseDash(loText: string, hiText: string): (r: Option<IpRange>)
    ensures r.Some? ==> r.value.start <= r.value.end
  {
    var lo := IpValue(loText);
    var hi := IpValue(hiText);
    if lo == 0 || hi == 0 || lo > hi then None else Some(IpRange(lo, hi))
  }

  function ParseSingle(b: string): (r: Option<IpRange>)
    ensures r.Some? ==> r.value.start == r.value.end
  {
    var ip := IpValue(b);
    if ip == 0 && b != "0.0.0.0" then None else Some(IpRange(ip, ip))
  }

  lemma ShortText(t: string, cap: nat)
    requires |t| <= cap
    ensures Bounded(t, cap) == t
  {
  }

  lemma DottedStrip(t: string)
    requires Dotted(t)
    ensures Strip(t) == t
  {
    StripUnspaced(t);
  }

  /** Text that is already trimmed and fits the buffer is parsed as it
      stands. */
  lemma AsTyped(b: string)
    requires |b| <= 127 && (|b| == 0 || (!IsSpace(b[0]) && !IsSpace(b[|b| - 1])))
    ensures ParseIpRange(b) == ParseTrimmed(b)
  {
    if |b| > 0 {
      StripUnspaced(b);
    }
  }

  /** `ip/p` with a non-zero address and a prefix length of 0 to 32 parses
      to the network holding `ip`. */
  lemma CidrForm(ip: Addr, p: nat)
    requires ip != 0 && p <= 32
    ensures ParseIpRange(IpText(ip) + "/" + NatToString(p)) == Some(CidrRange(ip, p))
  {
    var t := IpText(ip);
    var n := NatToString(p);
    CidrText(ip, p);
    AsTyped(t + "/" + n);
    CidrSplit(t, n);
    IpTextReadsBack(ip);
    AtoiOfIntToString(p);
  }

  lemma CidrText(ip: Addr, p: nat)
    requires p <= 32
    ensures var b := IpText(ip) + "/" + NatToString(p);
      |b| <= 127 && (|b| == 0 || (!IsSpace(b[0]) && !IsSpace(b[|b| - 1]))) && '/' !in IpText(ip)
  {
    IpTextDotted(ip);
    Certificates.NatToStringShort(p);
  }

  lemma CidrSplit(t: string, n: string)
    requires '/' !in t
    ensures ParseTrimmed(t + "/" + n) == ParseCidr(t, n)
  {
    SplitAt(t, '/', n);
  }

  /** `BeforeFirst` and `AfterFirst` undo a join at a character the first
      part lacks. */
  lemma SplitAt(a: string, c: char, z: string)
    requires c !in a
    ensures c in a + [c] + z
    ensures BeforeFirst(a + [c] + z, c) == a && AfterFirst(a + [c] + z, c) == z
  {
    var b := a + [c] + z;
    assert b[|a|] == c;
    IndexOfAfter(a, c, z);
    assert b[..|a|] == a && b[|a| + 1..] == z;
  }

  /** The address 0 is refused in CIDR form: "0.0.0.0/0" is not the whole
      space but an error. */
  lemma CidrOfZeroRefused(p: nat)
    requires p <= 32
    ensures ParseIpRange(IpText(0) + "/" + NatToString(p)) == None
  {
    var t := IpText(0);
    var n := NatToString(p);
    CidrText(0, p);
    AsTyped(t + "/" + n);
    CidrSplit(t, n);
    IpTextReadsBack(0);
  }

  /** "lo-hi" is accepted iff both ends are non-zero and in order. */
  lemma DashForm(lo: Addr, hi: Addr)
    ensures ParseIpRange(IpText(lo) + "-" + IpText(hi))
         == if lo == 0 || hi == 0 || lo > hi then None else Some(IpRange(lo, hi))
  {
    var a := IpText(lo);
    var z := IpText(hi);
    DashText(lo, hi);
    AsTyped(a + "-" + z);
    DashSplit(a, z);
    IpTextReadsBack(lo);
    IpTextReadsBack(hi);
  }

  lemma DashText(lo: Addr, hi: Addr)
    ensures var b := IpText(lo) + "-" + IpText(hi);
      |b| <= 127 && (|b| == 0 || (!IsSpace(b[0]) && !IsSpace(b[|b| - 1])))
      && '/' !in b && '-' !in IpText(lo)
      && Strip(IpText(lo)) == IpText(lo) && Strip(IpText(hi)) == IpText(hi)
  {
    IpTextDotted(lo);
    IpTextDotted(hi);
    DottedStrip(IpText(lo));
    DottedStrip(IpText(hi));
  }

  lemma DashSplit(a: string, z: string)
    requires '-' !in a && '/' !in a + "-" + z && Strip(a) == a && Strip(z) == z
    ensures ParseTrimmed(a + "-" + z) == ParseDash(a, z)
  {
    SplitAt(a, '-', z);
  }

  /** Without '/' or '-', the trimmed text is accepted iff `inet_pton`
      accepts it, and is then the one-address range; the literal
      "0.0.0.0" test only undoes the ambiguity of the 0 that
      `ip_str_to_uint32` returns on failure. */
  lemma SingleForm(text: string)
    requires '/' !in Strip(Bounded(text, 127)) && '-' !in Strip(Bounded(text, 127))
    ensures ParseIpRange(text) == match Pton(Strip(Bounded(text, 127)))
                                  case Some(a) => Some(IpRange(a, a))
                                  case None => None
  {
    var b := Strip(Bounded(text, 127));
    assert ParseIpRange(text) == ParseSingle(b);
    ZeroText();
    IpTextReadsBack(0);
    if Pton(b) == Some(0) {
      PtonCanonical(b);
    }
  }

  /** `ip_range_to_string`: one address when the range has one, else
      "a-b". */
  function RangeText(r: IpRange): string {
    if r.start == r.end then IpText(r.start) else IpText(r.start) + "-" + IpText(r.end)
  }

  /** `parse_ip_range` reads back what `ip_range_to_string` prints, except
      a range of several addresses that starts at 0. */
  lemma RangeTextReadsBack(r: IpRange)
    requires r.start <= r.end
    ensures ParseIpRange(RangeText(r)) == if r.start == r.end || r.start != 0 then Some(r) else None
  {
    if r.start == r.end {
      var t := IpText(r.start);
      IpTextDotted(r.start);
      ShortText(t, 127);
      DottedStrip(t);
      assert '/' !in t && '-' !in t;
      SingleForm(t);
      IpTextReadsBack(r.start);
    } else {
      DashForm(r.start, r.end);
    }
  }

  // ------------------------------------------------------------ port lists

  /** `atoi` stored in an `int`. */
  function AtoiInt(s: string): int {
    CastI32(Atoi(s))
  }

  /** One token of a port list after trimming: "a-b", split at its first
      '-', or a single port; each number must lie in 0..65535 and a range
      must not run backwards. */
  function PortToken(tok: string): (r: Option<PortRange>)
    ensures r.Some? ==> r.value.valid && r.value.start <= r.value.end <= MaxPort
  {
    TokenOf(Strip(tok))
  }

  function TokenOf(t: string): (r: Option<PortRange>)
    ensures r.Some? ==> r.value.valid && r.value.start <= r.value.end <= MaxPort
  {
    if '-' in t then RangeOf(AtoiInt(BeforeFirst(t, '-')), AtoiInt(AfterFirst(t, '-')))
    else RangeOf(AtoiInt(t), AtoiInt(t))
  }

  /** The range a..b when both are ports and it does not run backwards. */
  function RangeOf(a: int, b: int): (r: Option<PortRange>)
    ensures r.Some? <==> 0 <= a <= b <= MaxPort
    ensures r.Some? ==> r.value == PortRange(a, b, true)
  {
    if a < 0 || a > 65535 || b < 0 || b > 65535 || a > b then None else Some(PortRange(a, b, true))
  }

  /** The tokens `strtok(…, ",")` gives for the list copied into the
      512-byte buffer and trimmed. */
  function PortTokens(text: string): seq<string> {
    Strtok(Strip(Bounded(text, 511)), ',')
  }

  /** What `read` makes of the tokens, up to the first one it refuses. */
  function Leading<T>(read: string -> Option<T>, toks: seq<string>): (rs: seq<T>)
    ensures |rs| <= |toks|
  {
    if |toks| == 0 then []
    else match read(toks[0])
      case None => []
      case Some(r) => [r] + Leading(read, toks[1..])
  }

  /** Each value `Leading` keeps is what its token reads as. */
  lemma {:induction false} LeadingTokens<T>(read: string -> Option<T>, toks: seq<string>)
    ensures forall i :: 0 <= i < |Leading(read, toks)| ==> read(toks[i]) == Some(Leading(read, toks)[i])
    decreases |toks|
  {
    if |toks| > 0 && read(toks[0]).Some? {
      var rest := toks[1..];
      LeadingTokens(read, rest);
      var rs := [read(toks[0]).value] + Leading(read, rest);
      assert Leading(read, toks) == rs;
      forall i | 0 <= i < |rs| ensures read(toks[i]) == Some(rs[i]) {
        if i > 0 {
          assert toks[i] == rest[i - 1] && rs[i] == Leading(read, rest)[i - 1];
        }
      }
    }
  }

  /** `Leading` keeps everything when `read` accepts every token. */
  lemma {:induction false} LeadingAll<T>(read: string -> Option<T>, toks: seq<string>, rs: seq<T>)
    requires |toks| == |rs| && forall i :: 0 <= i < |rs| ==> read(toks[i]) == Some(rs[i])
    ensures Leading(read, toks) == rs
    decreases |toks|
  {
    if |toks| > 0 {
      LeadingAll(read, toks[1..], rs[1..]);
    }
  }

  /** A token read after a run of good ones extends what `Leading` keeps. */
  lemma {:induction false} LeadingSnoc<T>(read: string -> Option<T>, toks: seq<string>, t: string)
    requires |Leading(read, toks)| == |toks| && read(t).Some?
    ensures Leading(read, toks + [t]) == Leading(read, toks) + [read(t).value]
    decreases |toks|
  {
    if |toks| > 0 {
      assert (toks + [t])[1..] == toks[1..] + [t];
      LeadingSnoc(read, toks[1..], t);
    } else {
      assert toks + [t] == [t];
    }
  }

  /** The step of a loop over the tokens: the first `k` read well, and
      the next one reads too. At the end, all of them. */
  lemma LeadingStep<T>(read: string -> Option<T>, toks: seq<string>, k: nat)
    requires k <= |toks|
    ensures k == |toks| ==> toks[..k] == toks
    ensures k < |toks| && |Leading(read, toks[..k])| == k && read(toks[k]).Some? ==>
      Leading(read, toks[..k + 1]) == Leading(read, toks[..k]) + [read(toks[k]).value]
  {
    if k < |toks| && |Leading(read, toks[..k])| == k && read(toks[k]).Some? {
      assert toks[..k + 1] == toks[..k] + [toks[k]];
      LeadingSnoc(read, toks[..k], toks[k]);
    }
  }

  /** `Leading` stops at the first token `read` refuses. */
  lemma {:induction false} LeadingStops<T>(read: string -> Option<T>, toks: seq<string>, k: nat)
    requires k < |toks| && read(toks[k]).None?
    ensures |Leading(read, toks)| <= k
    decreases k
  {
    if k > 0 && read(toks[0]).Some? {
      var rest := toks[1..];
      assert rest[k - 1] == toks[k];
      LeadingStops(read, rest, k - 1);
    }
  }

  /** `parse_port_range(text, ranges, max)`: the ranges of the first `max`
      tokens, or failure (-1) when `max` is not positive or one of those
      tokens is bad; the tokens after them are not looked at. */
  function ParsePortRange(text: string, max: int): (r: Option<seq<PortRange>>)
    ensures r.Some? ==> |r.value| <= max
    ensures r.Some? ==> forall i :: 0 <= i < |r.value| ==> r.value[i].valid && r.value[i].start <= r.value[i].end <= MaxPort
  {
    if max <= 0 then None
    else
      var toks := PortTokens(text);
      var n := if |toks| < max then |toks| else max;
      var rs := Leading(PortToken, toks[..n]);
      LeadingTokens(PortToken, toks[..n]);
      if |rs| == n then Some(rs) else None
  }

  /** A range as the profile writes it: "p" or "a-b". */
  function PortText(r: PortRange): string {
    if r.start == r.end then NatToString(r.start) else NatToString(r.start) + "-" + NatToString(r.end)
  }

  lemma AtoiOfNat(n: nat)
    requires n <= 65535
    ensures AtoiInt(NatToString(n)) == n
  {
    AtoiOfIntToString(n);
  }

  /** "a-b" reads as the range a..b when that is a range of ports, and is
      refused otherwise. */
  lemma PortTokenRange(a: nat, b: nat)
    requires a < 0x8000_0000 && b < 0x8000_0000
    ensures PortToken(NatToString(a) + "-" + NatToString(b))
         == if a <= b <= MaxPort then Some(PortRange(a, b, true)) else None
  {
    var x := NatToString(a);
    var y := NatToString(b);
    var t := x + ['-'] + y;
    assert t == NatToString(a) + "-" + NatToString(b);
    assert t[0] == x[0] && t[|t| - 1] == y[|y| - 1];
    StripUnspaced(t);
    SplitAt(x, '-', y);
    assert BeforeFirst(t, '-') == x && AfterFirst(t, '-') == y;
    AtoiOfIntToString(a);
    AtoiOfIntToString(b);
    assert IntToString(a) == x && IntToString(b) == y;
    assert AtoiInt(x) == a && AtoiInt(y) == b;
    assert TokenOf(t) == RangeOf(a, b);
  }

  /** One number reads as one port, when it is a port. */
  lemma PortTokenSingle(a: nat)
    requires a < 0x8000_0000
    ensures PortToken(NatToString(a)) == if a <= MaxPort then Some(PortRange(a, a, true)) else None
  {
    var x := NatToString(a);
    StripUnspaced(x);
    assert '-' !in x;
    AtoiOfIntToString(a);
    assert TokenOf(x) == RangeOf(a, a);
  }

  /** A range written as a profile writes it reads back as itself. */
  lemma PortTextReadsBack(r: PortRange)
    requires r.valid && r.start <= r.end <= MaxPort
    ensures PortToken(PortText(r)) == Some(r)
  {
    if r.start == r.end {
      PortTokenSingle(r.start);
    } else {
      PortTokenRange(r.start, r.end);
    }
  }

  /** Characters of a rendered port list. */
  predicate PortChars(t: string) {
    0 < |t| && IsDigit(t[0]) && IsDigit(t[|t| - 1])
    && forall i :: 0 <= i < |t| ==> IsDigit(t[i]) || t[i] == '-' || t[i] == ','
  }

  predicate PortList(rs: seq<PortRange>) {
    forall i :: 0 <= i < |rs| ==> rs[i].valid && rs[i].start <= rs[i].end <= MaxPort
  }

  function PortTexts(rs: seq<PortRange>): (ts: seq<string>)
    ensures |ts| == |rs| && forall i :: 0 <= i < |rs| ==> ts[i] == PortText(rs[i])
  {
    if |rs| == 0 then [] else [PortText(rs[0])] + PortTexts(rs[1..])
  }

  /** "80,443,5000-6000": the list as a profile writes it. */
  function PortListText(rs: seq<PortRange>): string {
    JoinWith(PortTexts(rs), ',')
  }

  /** 10^k. */
  function Ten(k: nat): (r: nat)
    ensures r >= 1
  {
    if k == 0 then 1 else 10 * Ten(k - 1)
  }

  /** A number below 10^k has at most k digits. */
  lemma {:induction false} ShortDigits(n: nat, k: nat)
    requires 0 < k && n < Ten(k)
    ensures |NatToString(n)| <= k
    decreases k
  {
    if n >= 10 {
      assert n / 10 < Ten(k - 1);
      ShortDigits(n / 10, k - 1);
    }
  }

  lemma PortTextShape(r: PortRange)
    requires r.start <= r.end <= MaxPort
    ensures PortChars(PortText(r)) && |PortText(r)| <= 11 && ',' !in PortText(r)
  {
    assert Ten(5) == 100000;
    ShortDigits(r.start, 5);
    ShortDigits(r.end, 5);
    var x := NatToString(r.start);
    var y := NatToString(r.end);
    if r.start != r.end {
      var t := x + ['-'] + y;
      assert PortText(r) == t;
      assert t[0] == x[0] && t[|t| - 1] == y[|y| - 1];
      forall i | 0 <= i < |t| ensures IsDigit(t[i]) || t[i] == '-' {
        if i > |x| {
          assert t[i] == y[i - |x| - 1];
        }
      }
    }
  }

  lemma CommaJoinChars(a: string, z: string)
    requires PortChars(a) && PortChars(z)
    ensures PortChars(a + [','] + z)
  {
    var t := a + [','] + z;
    assert t[0] == a[0] && t[|t| - 1] == z[|z| - 1];
    forall i | 0 <= i < |t| ensures IsDigit(t[i]) || t[i] == '-' || t[i] == ',' {
      if i > |a| {
        assert t[i] == z[i - |a| - 1];
      }
    }
  }

  lemma {:induction false} JoinShape(rs: seq<PortRange>)
    requires |rs| > 0 && PortList(rs)
    ensures PortChars(PortListText(rs)) && |PortListText(rs)| <= 12 * |rs|
    decreases |rs|
  {
    PortTextShape(rs[0]);
    if |rs| > 1 {
      JoinShape(rs[1..]);
      assert PortTexts(rs) == [PortText(rs[0])] + PortTexts(rs[1..]);
      JoinCons(PortText(rs[0]), PortTexts(rs[1..]), ',');
      CommaJoinChars(PortText(rs[0]), PortListText(rs[1..]));
    } else {
      assert PortTexts(rs) == [PortText(rs[0])];
    }
  }

  /** `parse_port_range` reads back a list of up to `max` ranges written
      as a profile writes them. */
  lemma PortListReadsBack(rs: seq<PortRange>, max: int)
    requires 0 < |rs| <= 40 && |rs| <= max && PortList(rs)
    ensures ParsePortRange(PortListText(rs), max) == Some(rs)
  {
    var t := PortListText(rs);
    var ts := PortTexts(rs);
    JoinShape(rs);
    assert Bounded(t, 511) == t;
    StripUnspaced(t);
    forall i | 0 <= i < |ts| ensures |ts[i]| > 0 && ',' !in ts[i] {
      PortTextShape(rs[i]);
    }
    StrtokJoin(ts, ',');
    assert PortTokens(t) == ts;
    assert ts[..|rs|] == ts;
    forall i | 0 <= i < |rs| ensures PortToken(ts[i]) == Some(rs[i]) {
      PortTextReadsBack(rs[i]);
    }
    LeadingAll(PortToken, ts, rs);
    assert PortTokens(t)[..|rs|] == ts;
  }

  /** One bad token among the first `max` makes the whole list fail. */
  lemma BadTokenRefuses(text: string, max: int, k: nat)
    requires k < max && k < |PortTokens(text)| && PortToken(PortTokens(text)[k]).None?
    ensures ParsePortRange(text, max) == None
  {
    var toks := PortTokens(text);
    var n := if |toks| < max then |toks| else max;
    assert toks[..n][k] == toks[k];
    LeadingStops(PortToken, toks[..n], k);
  }

  // ------------------------------------------------------------ protocols

  /** `toupper` on ASCII. */
  function Upper(c: char): char {
    if 'a' <= c <= 'z' then (c as int - 32) as char else c
  }

  function UpperAll(s: string): (r: string)
    ensures |r| == |s| && forall i :: 0 <= i < |s| ==> r[i] == Upper(s[i])
  {
    if |s| == 0 then "" else [Upper(s[0])] + UpperAll(s[1..])
  }

  /** `protocol_name_to_number`: the name, cut to the 31 characters of the
      buffer and upper-cased, is TCP (6), UDP (17), ICMP (1) or IP (0, any
      protocol), else a decimal number 0..255, else 0. */
  function ProtocolNumber(name: string): (n: nat)
    ensures n < 256
  {
    UpperNumber(UpperAll(Bounded(name, 31)))
  }

  /** The comparisons and the conversion, on the upper-cased name. */
  function UpperNumber(u: string): (n: nat)
    ensures n < 256
  {
    if u == "TCP" then 6
    else if u == "UDP" then 17
    else if u == "ICMP" then 1
    else if u == "IP" then 0
    else
      var v := AtoiInt(u);
      if 0 <= v <= 255 then v else 0
  }

  // ------------------------------------------------------------ rule text

  /** The characters before the next white space, at most `cap` of them:
      how the parser copies a field into its fixed buffer. */
  function Word(s: string, cap: nat): (w: string)
    ensures |w| <= cap && IsPrefix(w, s)
    ensures forall i :: 0 <= i < |w| ==> !CIsSpace(w[i])
    ensures |w| < cap && |w| < |s| ==> CIsSpace(s[|w|])
  {
    if cap == 0 || |s| == 0 || CIsSpace(s[0]) then ""
    else
      var w := Word(s[1..], cap - 1);
      assert s[..|w| + 1] == [s[0]] + w;
      [s[0]] + w
  }

  /** What every rule the parser accepts looks like: both ranges set and
      in order, the source port never set, the destination port a range
      of ports, and protocol 0 unless one was named. */
  predicate Parsed(rule: TftRule) {
    rule.src.Some? && rule.dst.Some?
    && rule.src.value.start <= rule.src.value.end && rule.dst.value.start <= rule.dst.value.end
    && rule.srcPort == Unset && rule.dstPort.start <= rule.dstPort.end <= MaxPort
    && rule.protocol < 256 && (!rule.hasProtocol ==> rule.protocol == 0)
  }

  /** `tft_parse_rule`: "permit", then "out" or "in", "ip", "from", the
      source range, "to", the destination range with an optional
      ":ports" list of which the first range is kept (none leaves the
      zeroed range), and an optional protocol word; keywords are matched
      as prefixes and white space between them is skipped. The source
      port is never set. */
  function ParseRule(s: string): (r: Option<TftRule>)
    ensures r.Some? ==> Parsed(r.value)
  {
    var b := Bounded(s, MaxTftLen - 1);
    if !IsPrefix("permit", b) then None
    else
      var p := SkipSpace(b[6..]);
      if IsPrefix("out", p) then ParseFrom(true, p[3..])
      else if IsPrefix("in", p) then ParseFrom(false, p[2..])
      else None
  }

  /** The rule after its direction: "ip from SRC …". */
  function ParseFrom(outbound: bool, s: string): (r: Option<TftRule>)
    ensures r.Some? ==> Parsed(r.value)
  {
    AfterIp(outbound, SkipSpace(s))
  }

  function AfterIp(outbound: bool, p: string): (r: Option<TftRule>)
    ensures r.Some? ==> Parsed(r.value)
  {
    if !IsPrefix("ip", p) then None else AfterFrom(outbound, SkipSpace(p[2..]))
  }

  function AfterFrom(outbound: bool, q: string): (r: Option<TftRule>)
    ensures r.Some? ==> Parsed(r.value)
  {
    if !IsPrefix("from", q) then None else SourceAt(outbound, SkipSpace(q[4..]))
  }

  /** The source field, at most 63 characters. */
  function SourceAt(outbound: bool, t: string): (r: Option<TftRule>)
    ensures r.Some? ==> Parsed(r.value)
  {
    var w := Word(t, 63);
    match ParseIpRange(w)
    case None => None
    case Some(src) => ParseTo(outbound, src, t[|w|..])
  }

  /** The rule after its source: "to DST[:PORTS] [PROTO]". */
  function ParseTo(outbound: bool, src: IpRange, s: string): (r: Option<TftRule>)
    requires src.start <= src.end
    ensures r.Some? ==> r.value.src == Some(src) && Parsed(r.value)
  {
    var p := SkipSpace(s);
    if !IsPrefix("to", p) then None
    else
      var t := SkipSpace(p[2..]);
      var w := Word(t, 127);
      match DestOf(w)
      case None => None
      case Some(d) => Some(RuleOf(outbound, src, d, SkipSpace(t[|w|..])))
  }

  /** The rule the fields make; a protocol word, if any, begins `rest`. */
  function RuleOf(outbound: bool, src: IpRange, d: (IpRange, PortRange), rest: string): (r: TftRule)
    requires src.start <= src.end && d.0.start <= d.0.end && d.1.start <= d.1.end <= MaxPort
    ensures Parsed(r) && r.src == Some(src)
  {
    var has := |rest| > 0;
    TftRule(Some(src), Some(d.0), Unset, d.1, if has then ProtocolNumber(Word(rest, 31)) else 0, has, outbound)
  }

  /** The destination field: "RANGE:PORTS" or "RANGE", the latter meaning
      every port. */
  function DestOf(w: string): (r: Option<(IpRange, PortRange)>)
    ensures r.Some? ==> r.value.0.start <= r.value.0.end && r.value.1.start <= r.value.1.end <= MaxPort
    ensures r.Some? && ':' !in w ==> r.value.1 == AnyPort
  {
    if ':' in w then
      match (ParseIpRange(BeforeFirst(w, ':')), ParsePortRange(AfterFirst(w, ':'), 10))
      case (Some(dst), Some(ports)) => Some((dst, if |ports| > 0 then ports[0] else Unset))
      case _ => None
    else
      match ParseIpRange(w)
      case Some(dst) => Some((dst, AnyPort))
      case None => None
  }

  // ------------------------------------------------------------ validation

  /** `port_in_ranges`: some valid range holds the port. */
  predicate InRanges(port: int, rs: seq<PortRange>) {
    exists i :: 0 <= i < |rs| && rs[i].valid && rs[i].start <= port <= rs[i].end
  }

  /** One range of the list holds the whole of `r` (this loop does not
      look at `is_valid`). */
  predicate Covers(r: PortRange, rs: seq<PortRange>) {
    exists i :: 0 <= i < |rs| && rs[i].start <= r.start && r.end <= rs[i].end
  }

  /** The port check, the same for the destination and the source: the
      first port is listed and, for a range, the last one too and one
      listed range covers it. */
  predicate PortAllowed(r: PortRange, rs: seq<PortRange>) {
    InRanges(r.start, rs) && (r.start == r.end || (InRanges(r.end, rs) && Covers(r, rs)))
  }

  /** `ip_in_range`. */
  predicate IpIn(a: Addr, w: IpRange) {
    w.start <= a <= w.end
  }

  /** The whitelist's destination range; unconfigured means every address. */
  function WhitelistIp(text: string): Option<IpRange> {
    if text == "" then Some(IpRange(0, AllOnes)) else ParseIpRange(text)
  }

  /** The whitelist's destination ports (at most 20 ranges); unconfigured
      means every port. */
  function WhitelistPorts(text: string): Option<seq<PortRange>> {
    if text == "" then Some([AnyPort]) else ParsePortRange(text, 20)
  }

  /** Some entry of the allowed list names the protocol. */
  predicate ProtocolListed(proto: nat, names: seq<string>) {
    exists i :: 0 <= i < |names| && ProtocolNumber(names[i]) == proto
  }

  /** `tft_validate_against_whitelist`: -2 when the rule or a configured
      whitelist field does not parse, -1 when the rule asks for more than
      the whitelist allows, 0 when it is granted. The checks run in the
      order destination address, destination ports, source ports,
      protocol, and the first to fail decides. */
  function Validate(s: string, wl: Whitelist): (rc: int)
    ensures rc == 0 || rc == -1 || rc == -2
    ensures rc == -2 ==> ParseRule(s).None? || WhitelistIp(wl.destIpRange).None?
                         || WhitelistPorts(wl.destPortRange).None? || ParsePortRange(wl.sourcePortRange, 20).None?
  {
    match ParseRule(s)
    case None => -2
    case Some(rule) => Check(rule, wl)
  }

  function Check(rule: TftRule, wl: Whitelist): (rc: int)
    requires rule.dst.Some?
    ensures rc == 0 || rc == -1 || rc == -2
    ensures rc == -2 ==> WhitelistIp(wl.destIpRange).None?
                         || WhitelistPorts(wl.destPortRange).None? || ParsePortRange(wl.sourcePortRange, 20).None?
  {
    match WhitelistIp(wl.destIpRange)
    case None => -2
    case Some(w) =>
      if !IpIn(rule.dst.value.start, w) || !IpIn(rule.dst.value.end, w) then -1
      else CheckDestPorts(rule, wl)
  }

  function CheckDestPorts(rule: TftRule, wl: Whitelist): (rc: int)
    ensures rc == 0 || rc == -1 || rc == -2
    ensures rc == -2 ==> WhitelistPorts(wl.destPortRange).None? || ParsePortRange(wl.sourcePortRange, 20).None?
  {
    match WhitelistPorts(wl.destPortRange)
    case None => -2
    case Some(dps) => if !PortAllowed(rule.dstPort, dps) then -1 else CheckSource(rule, wl)
  }

  function CheckSource(rule: TftRule, wl: Whitelist): (rc: int)
    ensures rc == 0 || rc == -1 || rc == -2
    ensures rc == -2 ==> ParsePortRange(wl.sourcePortRange, 20).None?
  {
    if wl.sourcePortRange == "" then CheckProtocol(rule, wl)
    else match ParsePortRange(wl.sourcePortRange, 20)
      case None => -2
      case Some(sps) => if !PortAllowed(rule.srcPort, sps) then -1 else CheckProtocol(rule, wl)
  }

  /** Only a rule naming a protocol other than 0 is held against a
      non-empty allowed list. */
  function CheckProtocol(rule: TftRule, wl: Whitelist): (rc: int)
    ensures rc == 0 || rc == -1
  {
    if |wl.allowedProtocols| > 0 && rule.hasProtocol && rule.protocol != 0
       && !ProtocolListed(rule.protocol, wl.allowedProtocols) then -1
    else 0
  }

  /** `port_in_ranges`: the loop over the first `n` entries as it reads
      them. */
  method PortInRanges(port: int, ranges: array<PortRange>, n: int) returns (found: bool)
    requires n <= ranges.Length
    ensures found == (n > 0 && InRanges(port, ranges[..n]))
  {
    if n <= 0 {
      return false;
    }
    var i := 0;
    while i < n
      invariant 0 <= i <= n
      invariant !InRanges(port, ranges[..i])
    {
      if ranges[i].valid && ranges[i].start <= port <= ranges[i].end {
        assert ranges[..n][i] == ranges[i];
        return true;
      }
      assert ranges[..i + 1] == ranges[..i] + [ranges[i]];
      i := i + 1;
    }
    assert ranges[..i] == ranges[..n];
    return false;
  }

  /** `parse_port_range` with its `strtok` loop: the ranges go into the
      caller's array, and the count, or -1, is returned. */
  method ParsePortList(text: string, ranges: array<PortRange>, max: int) returns (count: int)
    requires max <= ranges.Length
    modifies ranges
    ensures count == -1 <==> ParsePortRange(text, max).None?
    ensures count != -1 ==> 0 <= count <= ranges.Length && ranges[..count] == ParsePortRange(text, max).value
  {
    if max <= 0 {
      return -1;
    }
    var toks := PortTokens(text);
    var n := if |toks| < max then |toks| else max;
    count := ReadTokens(PortToken, toks[..n], ranges);
  }

  /** The body of the `strtok` loop over the tokens it reaches: each one
      read (by `read`, which is `PortToken` here) into the next entry,
      stopping with -1 at the first bad one. */
  method ReadTokens<T>(read: string -> Option<T>, toks: seq<string>, ranges: array<T>) returns (count: int)
    requires |toks| <= ranges.Length
    modifies ranges
    ensures count == -1 <==> |Leading(read, toks)| < |toks|
    ensures count != -1 ==> count == |toks| && ranges[..count] == Leading(read, toks)
  {
    ghost var got: seq<T> := [];
    count := 0;
    while count < |toks|
      invariant 0 <= count <= |toks| && |got| == count
      invariant forall j :: 0 <= j < count ==> ranges[j] == got[j]
      invariant Leading(read, toks[..count]) == got
    {
      var r := read(toks[count]);
      if r.None? {
        LeadingStops(read, toks, count);
        return -1;
      }
      LeadingStep(read, toks, count);
      ranges[count] := r.value;
      got := got + [r.value];
      count := count + 1;
    }
    LeadingStep(read, toks, count);
    assert ranges[..count] == got;
  }



  /** `protocol_name_to_number`: the name copied into a 32-byte buffer,
      upper-cased there in place, then compared and converted. */
  method ProtocolNameToNumber(name: string) returns (proto: nat)
    ensures proto == ProtocolNumber(name)
  {
    var copy := Bounded(name, 31);
    var buffer := new char[|copy|](i requires 0 <= i < |copy| => copy[i]);
    var k := 0;
    while k < buffer.Length
      invariant 0 <= k <= buffer.Length
      invariant forall j :: 0 <= j < k ==> buffer[j] == Upper(copy[j])
      invariant forall j :: k <= j < buffer.Length ==> buffer[j] == copy[j]
    {
      buffer[k] := Upper(buffer[k]);
      k := k + 1;
    }
    assert buffer[..] == UpperAll(copy);
    proto := UpperNumber(buffer[..]);
  }

  /** The coverage loop of the validator: some entry among the first `n`
      holds the whole range. */
  method RangeCovered(r: PortRange, ranges: array<PortRange>, n: int) returns (covered: bool)
    requires 0 <= n <= ranges.Length
    ensures covered == Covers(r, ranges[..n])
  {
    var i := 0;
    while i < n
      invariant 0 <= i <= n
      invariant !Covers(r, ranges[..i])
    {
      if r.start >= ranges[i].start && r.end <= ranges[i].end {
        assert ranges[..n][i] == ranges[i];
        return true;
      }
      assert ranges[..i + 1] == ranges[..i] + [ranges[i]];
      i := i + 1;
    }
    assert ranges[..i] == ranges[..n];
    return false;
  }

  /** The port check as the validator writes it with its flag. */
  method CheckPorts(r: PortRange, ranges: array<PortRange>, n: int) returns (ok: bool)
    requires 0 <= n <= ranges.Length
    ensures ok == PortAllowed(r, ranges[..n])
  {
    ok := true;
    var first := PortInRanges(r.start, ranges, n);
    if !first {
      ok := false;
    }
    if r.start != r.end {
      var last := PortInRanges(r.end, ranges, n);
      if !last {
        ok := false;
      }
    }
    if r.start != r.end {
      var covered := RangeCovered(r, ranges, n);
      if !covered {
        ok := false;
      }
    }
  }

  /** The protocol loop: some allowed name maps to the rule's number. */
  method ProtocolAllowed(proto: nat, names: seq<string>) returns (allowed: bool)
    ensures allowed == ProtocolListed(proto, names)
  {
    var i := 0;
    while i < |names|
      invariant 0 <= i <= |names|
      invariant !ProtocolListed(proto, names[..i])
    {
      var p := ProtocolNameToNumber(names[i]);
      if p == proto {
        return true;
      }
      assert names[..i + 1] == names[..i] + [names[i]];
      i := i + 1;
    }
    assert names[..i] == names;
    return false;
  }

  /** The leading-whitespace skip of the field scanner, the pointer standing for the
      text from it to the end of the buffer. */
  method SkipSpaces(p0: string) returns (p: string)
    ensures p == SkipSpace(p0)
  {
    p := p0;
    while |p| > 0 && CIsSpace(p[0])
      invariant SkipSpace(p) == SkipSpace(p0)
    {
      p := p[1..];
    }
  }

  /** The copy loop `while (*p && !isspace(*p) && i < cap)` into a
      field buffer: the word, and where the pointer stops. */
  method CopyWord(p0: string, cap: nat) returns (w: string, p: string)
    ensures w == Word(p0, cap) && p == p0[|w|..]
  {
    var i := 0;
    while i < |p0| && !CIsSpace(p0[i]) && i < cap
      invariant 0 <= i <= |p0| && i <= cap
      invariant forall j :: 0 <= j < i ==> !CIsSpace(p0[j])
    {
      i := i + 1;
    }
    WordIs(p0, cap, i);
    w := p0[..i];
    p := p0[i..];
  }

  /** `Word` stops at the first white space, the end, or the cap. */
  lemma {:induction false} WordIs(s: string, cap: nat, k: nat)
    requires k <= |s| && k <= cap && forall j :: 0 <= j < k ==> !CIsSpace(s[j])
    requires k == |s| || k == cap || CIsSpace(s[k])
    ensures Word(s, cap) == s[..k]
    decreases k
  {
    if k > 0 {
      WordIs(s[1..], cap - 1, k - 1);
      assert s[..k] == [s[0]] + s[1..][..k - 1];
    }
  }

  /** The destination field, with the port list read into a ten-entry
      array of which the first entry is kept. */
  method ParseDest(w: string) returns (d: Option<(IpRange, PortRange)>)
    ensures d == DestOf(w)
  {
    if ':' in w {
      var dst := ParseIpRange(BeforeFirst(w, ':'));
      if dst.None? {
        return None;
      }
      var ports := new PortRange[10](_ => Unset);
      var n := ParsePortList(AfterFirst(w, ':'), ports, 10);
      if n < 0 {
        return None;
      }
      var port := Unset;
      if n > 0 {
        port := ports[0];
      }
      return Some((dst.value, port));
    } else {
      var dst := ParseIpRange(w);
      if dst.None? {
        return None;
      }
      return Some((dst.value, AnyPort));
    }
  }

  /** `tft_parse_rule`: the pointer walk over the 512-byte copy of the
      rule; -1 and a rule that is not valid on failure. */
  method ParseTftRule(s: string) returns (rc: int, rule: TftRule)
    ensures rc == 0 || rc == -1
    ensures rc == 0 <==> ParseRule(s).Some?
    ensures rc == 0 ==> rule == ParseRule(s).value
  {
    var buffer := Bounded(s, MaxTftLen - 1);
    rule := TftRule(None, None, Unset, Unset, 0, false, false);
    if !IsPrefix("permit", buffer) {
      return -1, rule;
    }
    var p := SkipSpaces(buffer[6..]);
    if IsPrefix("out", p) {
      rc, rule := ParseFromAt(p[3..], true);
    } else if IsPrefix("in", p) {
      rc, rule := ParseFromAt(p[2..], false);
    } else {
      return -1, rule;
    }
  }

  /** The walk from after the direction. */
  method ParseFromAt(p0: string, outbound: bool) returns (rc: int, rule: TftRule)
    ensures rc == 0 || rc == -1
    ensures rc == 0 <==> ParseFrom(outbound, p0).Some?
    ensures rc == 0 ==> rule == ParseFrom(outbound, p0).value
  {
    rule := TftRule(None, None, Unset, Unset, 0, false, false);
    var p := SkipSpaces(p0);
    if !IsPrefix("ip", p) {
      return -1, rule;
    }
    p := SkipSpaces(p[2..]);
    if !IsPrefix("from", p) {
      return -1, rule;
    }
    p := SkipSpaces(p[4..]);
    var srcText, rest := CopyWord(p, 63);
    var src := ParseIpRange(srcText);
    if src.None? {
      return -1, rule;
    }
    rc, rule := ParseToAt(rest, outbound, src.value);
  }

  /** The walk from after the source. */
  method ParseToAt(p0: string, outbound: bool, src: IpRange) returns (rc: int, rule: TftRule)
    requires src.start <= src.end
    ensures rc == 0 || rc == -1
    ensures rc == 0 <==> ParseTo(outbound, src, p0).Some?
    ensures rc == 0 ==> rule == ParseTo(outbound, src, p0).value
  {
    rule := TftRule(None, None, Unset, Unset, 0, false, false);
    var p := SkipSpaces(p0);
    if !IsPrefix("to", p) {
      return -1, rule;
    }
    p := SkipSpaces(p[2..]);
    var destText, rest := CopyWord(p, 127);
    var d := ParseDest(destText);
    if d.None? {
      return -1, rule;
    }
    rest := SkipSpaces(rest);
    var proto := 0;
    var has := false;
    if |rest| > 0 {
      var name, _ := CopyWord(rest, 31);
      proto := ProtocolNameToNumber(name);
      has := true;
    }
    rule := TftRule(Some(src), Some(d.value.0), Unset, d.value.1, proto, has, outbound);
    rc := 0;
  }

  /** `tft_validate_against_whitelist`, with its whitelist port arrays of
      twenty entries; the error message and the log lines are left out. */
  method ValidateAgainstWhitelist(s: string, wl: Whitelist) returns (rc: int)
    ensures rc == Validate(s, wl)
  {
    var parsed, rule := ParseTftRule(s);
    if parsed != 0 {
      return -2;
    }
    rc := CheckRule(rule, wl);
  }

  /** The checks after the rule has parsed: destination address, then
      destination ports. */
  method CheckRule(rule: TftRule, wl: Whitelist) returns (rc: int)
    requires rule.dst.Some?
    ensures rc == Check(rule, wl)
  {
    var w: IpRange;
    if wl.destIpRange == "" {
      w := IpRange(0, AllOnes);
    } else {
      var o := ParseIpRange(wl.destIpRange);
      if o.None? {
        return -2;
      }
      w := o.value;
    }
    if !IpIn(rule.dst.value.start, w) || !IpIn(rule.dst.value.end, w) {
      return -1;
    }
    rc := CheckDestPortsOf(rule, wl);
  }

  /** The destination ports against the whitelist's list. */
  method CheckDestPortsOf(rule: TftRule, wl: Whitelist) returns (rc: int)
    ensures rc == CheckDestPorts(rule, wl)
  {
    var dps := new PortRange[20](_ => Unset);
    var n: int;
    if wl.destPortRange == "" {
      dps[0] := AnyPort;
      n := 1;
      assert dps[..n] == [AnyPort];
    } else {
      n := ParsePortList(wl.destPortRange, dps, 20);
      if n < 0 {
        return -2;
      }
    }
    var ok := CheckPorts(rule.dstPort, dps, n);
    if !ok {
      return -1;
    }
    rc := CheckRest(rule, wl);
  }

  /** The source ports, when configured, then the protocol. */
  method CheckRest(rule: TftRule, wl: Whitelist) returns (rc: int)
    ensures rc == CheckSource(rule, wl)
  {
    if wl.sourcePortRange != "" {
      var sps := new PortRange[20](_ => Unset);
      var m := ParsePortList(wl.sourcePortRange, sps, 20);
      if m < 0 {
        return -2;
      }
      var ok := CheckPorts(rule.srcPort, sps, m);
      if !ok {
        return -1;
      }
    }
    if |wl.allowedProtocols| > 0 && rule.hasProtocol && rule.protocol != 0 {
      var allowed := ProtocolAllowed(rule.protocol, wl.allowedProtocols);
      if !allowed {
        return -1;
      }
    }
    return 0;
  }

  // ------------------------------------------------------------ properties

  /** Checking the two ends of the requested destination range is checking
      every address in it. */
  lemma DestinationInside(dst: IpRange, w: IpRange)
    requires dst.start <= dst.end
    ensures (IpIn(dst.start, w) && IpIn(dst.end, w)) <==> forall a: Addr :: dst.start <= a <= dst.end ==> IpIn(a, w)
  {
    if forall a: Addr :: dst.start <= a <= dst.end ==> IpIn(a, w) {
      assert IpIn(dst.start, w) && IpIn(dst.end, w);
    }
  }

  /** Against a parsed list, the port check grants exactly the ranges that
      one listed range covers. */
  lemma PortCheckIsCoverage(r: PortRange, rs: seq<PortRange>)
    requires r.start <= r.end
    requires forall i :: 0 <= i < |rs| ==> rs[i].valid
    ensures PortAllowed(r, rs) <==> Covers(r, rs)
  {
    if Covers(r, rs) {
      var i :| 0 <= i < |rs| && rs[i].start <= r.start && r.end <= rs[i].end;
      assert rs[i].valid && rs[i].start <= r.start <= rs[i].end;
      assert rs[i].valid && rs[i].start <= r.end <= rs[i].end;
    }
    if PortAllowed(r, rs) && r.start == r.end {
      var i :| 0 <= i < |rs| && rs[i].valid && rs[i].start <= r.start <= rs[i].end;
      assert rs[i].start <= r.start && r.end <= rs[i].end;
    }
  }

  /** Two adjacent listed ranges do not together grant a range that spans
      them: each requested range must fit one listed range. */
  lemma SpanningRangeRefused()
    ensures var listed := [PortRange(0, 100, true), PortRange(101, 200, true)];
            (forall port :: 50 <= port <= 150 ==> InRanges(port, listed))
            && !PortAllowed(PortRange(50, 150, true), listed)
  {
    var listed := [PortRange(0, 100, true), PortRange(101, 200, true)];
    forall port | 50 <= port <= 150 ensures InRanges(port, listed) {
      if port <= 100 {
        assert listed[0].valid && listed[0].start <= port <= listed[0].end;
      } else {
        assert listed[1].valid && listed[1].start <= port <= listed[1].end;
      }
    }
  }

  /** The parser never sets a source port, so a configured source-port
      list grants a rule exactly when one of its ranges starts at port 0. */
  lemma SourcePortNeedsZero(s: string, sps: seq<PortRange>)
    requires ParseRule(s).Some?
    requires forall i :: 0 <= i < |sps| ==> sps[i].valid
    ensures PortAllowed(ParseRule(s).value.srcPort, sps) <==> exists i :: 0 <= i < |sps| && sps[i].start == 0
  {
    ZeroPortOnly(ParseRule(s).value.srcPort, sps);
  }

  lemma ZeroPortOnly(r: PortRange, sps: seq<PortRange>)
    requires r == Unset && forall i :: 0 <= i < |sps| ==> sps[i].valid
    ensures PortAllowed(r, sps) <==> exists i :: 0 <= i < |sps| && sps[i].start == 0
  {
    if exists i :: 0 <= i < |sps| && sps[i].start == 0 {
      var i :| 0 <= i < |sps| && sps[i].start == 0;
      assert sps[i].valid && sps[i].start <= 0 <= sps[i].end;
    }
  }

  /** A rule without a protocol, or whose protocol reads as 0 ("IP", an
      unknown name, a number above 255), is never held against the allowed
      list; any other rule passes exactly when the list names its protocol. */
  lemma ProtocolCheckMeans(rule: TftRule, wl: Whitelist)
    ensures CheckProtocol(rule, wl) == 0 <==>
      (|wl.allowedProtocols| == 0 || !rule.hasProtocol || rule.protocol == 0
       || exists i :: 0 <= i < |wl.allowedProtocols| && ProtocolNumber(wl.allowedProtocols[i]) == rule.protocol)
  {
  }

  /** A rule the parser accepts is granted by a whitelist whose fields all
      parse exactly when its destination addresses all lie in the
      whitelist range, one listed destination range covers its ports, a
      configured source list has a range from port 0, and its protocol is
      any or listed. */
  lemma ValidateGrants(s: string, rule: TftRule, wl: Whitelist, w: IpRange, dps: seq<PortRange>, sps: seq<PortRange>)
    requires ParseRule(s) == Some(rule)
    requires WhitelistIp(wl.destIpRange) == Some(w) && WhitelistPorts(wl.destPortRange) == Some(dps)
    requires wl.sourcePortRange != "" ==> ParsePortRange(wl.sourcePortRange, 20) == Some(sps)
    ensures Validate(s, wl) == 0 <==>
              (forall a: Addr :: rule.dst.value.start <= a <= rule.dst.value.end ==> IpIn(a, w))
              && Covers(rule.dstPort, dps)
              && (wl.sourcePortRange == "" || exists i :: 0 <= i < |sps| && sps[i].start == 0)
              && (|wl.allowedProtocols| == 0 || !rule.hasProtocol || rule.protocol == 0
                  || ProtocolListed(rule.protocol, wl.allowedProtocols))
  {
    ValidateOfParsed(s, wl);
    CheckGrants(rule, wl, w, dps, sps);
  }

  lemma ValidateOfParsed(s: string, wl: Whitelist)
    requires ParseRule(s).Some?
    ensures Validate(s, wl) == Check(ParseRule(s).value, wl)
  {
  }

  lemma CheckGrants(rule: TftRule, wl: Whitelist, w: IpRange, dps: seq<PortRange>, sps: seq<PortRange>)
    requires Parsed(rule)
    requires WhitelistIp(wl.destIpRange) == Some(w) && WhitelistPorts(wl.destPortRange) == Some(dps)
    requires wl.sourcePortRange != "" ==> ParsePortRange(wl.sourcePortRange, 20) == Some(sps)
    ensures Check(rule, wl) == 0 <==>
              (forall a: Addr :: rule.dst.value.start <= a <= rule.dst.value.end ==> IpIn(a, w))
              && Covers(rule.dstPort, dps)
              && (wl.sourcePortRange == "" || exists i :: 0 <= i < |sps| && sps[i].start == 0)
              && (|wl.allowedProtocols| == 0 || !rule.hasProtocol || rule.protocol == 0
                  || ProtocolListed(rule.protocol, wl.allowedProtocols))
  {
    DestinationInside(rule.dst.value, w);
    PortCheckIsCoverage(rule.dstPort, dps);
    if wl.sourcePortRange != "" {
      ZeroPortOnly(rule.srcPort, sps);
    }
  }

  /** With nothing configured every rule that parses is granted. */
  lemma EmptyWhitelistGrants(s: string)
    ensures Validate(s, Whitelist([], "", "", "")) == 0 <==> ParseRule(s).Some?
  {
    if ParseRule(s).Some? {
      ValidateOfParsed(s, Whitelist([], "", "", ""));
      AnyPortGrants(ParseRule(s).value);
    }
  }

  lemma AnyPortGrants(rule: TftRule)
    requires Parsed(rule)
    ensures Check(rule, Whitelist([], "", "", "")) == 0
  {
    assert AnyPort.valid && AnyPort.start <= rule.dstPort.start <= AnyPort.end;
    assert [AnyPort][0] == AnyPort;
    PortCheckIsCoverage(rule.dstPort, [AnyPort]);
  }

  /** Protocol names are matched without regard to case. */
  lemma ProtocolIgnoresCase(a: string, b: string)
    requires |a| == |b| && forall i :: 0 <= i < |a| ==> Upper(a[i]) == Upper(b[i])
    ensures ProtocolNumber(a) == ProtocolNumber(b)
  {
    assert UpperAll(Bounded(a, 31)) == UpperAll(Bounded(b, 31));
  }

  /** The four names, in any case. */
  lemma ProtocolNames()
    ensures ProtocolNumber("tcp") == 6 && ProtocolNumber("TCP") == 6
    ensures ProtocolNumber("udp") == 17 && ProtocolNumber("UDP") == 17
    ensures ProtocolNumber("icmp") == 1 && ProtocolNumber("ip") == 0
  {
    assert UpperAll("tcp") == "TCP" && UpperAll("TCP") == "TCP";
    assert UpperAll("udp") == "UDP" && UpperAll("UDP") == "UDP";
    assert UpperAll("icmp") == "ICMP" && UpperAll("ip") == "IP";
  }

  /** A protocol number written in decimal is that protocol when it fits a
      byte, and "any" (0) when it does not. */
  lemma ProtocolOfNumber(n: nat)
    requires n < 0x8000_0000
    ensures ProtocolNumber(NatToString(n)) == if n <= 255 then n else 0
  {
    var t := NatToString(n);
    assert Ten(10) == 10000000000;
    ShortDigits(n, 10);
    assert UpperAll(t) == t;
    assert t[0] != 'T' && t[0] != 'U' && t[0] != 'I';
    AtoiOfIntToString(n);
  }

  /** A name that starts with a letter and is none of the four reads as 0,
      "any protocol", so such a rule passes every allowed list. */
  lemma UnknownNameIsAny(name: string)
    requires 0 < |name| && ('a' <= name[0] <= 'z' || 'A' <= name[0] <= 'Z')
    requires UpperAll(Bounded(name, 31)) !in ["TCP", "UDP", "ICMP", "IP"]
    ensures ProtocolNumber(name) == 0
  {
    var u := UpperAll(Bounded(name, 31));
    assert u[0] == Upper(name[0]);
    LetterReadsZero(u);
  }

  /** `atoi` reads nothing from a text that starts with a letter. */
  lemma LetterReadsZero(u: string)
    requires 0 < |u| && 'A' <= u[0] <= 'Z'
    ensures AtoiInt(u) == 0
  {
    assert SkipSpace(u) == u;
    assert DigitRun(u, 10) == "";
  }

  // ------------------------------------------------------------ rule layout

  /** The destination field a profile writes: a range, and a port range
      after ':' when one is given. */
  function DestText(dst: IpRange, ports: Option<PortRange>): string {
    match ports
    case Some(r) => RangeText(dst) + ":" + PortText(r)
    case None => RangeText(dst)
  }

  /** A rule as a client profile writes one: single spaces between the
      fields, and the protocol word last when there is one. */
  function RuleText(outbound: bool, src: IpRange, dst: IpRange, ports: Option<PortRange>, proto: string): string {
    "permit " + (if outbound then "out" else "in") + " ip from " + RangeText(src)
      + " to " + DestText(dst, ports) + Tail(proto)
  }

  /** A range a rule can carry: in order, and not a span starting at 0,
      which the parser refuses. */
  predicate Writable(r: IpRange) {
    r.start <= r.end && (r.start == r.end || r.start != 0)
  }

  lemma NoColon(t: string)
    requires RangeChars(t)
    ensures ':' !in t
  {
    forall i | 0 <= i < |t|
      ensures t[i] != ':'
    {
      assert IsDigit(t[i]) || t[i] == '.' || t[i] == '-';
    }
  }

  /** Characters of a written range: digits, dots and one dash. */
  predicate RangeChars(t: string) {
    0 < |t| <= 31 && IsDigit(t[0])
    && forall i :: 0 <= i < |t| ==> IsDigit(t[i]) || t[i] == '.' || t[i] == '-'
  }

  lemma RangeTextShape(r: IpRange)
    ensures RangeChars(RangeText(r))
  {
    IpTextDotted(r.start);
    IpTextDotted(r.end);
    if r.start != r.end {
      var a := IpText(r.start);
      var z := IpText(r.end);
      var t := a + "-" + z;
      forall i | 0 <= i < |t| ensures IsDigit(t[i]) || t[i] == '.' || t[i] == '-' {
        if i > |a| {
          assert t[i] == z[i - |a| - 1];
        }
      }
    }
  }

  /** White space before a field is skipped. */
  lemma SkipOneSpace(x: string)
    requires |x| == 0 || !CIsSpace(x[0])
    ensures SkipSpace(" " + x) == x
  {
    assert (" " + x)[1..] == x;
  }

  /** A field stops at the white space after it. */
  lemma WordBefore(w: string, rest: string, cap: nat)
    requires |w| <= cap && forall i :: 0 <= i < |w| ==> !CIsSpace(w[i])
    requires |rest| == 0 || CIsSpace(rest[0])
    ensures Word(w + rest, cap) == w && (w + rest)[|w|..] == rest
  {
    assert forall i :: 0 <= i < |w| ==> (w + rest)[i] == w[i];
    WordIs(w + rest, cap, |w|);
    assert (w + rest)[..|w|] == w;
  }

  /** The destination field reads back as the range and, when given, the
      one port range; without one it means every port. */
  lemma DestTextReadsBack(dst: IpRange, ports: Option<PortRange>)
    requires Writable(dst)
    requires ports.Some? ==> ports.value.valid && ports.value.start <= ports.value.end <= MaxPort
    ensures DestOf(DestText(dst, ports)) == Some((dst, ports.GetOr(AnyPort)))
  {
    RangeTextShape(dst);
    RangeTextReadsBack(dst);
    if ports.Some? {
      DestWithPort(dst, ports.value);
    } else {
      NoColon(RangeText(dst));
    }
  }

  lemma DestWithPort(dst: IpRange, r: PortRange)
    requires Writable(dst) && RangeChars(RangeText(dst))
    requires ParseIpRange(RangeText(dst)) == Some(dst)
    requires r.valid && r.start <= r.end <= MaxPort
    ensures DestOf(RangeText(dst) + ":" + PortText(r)) == Some((dst, r))
  {
    var a := RangeText(dst);
    NoColon(a);
    SplitAt(a, ':', PortText(r));
    assert a + ":" + PortText(r) == a + [':'] + PortText(r);
    OnePortReadsBack(r);
  }

  lemma OnePortReadsBack(r: PortRange)
    requires r.valid && r.start <= r.end <= MaxPort
    ensures ParsePortRange(PortText(r), 10) == Some([r])
  {
    assert PortTexts([r]) == [PortText(r)];
    assert PortListText([r]) == PortText(r);
    PortListReadsBack([r], 10);
  }

  /** The protocol part of a rule text: nothing, or a space and the word. */
  function Tail(proto: string): string {
    if proto == "" then "" else " " + proto
  }

  /** How the parse after the source field splits " to DST PROTO": the
      keyword, the destination word, and the protocol word after it. */
  lemma ToPieces(d: string, proto: string)
    requires 0 < |d| <= 127 && !CIsSpace(d[0]) && forall i :: 0 <= i < |d| ==> !CIsSpace(d[i])
    requires |proto| <= 31 && forall i :: 0 <= i < |proto| ==> !CIsSpace(proto[i])
    ensures var p := SkipSpace(" to " + d + Tail(proto));
      && IsPrefix("to", p)
      && var t := SkipSpace(p[2..]);
      && Word(t, 127) == d && SkipSpace(t[|d|..]) == proto
  {
    var tail := Tail(proto);
    ToHead(d, tail);
    var p := SkipSpace(" to " + d + tail);
    var t := SkipSpace(p[2..]);
    WordBefore(d, tail, 127);
    assert Word(t, 127) == d && t[|d|..] == tail;
    if proto != "" {
      SkipOneSpace(proto);
    }
  }

  /** The parse after the source field, for any destination field without
      white space and a protocol word that fits its buffer. */
  lemma ToFields(outbound: bool, src: IpRange, d: string, proto: string)
    requires src.start <= src.end
    requires 0 < |d| <= 127 && !CIsSpace(d[0]) && forall i :: 0 <= i < |d| ==> !CIsSpace(d[i])
    requires |proto| <= 31 && forall i :: 0 <= i < |proto| ==> !CIsSpace(proto[i])
    ensures DestOf(d).None? ==> ParseTo(outbound, src, " to " + d + Tail(proto)) == None
    ensures DestOf(d).Some? ==> ParseTo(outbound, src, " to " + d + Tail(proto)) == Some(RuleOf(outbound, src, DestOf(d).value, proto))
  {
    ToPieces(d, proto);
  }

  lemma ToReadsBack(outbound: bool, src: IpRange, dst: IpRange, ports: Option<PortRange>, proto: string)
    requires Writable(src) && Writable(dst)
    requires ports.Some? ==> ports.value.valid && ports.value.start <= ports.value.end <= MaxPort
    requires |proto| <= 31 && forall i :: 0 <= i < |proto| ==> !CIsSpace(proto[i])
    ensures ParseTo(outbound, src, " to " + DestText(dst, ports) + Tail(proto))
         == Some(TftRule(Some(src), Some(dst), Unset, ports.GetOr(AnyPort),
                         if proto == "" then 0 else ProtocolNumber(proto), proto != "", outbound))
  {
    DestShape(dst, ports);
    ToFields(outbound, src, DestText(dst, ports), proto);
    DestTextReadsBack(dst, ports);
    WordBefore(proto, "", 31);
    assert proto + "" == proto;
  }

  /** The destination field has no white space and fits its buffer. */
  lemma DestShape(dst: IpRange, ports: Option<PortRange>)
    requires ports.Some? ==> ports.value.start <= ports.value.end <= MaxPort
    ensures var d := DestText(dst, ports);
            0 < |d| <= 43 && IsDigit(d[0]) && forall i :: 0 <= i < |d| ==> !CIsSpace(d[i])
  {
    var a := RangeText(dst);
    RangeTextShape(dst);
    if ports.Some? {
      var z := PortText(ports.value);
      PortTextShape(ports.value);
      var d := a + ":" + z;
      forall i | 0 <= i < |d| ensures !CIsSpace(d[i]) {
        if i > |a| {
          assert d[i] == z[i - |a| - 1];
        }
      }
    }
  }

  /** The source field reads back, and the parse goes on after it. */
  lemma FromFields(outbound: bool, src: IpRange, rest: string)
    requires Writable(src)
    requires 0 < |rest| && CIsSpace(rest[0])
    ensures ParseFrom(outbound, " ip from " + (RangeText(src) + rest)) == ParseTo(outbound, src, rest)
  {
    var a := RangeText(src);
    RangeTextShape(src);
    assert (a + rest)[0] == a[0];
    FromHead(outbound, a + rest);
    SourceFields(outbound, src, rest);
  }

  lemma SourceFields(outbound: bool, src: IpRange, rest: string)
    requires Writable(src) && RangeChars(RangeText(src))
    requires 0 < |rest| && CIsSpace(rest[0])
    ensures SourceAt(outbound, RangeText(src) + rest) == ParseTo(outbound, src, rest)
  {
    WordBefore(RangeText(src), rest, 63);
    RangeTextReadsBack(src);
  }

  /** The "ip" and "from" keywords are read and the source field follows. */
  lemma FromHead(outbound: bool, t: string)
    requires 0 < |t| && !CIsSpace(t[0])
    ensures ParseFrom(outbound, " ip from " + t) == SourceAt(outbound, t)
  {
    var q := "from " + t;
    var p := "ip " + q;
    assert " ip from " + t == " " + p;
    assert p[0] == 'i';
    SkipOneSpace(p);
    assert IsPrefix("ip", p);
    assert p[2..] == " " + q;
    assert q[0] == 'f';
    SkipOneSpace(q);
    assert IsPrefix("from", q);
    assert q[4..] == " " + t;
    SkipOneSpace(t);
  }

  /** The keyword and the direction are read, and the parse goes on after
      them. */
  lemma DirectionFields(outbound: bool, rest: string)
    requires |rest| <= 400
    ensures ParseRule("permit " + (if outbound then "out" else "in") + rest) == ParseFrom(outbound, rest)
  {
    var dir := if outbound then "out" else "in";
    var s := "permit " + dir + rest;
    assert Bounded(s, MaxTftLen - 1) == s;
    assert IsPrefix("permit", s);
    assert s[6..] == " " + (dir + rest);
    SkipOneSpace(dir + rest);
    var p := dir + rest;
    if outbound {
      assert IsPrefix("out", p) && p[3..] == rest;
    } else {
      assert p[0] == 'i';
      assert !IsPrefix("out", p);
      assert IsPrefix("in", p) && p[2..] == rest;
    }
  }

  /** A rule written the way a profile writes one parses back to its
      fields: the source range, the destination range, its port range or
      every port, the protocol word's number, and no source port. */
  lemma RuleTextReadsBack(outbound: bool, src: IpRange, dst: IpRange, ports: Option<PortRange>, proto: string)
    requires Writable(src) && Writable(dst)
    requires ports.Some? ==> ports.value.valid && ports.value.start <= ports.value.end <= MaxPort
    requires |proto| <= 31 && forall i :: 0 <= i < |proto| ==> !CIsSpace(proto[i])
    ensures ParseRule(RuleText(outbound, src, dst, ports, proto))
         == Some(TftRule(Some(src), Some(dst), Unset, ports.GetOr(AnyPort),
                         if proto == "" then 0 else ProtocolNumber(proto), proto != "", outbound))
  {
    var rest2 := " to " + DestText(dst, ports) + Tail(proto);
    var rest1 := " ip from " + (RangeText(src) + rest2);
    RuleTextLayout(outbound, src, dst, ports, proto);
    DirectionFields(outbound, rest1);
    FromFields(outbound, src, rest2);
    ToReadsBack(outbound, src, dst, ports, proto);
  }

  lemma RuleTextLayout(outbound: bool, src: IpRange, dst: IpRange, ports: Option<PortRange>, proto: string)
    requires ports.Some? ==> ports.value.start <= ports.value.end <= MaxPort
    requires |proto| <= 31
    ensures var rest1 := " ip from " + (RangeText(src) + (" to " + DestText(dst, ports) + Tail(proto)));
            RuleText(outbound, src, dst, ports, proto) == "permit " + (if outbound then "out" else "in") + rest1
            && |rest1| <= 400
  {
    RangeTextShape(src);
    DestShape(dst, ports);
    RegroupFields("permit ", if outbound then "out" else "in", " ip from ", RangeText(src), " to ", DestText(dst, ports), Tail(proto));
  }

  lemma RegroupFields(a: string, b: string, c: string, d: string, e: string, f: string, g: string)
    ensures a + b + c + d + e + f + g == a + b + (c + (d + (e + f + g)))
  {
  }

  /** The "to" keyword is read and the destination field follows it. */
  lemma ToHead(d: string, tail: string)
    requires 0 < |d| && !CIsSpace(d[0])
    ensures var p := SkipSpace(" to " + d + tail);
            IsPrefix("to", p) && SkipSpace(p[2..]) == d + tail
  {
    var x := " to " + d + tail;
    var p := "to " + d + tail;
    assert x == " " + p;
    assert p[0] == 't';
    SkipOneSpace(p);
    assert p[2..] == " " + (d + tail);
    assert (d + tail)[0] == d[0];
    SkipOneSpace(d + tail);
  }
}
