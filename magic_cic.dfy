/** The table-driven helpers of the Central Information Controller
    (`magic_cic.c`): the MSXR rate limiter, the defaults of the
    communication request parameters, the Altitude and Airport AVP parsers
    (ARINC 839 sections 1.1.1.6.4.2 and 1.1.1.6.4.3) with the altitude
    gate, MCCR intent routing and the MSXR status-level downgrade. The
    clock is a parameter; bandwidths are whole kbps. */
module MagicCic {
  import opened Wrappers
  import opened Text
  import opened CString
  import MagicSession

  const MaxIdLen: nat := 64

  // --------------------------------------------------- MSXR rate limiter

  const RateEntries: nat := 64

  /** One `MsxrRateLimitEntry`; an empty id marks a free slot. */
  datatype RateEntry = RateEntry(clientId: string, lastRequest: int)

  const FreeRate := RateEntry("", 0)

  /** The first slot holding `id`. */
  function FindClient(es: seq<RateEntry>, id: string): (r: Option<nat>)
    ensures r.Some? ==> r.value < |es| && es[r.value].clientId == id
    ensures r.Some? ==> forall k :: 0 <= k < r.value ==> es[k].clientId != id
    ensures r.None? ==> forall k :: 0 <= k < |es| ==> es[k].clientId != id
  {
    if |es| == 0 then None
    else if es[0].clientId == id then Some(0)
    else match FindClient(es[1..], id)
      case None => None
      case Some(k) => Some(k + 1)
  }

  /** The first free slot. */
  function FirstFreeRate(es: seq<RateEntry>): (r: Option<nat>)
    ensures r.Some? ==> r.value < |es| && es[r.value].clientId == ""
    ensures r.Some? ==> forall k :: 0 <= k < r.value ==> es[k].clientId != ""
    ensures r.None? ==> forall k :: 0 <= k < |es| ==> es[k].clientId != ""
  {
    if |es| == 0 then None
    else if es[0].clientId == "" then Some(0)
    else match FirstFreeRate(es[1..])
      case None => None
      case Some(k) => Some(k + 1)
  }

  /** `msxr_check_rate_limit` at time `now`: 0 allows the request, -1
      refuses it. No id or no limit allows without looking; a known client
      asking again within the limit is refused and keeps its timestamp;
      otherwise the client's timestamp becomes `now`, in its slot or in the
      first free one (its id cut to 63 characters); a full table allows
      without recording. */
  function RateCheck(es: seq<RateEntry>, id: string, limitSec: nat, now: int): (r: (int, seq<RateEntry>))
    ensures |r.1| == |es|
    ensures r.0 == 0 || r.0 == -1
    ensures r.0 == -1 ==> r.1 == es
  {
    if id == "" || limitSec == 0 then (0, es)
    else match FindClient(es, id)
      case Some(k) =>
        if now - es[k].lastRequest < limitSec then (-1, es)
        else (0, es[k := es[k].(lastRequest := now)])
      case None =>
        match FirstFreeRate(es)
        case Some(f) => (0, es[f := RateEntry(Bounded(id, MaxIdLen - 1), now)])
        case None => (0, es)
  }

  /** The rate limiter's table. */
  class RateLimiter {
    const slots: array<RateEntry>

    constructor ()
      ensures fresh(slots) && slots[..] == seq(RateEntries, _ => FreeRate)
    {
      slots := new RateEntry[RateEntries](_ => FreeRate);
    }

    /** `msxr_check_rate_limit`. */
    method Check(id: string, limitSec: nat, now: int) returns (rc: int)
      modifies slots
      ensures (rc, slots[..]) == RateCheck(old(slots[..]), id, limitSec, now)
    {
      if id == "" || limitSec == 0 {
        return 0;
      }
      var free := -1;
      var found := -1;
      var i := 0;
      while i < slots.Length && found < 0
        invariant 0 <= i <= slots.Length
        invariant found < 0 ==> forall k :: 0 <= k < i ==> slots[k].clientId != id
        invariant found >= 0 ==>
          found < slots.Length && slots[found].clientId == id
          && forall k :: 0 <= k < found ==> slots[k].clientId != id
        invariant free < 0 ==> forall k :: 0 <= k < i ==> slots[k].clientId != ""
        invariant free >= 0 ==>
          free < i && slots[free].clientId == ""
          && forall k :: 0 <= k < free ==> slots[k].clientId != ""
      {
        if slots[i].clientId == "" {
          if free < 0 {
            free := i;
          }
        } else if slots[i].clientId == id {
          found := i;
        }
        i := i + 1;
      }
      ghost var es := slots[..];
      assert found >= 0 ==> FindClient(es, id) == Some(found);
      assert found < 0 ==> FindClient(es, id) == None;
      if found >= 0 {
        if now - slots[found].lastRequest < limitSec {
          return -1;
        }
        slots[found] := slots[found].(lastRequest := now);
      } else {
        assert free >= 0 ==> FirstFreeRate(es) == Some(free);
        assert free < 0 ==> FirstFreeRate(es) == None;
        if free >= 0 {
          slots[free] := RateEntry(Bounded(id, MaxIdLen - 1), now);
        }
      }
      rc := 0;
    }
  }

  /** No two slots in use hold the same client. */
  predicate DistinctClients(es: seq<RateEntry>) {
    forall j, k :: 0 <= j < k < |es| && es[j].clientId != "" ==> es[j].clientId != es[k].clientId
  }

  /** The table keeps one slot per client: the caller passes the id already
      cut to 63 characters, so the stored id is the id itself. */
  lemma RateCheckKeepsDistinct(es: seq<RateEntry>, id: string, limitSec: nat, now: int)
    requires DistinctClients(es) && |id| < MaxIdLen
    ensures DistinctClients(RateCheck(es, id, limitSec, now).1)
  {
    var r := RateCheck(es, id, limitSec, now).1;
    if id != "" && limitSec > 0 && FindClient(es, id).None? && FirstFreeRate(es).Some? {
      var f := FirstFreeRate(es).value;
      assert r == es[f := RateEntry(id, now)];
      forall j, k | 0 <= j < k < |r| && r[j].clientId != ""
        ensures r[j].clientId != r[k].clientId
      {
        if j == f {
          assert r[k] == es[k];
        } else if k == f {
          assert r[j] == es[j];
        } else {
          assert r[j] == es[j] && r[k] == es[k];
        }
      }
    }
  }

  /** A client let through at `t1` whose table had room for it is refused
      at any `t2` before `t1 + limitSec`, and let through again from then
      on. */
  lemma RateLimitBites(es: seq<RateEntry>, id: string, limitSec: nat, t1: int, t2: int)
    requires id != "" && |id| < MaxIdLen && limitSec > 0
    requires FindClient(es, id).Some? || FirstFreeRate(es).Some?
    requires RateCheck(es, id, limitSec, t1).0 == 0
    ensures var es1 := RateCheck(es, id, limitSec, t1).1;
      RateCheck(es1, id, limitSec, t2).0 == (if t2 - t1 < limitSec then -1 else 0)
  {
    var es1 := RateCheck(es, id, limitSec, t1).1;
    match FindClient(es, id)
    case Some(k) =>
      assert es1 == es[k := es[k].(lastRequest := t1)];
      assert FindClient(es1, id) == Some(k) by {
        assert es1[k].clientId == id;
        forall j | 0 <= j < k ensures es1[j].clientId != id {
          assert es1[j] == es[j];
        }
      }
    case None =>
      var f := FirstFreeRate(es).value;
      assert es1 == es[f := RateEntry(id, t1)];
      assert FindClient(es1, id) == Some(f) by {
        assert es1[f].clientId == id;
        forall j | 0 <= j < f ensures es1[j].clientId != id {
          assert es1[j] == es[j];
        }
      }
  }

  // ------------------------------------- communication request parameters

  /** One altitude range in feet; -1 stands for "no bound". */
  datatype AltRange = AltRange(min: int, max: int)

  /** `CommReqParams`: the fields the helpers read or write. The TFT and
      NAPT rule arrays and the other `has_*` flags are not modelled. */
  datatype CommReqParams = CommReqParams(
    profileName: string,
    requestedBw: int, requestedRetBw: int, requiredBw: int, requiredRetBw: int,
    priorityType: nat, priorityClass: string, qosLevel: nat,
    dlmName: string, flightPhase: string, altitude: string, airport: string,
    accountingEnabled: nat, keepRequest: nat, autoDetect: nat, timeout: nat,
    hasAltitude: bool, altitudeIsBlacklist: bool, altitudeRanges: seq<AltRange>,
    hasAirport: bool, airportIsBlacklist: bool, airportCodes: seq<string>)

  /** `comm_req_params_init`: profile "default", preemption priority type 2
      with class "5", best-effort QoS, phase CRUISE, accounting on, a
      300-second timeout, and no bandwidth, ranges or codes. */
  const DefaultParams := CommReqParams(
    "default", 0, 0, 0, 0, 2, "5", 0, "", "CRUISE", "", "",
    1, 0, 0, 300, false, false, [], false, false, [])

  // ------------------------------------------------ Altitude and Airport

  const MaxAltitudeRanges: nat := 10
  const MaxAirportCodes: nat := 20
  const AirportCodeLen: nat := 7

  /** The value starts with the "not " blacklist marker. */
  predicate NotPrefixed(s: string) {
    |s| >= 4 && s[..4] == "not "
  }

  /** The comma-separated tokens after the optional "not ", from the
      255-character copy `strtok` works on. */
  function AvpTokens(s: string): seq<string> {
    Strtok(Bounded(if NotPrefixed(s) then s[4..] else s, 255), ',')
  }

  /** A token without its leading spaces. */
  function DropSpaces(t: string): (r: string)
    ensures |r| <= |t|
    ensures |r| > 0 ==> r[0] != ' '
    ensures |t| > 0 && t[0] != ' ' ==> r == t
  {
    if |t| > 0 && t[0] == ' ' then DropSpaces(t[1..]) else t
  }

  /** One altitude token: `-X` has no lower bound, `X-` no upper bound,
      `A-B` both, and a lone `A` is the point range. */
  function RangeOf(tok: string): AltRange {
    var t := DropSpaces(tok);
    match IndexOf(t, '-')
    case None => AltRange(Atoi(t), Atoi(t))
    case Some(k) =>
      if k == 0 then AltRange(-1, Atoi(t[1..]))
      else if k + 1 == |t| then AltRange(Atoi(t[..k]), -1)
      else AltRange(Atoi(t[..k]), Atoi(t[k + 1..]))
  }

  /** The values `f` gives the first `n` tokens, in order. */
  function MapFirst<T>(f: string -> T, toks: seq<string>, n: nat): (r: seq<T>)
    requires n <= |toks|
    ensures |r| == n && forall k :: 0 <= k < n ==> r[k] == f(toks[k])
  {
    if n == 0 then [] else MapFirst(f, toks, n - 1) + [f(toks[n - 1])]
  }

  /** An airport token without its leading spaces, cut to seven
      characters. */
  function CodeOf(tok: string): (c: string)
    ensures |c| <= AirportCodeLen
  {
    Bounded(DropSpaces(tok), AirportCodeLen)
  }

  function Min(a: nat, b: nat): nat { if a < b then a else b }

  /** `parse_altitude_avp`: an empty value leaves the parameters alone;
      otherwise the blacklist flag follows the "not " marker and ranges are
      appended, one per token, while fewer than ten are held. */
  function ParseAltitude(s: string, p: CommReqParams): (q: CommReqParams)
    requires |p.altitudeRanges| <= MaxAltitudeRanges
    ensures s == "" ==> q == p
    ensures s != "" ==> q == p.(altitudeIsBlacklist := NotPrefixed(s), altitudeRanges := q.altitudeRanges)
    ensures |q.altitudeRanges| <= MaxAltitudeRanges && p.altitudeRanges <= q.altitudeRanges
  {
    if s == "" then p
    else
      var toks := AvpTokens(s);
      var n := Min(|toks|, MaxAltitudeRanges - |p.altitudeRanges|);
      p.(altitudeIsBlacklist := NotPrefixed(s), altitudeRanges := p.altitudeRanges + MapFirst(RangeOf, toks, n))
  }

  /** `parse_airport_avp`: like the altitude parser, keeping at most twenty
      codes, each without leading spaces and cut to seven characters. */
  function ParseAirport(s: string, p: CommReqParams): (q: CommReqParams)
    requires |p.airportCodes| <= MaxAirportCodes
    ensures s == "" ==> q == p
    ensures s != "" ==> q == p.(airportIsBlacklist := NotPrefixed(s), airportCodes := q.airportCodes)
    ensures |q.airportCodes| <= MaxAirportCodes && p.airportCodes <= q.airportCodes
    ensures forall k :: 0 <= k < |q.airportCodes| ==>
      q.airportCodes[k] in p.airportCodes || (|q.airportCodes[k]| <= AirportCodeLen && ',' !in q.airportCodes[k])
  {
    if s == "" then p
    else
      var toks := AvpTokens(s);
      var n := Min(|toks|, MaxAirportCodes - |p.airportCodes|);
      var codes := MapFirst(CodeOf, toks, n);
      CodesCommaFree(toks, n);
      p.(airportIsBlacklist := NotPrefixed(s), airportCodes := p.airportCodes + codes)
  }

  lemma CodesCommaFree(toks: seq<string>, n: nat)
    requires n <= |toks| && forall k :: 0 <= k < |toks| ==> ',' !in toks[k]
    ensures forall k :: 0 <= k < n ==> ',' !in MapFirst(CodeOf, toks, n)[k]
  {
    forall k | 0 <= k < n
      ensures ',' !in MapFirst(CodeOf, toks, n)[k]
    {
      DropSpacesKeeps(toks[k], ',');
    }
  }

  lemma {:induction false} DropSpacesKeeps(t: string, c: char)
    requires c !in t
    ensures c !in DropSpaces(t)
    decreases |t|
  {
    if |t| > 0 && t[0] == ' ' {
      DropSpacesKeeps(t[1..], c);
    }
  }

  /** `parse_altitude_avp`: the value is split after its "not " marker and
      the token loop appends ranges to the parameters. */
  method ParseAltitudeAvp(s: string, p: CommReqParams) returns (q: CommReqParams)
    requires |p.altitudeRanges| <= MaxAltitudeRanges
    ensures q == ParseAltitude(s, p)
  {
    if s == "" {
      return p;
    }
    var ranges := AppendTokens(AvpTokens(s), p.altitudeRanges, RangeOf, MaxAltitudeRanges);
    q := p.(altitudeIsBlacklist := NotPrefixed(s), altitudeRanges := ranges);
  }

  /** `parse_airport_avp`: the value is split after its "not " marker and
      the token loop appends codes to the parameters. */
  method ParseAirportAvp(s: string, p: CommReqParams) returns (q: CommReqParams)
    requires |p.airportCodes| <= MaxAirportCodes
    ensures q == ParseAirport(s, p)
  {
    if s == "" {
      return p;
    }
    var codes := AppendTokens(AvpTokens(s), p.airportCodes, CodeOf, MaxAirportCodes);
    q := p.(airportIsBlacklist := NotPrefixed(s), airportCodes := codes);
  }

  /** The token loop of both parsers: `f` turns each token into a value,
      appended while fewer than `cap` values are held. */
  method AppendTokens<T>(toks: seq<string>, held: seq<T>, f: string -> T, cap: nat) returns (vals: seq<T>)
    requires |held| <= cap
    ensures vals == held + MapFirst(f, toks, Min(|toks|, cap - |held|))
  {
    vals := held;
    var i := 0;
    while i < |toks| && |vals| < cap
      invariant 0 <= i <= |toks| && i <= cap - |held|
      invariant vals == held + MapFirst(f, toks, i)
    {
      vals := vals + [f(toks[i])];
      i := i + 1;
    }
  }

  // -------------------------------------------------------- altitude gate

  /** One range admits `cur`: at least its lower bound and, unless the
      upper bound is negative, at most its upper bound. */
  predicate InRange(r: AltRange, cur: int) {
    cur >= r.min && (r.max < 0 || cur <= r.max)
  }

  /** Some range of `rs` admits `cur`. */
  predicate AnyInRange(rs: seq<AltRange>, cur: int) {
    exists k :: 0 <= k < |rs| && InRange(rs[k], cur)
  }

  /** The gate's verdict: the ranges are consulted only when the Altitude
      AVP was present and gave at least one range; a whitelist admits the
      altitudes its ranges cover, a blacklist all the others. */
  predicate AltitudeAllowed(p: CommReqParams, cur: int) {
    !p.hasAltitude || |p.altitudeRanges| == 0 ||
    p.altitudeIsBlacklist != AnyInRange(p.altitudeRanges, cur)
  }

  /** The altitude check of MCCR phase 3: `cur` is the ADIF altitude in
      feet, or 0 without ADIF data. */
  method AltitudeGate(p: CommReqParams, cur: int) returns (allowed: bool)
    ensures allowed == AltitudeAllowed(p, cur)
  {
    if !p.hasAltitude || |p.altitudeRanges| == 0 {
      return true;
    }
    var inRange := false;
    var i := 0;
    while i < |p.altitudeRanges| && !inRange
      invariant 0 <= i <= |p.altitudeRanges|
      invariant inRange <==> exists k :: 0 <= k < i && InRange(p.altitudeRanges[k], cur)
    {
      if InRange(p.altitudeRanges[i], cur) {
        inRange := true;
      }
      i := i + 1;
    }
    allowed := if p.altitudeIsBlacklist then !inRange else inRange;
  }

  // ------------------------------------------- Altitude AVP text and back

  /** A range the Altitude AVP syntax can express: bounds of -1 (none) or
      more, not both missing. */
  predicate Expressible(r: AltRange) {
    r.min >= -1 && r.max >= -1 && !(r.min == -1 && r.max == -1)
  }

  /** The token for a range: `-X`, `X-` or `A-B`. */
  function RangeText(r: AltRange): (t: string)
    requires Expressible(r)
    ensures |t| > 0 && ',' !in t && (t[0] == '-' || IsDigit(t[0]))
  {
    if r.min == -1 then "-" + NatToString(r.max)
    else if r.max == -1 then NatToString(r.min) + "-"
    else NatToString(r.min) + "-" + NatToString(r.max)
  }

  lemma Unsigned(n: nat)
    ensures '-' !in NatToString(n) && ',' !in NatToString(n) && ' ' !in NatToString(n)
    ensures Atoi(NatToString(n)) == n
  {
    var d := NatToString(n);
    assert forall i :: 0 <= i < |d| ==> IsDigit(d[i]);
    DigitsValueOfNatToString(n);
    AtoiOfDigits(d);
  }

  /** Each token reads back as the range it was printed from. */
  lemma RangeOfText(r: AltRange)
    requires Expressible(r)
    ensures RangeOf(RangeText(r)) == r
  {
    var t := RangeText(r);
    assert DropSpaces(t) == t;
    if r.min == -1 {
      var d := NatToString(r.max);
      Unsigned(r.max);
      IndexOfAfter("", '-', d);
      assert [] + ['-'] + d == t && t[1..] == d;
    } else if r.max == -1 {
      var d := NatToString(r.min);
      Unsigned(r.min);
      IndexOfAfter(d, '-', "");
      assert d + ['-'] + "" == t && t[..|d|] == d;
    } else {
      var d1 := NatToString(r.min);
      var d2 := NatToString(r.max);
      Unsigned(r.min);
      Unsigned(r.max);
      IndexOfAfter(d1, '-', d2);
      assert d1 + ['-'] + d2 == t && t[..|d1|] == d1 && t[|d1| + 1..] == d2;
    }
  }

  function RangeTexts(rs: seq<AltRange>): (ts: seq<string>)
    requires forall k :: 0 <= k < |rs| ==> Expressible(rs[k])
    ensures |ts| == |rs| && forall k :: 0 <= k < |rs| ==> ts[k] == RangeText(rs[k])
  {
    seq(|rs|, k requires 0 <= k < |rs| => RangeText(rs[k]))
  }

  /** An Altitude AVP value: the optional "not " and the comma-joined
      range tokens. */
  function AltitudeText(rs: seq<AltRange>, blacklist: bool): string
    requires forall k :: 0 <= k < |rs| ==> Expressible(rs[k])
  {
    (if blacklist then "not " else "") + JoinWith(RangeTexts(rs), ',')
  }

  /** Pieces joined with commas after an optional "not " come back from
      `AvpTokens`, the marker recognised, when the joined text fits the
      255-character copy and does not itself begin with an 'n'. */
  lemma TokensOfText(ts: seq<string>, m: nat, blacklist: bool)
    requires 0 < |ts| && |ts| * (m + 1) <= 255
    requires forall k :: 0 <= k < |ts| ==> 0 < |ts[k]| <= m && ',' !in ts[k]
    requires ts[0][0] != 'n'
    ensures var s := (if blacklist then "not " else "") + JoinWith(ts, ',');
      AvpTokens(s) == ts && NotPrefixed(s) == blacklist
  {
    var body := JoinWith(ts, ',');
    JoinLength(ts, m);
    JoinStartsWith(ts);
    var s := (if blacklist then "not " else "") + body;
    if blacklist {
      assert s[..4] == "not " && s[4..] == body;
    } else {
      assert s == body && s[0] == ts[0][0];
    }
    StrtokJoin(ts, ',');
  }

  lemma {:induction false} JoinStartsWith(ts: seq<string>)
    requires |ts| > 0 && |ts[0]| > 0
    ensures |JoinWith(ts, ',')| > 0 && JoinWith(ts, ',')[0] == ts[0][0]
  {
    if |ts| > 1 {
      JoinCons(ts[0], ts[1..], ',');
      assert [ts[0]] + ts[1..] == ts;
    }
  }

  /** Printing up to ten expressible ranges with bounds below a million
      feet as an Altitude AVP value and parsing it into fresh parameters
      gives exactly those ranges and the blacklist flag back. */
  lemma AltitudeRoundTrip(rs: seq<AltRange>, blacklist: bool)
    requires 0 < |rs| <= MaxAltitudeRanges
    requires forall k :: 0 <= k < |rs| ==> Expressible(rs[k])
    requires forall k :: 0 <= k < |rs| ==> rs[k].min < 1000000 && rs[k].max < 1000000
    ensures ParseAltitude(AltitudeText(rs, blacklist), DefaultParams)
      == DefaultParams.(altitudeIsBlacklist := blacklist, altitudeRanges := rs)
  {
    var ts := RangeTexts(rs);
    forall k | 0 <= k < |ts|
      ensures |ts[k]| <= 13
    {
      RangeTextShort(rs[k]);
    }
    TokensOfText(ts, 13, blacklist);
    var s := AltitudeText(rs, blacklist);
    ParseAltitudeOfTokens(s, DefaultParams, ts);
    RangesOfTexts(rs);
  }

  /** A value whose tokens all fit appends one range per token. */
  lemma ParseAltitudeOfTokens(s: string, p: CommReqParams, ts: seq<string>)
    requires s != "" && AvpTokens(s) == ts && |p.altitudeRanges| + |ts| <= MaxAltitudeRanges
    ensures ParseAltitude(s, p)
      == p.(altitudeIsBlacklist := NotPrefixed(s), altitudeRanges := p.altitudeRanges + MapFirst(RangeOf, ts, |ts|))
  {
  }

  lemma RangeTextShort(r: AltRange)
    requires Expressible(r) && r.min < 1000000 && r.max < 1000000
    ensures |RangeText(r)| <= 13
  {
    if r.min >= 0 {
      NatDigits(r.min, 6);
    }
    if r.max >= 0 {
      NatDigits(r.max, 6);
    }
  }

  lemma RangesOfTexts(rs: seq<AltRange>)
    requires forall k :: 0 <= k < |rs| ==> Expressible(rs[k])
    ensures MapFirst(RangeOf, RangeTexts(rs), |rs|) == rs
  {
    var got := MapFirst(RangeOf, RangeTexts(rs), |rs|);
    forall k | 0 <= k < |rs|
      ensures got[k] == rs[k]
    {
      RangeOfText(rs[k]);
    }
  }

  /** The comma-joined text of pieces of at most `m` characters. */
  lemma {:induction false} JoinLength(ts: seq<string>, m: nat)
    requires forall k :: 0 <= k < |ts| ==> |ts[k]| <= m
    ensures |JoinWith(ts, ',')| <= |ts| * (m + 1)
    decreases |ts|
  {
    if |ts| > 1 {
      JoinCons(ts[0], ts[1..], ',');
      assert [ts[0]] + ts[1..] == ts;
      JoinLength(ts[1..], m);
    }
  }

  /** Through the gate, a whitelist "A-B" admits exactly the altitudes
      from A to B, and a blacklist "not A-B" exactly the others. */
  lemma AltitudeGateOfBand(a: nat, b: nat, blacklist: bool, cur: int)
    requires a < 1000000 && b < 1000000
    ensures var r := AltRange(a, b);
      var p := ParseAltitude(AltitudeText([r], blacklist), DefaultParams).(hasAltitude := true);
      AltitudeAllowed(p, cur) == (blacklist != (a <= cur <= b))
  {
    var r := AltRange(a, b);
    AltitudeRoundTrip([r], blacklist);
    var p := ParseAltitude(AltitudeText([r], blacklist), DefaultParams).(hasAltitude := true);
    assert p.altitudeRanges == [r];
    assert AnyInRange([r], cur) == InRange(r, cur);
  }

  /** An ICAO-style airport code: one to seven upper-case letters or
      digits. */
  predicate AirportCode(c: string) {
    0 < |c| <= AirportCodeLen && forall i :: 0 <= i < |c| ==> 'A' <= c[i] <= 'Z' || IsDigit(c[i])
  }

  /** An Airport AVP value: the optional "not " and the comma-joined
      codes. */
  function AirportText(codes: seq<string>, blacklist: bool): string {
    (if blacklist then "not " else "") + JoinWith(codes, ',')
  }

  /** Printing up to twenty airport codes as an Airport AVP value and
      parsing it into fresh parameters gives exactly those codes and the
      blacklist flag back. */
  lemma AirportRoundTrip(codes: seq<string>, blacklist: bool)
    requires 0 < |codes| <= MaxAirportCodes
    requires forall k :: 0 <= k < |codes| ==> AirportCode(codes[k])
    ensures ParseAirport(AirportText(codes, blacklist), DefaultParams)
      == DefaultParams.(airportIsBlacklist := blacklist, airportCodes := codes)
  {
    forall k | 0 <= k < |codes|
      ensures ',' !in codes[k] && codes[k][0] != 'n'
    {
      assert AirportCode(codes[k]);
    }
    TokensOfText(codes, AirportCodeLen, blacklist);
    CodesOfCodes(codes);
  }

  lemma CodesOfCodes(codes: seq<string>)
    requires forall k :: 0 <= k < |codes| ==> AirportCode(codes[k])
    ensures MapFirst(CodeOf, codes, |codes|) == codes
  {
    var got := MapFirst(CodeOf, codes, |codes|);
    forall k | 0 <= k < |codes|
      ensures got[k] == codes[k]
    {
      assert AirportCode(codes[k]);
      assert DropSpaces(codes[k]) == codes[k];
    }
  }

  // ------------------------------------------- "no lower bound" (finding)

  /** As written, the gate compares the altitude with the -1 that stands
      for "no lower bound": the whitelist "-5000", meant to admit every
      altitude up to 5000 ft, refuses an aircraft at -11 ft, as on the
      ground at an airfield below sea level. */
  lemma NoLowerBoundRefusesBelowZero()
    ensures RangeOf("-5000") == AltRange(-1, 5000)
    ensures !AltitudeAllowed(DefaultParams.(hasAltitude := true, altitudeRanges := [AltRange(-1, 5000)]), -11)
  {
    RangeOfText(AltRange(-1, 5000));
    assert RangeText(AltRange(-1, 5000)) == "-5000";
    assert !InRange(AltRange(-1, 5000), -11);
  }

  /** The range test the comments describe: a negative bound on either
      side is no bound. */
  predicate InRangeIntended(r: AltRange, cur: int) {
    (r.min < 0 || cur >= r.min) && (r.max < 0 || cur <= r.max)
  }

  /** Under the intended test, the token `-X` admits exactly the
      altitudes up to X and `X-` exactly those from X, whatever their
      sign; on non-negative altitudes it agrees with the code. */
  lemma InRangeIntendedOfTokens(x: nat, cur: int)
    ensures InRangeIntended(RangeOf(RangeText(AltRange(-1, x))), cur) <==> cur <= x
    ensures InRangeIntended(RangeOf(RangeText(AltRange(x, -1))), cur) <==> cur >= x
    ensures forall r: AltRange :: cur >= 0 && r.min >= -1 ==> (InRangeIntended(r, cur) <==> InRange(r, cur))
  {
    RangeOfText(AltRange(-1, x));
    RangeOfText(AltRange(x, -1));
  }

  // ----------------------------------------------------- intent routing

  /** `MCCR_INTENT_*`. */
  datatype Intent = Unknown | Start | Modify | Stop | Queue

  /** What intent routing reads of an existing session: its state and
      whether it holds an assigned link. */
  datatype Existing = Existing(state: MagicSession.SessionState, hasLink: bool)

  /** No bandwidth of any kind is asked for. */
  predicate ZeroBandwidth(p: CommReqParams) {
    p.requestedBw == 0 && p.requestedRetBw == 0 && p.requiredBw == 0 && p.requiredRetBw == 0
  }

  /** `mccr_phase3_intent_routing`: the first decision, then the MODIFY
      pre-check that falls back to START without an assigned link. */
  function RouteIntent(existing: Option<Existing>, p: CommReqParams): (i: Intent)
    ensures i != Unknown
    ensures existing.None? ==> i == Start
    ensures i == Stop <==> existing.Some? && ZeroBandwidth(p)
    ensures i == Queue <==>
      existing.Some? && !ZeroBandwidth(p) && p.keepRequest != 0 && existing.value.state == MagicSession.Authenticated
    ensures i == Modify <==>
      existing.Some? && !ZeroBandwidth(p) && existing.value.state == MagicSession.Active && existing.value.hasLink
  {
    var first :=
      if existing.None? then Start
      else if ZeroBandwidth(p) then Stop
      else if p.keepRequest != 0 && existing.value.state == MagicSession.Authenticated then Queue
      else if existing.value.state == MagicSession.Active then Modify
      else Start;
    if first == Modify && existing.Some? && !existing.value.hasLink then Start else first
  }

  /** A request that sets no field keeps the defaults: it asks for no
      bandwidth, so an existing session takes it for a stop and a new one
      for a start; it carries no altitude condition, so the gate admits
      any altitude; and its class "5" queues it at priority 50. */
  lemma DefaultParamsRouting(existing: Option<Existing>, cur: int)
    ensures ZeroBandwidth(DefaultParams)
    ensures RouteIntent(existing, DefaultParams) == (if existing.Some? then Stop else Start)
    ensures AltitudeAllowed(DefaultParams, cur)
    ensures QueuePriority(DefaultParams.priorityClass) == 50
  {
    AtoiOfDigits("5");
  }

  /** Only an existing session can be stopped, queued or modified, and a
      request with bandwidth is never taken for a stop. */
  lemma IntentNeedsSession(existing: Option<Existing>, p: CommReqParams)
    requires RouteIntent(existing, p) != Start
    ensures existing.Some?
    ensures !ZeroBandwidth(p) ==> RouteIntent(existing, p) in {Queue, Modify}
  {
  }

  // ---------------------------------------------- MSXR status downgrade

  /** The Status-Type granted for a requested one: detailed levels 6 and 7
      drop to 2 and 3 for a client whose profile does not allow detailed
      status. */
  function GrantedStatus(requested: nat, hasProfile: bool, allowDetailed: bool): (g: nat)
    ensures g <= requested
    ensures g != requested <==> hasProfile && !allowDetailed && (requested == 6 || requested == 7)
  {
    if hasProfile && !allowDetailed && (requested == 6 || requested == 7) then requested - 4 else requested
  }

  /** Which parts an MSXA carries for a granted Status-Type. */
  datatype StatusParts = StatusParts(registeredClients: bool, dlmList: bool, linkStatus: bool)

  function PartsOf(granted: nat): StatusParts {
    StatusParts(granted == 1 || granted == 3 || granted == 7, granted >= 2, granted == 6 || granted == 7)
  }

  /** The downgrade withholds the link status and nothing else: the
      answer still carries the client list and the DLM list the requested
      level would have carried. */
  lemma DowngradeDropsOnlyLinkStatus(requested: nat, hasProfile: bool, allowDetailed: bool)
    ensures var detailed := !hasProfile || allowDetailed;
      PartsOf(GrantedStatus(requested, hasProfile, allowDetailed))
        == PartsOf(requested).(linkStatus := PartsOf(requested).linkStatus && detailed)
  {
  }

  // ------------------------------------------------------ queue priority

  /** The MCCR wait-queue priority of a Priority-Class, lower first:
      `(uint32_t)(100 - atoi(class) * 10)`. */
  function QueuePriority(priorityClass: string): (r: nat)
    ensures r < 0x1_0000_0000
    ensures var c := Atoi(priorityClass); 0 <= c <= 10 ==> r == 100 - c * 10
  {
    CastU32(100 - Atoi(priorityClass) * 10)
  }

  /** Among classes 0 to 10 a higher class is served first. */
  lemma HigherClassFirst(a: nat, b: nat)
    requires a < b <= 10
    ensures QueuePriority(NatToString(b)) < QueuePriority(NatToString(a))
  {
    Unsigned(a);
    Unsigned(b);
  }

  /** From class 11 on the subtraction wraps: the class is served after
      every class from 0 to 10. */
  lemma ClassPastTenServedLast(c: nat, d: nat)
    requires 10 < c < 0x1000_0000 && d <= 10
    ensures QueuePriority(NatToString(c)) > QueuePriority(NatToString(d))
    ensures QueuePriority(NatToString(c)) == 0x1_0000_0000 + 100 - c * 10
  {
    Unsigned(c);
    Unsigned(d);
  }
}
