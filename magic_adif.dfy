/** The ADIF client of the MAGIC server (`magic_adif.c`), the reader of the
    aircraft state an ARINC 834 Aircraft Data Interface Function publishes:
    the flight-phase names, the phase groups that decide when routing is
    re-evaluated, the subscribe request, the attribute extraction and the
    reading of a published parameter document into the aircraft state.
    Texts are byte strings without NUL, one character per byte. Decimal
    texts that the source converts with `atof` are kept as the text. */
module MagicAdif {
  import opened Wrappers
  import opened Text
  import opened CString
  import MagicConfig

  // ------------------------------------------------------ flight phases

  /** `AdifFlightPhase`. */
  const Unknown: int := 0
  const Gate: int := 1
  const Taxi: int := 2
  const TakeOff: int := 3
  const Climb: int := 4
  const Cruise: int := 5
  const Descent: int := 6
  const Approach: int := 7
  const Landing: int := 8

  /** `AdifValidity`: VALIDITY_NORMAL. */
  const Normal: int := 1

  /** `flight_phase_strings`. */
  function PhaseTable(code: int): (s: string)
    requires Unknown <= code <= Landing
  {
    if code == Gate then "GATE"
    else if code == Taxi then "TAXI"
    else if code == TakeOff then "TAKE OFF"
    else if code == Climb then "CLIMB"
    else if code == Cruise then "CRUISE"
    else if code == Descent then "DESCENT"
    else if code == Approach then "APPROACH"
    else if code == Landing then "LANDING"
    else "UNKNOWN"
  }

  /** `adif_flight_phase_to_string`: the table for UNKNOWN to LANDING,
      "UNKNOWN" for any other value. */
  function PhaseName(code: int): (s: string)
    ensures !(Unknown <= code <= Landing) ==> s == "UNKNOWN"
  {
    if Unknown <= code <= Landing then PhaseTable(code) else "UNKNOWN"
  }

  /** `adif_string_to_flight_phase`: a case-insensitive match against the
      names, "TAKEOFF" accepted beside "TAKE OFF"; NULL and any other text
      give UNKNOWN. */
  function ParsePhase(s: Option<string>): (code: int)
    ensures Unknown <= code <= Landing
    ensures code != Unknown ==>
      s.Some? && (EqualsIgnoreCase(s.value, PhaseTable(code))
                  || (code == TakeOff && EqualsIgnoreCase(s.value, "TAKEOFF")))
  {
    if s.None? then Unknown
    else if EqualsIgnoreCase(s.value, "GATE") then Gate
    else if EqualsIgnoreCase(s.value, "TAXI") then Taxi
    else if EqualsIgnoreCase(s.value, "TAKE OFF") then TakeOff
    else if EqualsIgnoreCase(s.value, "TAKEOFF") then TakeOff
    else if EqualsIgnoreCase(s.value, "CLIMB") then Climb
    else if EqualsIgnoreCase(s.value, "CRUISE") then Cruise
    else if EqualsIgnoreCase(s.value, "DESCENT") then Descent
    else if EqualsIgnoreCase(s.value, "APPROACH") then Approach
    else if EqualsIgnoreCase(s.value, "LANDING") then Landing
    else Unknown
  }

  /** The phase names that have the same length differ in their first
      letter, ignoring case. */
  lemma NamesDiffer()
    ensures !EqualsIgnoreCase("GATE", "TAXI")
    ensures !EqualsIgnoreCase("TAKE OFF", "APPROACH")
    ensures !EqualsIgnoreCase("UNKNOWN", "TAKEOFF") && !EqualsIgnoreCase("UNKNOWN", "DESCENT")
    ensures !EqualsIgnoreCase("UNKNOWN", "LANDING") && !EqualsIgnoreCase("TAKEOFF", "DESCENT")
    ensures !EqualsIgnoreCase("TAKEOFF", "LANDING") && !EqualsIgnoreCase("DESCENT", "LANDING")
  {
    FirstLetterDiffers("GATE", "TAXI");
    FirstLetterDiffers("TAKE OFF", "APPROACH");
    FirstLetterDiffers("UNKNOWN", "TAKEOFF");
    FirstLetterDiffers("UNKNOWN", "DESCENT");
    FirstLetterDiffers("UNKNOWN", "LANDING");
    FirstLetterDiffers("TAKEOFF", "DESCENT");
    FirstLetterDiffers("TAKEOFF", "LANDING");
    FirstLetterDiffers("DESCENT", "LANDING");
  }

  /** Every phase name, and "UNKNOWN" for the values outside the table,
      reads back as the phase. */
  lemma PhaseRoundTrip(code: int)
    ensures ParsePhase(Some(PhaseName(code))) == if Unknown <= code <= Landing then code else Unknown
  {
    NamesDiffer();
  }

  /** The names are compared ignoring case: texts that differ only in case
      read as the same phase. */
  lemma ParsePhaseIgnoresCase(s: string, t: string)
    requires EqualsIgnoreCase(s, t)
    ensures ParsePhase(Some(s)) == ParsePhase(Some(t))
  {
    forall k: string ensures EqualsIgnoreCase(s, k) <==> EqualsIgnoreCase(t, k) {
      IgnoreCaseSwap(s, t, k);
    }
  }

  /** `adif_phase_to_policy_phase`: the policy engine's names, "TAKEOFF"
      for the take-off phase and "GATE" for UNKNOWN and any other value. */
  function PolicyPhaseName(code: int): string {
    if code == Taxi then "TAXI"
    else if code == TakeOff then "TAKEOFF"
    else if code == Climb then "CLIMB"
    else if code == Cruise then "CRUISE"
    else if code == Descent then "DESCENT"
    else if code == Approach then "APPROACH"
    else if code == Landing then "LANDING"
    else "GATE"
  }

  /** The configuration's phase for an ADIF phase. */
  function ConfigPhase(code: int): MagicConfig.CfgFlightPhase {
    if code == Taxi then MagicConfig.Taxi
    else if code == TakeOff then MagicConfig.TakeOff
    else if code == Climb then MagicConfig.Climb
    else if code == Cruise then MagicConfig.Cruise
    else if code == Descent then MagicConfig.Descent
    else if code == Approach then MagicConfig.Approach
    else if code == Landing then MagicConfig.Landing
    else MagicConfig.Gate
  }

  /** The name handed to the policy is read by the configuration's phase
      parser as the same phase; UNKNOWN and unmapped values become GATE. */
  lemma PolicyPhaseReadsBack(code: int)
    ensures MagicConfig.ParseFlightPhase(Some(PolicyPhaseName(code))) == ConfigPhase(code)
    ensures !(Gate <= code <= Landing) ==> ConfigPhase(code) == MagicConfig.Gate
  {
  }

  // ------------------------------------------- routing re-evaluation

  /** The phase groups: GATE and TAXI on the ground (1), TAKEOFF (2), CLIMB
      (3), CRUISE (4), DESCENT, APPROACH and LANDING (5), any other value
      (0). */
  function Group(code: int): (g: nat)
    ensures g <= 5
  {
    if code == Gate || code == Taxi then 1
    else if code == TakeOff then 2
    else if code == Climb then 3
    else if code == Cruise then 4
    else if code == Descent || code == Approach || code == Landing then 5
    else 0
  }

  /** `adif_should_reevaluate_routing`. */
  function ShouldReevaluate(oldPhase: int, newPhase: int): (r: bool)
    ensures r <==> Group(oldPhase) != Group(newPhase)
  {
    if oldPhase == newPhase then false else Group(oldPhase) != Group(newPhase)
  }

  /** A change of phase is ignored exactly within the ground pair, within
      the descent-to-landing triple, and among the values outside GATE to
      LANDING; every other change re-evaluates routing. */
  lemma ReevaluateUnlessSameGroup(a: int, b: int)
    ensures !ShouldReevaluate(a, b) <==>
      a == b
      || (a in {Gate, Taxi} && b in {Gate, Taxi})
      || (a in {Descent, Approach, Landing} && b in {Descent, Approach, Landing})
      || (!(Gate <= a <= Landing) && !(Gate <= b <= Landing))
  {
  }

  /** Not re-evaluating is an equivalence of phases: symmetric and
      transitive, so a series of ignored changes never crosses a group. */
  lemma IgnoredChangesCompose(a: int, b: int, c: int)
    ensures ShouldReevaluate(a, b) == ShouldReevaluate(b, a)
    ensures !ShouldReevaluate(a, b) && !ShouldReevaluate(b, c) ==> !ShouldReevaluate(a, c)
  {
  }

  // ------------------------------------------------- subscribe request

  /** The document `adif_generate_subscribe_xml` prints, around the two
      numbers; each number follows its element name and `value="`. */
  const XmlDeclaration: string := "<?xml " + "version=\"1.0\" " + "encoding=\"UTF-8\"?>\n"
  const SubscribeOpen: string :=
    XmlDeclaration
    + "<subscribe" + "Avionic" + "Parameters " + "method=\"" + "subscribe" + "Avionic" + "Parameters\">\n"
    + "    <"
  const SubscribeHead: string := SubscribeOpen + "publishport" + " " + "value=\""
  const SubscribeMid: string := "\"/>\n    <" + "refreshperiod" + " " + "value=\""
  const SubscribeTail: string :=
    "\"/>\n"
    + "    <parameters>\n"
    + "        <parameter name=\"WeightOnWheels\"/>\n"
    + "        <parameter name=\"Latitude\"/>\n"
    + "        <parameter name=\"Longitude\"/>\n"
    + "        <parameter name=\"BaroCorrectedAltitude\"/>\n"
    + "        <parameter name=\"FlightPhase\"/>\n"
    + "        <parameter name=\"AircraftTailNumber\"/>\n"
    + "        <parameter name=\"GroundSpeed\"/>\n"
    + "        <parameter name=\"VerticalSpeed\"/>\n"
    + "    </parameters>\n"
    + "</subscribeAvionicParameters>\n"

  /** The subscribe request for an asynchronous port and a refresh period. */
  function SubscribeXml(port: nat, refreshMs: nat): string {
    SubscribeHead + NatToString(port) + SubscribeMid + NatToString(refreshMs) + SubscribeTail
  }

  /** The outcome of a `snprintf` into a caller buffer: the return code and
      the text the buffer holds. */
  datatype Printed = Printed(rc: int, text: string)

  /** `adif_generate_subscribe_xml`: −1 for a buffer under 512 bytes or one
      the document does not fit with its NUL, else the document's length. */
  function GenerateSubscribeXml(bufferSize: nat, port: nat, refreshMs: nat): (p: Printed)
    requires port < 0x1_0000 && refreshMs < 0x1_0000_0000
  {
    var doc := SubscribeXml(port, refreshMs);
    if bufferSize < 512 then Printed(-1, "")
    else if |doc| >= bufferSize then Printed(-1, doc[..bufferSize - 1])
    else Printed(|doc|, doc)
  }

  /** The fixed text is 564 bytes. */
  lemma SubscribeLength(port: nat, refreshMs: nat)
    ensures |SubscribeXml(port, refreshMs)| == 564 + |NatToString(port)| + |NatToString(refreshMs)|
  {
    assert |SubscribeHead| == 128;
    assert |SubscribeMid| == 30;
    assert |SubscribeTail| == 406;
  }

  /** The request always fits the client's 4096-byte buffer, and never a
      buffer of 566 bytes or less: the 512-byte guard lets sizes through
      that the truncation check then refuses. */
  lemma GenerateSubscribeOutcome(bufferSize: nat, port: nat, refreshMs: nat)
    requires port < 0x1_0000 && refreshMs < 0x1_0000_0000
    ensures bufferSize <= 566 ==> GenerateSubscribeXml(bufferSize, port, refreshMs).rc == -1
    ensures bufferSize >= 4096 ==>
      GenerateSubscribeXml(bufferSize, port, refreshMs) == Printed(|SubscribeXml(port, refreshMs)|, SubscribeXml(port, refreshMs))
  {
    SubscribeLength(port, refreshMs);
    NatDigits(port, 5);
    NatDigits(refreshMs, 10);
  }

  // --------------------------------------------------- attribute values

  /** The `snprintf` of a search pattern into `char pattern[128]`. */
  function TagPattern(tag: string): string {
    Bounded("name=\"" + tag + "\"", 127)
  }

  function AttrPattern(attr: string): string {
    Bounded(attr + "=\"", 127)
  }

  /** A short tag is searched for in full. */
  lemma TagPatternOf(tag: string)
    requires |tag| <= 120
    ensures TagPattern(tag) == "name=\"" + tag + "\""
  {
  }

  /** A short attribute name is searched for in full. */
  lemma AttrPatternOf(attr: string)
    requires |attr| <= 120
    ensures AttrPattern(attr) == attr + "=\""
  {
  }

  /** Where the value of `extract_xml_attr` starts: just after the first
      `ATTR="` at or after the first `name="TAG"`. */
  function AttrStart(xml: string, tag: string, attr: string): (r: Option<nat>)
    ensures r.Some? ==> |AttrPattern(attr)| <= r.value <= |xml|
  {
    match Search(TagPattern(tag), xml)
    case None => None
    case Some(p) =>
      match FindFrom(AttrPattern(attr), xml, p)
      case None => None
      case Some(q) => Some(q + |AttrPattern(attr)|)
  }

  /** `extract_xml_attr`: the text from the attribute's start up to the
      next quote, cut to fit a buffer of `size` bytes with its NUL. */
  function AttrValue(xml: string, tag: string, attr: string, size: nat): (r: Option<string>)
    requires size >= 1
  {
    match AttrStart(xml, tag, attr)
    case None => None
    case Some(s) =>
      match IndexOf(xml[s..], '"')
      case None => None
      case Some(e) => Some(Bounded(xml[s..][..e], size - 1))
  }

  /** The attribute pattern found lies at or after the first occurrence of
      the tag pattern, and no earlier occurrence of it does. */
  lemma AttrStartIsFirstAfterTag(xml: string, tag: string, attr: string)
    ensures var r := AttrStart(xml, tag, attr);
      r.Some? ==>
        var q := r.value - |AttrPattern(attr)|;
        && Search(TagPattern(tag), xml).Some?
        && OccursAt(TagPattern(tag), xml, Search(TagPattern(tag), xml).value)
        && Search(TagPattern(tag), xml).value <= q && OccursAt(AttrPattern(attr), xml, q)
        && forall j :: Search(TagPattern(tag), xml).value <= j < q ==> !OccursAt(AttrPattern(attr), xml, j)
    ensures !IsSubstring(TagPattern(tag), xml) ==> AttrStart(xml, tag, attr).None?
  {
  }

  /** There is a value exactly when the attribute is found and a quote
      follows it; the value holds no quote, fits the buffer, is a prefix of
      the text after `ATTR="`, and, unless cut to the buffer, is followed
      by the closing quote. */
  lemma AttrValueIsQuoted(xml: string, tag: string, attr: string, size: nat)
    requires size >= 1
    ensures AttrValue(xml, tag, attr, size).Some? <==>
      AttrStart(xml, tag, attr).Some? && '"' in xml[AttrStart(xml, tag, attr).value..]
    ensures AttrValue(xml, tag, attr, size).Some? ==>
      var v := AttrValue(xml, tag, attr, size).value;
      var s := AttrStart(xml, tag, attr).value;
      && |v| < size && '"' !in v && IsPrefix(v, xml[s..])
      && (|v| < size - 1 ==> s + |v| < |xml| && xml[s + |v|] == '"')
  {
    match AttrStart(xml, tag, attr)
    case None =>
    case Some(s) =>
      match IndexOf(xml[s..], '"')
      case None =>
      case Some(e) =>
        var v := Bounded(xml[s..][..e], size - 1);
        assert IsPrefix(v, xml[s..]) by {
          assert xml[s..][..e][..|v|] == xml[s..][..|v|];
        }
  }

  /** The attribute pattern first found after the first tag pattern, with
      only text free of one of its characters between them, starts the
      value. The `k`-th character of the tag pattern and the `j`-th of the
      attribute pattern are the witnesses that neither occurs earlier. */
  lemma AttrStartFound(pre: string, tag: string, between: string, attr: string, tail: string, k: nat, j: nat)
    requires k < |TagPattern(tag)| && TagPattern(tag)[k] !in pre
    requires TagPattern(tag)[k] !in TagPattern(tag)[..k]
    requires j < |AttrPattern(attr)| && AttrPattern(attr)[j] !in TagPattern(tag) + between
    requires AttrPattern(attr)[j] !in AttrPattern(attr)[..j]
    ensures AttrStart(pre + TagPattern(tag) + between + AttrPattern(attr) + tail, tag, attr)
      == Some(|pre| + |TagPattern(tag)| + |between| + |AttrPattern(attr)|)
  {
    var doc := pre + TagPattern(tag) + between + AttrPattern(attr) + tail;
    TagFound(pre, TagPattern(tag), between, AttrPattern(attr), tail, k);
    AttrFound(pre, TagPattern(tag), between, AttrPattern(attr), tail, j);
    AttrStartOf(doc, tag, attr, |pre|, |pre| + |TagPattern(tag)| + |between|);
  }

  lemma TagFound(pre: string, tp: string, between: string, ap: string, tail: string, k: nat)
    requires k < |tp| && tp[k] !in pre && tp[k] !in tp[..k]
    ensures Search(tp, pre + tp + between + ap + tail) == Some(|pre|)
  {
    assert pre + tp + between + ap + tail == pre + tp + (between + ap + tail);
    SearchFinds(pre, tp, between + ap + tail, k);
  }

  lemma AttrFound(pre: string, tp: string, between: string, ap: string, tail: string, j: nat)
    requires j < |ap| && ap[j] !in tp + between && ap[j] !in ap[..j]
    ensures FindFrom(ap, pre + tp + between + ap + tail, |pre|) == Some(|pre| + |tp| + |between|)
  {
    assert pre + tp + between + ap + tail == pre + (tp + between) + ap + tail;
    FindFromFinds(pre, tp + between, ap, tail, j);
  }

  /** `AttrStart` from where the two searches stop. */
  lemma AttrStartOf(xml: string, tag: string, attr: string, p: nat, q: nat)
    requires Search(TagPattern(tag), xml) == Some(p)
    requires FindFrom(AttrPattern(attr), xml, p) == Some(q)
    ensures AttrStart(xml, tag, attr) == Some(q + |AttrPattern(attr)|)
  {
  }

  /** A quote-free value that fits the buffer, written after the first
      occurrence of the tag pattern with only text free of a character of
      the attribute pattern between them, is the value read back. */
  lemma AttrValueFound(pre: string, tag: string, between: string, attr: string,
                       value: string, rest: string, size: nat, k: nat, j: nat)
    requires |value| < size && '"' !in value
    requires k < |TagPattern(tag)| && TagPattern(tag)[k] !in pre
    requires TagPattern(tag)[k] !in TagPattern(tag)[..k]
    requires j < |AttrPattern(attr)| && AttrPattern(attr)[j] !in TagPattern(tag) + between
    requires AttrPattern(attr)[j] !in AttrPattern(attr)[..j]
    ensures AttrValue(pre + TagPattern(tag) + between + AttrPattern(attr) + value + "\"" + rest, tag, attr, size)
      == Some(value)
  {
    var head := pre + TagPattern(tag) + between + AttrPattern(attr);
    var tail := value + "\"" + rest;
    var doc := head + value + "\"" + rest;
    assert doc == head + tail;
    assert doc[|head|..] == tail;
    IndexOfAfter(value, '"', rest);
    assert tail[..|value|] == value;
    AttrStartFound(pre, tag, between, attr, tail, k, j);
  }

  /** `strncpy(value, src, len); value[len] = '\0'` for a source without
      NUL into a buffer with room for it. */
  method CopyTerminated(src: string, value: array<char>)
    requires |src| < value.Length
    modifies value
    ensures value[..|src|] == src && value[|src|] == '\0'
  {
    var i := 0;
    while i < |src|
      invariant i <= |src| && value[..i] == src[..i]
    {
      value[i] := src[i];
      i := i + 1;
      assert value[..i] == value[..i - 1] + [src[i - 1]];
    }
    value[|src|] := '\0';
    assert value[..|src|] == src[..|src|];
  }

  /** The searches of `extract_xml_attr`: the tag pattern, the attribute
      pattern after it, the closing quote; the text found, cut to fit a
      buffer of `size` bytes with its NUL. */
  method LocateAttr(xml: string, tag: string, attr: string, size: nat) returns (found: Option<string>)
    requires size >= 1
    ensures found == AttrValue(xml, tag, attr, size)
  {
    var pos := Search(TagPattern(tag), xml);
    if pos.None? {
      return None;
    }
    var pattern := AttrPattern(attr);
    var at := FindFrom(pattern, xml, pos.value);
    if at.None? {
      return None;
    }
    var start := at.value + |pattern|;
    assert AttrStart(xml, tag, attr) == Some(start);
    var end := IndexOf(xml[start..], '"');
    if end.None? {
      return None;
    }
    var len := end.value;
    if len >= size {
      len := size - 1;
    }
    assert xml[start..][..end.value][..len] == xml[start..start + len];
    found := Some(xml[start..start + len]);
  }

  /** `extract_xml_attr` into a caller buffer of `value.Length` bytes: the
      value is copied and terminated; on failure the buffer is left as it
      was. */
  method ExtractXmlAttr(xml: string, tag: string, attr: string, value: array<char>) returns (rc: int)
    requires value.Length >= 1
    modifies value
    ensures rc == 0 || rc == -1
    ensures rc == 0 <==> AttrValue(xml, tag, attr, value.Length).Some?
    ensures rc == 0 ==> var v := AttrValue(xml, tag, attr, value.Length).value;
      value[..|v|] == v && value[|v|] == '\0'
    ensures rc == -1 ==> unchanged(value)
  {
    var found := LocateAttr(xml, tag, attr, value.Length);
    if found.None? {
      return -1;
    }
    CopyTerminated(found.value, value);
    rc := 0;
  }

  // ----------------------------------------------------- aircraft state

  /** `AdifWeightOnWheels`. */
  datatype Wow = Wow(onGround: bool, validity: int, timestampMs: nat)
  /** `AdifPosition`, the coordinates as their decimal texts. */
  datatype Position = Position(
    latitude: string, longitude: string, altitudeFt: string,
    latValidity: int, lonValidity: int, altValidity: int, timestampMs: nat)
  /** `AdifFlightPhaseData`. */
  datatype PhaseData = PhaseData(phase: int, validity: int, timestampMs: nat)
  /** `AdifAircraftId`. */
  datatype AircraftId = AircraftId(tailNumber: string, validity: int, timestampMs: nat)
  /** `AdifSpeed`, the speeds as their decimal texts. */
  datatype Speed = Speed(
    groundSpeedKts: string, verticalSpeedFpm: string,
    gsValidity: int, vsValidity: int, timestampMs: nat)
  /** `AdifAircraftState`. */
  datatype Aircraft = Aircraft(
    wow: Wow, position: Position, flightPhase: PhaseData, aircraftId: AircraftId,
    speed: Speed, dataValid: bool, lastUpdateMs: nat)

  /** A zeroed `AdifAircraftState`. */
  const ZeroAircraft := Aircraft(
    Wow(false, 0, 0), Position("", "", "", 0, 0, 0, 0), PhaseData(Unknown, 0, 0),
    AircraftId("", 0, 0), Speed("", "", 0, 0, 0), false, 0)

  /** The buffers the attributes are read into: `value_str[64]`,
      `validity_str[8]`, `time_str[32]`; the tail number keeps 15
      characters. */
  const ValueSize: nat := 64
  const ValiditySize: nat := 8
  const TimeSize: nat := 32
  const TailCap: nat := 15

  /** A `validity` attribute read with `atoi`, or the field unchanged. */
  function ValidityOr(xml: string, tag: string, current: int): int {
    match AttrValue(xml, tag, "validity", ValiditySize)
    case None => current
    case Some(v) => Atoi(v)
  }

  /** A `time` attribute read with `strtoull`, or the field unchanged. */
  function TimeOr(xml: string, tag: string, current: nat): nat {
    match AttrValue(xml, tag, "time", TimeSize)
    case None => current
    case Some(v) => Strtoul(v)
  }

  function ReadWow(xml: string, w: Wow): Wow {
    match AttrValue(xml, "WeightOnWheels", "value", ValueSize)
    case None => w
    case Some(v) =>
      Wow(Atoi(v) == 0, ValidityOr(xml, "WeightOnWheels", w.validity),
          TimeOr(xml, "WeightOnWheels", w.timestampMs))
  }

  function ReadPosition(xml: string, p: Position): Position {
    var p1 := match AttrValue(xml, "Latitude", "value", ValueSize)
      case None => p
      case Some(v) => p.(latitude := v, latValidity := ValidityOr(xml, "Latitude", p.latValidity));
    var p2 := match AttrValue(xml, "Longitude", "value", ValueSize)
      case None => p1
      case Some(v) => p1.(longitude := v, lonValidity := ValidityOr(xml, "Longitude", p1.lonValidity));
    match AttrValue(xml, "BaroCorrectedAltitude", "value", ValueSize)
    case None => p2
    case Some(v) =>
      p2.(altitudeFt := v,
          altValidity := ValidityOr(xml, "BaroCorrectedAltitude", p2.altValidity),
          timestampMs := TimeOr(xml, "BaroCorrectedAltitude", p2.timestampMs))
  }

  function ReadPhase(xml: string, f: PhaseData): PhaseData {
    match AttrValue(xml, "FlightPhase", "value", ValueSize)
    case None => f
    case Some(v) =>
      PhaseData(ParsePhase(Some(v)), ValidityOr(xml, "FlightPhase", f.validity),
                TimeOr(xml, "FlightPhase", f.timestampMs))
  }

  function ReadTail(xml: string, a: AircraftId): AircraftId {
    match AttrValue(xml, "AircraftTailNumber", "value", ValueSize)
    case None => a
    case Some(v) =>
      a.(tailNumber := Bounded(v, TailCap), validity := ValidityOr(xml, "AircraftTailNumber", a.validity))
  }

  function ReadSpeed(xml: string, s: Speed): Speed {
    var s1 := match AttrValue(xml, "GroundSpeed", "value", ValueSize)
      case None => s
      case Some(v) => s.(groundSpeedKts := v, gsValidity := ValidityOr(xml, "GroundSpeed", s.gsValidity));
    match AttrValue(xml, "VerticalSpeed", "value", ValueSize)
    case None => s1
    case Some(v) =>
      s1.(verticalSpeedFpm := v,
          vsValidity := ValidityOr(xml, "VerticalSpeed", s1.vsValidity),
          timestampMs := TimeOr(xml, "VerticalSpeed", s1.timestampMs))
  }

  /** `adif_parse_publish_xml` on the state it is given: each parameter
      present overwrites its fields, the overall flag is recomputed and the
      update time is the clock's second times 1000 in 64 bits. */
  function Published(xml: string, st: Aircraft, nowSec: nat): Aircraft {
    var w := ReadWow(xml, st.wow);
    var f := ReadPhase(xml, st.flightPhase);
    Aircraft(w, ReadPosition(xml, st.position), f, ReadTail(xml, st.aircraftId),
             ReadSpeed(xml, st.speed), w.validity == Normal && f.validity == Normal,
             (nowSec * 1000) % 0x1_0000_0000_0000_0000)
  }

  /** On the ground exactly when the published WeightOnWheels value reads
      as 0, with the validity and time of that parameter where present; a
      document without it leaves the flag, its validity and its time as
      they were. */
  lemma PublishedWow(xml: string, st: Aircraft, nowSec: nat)
    ensures var r := Published(xml, st, nowSec);
      match AttrValue(xml, "WeightOnWheels", "value", ValueSize)
      case Some(v) =>
        && (r.wow.onGround <==> Atoi(v) == 0)
        && r.wow.validity == ValidityOr(xml, "WeightOnWheels", st.wow.validity)
        && r.wow.timestampMs == TimeOr(xml, "WeightOnWheels", st.wow.timestampMs)
      case None => r.wow == st.wow
  {
  }

  /** The phase is the parsed FlightPhase text, kept when absent; the
      overall flag holds exactly when the WeightOnWheels and FlightPhase
      validities are both NORMAL. */
  lemma PublishedPhaseAndValidity(xml: string, st: Aircraft, nowSec: nat)
    ensures var r := Published(xml, st, nowSec);
      && (match AttrValue(xml, "FlightPhase", "value", ValueSize)
          case Some(v) => r.flightPhase.phase == ParsePhase(Some(v))
          case None => r.flightPhase == st.flightPhase)
      && (r.dataValid <==> r.wow.validity == Normal && r.flightPhase.validity == Normal)
      && (Unknown <= r.flightPhase.phase <= Landing || r.flightPhase.phase == st.flightPhase.phase)
  {
  }

  /** None of the eight parameters is named in the document. */
  predicate NamesNone(xml: string) {
    && !IsSubstring(TagPattern("WeightOnWheels"), xml) && !IsSubstring(TagPattern("Latitude"), xml)
    && !IsSubstring(TagPattern("Longitude"), xml) && !IsSubstring(TagPattern("BaroCorrectedAltitude"), xml)
    && !IsSubstring(TagPattern("FlightPhase"), xml) && !IsSubstring(TagPattern("AircraftTailNumber"), xml)
    && !IsSubstring(TagPattern("GroundSpeed"), xml) && !IsSubstring(TagPattern("VerticalSpeed"), xml)
  }

  /** A document that names none of the eight parameters changes nothing
      but the overall flag and the update time. */
  lemma EmptyPublishKeeps(xml: string, st: Aircraft, nowSec: nat)
    requires NamesNone(xml)
    ensures Published(xml, st, nowSec).(dataValid := st.dataValid, lastUpdateMs := st.lastUpdateMs) == st
  {
    assert ReadWow(xml, st.wow) == st.wow;
    assert ReadPosition(xml, st.position) == st.position;
    assert ReadPhase(xml, st.flightPhase) == st.flightPhase;
    assert ReadTail(xml, st.aircraftId) == st.aircraftId;
    assert ReadSpeed(xml, st.speed) == st.speed;
  }

  /** The state struct `adif_parse_publish_xml` fills. */
  class AircraftRecord {
    var wow: Wow
    var position: Position
    var flightPhase: PhaseData
    var aircraftId: AircraftId
    var speed: Speed
    var dataValid: bool
    var lastUpdateMs: nat

    function Snapshot(): Aircraft
      reads this
    {
      Aircraft(wow, position, flightPhase, aircraftId, speed, dataValid, lastUpdateMs)
    }

    /** `memset(&new_state, 0, sizeof(new_state))`. */
    constructor ()
      ensures Snapshot() == ZeroAircraft
    {
      wow := ZeroAircraft.wow;
      position := ZeroAircraft.position;
      flightPhase := ZeroAircraft.flightPhase;
      aircraftId := ZeroAircraft.aircraftId;
      speed := ZeroAircraft.speed;
      dataValid := false;
      lastUpdateMs := 0;
    }

    /** `adif_parse_publish_xml`: each parameter group is read in turn and
        written into the struct. */
    method ParsePublishXml(xml: string, nowSec: nat) returns (rc: int)
      modifies this
      ensures rc == 0 && Snapshot() == Published(xml, old(Snapshot()), nowSec)
    {
      wow := ReadWow(xml, wow);
      position := ReadPosition(xml, position);
      flightPhase := ReadPhase(xml, flightPhase);
      aircraftId := ReadTail(xml, aircraftId);
      speed := ReadSpeed(xml, speed);
      dataValid := wow.validity == Normal && flightPhase.validity == Normal;
      lastUpdateMs := (nowSec * 1000) % 0x1_0000_0000_0000_0000;
      rc := 0;
    }
  }

  // ------------------------------------------------------------- client

  /** The aircraft state `adif_client_init` starts from: on the ground at
      the gate, both validities NORMAL, everything else zero. */
  const InitialAircraft := ZeroAircraft.(
    wow := Wow(true, Normal, 0), flightPhase := PhaseData(Gate, Normal, 0))

  /** The part of `AdifClientContext` the receiver updates. */
  class AdifClient {
    var aircraft: Aircraft

    constructor ()
      ensures aircraft == InitialAircraft
    {
      aircraft := InitialAircraft;
    }

    /** One document received by `adif_receiver_thread`: it is parsed into
        a zeroed state that replaces the current one; the state counts as
        changed when the phase or the ground flag differs, and routing is
        re-evaluated when it changed across phase groups. */
    method Receive(xml: string, nowSec: nat) returns (changed: bool, reevaluate: bool)
      modifies this
      ensures aircraft == Published(xml, ZeroAircraft, nowSec)
      ensures changed <==> old(aircraft).flightPhase.phase != aircraft.flightPhase.phase
                           || old(aircraft).wow.onGround != aircraft.wow.onGround
      ensures reevaluate <==> changed && ShouldReevaluate(old(aircraft).flightPhase.phase, aircraft.flightPhase.phase)
    {
      var record := new AircraftRecord();
      var rc := record.ParsePublishXml(xml, nowSec);
      var next := record.Snapshot();
      var oldPhase := aircraft.flightPhase.phase;
      changed := oldPhase != next.flightPhase.phase || aircraft.wow.onGround != next.wow.onGround;
      aircraft := next;
      reevaluate := changed && ShouldReevaluate(oldPhase, next.flightPhase.phase);
    }
  }

  /** Because each document is read into a zeroed state, a document without
      WeightOnWheels reports the aircraft in the air, and one without a
      FlightPhase reports the phase UNKNOWN with validity 0, so the state is
      no longer valid. */
  lemma MissingParametersReset(xml: string, nowSec: nat)
    requires !IsSubstring(TagPattern("WeightOnWheels"), xml) && !IsSubstring(TagPattern("FlightPhase"), xml)
    ensures var r := Published(xml, ZeroAircraft, nowSec);
      !r.wow.onGround && r.flightPhase.phase == Unknown && !r.dataValid
  {
  }
}
