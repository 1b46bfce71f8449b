/** The ADIF simulator (`adif_simulator.c`): the server side of the
    aircraft data interface that the MAGIC client subscribes to. It keeps
    one aircraft state that console commands change, registers up to ten
    subscribers and publishes the state as a parameter document. The
    coordinates and speeds are kept as the decimal texts `printf` renders
    for them. */
module AdifSimulator {
  import opened Wrappers
  import opened Text
  import opened CString
  import MagicAdif

  /** `ADIF_MAX_CLIENTS` and `ADIF_REFRESH_PERIOD_MS`. */
  const MaxClients: nat := 10
  const DefaultRefreshMs: nat := 1000
  /** The defaults `server_thread` hands to the request parser. */
  const DefaultAsyncPort: nat := 64001

  // ------------------------------------------------------ flight phases

  /** `phase_names`, indexed by `FlightPhase`. */
  const PhaseNames: seq<string> :=
    ["UNKNOWN", "GATE", "TAXI", "TAKE OFF", "CLIMB", "CRUISE", "DESCENT", "APPROACH", "LANDING"]

  /** `phase_to_string`: the table entry for PHASE_UNKNOWN to
      PHASE_LANDING, "UNKNOWN" for any other value. */
  function PhaseToString(phase: int): string {
    if MagicAdif.Unknown <= phase <= MagicAdif.Landing then PhaseNames[phase] else "UNKNOWN"
  }

  /** The simulator prints every phase under the name the MAGIC client
      reads, so each phase it publishes reads back as itself. */
  lemma PhaseNamesAgree(phase: int)
    ensures PhaseToString(phase) == MagicAdif.PhaseName(phase)
    ensures MagicAdif.ParsePhase(Some(PhaseToString(phase)))
      == if MagicAdif.Unknown <= phase <= MagicAdif.Landing then phase else MagicAdif.Unknown
  {
    MagicAdif.PhaseRoundTrip(phase);
  }

  /** A text equal, ignoring case, to the `i`-th table name reads as phase
      `i` on the client side. */
  lemma TableNameReads(s: string, i: nat)
    requires i < |PhaseNames| && EqualsIgnoreCase(s, PhaseNames[i])
    ensures MagicAdif.ParsePhase(Some(s)) == i
  {
    PhaseNamesAgree(i);
    MagicAdif.ParsePhaseIgnoresCase(s, PhaseNames[i]);
  }

  /** `string_to_phase`: the first table name equal to the text ignoring
      case, else PHASE_TAKEOFF for "TAKEOFF", else PHASE_UNKNOWN; it reads
      every text as the MAGIC client does. */
  method StringToPhase(str: Option<string>) returns (phase: int)
    ensures phase == MagicAdif.ParsePhase(str)
  {
    if str.None? {
      return MagicAdif.Unknown;
    }
    var s := str.value;
    for i := 0 to |PhaseNames|
      invariant forall j :: 0 <= j < i ==> !EqualsIgnoreCase(s, PhaseNames[j])
    {
      if EqualsIgnoreCase(s, PhaseNames[i]) {
        TableNameReads(s, i);
        return i;
      }
    }
    assert !EqualsIgnoreCase(s, PhaseNames[1]) && !EqualsIgnoreCase(s, PhaseNames[2]);
    assert !EqualsIgnoreCase(s, PhaseNames[3]) && !EqualsIgnoreCase(s, PhaseNames[4]);
    assert !EqualsIgnoreCase(s, PhaseNames[5]) && !EqualsIgnoreCase(s, PhaseNames[6]);
    assert !EqualsIgnoreCase(s, PhaseNames[7]) && !EqualsIgnoreCase(s, PhaseNames[8]);
    if EqualsIgnoreCase(s, "TAKEOFF") {
      return MagicAdif.TakeOff;
    }
    return MagicAdif.Unknown;
  }

  // ------------------------------------------------- subscribe requests

  /** The integer `atoi` reads just after the first `value="` that follows
      the first occurrence of `key`; none when either is missing. */
  function KeyValue(xml: string, key: string): Option<int> {
    match Search(key, xml)
    case None => None
    case Some(p) =>
      match FindFrom("value=\"", xml, p)
      case None => None
      case Some(q) => Some(Atoi(xml[q + 7..]))
  }

  /** `parse_subscribe_request`: the port and the period found after
      "publishport" and "refreshperiod", truncated to 16 and 32 bits; an
      output whose key or value is missing keeps what it held. */
  function ParseSubscribe(xml: string, port: nat, refreshMs: nat): (r: (nat, nat))
    requires port < 0x1_0000 && refreshMs < 0x1_0000_0000
    ensures r.0 < 0x1_0000 && r.1 < 0x1_0000_0000
    ensures KeyValue(xml, "publishport").None? ==> r.0 == port
    ensures KeyValue(xml, "refreshperiod").None? ==> r.1 == refreshMs
  {
    var p := match KeyValue(xml, "publishport") case None => port case Some(v) => CastU16(v);
    var f := match KeyValue(xml, "refreshperiod") case None => refreshMs case Some(v) => CastU32(v);
    (p, f)
  }

  lemma OpenLacksP()
    ensures 'p' !in MagicAdif.SubscribeOpen
  {
  }

  lemma OpenLacksF()
    ensures 'f' !in MagicAdif.SubscribeOpen
  {
  }

  /** What follows `value="` after the first occurrence of a key, when
      the key is first where it was placed and no `v` lies between it and
      its `value="`, is what `atoi` reads. */
  lemma KeyValueAt(head: string, pre: string, key: string, mid: string, after: string, k: nat)
    requires head == pre + key + mid + "value=\""
    requires k < |key| && key[k] !in pre && key[k] !in key[..k]
    requires 'v' !in key + mid
    ensures KeyValue(head + after, key) == Some(Atoi(after))
  {
    var doc := pre + key + mid + "value=\"" + after;
    assert doc[|pre| + |key| + |mid| + 7..] == after by {
      assert doc == (pre + key + mid + "value=\"") + after;
    }
    MagicAdif.TagFound(pre, key, mid, "value=\"", after, k);
    MagicAdif.AttrFound(pre, key, mid, "value=\"", after, 0);
  }

  lemma RegroupAfter(h: string, w: string, x: string, y: string, z: string)
    ensures h + w + x + y + z == h + (w + (x + y + z))
  {
  }

  lemma RegroupTwo(h: string, w: string, x: string, y: string, z: string)
    ensures h + w + x + y + z == (h + w + x) + (y + z)
  {
  }

  lemma Flatten(p: string, a: string, b: string, c: string, d: string)
    ensures p + (a + b + c + d) == p + a + b + c + d
  {
  }

  /** The port the request carries is the number after its first
      "publishport" and the `value="` that follows it. */
  lemma PortFound(port: nat, refreshMs: nat)
    ensures KeyValue(MagicAdif.SubscribeXml(port, refreshMs), "publishport") == Some(port)
  {
    var rest := MagicAdif.SubscribeMid + NatToString(refreshMs) + MagicAdif.SubscribeTail;
    RegroupAfter(MagicAdif.SubscribeHead, NatToString(port), MagicAdif.SubscribeMid,
            NatToString(refreshMs), MagicAdif.SubscribeTail);
    MidOpensWithQuote(NatToString(refreshMs) + MagicAdif.SubscribeTail);
    OpenLacksP();
    KeyValueAt(MagicAdif.SubscribeHead, MagicAdif.SubscribeOpen, "publishport", " ", NatToString(port) + rest, 0);
    AtoiOfIntToStringThen(port, rest);
  }

  lemma MidOpensWithQuote(t: string)
    ensures (MagicAdif.SubscribeMid + t)[0] == '"'
  {
  }

  lemma TailOpensWithQuote()
    ensures MagicAdif.SubscribeTail[0] == '"'
  {
  }

  /** The period the request carries is the number after its first
      "refreshperiod" and the `value="` that follows it. */
  lemma PeriodFound(port: nat, refreshMs: nat)
    ensures KeyValue(MagicAdif.SubscribeXml(port, refreshMs), "refreshperiod") == Some(refreshMs)
  {
    var pre := MagicAdif.SubscribeHead + NatToString(port) + "\"/>\n    <";
    RegroupTwo(MagicAdif.SubscribeHead, NatToString(port), MagicAdif.SubscribeMid,
               NatToString(refreshMs), MagicAdif.SubscribeTail);
    PeriodHead(port);
    TailOpensWithQuote();
    KeyValueAt(MagicAdif.SubscribeHead + NatToString(port) + MagicAdif.SubscribeMid,
               pre, "refreshperiod", " ", NatToString(refreshMs) + MagicAdif.SubscribeTail, 2);
    AtoiOfIntToStringThen(refreshMs, MagicAdif.SubscribeTail);
  }

  /** The request up to the period's `value="`, as the text before the
      key, which holds no 'f', then the key and its separator. */
  lemma PeriodHead(port: nat)
    ensures var pre := MagicAdif.SubscribeHead + NatToString(port) + "\"/>\n    <";
      && 'f' !in pre
      && MagicAdif.SubscribeHead + NatToString(port) + MagicAdif.SubscribeMid == pre + "refreshperiod" + " " + "value=\""
  {
    Flatten(MagicAdif.SubscribeHead + NatToString(port), "\"/>\n    <", "refreshperiod", " ", "value=\"");
    OpenLacksF();
    NotInNumber(port, 'f');
  }

  /** The request the MAGIC client sends reads back as the port and the
      period it was generated from, whatever the defaults. */
  lemma SubscribeRoundTrip(port: nat, refreshMs: nat, port0: nat, refresh0: nat)
    requires port < 0x1_0000 && refreshMs < 0x1_0000_0000
    requires port0 < 0x1_0000 && refresh0 < 0x1_0000_0000
    ensures ParseSubscribe(MagicAdif.SubscribeXml(port, refreshMs), port0, refresh0) == (port, refreshMs)
  {
    PortFound(port, refreshMs);
    PeriodFound(port, refreshMs);
  }

  // ------------------------------------------------- published document

  /** `AircraftState` without its mutex; the coordinates and speeds are
      their `%.6f`, `%.0f` and `%.1f` renderings. */
  datatype SimState = SimState(
    onGround: bool, latitude: string, longitude: string, altitudeFt: string,
    groundSpeedKts: string, verticalSpeedFpm: string, phase: int,
    tailNumber: string, validity: int)

  /** `init_default_state`: on the ground at the gate of LAX (33.9425,
      -118.4081 as `%.6f` renders them), 120 ft, ground speed 0 as `%.1f`
      renders it, tail number N12345, validity 1. */
  const DefaultState := SimState(true, "33.942500", "-118.408100", "120", "0.0", "0",
                                 MagicAdif.Gate, "N12345", 1)

  const PublishOpen: string :=
    MagicAdif.XmlDeclaration
    + "<method " + "name=\"" + "publish" + "Avionic" + "Parameters\">\n"
    + "    <parameters>\n"
  const PublishClose: string := "    </parameters>\n</method>\n"

  /** One `<parameter .../>` line of the published document: the name,
      then the value, validity and time attributes. */
  function ParamLine(tag: string, value: string, validity: int, timeMs: nat): string {
    ParamLead(tag) + Field("value", value) + " " + Field("validity", IntToString(validity))
      + " time=\"" + NatToString(timeMs) + "\"/>\n"
  }

  function ParamLead(tag: string): string {
    "        <parameter " + ("name=\"" + tag + "\"") + " "
  }

  /** `ATTR="TEXT"`. */
  function Field(attr: string, text: string): string {
    (attr + "=\"") + text + "\""
  }

  lemma RegroupValue(o: string, s: string, tp: string, sp: string, ap: string, w: string, q: string,
                     sp2: string, fd: string, t1: string, t2: string, t3: string, post: string)
    ensures o + ((s + tp + sp) + (ap + w + q) + sp2 + fd + t1 + t2 + t3) + post
      == (o + s) + tp + sp + ap + w + q + (sp2 + fd + t1 + t2 + t3 + post)
  {
  }

  lemma RegroupValidity(o: string, s: string, tp: string, sp: string, fv: string, sp2: string,
                        dp: string, v: string, q: string, t1: string, t2: string, t3: string, post: string)
    ensures o + ((s + tp + sp) + fv + sp2 + (dp + v + q) + t1 + t2 + t3) + post
      == (o + s) + tp + (sp + fv + sp2) + dp + v + q + (t1 + t2 + t3 + post)
  {
  }

  /** A parameter line split around its value. */
  lemma ParamLineAtValue(pre: string, tag: string, value: string, validity: int, timeMs: nat, post: string)
    ensures pre + ParamLine(tag, value, validity, timeMs) + post
      == (pre + "        <parameter ") + ("name=\"" + tag + "\"") + " " + ("value" + "=\"") + value + "\""
         + (" " + Field("validity", IntToString(validity)) + " time=\"" + NatToString(timeMs) + "\"/>\n" + post)
  {
    RegroupValue(pre, "        <parameter ", "name=\"" + tag + "\"", " ", "value" + "=\"", value, "\"",
                 " ", Field("validity", IntToString(validity)), " time=\"", NatToString(timeMs), "\"/>\n", post);
  }

  /** A parameter line split around its validity. */
  lemma ParamLineAtValidity(pre: string, tag: string, value: string, validity: int, timeMs: nat, post: string)
    ensures pre + ParamLine(tag, value, validity, timeMs) + post
      == (pre + "        <parameter ") + ("name=\"" + tag + "\"") + (" " + Field("value", value) + " ")
         + ("validity" + "=\"") + IntToString(validity) + "\""
         + (" time=\"" + NatToString(timeMs) + "\"/>\n" + post)
  {
    RegroupValidity(pre, "        <parameter ", "name=\"" + tag + "\"", " ", Field("value", value), " ",
                    "validity" + "=\"", IntToString(validity), "\"", " time=\"", NatToString(timeMs), "\"/>\n", post);
  }

  /** The WeightOnWheels value: 0 on the ground, 1 in the air. */
  function WowText(onGround: bool): string {
    if onGround then "0" else "1"
  }

  /** The seven lines after WeightOnWheels and the closing tags. */
  function OtherLines(s: SimState, timeMs: nat): string {
    ParamLine("Latitude", s.latitude, s.validity, timeMs)
      + ParamLine("Longitude", s.longitude, s.validity, timeMs)
      + ParamLine("BaroCorrectedAltitude", s.altitudeFt, s.validity, timeMs)
      + ParamLine("FlightPhase", PhaseToString(s.phase), s.validity, timeMs)
      + ParamLine("AircraftTailNumber", s.tailNumber, s.validity, timeMs)
      + ParamLine("GroundSpeed", s.groundSpeedKts, s.validity, timeMs)
      + ParamLine("VerticalSpeed", s.verticalSpeedFpm, s.validity, timeMs)
      + PublishClose
  }

  /** `generate_publish_xml`: the eight parameters, each with the state's
      validity and the same time stamp. */
  function PublishXml(s: SimState, timeMs: nat): string {
    PublishOpen + ParamLine("WeightOnWheels", WowText(s.onGround), s.validity, timeMs) + OtherLines(s, timeMs)
  }

  /** A `%d` rendering holds no quote. */
  lemma NoQuoteInInt(i: int)
    ensures '"' !in IntToString(i)
  {
    NotInNumber(if i < 0 then -i else i, '"');
  }

  /** The tag pattern of a short tag whose `k`-th character occurs
      neither before it nor in `name="` nor earlier in the tag has that
      character as its witness. */
  lemma TagWitness(before: string, tag: string, k: nat)
    requires |tag| <= 120 && k < |tag|
    requires tag[k] !in before && tag[k] !in "name=\"" && tag[k] !in tag[..k]
    ensures 6 + k < |MagicAdif.TagPattern(tag)|
    ensures MagicAdif.TagPattern(tag)[6 + k] !in before
    ensures MagicAdif.TagPattern(tag)[6 + k] !in MagicAdif.TagPattern(tag)[..6 + k]
  {
    MagicAdif.TagPatternOf(tag);
    assert MagicAdif.TagPattern(tag)[6 + k] == tag[k];
    assert MagicAdif.TagPattern(tag)[..6 + k] == "name=\"" + tag[..k];
  }

  /** A parameter line's value is read back under its tag when the tag
      is first found at that line and the value fits the client's buffer. */
  lemma LineValueRead(open: string, tag: string, value: string, validity: int, timeMs: nat, post: string, k: nat)
    requires |tag| <= 120 && k < |tag| && 'v' !in tag
    requires tag[k] !in open + "        <parameter " && tag[k] !in "name=\"" && tag[k] !in tag[..k]
    requires |value| < MagicAdif.ValueSize && '"' !in value
    ensures MagicAdif.AttrValue(open + ParamLine(tag, value, validity, timeMs) + post, tag, "value", MagicAdif.ValueSize)
      == Some(value)
  {
    var rest := " " + Field("validity", IntToString(validity)) + " time=\"" + NatToString(timeMs) + "\"/>\n" + post;
    ParamLineAtValue(open, tag, value, validity, timeMs, post);
    MagicAdif.AttrPatternOf("value");
    MagicAdif.TagPatternOf(tag);
    assert 'v' !in MagicAdif.TagPattern(tag) + " ";
    TagWitness(open + "        <parameter ", tag, k);
    MagicAdif.AttrValueFound(open + "        <parameter ", tag, " ", "value",
                             value, rest, MagicAdif.ValueSize, 6 + k, 0);
  }

  /** A parameter line's validity is read back under its tag when the tag
      is first found at that line and the rendering fits the client's
      8-byte buffer. */
  lemma LineValidityRead(open: string, tag: string, value: string, validity: int, timeMs: nat, post: string, k: nat)
    requires |tag| <= 120 && k < |tag| && 'd' !in tag && 'd' !in value
    requires tag[k] !in open + "        <parameter " && tag[k] !in "name=\"" && tag[k] !in tag[..k]
    requires -1_000_000 < validity < 10_000_000
    ensures MagicAdif.AttrValue(open + ParamLine(tag, value, validity, timeMs) + post, tag, "validity", MagicAdif.ValiditySize)
      == Some(IntToString(validity))
  {
    var v := IntToString(validity);
    var rest := " time=\"" + NatToString(timeMs) + "\"/>\n" + post;
    var between := " " + Field("value", value) + " ";
    ParamLineAtValidity(open, tag, value, validity, timeMs, post);
    MagicAdif.AttrPatternOf("validity");
    MagicAdif.TagPatternOf(tag);
    assert 'd' !in MagicAdif.TagPattern(tag) + between;
    TagWitness(open + "        <parameter ", tag, k);
    NoQuoteInInt(validity);
    assert |v| <= 7 by {
      if validity < 0 {
        NatDigits(-validity, 6);
      } else {
        NatDigits(validity, 7);
      }
    }
    MagicAdif.AttrValueFound(open + "        <parameter ", tag, between, "validity",
                             v, rest, MagicAdif.ValiditySize, 6 + k, 4);
  }

  /** The WeightOnWheels tag is first found at its own line: its `W`
      occurs neither before it nor in `name="`, and it holds neither a `v`
      nor a `d` that the attribute searches could stop at. */
  lemma WowTagFacts()
    ensures |"WeightOnWheels"| <= 120 && 'v' !in "WeightOnWheels" && 'd' !in "WeightOnWheels"
    ensures 'W' !in PublishOpen + "        <parameter " && 'W' !in "name=\"" && 'W' !in "WeightOnWheels"[..0]
  {
    OpenLacksW();
  }

  lemma OpenLacksW()
    ensures 'W' !in PublishOpen + "        <parameter "
  {
  }

  /** The WeightOnWheels text is a short digit. */
  lemma WowTextFacts(onGround: bool)
    ensures |WowText(onGround)| < MagicAdif.ValueSize && '"' !in WowText(onGround) && 'd' !in WowText(onGround)
  {
  }

  /** The weight-on-wheels flag and its validity survive publication: the
      MAGIC client reads the simulator's document back to the same flag,
      and to the same validity when it fits the client's 8-byte buffer. */
  lemma WowRoundTrip(s: SimState, timeMs: nat, st: MagicAdif.Aircraft, nowSec: nat)
    requires -1_000_000 < s.validity < 10_000_000
    ensures var r := MagicAdif.Published(PublishXml(s, timeMs), st, nowSec);
      r.wow.onGround == s.onGround && r.wow.validity == s.validity
  {
    var doc := PublishXml(s, timeMs);
    WowTagFacts();
    WowTextFacts(s.onGround);
    LineValueRead(PublishOpen, "WeightOnWheels", WowText(s.onGround), s.validity, timeMs, OtherLines(s, timeMs), 0);
    LineValidityRead(PublishOpen, "WeightOnWheels", WowText(s.onGround), s.validity, timeMs, OtherLines(s, timeMs), 0);
    MagicAdif.PublishedWow(doc, st, nowSec);
    WowTextReads(s.onGround);
    IntTextReads(s.validity);
  }

  /** `atoi` reads the WeightOnWheels text as 0 on the ground, 1 in the air. */
  lemma WowTextReads(onGround: bool)
    ensures Atoi(WowText(onGround)) == if onGround then 0 else 1
  {
    AtoiOfIntToStringThen(if onGround then 0 else 1, "");
    assert WowText(onGround) == IntToString(if onGround then 0 else 1) + "";
  }

  /** `atoi` reads a `%d` rendering back. */
  lemma IntTextReads(i: int)
    ensures Atoi(IntToString(i)) == i
  {
    AtoiOfIntToStringThen(i, "");
    assert IntToString(i) + "" == IntToString(i);
  }

  // ------------------------------------------------------- subscribers

  /** `SubscribedClient`, the address left out; `asyncSock` is −1 when
      the connection to the client's port failed. */
  datatype Client = Client(syncSock: int, asyncSock: int, asyncPort: nat, refreshMs: nat, subscribed: bool)

  const EmptyClient := Client(0, 0, 0, 0, false)

  /** A refresh period of 0 stands for the default one. */
  function RefreshOrDefault(refreshMs: nat): (r: nat)
    ensures r > 0 && (refreshMs > 0 ==> r == refreshMs)
  {
    if refreshMs > 0 then refreshMs else DefaultRefreshMs
  }

  /** The simulator's globals: the aircraft state and the subscriber
      table. */
  class Simulator {
    var onGround: bool
    var latitude: string
    var longitude: string
    var altitudeFt: string
    var groundSpeedKts: string
    var verticalSpeedFpm: string
    var phase: int
    var tailNumber: string
    var validity: int
    var clients: array<Client>
    var numClients: nat

    function State(): SimState
      reads this
    {
      SimState(onGround, latitude, longitude, altitudeFt, groundSpeedKts,
               verticalSpeedFpm, phase, tailNumber, validity)
    }

    /** The table holds `ADIF_MAX_CLIENTS` slots and the count never
        exceeds it. */
    predicate Valid()
      reads this
    {
      clients.Length == MaxClients && numClients <= MaxClients
    }

    /** `init_default_state` and the zeroed subscriber table. */
    constructor ()
      ensures Valid() && fresh(clients)
      ensures State() == DefaultState && numClients == 0
      ensures clients[..] == seq(MaxClients, _ => EmptyClient)
    {
      onGround := true;
      latitude := "33.942500";
      longitude := "-118.408100";
      altitudeFt := "120";
      groundSpeedKts := "0.0";
      verticalSpeedFpm := "0";
      phase := MagicAdif.Gate;
      tailNumber := "N12345";
      validity := 1;
      clients := new Client[MaxClients](_ => EmptyClient);
      numClients := 0;
    }

    /** `add_client`: −1 with the table full; otherwise the next slot takes
        the subscriber, with a period of 0 replaced by the default, and the
        count grows by one. `asyncSock` is the outcome of connecting to the
        client's asynchronous port. */
    method AddClient(syncSock: int, asyncSock: int, asyncPort: nat, refreshMs: nat) returns (rc: int)
      requires Valid()
      modifies this, clients
      ensures Valid() && clients == old(clients) && State() == old(State())
      ensures old(numClients) == MaxClients ==>
        rc == -1 && numClients == old(numClients) && clients[..] == old(clients[..])
      ensures old(numClients) < MaxClients ==>
        && rc == 0 && numClients == old(numClients) + 1
        && clients[..] == old(clients[..])[old(numClients) :=
             Client(syncSock, asyncSock, asyncPort, RefreshOrDefault(refreshMs), true)]
    {
      if numClients >= MaxClients {
        return -1;
      }
      clients[numClients] := Client(syncSock, asyncSock, asyncPort, RefreshOrDefault(refreshMs), true);
      numClients := numClients + 1;
      rc := 0;
    }

    /** One request received by `server_thread`: a text naming
        `subscribeAvionicParameters` is parsed against the defaults 64001
        and 1000 and its sender registered; any other text is ignored. */
    method HandleRequest(request: string, syncSock: int, asyncSock: int) returns (subscribed: bool)
      requires Valid()
      modifies this, clients
      ensures Valid() && clients == old(clients) && State() == old(State())
      ensures subscribed <==> IsSubstring("subscribeAvionicParameters", request)
      ensures !subscribed || old(numClients) == MaxClients ==>
        numClients == old(numClients) && clients[..] == old(clients[..])
      ensures subscribed && old(numClients) < MaxClients ==>
        var (port, refresh) := ParseSubscribe(request, DefaultAsyncPort, DefaultRefreshMs);
        && numClients == old(numClients) + 1
        && clients[..] == old(clients[..])[old(numClients) :=
             Client(syncSock, asyncSock, port, RefreshOrDefault(refresh), true)]
    {
      subscribed := Search("subscribeAvionicParameters", request).Some?;
      if subscribed {
        var (port, refresh) := ParseSubscribe(request, DefaultAsyncPort, DefaultRefreshMs);
        var rc := AddClient(syncSock, asyncSock, port, refresh);
      }
    }

    /** `cmd_wow`: on the ground exactly when the argument reads as a
        non-zero integer; no argument changes nothing. */
    method CmdWow(arg: Option<string>)
      modifies this
      ensures arg.None? ==> State() == old(State())
      ensures arg.Some? ==> State() == old(State()).(onGround := Atoi(arg.value) != 0)
      ensures clients == old(clients) && numClients == old(numClients)
    {
      if arg.None? {
        return;
      }
      onGround := Atoi(arg.value) != 0;
    }

    /** `cmd_phase`: a text the phase table knows sets the phase; an
        unknown text, or none, leaves the state as it was. */
    method CmdPhase(arg: Option<string>)
      modifies this
      ensures var p := MagicAdif.ParsePhase(arg);
        State() == if p == MagicAdif.Unknown then old(State()) else old(State()).(phase := p)
      ensures clients == old(clients) && numClients == old(numClients)
    {
      if arg.None? {
        return;
      }
      var p := StringToPhase(arg);
      if p == MagicAdif.Unknown {
        return;
      }
      phase := p;
    }

    /** `cmd_tail`: the tail number keeps at most 15 characters of the
        argument. */
    method CmdTail(arg: Option<string>)
      modifies this
      ensures arg.None? ==> State() == old(State())
      ensures arg.Some? ==> State() == old(State()).(tailNumber := Bounded(arg.value, 15))
      ensures clients == old(clients) && numClients == old(numClients)
    {
      if arg.None? {
        return;
      }
      tailNumber := Bounded(arg.value, 15);
    }
  }

  /** A `wow` command reaches the MAGIC client: after `wow x` the next
      published document reads as on the ground exactly when `x` is a
      non-zero integer. */
  lemma WowCommandReachesClient(s: SimState, x: string, timeMs: nat, st: MagicAdif.Aircraft, nowSec: nat)
    requires -1_000_000 < s.validity < 10_000_000
    ensures MagicAdif.Published(PublishXml(s.(onGround := Atoi(x) != 0), timeMs), st, nowSec).wow.onGround
      <==> Atoi(x) != 0
  {
    WowRoundTrip(s.(onGround := Atoi(x) != 0), timeMs, st, nowSec);
  }
}
