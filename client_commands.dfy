/** The MAGIC client's command side: the subscribe-level helpers, the
    client state the Diameter answer handler and the MNTR notification
    handler drive, and the argument handling of the `mcar` and `mccr`
    commands up to the point where the request is built and sent. */
module ClientCommands {
  import opened Wrappers
  import opened CString
  import opened Text

  const U64: nat := 0x1_0000_0000_0000_0000

  const DiameterSuccess: nat := 2001
  const CmdMcar: nat := 100000
  const CmdMccr: nat := 100001
  /** Session-Termination-Answer. */
  const CmdSta: nat := 275

  // ------------------------------------------------------ subscribe levels

  /** `magic_validate_subscribe_level`: 4 and 5 are reserved. */
  predicate ValidLevel(level: nat) {
    level == 0 || level == 1 || level == 2 || level == 3 || level == 6 || level == 7
  }

  const UnknownLevelName := "Unknown (未知)"

  /** `magic_get_subscribe_level_name`. */
  function LevelName(level: nat): string {
    if level == 0 then "No_Status (不订阅)"
    else if level == 1 then "MAGIC_Status (系统状态)"
    else if level == 2 then "DLM_Status (一般状态)"
    else if level == 3 then "MAGIC_DLM_Status (综合状态)"
    else if level == 6 then "DLM_Link_Status (详细链路)"
    else if level == 7 then "All_Status (全部状态)"
    else UnknownLevelName
  }

  /** The valid levels are exactly the named ones, each with its own name. */
  lemma LevelNames(a: nat, b: nat)
    ensures LevelName(a) == UnknownLevelName <==> !ValidLevel(a)
    ensures ValidLevel(a) && ValidLevel(b) && a != b ==> LevelName(a) != LevelName(b)
  {
  }

  // ---------------------------------------------------------- client state

  datatype Phase = Idle | Authenticated | Active | Queued

  /** The `mcar`/`mccr` request parameters of `g_cfg` (bandwidths in bps). */
  datatype Cfg = Cfg(profile: string, requestedBw: nat, requestedRetBw: nat, requiredBw: nat, requiredRetBw: nat,
                     priorityClass: nat, qosLevel: nat, keepRequest: bool)

  /** The handler-owned globals, plus the CLI's "registered" flag. */
  datatype ClientView = ClientView(
    state: Phase, link: string, gateway: string, grantedBw: nat, grantedRetBw: nat, bearer: nat,
    sessionTimeout: nat, requestedLevel: nat, grantedLevel: nat, registered: bool)

  const Start := ClientView(Idle, "", "", 0, 0, 0, 0, 0, 0, false)

  /** The children of Communication-Answer-Parameters the client reads,
      by the codes `parse_comm_answer_params` tests: Selected-Link-ID
      (10023) and DLM-Name (10004) both set the link, Bearer-ID (10024)
      and Link-Number (10012) both set the bearer, Granted-Bandwidth
      (10051) and Granted-Return-Bandwidth (10052) are Float32 values
      truncated to integers, Gateway-IPAddress is 10029 and
      Session-Timeout 291. QoS-Level (10009) and Keep-Request (10025) are
      only logged. */
  datatype AnswerAvp =
    | SelectedLink(name: string)
    | Bearer(id: nat)
    | GrantedBandwidth(bps: nat)
    | GrantedReturnBandwidth(bps: nat)
    | GatewayAddress(addr: string)
    | SessionTimeout(seconds: nat)
    | OtherAnswerAvp

  /** What the answer callback reads from an answer: Result-Code (absent
      when `None`); as `magicStatus`, the vendor AVP with code 10030 (0
      when absent), which the callback takes for MAGIC-Status-Code although
      the dictionary gives 10030 to TFTtoGround-Rule and MAGIC-Status-Code
      is 10053; REQ-Status-Info; and the Communication-Answer-Parameters
      group. */
  datatype Answer = Answer(command: nat, resultCode: Option<nat>, magicStatus: nat,
                           statusLevel: Option<nat>, commParams: Option<seq<AnswerAvp>>)

  function ApplyAvp(v: ClientView, p: AnswerAvp): ClientView {
    match p
    case SelectedLink(s) => v.(link := Bounded(s, 63))
    case Bearer(n) => v.(bearer := n)
    case GrantedBandwidth(n) => v.(grantedBw := n)
    case GrantedReturnBandwidth(n) => v.(grantedRetBw := n)
    case GatewayAddress(s) => v.(gateway := Bounded(s, 63))
    case SessionTimeout(n) => v.(sessionTimeout := n)
    case OtherAnswerAvp => v
  }

  /** `parse_comm_answer_params`: the children in order. */
  function ApplyAvps(v: ClientView, ps: seq<AnswerAvp>): ClientView {
    if |ps| == 0 then v else ApplyAvp(ApplyAvps(v, ps[..|ps| - 1]), ps[|ps| - 1])
  }

  function ApplyCommParams(v: ClientView, g: Option<seq<AnswerAvp>>): ClientView {
    if g.None? then v else ApplyAvps(v, g.value)
  }

  /** `magic_answer_callback`. */
  function AnswerStep(v: ClientView, a: Answer): ClientView {
    if a.resultCode.None? then v
    else if a.resultCode.value == DiameterSuccess then
      if a.command == CmdMcar then
        var v1 := if a.statusLevel.Some? then v.(grantedLevel := a.statusLevel.value) else v;
        var v2 := ApplyCommParams(v1, a.commParams);
        if v2.link != "" && v2.grantedBw > 0 then v2.(state := Active, registered := true)
        else v2.(state := Authenticated, registered := true)
      else if a.command == CmdMccr then
        var v2 := ApplyCommParams(v, a.commParams);
        if v2.link != "" && v2.grantedBw > 0 then v2.(state := Active)
        else if v2.grantedBw == 0 && v2.grantedRetBw == 0 then
          if v2.state == Active then v2.(state := Authenticated, link := "", gateway := "")
          else if a.magicStatus == 0 then v2.(state := Queued)
          else v2
        else v2
      else if a.command == CmdSta then
        v.(state := Idle, registered := false, link := "", gateway := "", grantedBw := 0, grantedRetBw := 0)
      else v
    else if a.command == CmdMcar then v.(state := Idle, registered := false)
    else v
  }

  /** The subscription was downgraded: fewer statuses granted than asked. */
  predicate Downgraded(v: ClientView) {
    v.grantedLevel < v.requestedLevel
  }

  /** The last Selected-Link-ID of a group, and the last Granted-Bandwidth:
      an independent reading of "the later child wins". */
  function LastLink(ps: seq<AnswerAvp>): Option<string> {
    if |ps| == 0 then None
    else if ps[|ps| - 1].SelectedLink? then Some(ps[|ps| - 1].name)
    else LastLink(ps[..|ps| - 1])
  }

  function LastGrant(ps: seq<AnswerAvp>): Option<nat> {
    if |ps| == 0 then None
    else if ps[|ps| - 1].GrantedBandwidth? then Some(ps[|ps| - 1].bps)
    else LastGrant(ps[..|ps| - 1])
  }

  lemma {:induction false} LaterAvpWins(v: ClientView, ps: seq<AnswerAvp>)
    ensures ApplyAvps(v, ps).link == (if LastLink(ps).Some? then Bounded(LastLink(ps).value, 63) else v.link)
    ensures ApplyAvps(v, ps).grantedBw == (if LastGrant(ps).Some? then LastGrant(ps).value else v.grantedBw)
    ensures ApplyAvps(v, ps).state == v.state && ApplyAvps(v, ps).registered == v.registered
  {
    if |ps| > 0 {
      LaterAvpWins(v, ps[..|ps| - 1]);
    }
  }

  /** An answer without Result-Code, an unsuccessful answer to anything but
      MCAR, and a successful answer to another command (MSXR, MADR, MACR)
      leave the client as it was. */
  lemma IgnoredAnswers(v: ClientView, a: Answer)
    requires a.resultCode.None?
      || (a.resultCode.value != DiameterSuccess && a.command != CmdMcar)
      || (a.command != CmdMcar && a.command != CmdMccr && a.command != CmdSta)
    ensures AnswerStep(v, a) == v
  {
  }

  /** A refused MCAR unregisters the client; nothing else is cleared. */
  lemma McarRefused(v: ClientView, a: Answer)
    requires a.command == CmdMcar && a.resultCode.Some? && a.resultCode.value != DiameterSuccess
    ensures AnswerStep(v, a) == v.(state := Idle, registered := false)
  {
  }

  /** A successful MCAA registers the client, which becomes ACTIVE exactly
      when it now holds a link and a forward grant; a REQ-Status-Info in the
      answer is the granted level. */
  lemma McaaOutcome(v: ClientView, a: Answer)
    requires a.command == CmdMcar && a.resultCode == Some(DiameterSuccess)
    ensures var w := AnswerStep(v, a);
      && w.registered
      && (w.state == Active || w.state == Authenticated)
      && (w.state == Active <==> w.link != "" && w.grantedBw > 0)
      && w.grantedLevel == (if a.statusLevel.Some? then a.statusLevel.value else v.grantedLevel)
      && w.requestedLevel == v.requestedLevel
      && (a.statusLevel.Some? ==> (Downgraded(w) <==> a.statusLevel.value < v.requestedLevel))
  {
    if a.commParams.Some? {
      var v1 := if a.statusLevel.Some? then v.(grantedLevel := a.statusLevel.value) else v;
      AvpsKeepLevels(v1, a.commParams.value);
    }
  }

  lemma {:induction false} AvpsKeepLevels(v: ClientView, ps: seq<AnswerAvp>)
    ensures ApplyAvps(v, ps).grantedLevel == v.grantedLevel && ApplyAvps(v, ps).requestedLevel == v.requestedLevel
  {
    if |ps| > 0 {
      AvpsKeepLevels(v, ps[..|ps| - 1]);
    }
  }

  /** A successful MCCA with a link and a forward grant activates; one
      granting nothing releases an active link, and otherwise queues when
      the status is 0. */
  lemma MccaOutcome(v: ClientView, a: Answer)
    requires a.command == CmdMccr && a.resultCode == Some(DiameterSuccess)
    ensures var v2 := ApplyCommParams(v, a.commParams); var w := AnswerStep(v, a);
      && (v2.link != "" && v2.grantedBw > 0 ==> w.state == Active)
      && (v2.grantedBw == 0 && v2.grantedRetBw == 0 && v.state == Active ==>
            w.state == Authenticated && w.link == "" && w.gateway == "")
      && (v2.grantedBw == 0 && v2.grantedRetBw == 0 && v.state != Active && a.magicStatus == 0 ==> w.state == Queued)
      && w.registered == v.registered
  {
    if a.commParams.Some? {
      LaterAvpWins(v, a.commParams.value);
    }
  }

  /** A successful STA returns to IDLE with no link, gateway or grant. */
  lemma StaClears(v: ClientView, a: Answer)
    requires a.command == CmdSta && a.resultCode == Some(DiameterSuccess)
    ensures var w := AnswerStep(v, a);
      w.state == Idle && !w.registered && w.link == "" && w.gateway == "" && w.grantedBw == 0 && w.grantedRetBw == 0
  {
  }

  // --------------------------------------------------------- MNTR handler

  /** A child of a report group: Granted-Bandwidth (10051), or another. */
  datatype ReportAvp = ReportGrantedBandwidth(bps: nat) | OtherReportAvp

  /** A top-level AVP of an MNTR, by its code: an Unsigned32 value, a
      group of report children, or one the handler only logs. */
  datatype NotifyAvp = NotifyValue(code: nat, value: nat) | NotifyGroup(code: nat, children: seq<ReportAvp>) | OtherNotifyAvp

  /** The AVP codes an MNTR handler takes for MAGIC-Status-Code and for
      Communication-Report-Parameters. */
  datatype MntrCodes = MntrCodes(status: nat, report: nat)

  /** The codes `mntr_handler_callback` switches on. The dictionary gives
      10009 to DLM-Allocated-Return-Bandwidth and 10050 to CDR-Started. */
  const HandlerCodes := MntrCodes(10009, 10050)

  /** The dictionary's MAGIC-Status-Code (10053) and
      Communication-Report-Parameters (20003), which the server's MNTR
      carries. */
  const DictionaryCodes := MntrCodes(10053, 20003)

  /** LINK_ERROR, SESSION_TIMEOUT and MAGIC_SHUTDOWN release the link. */
  predicate ReleasesLink(code: nat) { code == 2007 || code == 1024 || code == 1025 }

  /** A status AVP, under the given codes, whose value releases the link. */
  predicate Releasing(codes: MntrCodes, x: NotifyAvp) {
    x.NotifyValue? && x.code == codes.status && ReleasesLink(x.value)
  }

  /** An AVP the handler does not switch on under the given codes. */
  predicate Unread(codes: MntrCodes, x: NotifyAvp) {
    x.OtherNotifyAvp? || (x.NotifyValue? && x.code != codes.status) || (x.NotifyGroup? && x.code != codes.report)
  }

  function ReportStep(v: ClientView, cs: seq<ReportAvp>): ClientView {
    if |cs| == 0 then v
    else
      var w := ReportStep(v, cs[..|cs| - 1]);
      match cs[|cs| - 1]
      case ReportGrantedBandwidth(b) => w.(grantedBw := b)
      case OtherReportAvp => w
  }

  function NotifyAvpStep(codes: MntrCodes, v: ClientView, x: NotifyAvp): ClientView {
    match x
    case NotifyValue(code, c) =>
      if code == codes.status && ReleasesLink(c) then v.(state := Authenticated, link := "", bearer := 0) else v
    case NotifyGroup(code, cs) => if code == codes.report then ReportStep(v, cs) else v
    case OtherNotifyAvp => v
  }

  /** An MNTR handler switching on `codes`: the AVPs in order.
      `mntr_handler_callback` is this with `HandlerCodes`. */
  function NotifyStep(codes: MntrCodes, v: ClientView, xs: seq<NotifyAvp>): ClientView {
    if |xs| == 0 then v else NotifyAvpStep(codes, NotifyStep(codes, v, xs[..|xs| - 1]), xs[|xs| - 1])
  }

  lemma {:induction false} ReportOnlyGrants(v: ClientView, cs: seq<ReportAvp>)
    ensures ReportStep(v, cs).(grantedBw := v.grantedBw) == v
  {
    if |cs| > 0 {
      ReportOnlyGrants(v, cs[..|cs| - 1]);
    }
  }

  /** An MNTR whose last AVP is a releasing status code leaves the client
      authenticated with neither link nor bearer; an MNTR without such a
      code never changes the state, the link or the bearer. */
  lemma {:induction false} MntrOutcome(codes: MntrCodes, v: ClientView, xs: seq<NotifyAvp>)
    ensures (forall i :: 0 <= i < |xs| ==> !Releasing(codes, xs[i])) ==>
      var w := NotifyStep(codes, v, xs); w.state == v.state && w.link == v.link && w.bearer == v.bearer
    ensures |xs| > 0 && Releasing(codes, xs[|xs| - 1]) ==>
      var w := NotifyStep(codes, v, xs); w.state == Authenticated && w.link == "" && w.bearer == 0
  {
    if |xs| > 0 {
      MntrOutcome(codes, v, xs[..|xs| - 1]);
      var w := NotifyStep(codes, v, xs[..|xs| - 1]);
      if xs[|xs| - 1].NotifyGroup? && xs[|xs| - 1].code == codes.report {
        ReportOnlyGrants(w, xs[|xs| - 1].children);
      }
    }
  }

  /** An MNTR none of whose AVPs the handler switches on changes nothing. */
  lemma {:induction false} UnreadMntrIgnored(codes: MntrCodes, v: ClientView, xs: seq<NotifyAvp>)
    requires forall i :: 0 <= i < |xs| ==> Unread(codes, xs[i])
    ensures NotifyStep(codes, v, xs) == v
  {
    if |xs| > 0 {
      UnreadMntrIgnored(codes, v, xs[..|xs| - 1]);
    }
  }

  /** The top-level AVPs of the server's MNTR that the handler could read:
      Communication-Report-Parameters, then MAGIC-Status-Code when it is
      not 0. */
  function ServerMntr(status: nat, report: seq<ReportAvp>): (r: seq<NotifyAvp>)
    ensures 1 <= |r| && r[0] == NotifyGroup(DictionaryCodes.report, report)
    ensures |r| == 2 <==> status > 0
    ensures status > 0 ==> r[1] == NotifyValue(DictionaryCodes.status, status)
  {
    [NotifyGroup(20003, report)] + (if status > 0 then [NotifyValue(10053, status)] else [])
  }

  /** The handler as written ignores the server's MNTR: a LINK_ERROR leaves
      an active client active on its link with its old grant. */
  lemma LinkErrorMntrKeepsLink(v: ClientView, report: seq<ReportAvp>)
    requires v.state == Active && v.link != ""
    ensures var w := NotifyStep(HandlerCodes, v, ServerMntr(2007, report));
      w == v && w.state == Active && w.link != ""
  {
    UnreadMntrIgnored(HandlerCodes, v, ServerMntr(2007, report));
  }

  /** Switching on the dictionary's codes, the same MNTR releases the link
      and takes the reported grant. */
  lemma LinkErrorMntrReleases(v: ClientView, report: seq<ReportAvp>)
    ensures var w := NotifyStep(DictionaryCodes, v, ServerMntr(2007, report));
      && w.state == Authenticated && w.link == "" && w.bearer == 0
      && w.grantedBw == ReportStep(v, report).grantedBw
  {
    var xs := ServerMntr(2007, report);
    assert xs[..1] == [NotifyGroup(20003, report)];
    assert xs[..1][..0] == [];
    assert NotifyStep(DictionaryCodes, v, xs[..1]) == ReportStep(v, report);
    MntrOutcome(DictionaryCodes, v, xs);
  }

  // ------------------------------------------------------ `mcar` arguments

  datatype McarScenario = AuthOnly | AuthSubscribe | Connect

  /** The outcome of `cmd_mcar`'s argument handling: `ok` false is the
      early −1; otherwise the request is built with REQ-Status-Info when
      `subscribe` holds and the level is not 0. */
  datatype McarPlan = McarPlan(ok: bool, scenario: McarScenario, subscribe: bool, level: nat, cfg: Cfg)

  /** `strtoull(s, NULL, 10) * 1000` in 64 bits: kbps to bps. A number
      too large for 64 bits saturates to ULLONG_MAX before the product
      wraps. */
  function Kbps(s: string): (r: nat)
    ensures r < U64
  {
    (Strtoul(s) * 1000) % U64
  }

  /** A written number of kbps below 2^64 gives its bps value modulo
      2^64; one of 2^64 or more saturates, giving 2^64 - 1000. */
  lemma KbpsOfDigits(s: string)
    requires |s| > 0 && AllDigits(s)
    ensures DigitsValue(s) < U64 ==> Kbps(s) == (DigitsValue(s) * 1000) % U64
    ensures DigitsValue(s) >= U64 ==> Kbps(s) == U64 - 1000
  {
    AtoiOfDigits(s);
    if DigitsValue(s) >= U64 {
      assert Strtoul(s) == U64 - 1;
      SaturatedKbps();
    } else {
      StrtoulInRange(s);
    }
  }

  lemma SaturatedKbps()
    ensures ((U64 - 1) * 1000) % U64 == U64 - 1000
  {
    assert (U64 - 1) * 1000 == 999 * U64 + (U64 - 1000);
  }

  /** The level argument as `cmd_mcar` reads it: `atoi` into a `uint32_t`. */
  function LevelArg(s: string): nat {
    CastU32(Atoi(s))
  }

  /** The first "subscribe" at or after `from`. */
  function FindSubscribe(args: seq<string>, from: nat): (r: Option<nat>)
    ensures r.Some? ==> (from <= r.value < |args| && args[r.value] == "subscribe"
                         && forall j :: from <= j < r.value ==> args[j] != "subscribe")
    ensures r.None? ==> forall j :: from <= j < |args| ==> args[j] != "subscribe"
    decreases |args| - from
  {
    if from >= |args| then None
    else if args[from] == "subscribe" then Some(from)
    else FindSubscribe(args, from + 1)
  }

  /** The level a "subscribe" keyword at `i` selects: the next argument, or
      3 (MAGIC_DLM_Status) when it is the last. */
  function LevelAfter(args: seq<string>, i: nat): nat
    requires i < |args|
  {
    if i + 1 < |args| then LevelArg(args[i + 1]) else 3
  }

  /** `mcar connect [profile] [fwd_kbps] [ret_kbps] [subscribe [level]]`. */
  function ConnectCfg(args: seq<string>, cfg: Cfg): Cfg
    requires |args| >= 2
  {
    var c1 := if |args| >= 3 then cfg.(profile := Bounded(args[2], 63)) else cfg;
    var c2 := if |args| >= 4 then c1.(requestedBw := Kbps(args[3]), requestedRetBw := Kbps(args[3])) else c1;
    if |args| >= 5 && args[4] != "subscribe" then c2.(requestedRetBw := Kbps(args[4])) else c2
  }

  function ConnectFrom(args: seq<string>): nat {
    if |args| >= 5 && args[4] != "subscribe" then 5 else if |args| >= 4 then 4 else if |args| >= 3 then 3 else 2
  }

  /** `cmd_mcar` up to building the request. */
  function Mcar(args: seq<string>, cfg: Cfg): McarPlan {
    if |args| < 2 then McarPlan(true, AuthOnly, false, 0, cfg)
    else if args[1] == "auth" then McarPlan(true, AuthOnly, false, 0, cfg)
    else if args[1] == "subscribe" then
      var level := if |args| >= 3 then LevelArg(args[2]) else 3;
      McarPlan(ValidLevel(level), AuthSubscribe, true, level, cfg)
    else if args[1] == "connect" then
      var c := ConnectCfg(args, cfg);
      match FindSubscribe(args, ConnectFrom(args))
      case None => McarPlan(true, Connect, false, 0, c)
      case Some(i) =>
        var level := LevelAfter(args, i);
        McarPlan(ValidLevel(level), Connect, true, level, c)
    else if args[1] == "create_session" then McarPlan(true, Connect, false, 0, cfg)
    else McarPlan(false, AuthOnly, false, 0, cfg)
  }

  /** The subscription levels `cmd_mcar` leaves behind: both reset, then
      the requested one recorded when the arguments were accepted. */
  function McarLevels(v: ClientView, p: McarPlan): ClientView {
    v.(requestedLevel := if p.ok && p.subscribe then p.level else 0, grantedLevel := 0)
  }

  /** A refused `mcar` never has a valid subscription level to send, and
      an accepted one only ever subscribes to a valid level; `subscribe`
      with no level asks for 3. */
  lemma McarLevelsValid(args: seq<string>, cfg: Cfg)
    ensures var p := Mcar(args, cfg); p.ok && p.subscribe ==> ValidLevel(p.level)
    ensures |args| == 2 && args[1] == "subscribe" ==> Mcar(args, cfg).ok && Mcar(args, cfg).level == 3
    ensures |args| >= 3 && args[1] == "subscribe" ==> (Mcar(args, cfg).ok <==> ValidLevel(LevelArg(args[2])))
  {
  }

  /** Level 4 is refused before any session is created, and the levels
      are reset. */
  lemma McarRefusesReservedLevel(args: seq<string>, cfg: Cfg, v: ClientView)
    requires |args| >= 3 && args[1] == "subscribe" && args[2] == "4"
    ensures !Mcar(args, cfg).ok
    ensures McarLevels(v, Mcar(args, cfg)).requestedLevel == 0
  {
    var s := "4";
    assert AllDigits(s) && DigitsValue(s) == 4 by {
      assert s[..0] == "";
    }
    AtoiOfDigits(s);
    assert LevelArg(args[2]) == 4;
  }

  // ------------------------------------------------------ `mccr` arguments

  datatype MccrScenario = OpenLink | ModifyLink | StopLink | QueueLink

  function U32Arg(s: string): nat { CastU32(Atoi(s)) }

  function StartCfg(args: seq<string>, cfg: Cfg): Cfg {
    var c1 := if |args| > 2 then cfg.(profile := Bounded(args[2], 63)) else cfg;
    var c2 := if |args| > 3 then c1.(requiredBw := Kbps(args[3])) else c1;
    var c3 := if |args| > 4 then c2.(requestedBw := Kbps(args[4])) else c2.(requestedBw := (2 * c2.requiredBw) % U64);
    var c4 := if |args| > 5 then c3.(priorityClass := U32Arg(args[5])) else c3;
    var c5 := if |args| > 6 then c4.(qosLevel := U32Arg(args[6])) else c4;
    var c6 := if c5.requestedRetBw == 0 then c5.(requestedRetBw := c5.requestedBw, requiredRetBw := c5.requiredBw) else c5;
    c6.(keepRequest := false)
  }

  function ModifyCfg(args: seq<string>, cfg: Cfg): Cfg {
    var c1 := if |args| > 2 then cfg.(requiredBw := Kbps(args[2])) else cfg;
    var c2 := if |args| > 3 then c1.(requestedBw := Kbps(args[3])) else c1;
    var c3 := if |args| > 4 then c2.(priorityClass := U32Arg(args[4])) else c2;
    var c4 := if |args| > 5 then c3.(qosLevel := U32Arg(args[5])) else c3;
    c4.(keepRequest := false)
  }

  function QueueCfg(args: seq<string>, cfg: Cfg): Cfg {
    var c1 := if |args| > 2 then cfg.(requiredBw := Kbps(args[2])) else cfg;
    var c2 := if |args| > 3 then c1.(requestedBw := Kbps(args[3])) else c1.(requestedBw := c1.requiredBw);
    var c3 := if |args| > 4 then c2.(priorityClass := U32Arg(args[4])) else c2;
    c3.(requestedRetBw := c3.requestedBw, requiredRetBw := c3.requiredBw, keepRequest := true)
  }

  /** `cmd_mccr` up to building the request: `None` is the early −1. */
  function Mccr(registered: bool, state: Phase, args: seq<string>, cfg: Cfg): (Option<MccrScenario>, Cfg) {
    if |args| < 2 || !registered then (None, cfg)
    else if args[1] == "start" || args[1] == "create" then
      (Some(if state == Active then ModifyLink else OpenLink), StartCfg(args, cfg))
    else if args[1] == "modify" then
      if state != Active then (None, cfg) else (Some(ModifyLink), ModifyCfg(args, cfg))
    else if args[1] == "stop" || args[1] == "release" then
      (Some(StopLink), cfg.(requestedBw := 0, requestedRetBw := 0, requiredBw := 0, requiredRetBw := 0, keepRequest := false))
    else if args[1] == "queue" then (Some(QueueLink), QueueCfg(args, cfg))
    else (None, cfg)
  }

  /** The `mccr` rules: nothing is sent unregistered; `start` on an active
      session modifies it and asks for twice the minimum by default;
      `modify` needs an active session; `stop` asks for nothing; `queue`
      keeps the request and asks symmetrically. */
  lemma MccrRules(registered: bool, state: Phase, args: seq<string>, cfg: Cfg)
    ensures !registered ==> Mccr(registered, state, args, cfg) == (None, cfg)
    ensures registered && |args| >= 2 && (args[1] == "start" || args[1] == "create") ==>
      && Mccr(registered, state, args, cfg).0 == Some(if state == Active then ModifyLink else OpenLink)
      && (|args| <= 4 ==> Mccr(registered, state, args, cfg).1.requestedBw ==
                          (2 * (if |args| > 3 then Kbps(args[3]) else cfg.requiredBw)) % U64)
    ensures registered && |args| >= 2 && args[1] == "modify" ==>
      (Mccr(registered, state, args, cfg).0.Some? <==> state == Active)
    ensures registered && |args| >= 2 && (args[1] == "stop" || args[1] == "release") ==>
      var c := Mccr(registered, state, args, cfg).1;
      c.requestedBw == 0 && c.requestedRetBw == 0 && c.requiredBw == 0 && c.requiredRetBw == 0 && !c.keepRequest
    ensures registered && |args| >= 2 && args[1] == "queue" ==>
      var c := Mccr(registered, state, args, cfg).1;
      c.keepRequest && c.requestedRetBw == c.requestedBw && c.requiredRetBw == c.requiredBw
  {
  }

  // ------------------------------------------------------------ the client

  /** The globals of the client's command module. */
  class CommandClient {
    var state: Phase
    var link: string
    var gateway: string
    var grantedBw: nat
    var grantedRetBw: nat
    var bearer: nat
    var sessionTimeout: nat
    var requestedLevel: nat
    var grantedLevel: nat
    var registered: bool
    var cfg: Cfg

    function View(): ClientView
      reads this
    {
      ClientView(state, link, gateway, grantedBw, grantedRetBw, bearer, sessionTimeout,
                 requestedLevel, grantedLevel, registered)
    }

    constructor (config: Cfg)
      ensures View() == Start && cfg == config
    {
      state, link, gateway := Idle, "", "";
      grantedBw, grantedRetBw, bearer, sessionTimeout := 0, 0, 0, 0;
      requestedLevel, grantedLevel, registered := 0, 0, false;
      cfg := config;
    }

    /** `parse_comm_answer_params`. */
    method ReadCommParams(ps: seq<AnswerAvp>)
      modifies this
      ensures View() == ApplyAvps(old(View()), ps) && cfg == old(cfg)
    {
      var i := 0;
      while i < |ps|
        invariant i <= |ps|
        invariant View() == ApplyAvps(old(View()), ps[..i]) && cfg == old(cfg)
      {
        assert ps[..i + 1][..i] == ps[..i];
        match ps[i] {
          case SelectedLink(s) => link := Bounded(s, 63);
          case Bearer(n) => bearer := n;
          case GrantedBandwidth(n) => grantedBw := n;
          case GrantedReturnBandwidth(n) => grantedRetBw := n;
          case GatewayAddress(s) => gateway := Bounded(s, 63);
          case SessionTimeout(n) => sessionTimeout := n;
          case OtherAnswerAvp =>
        }
        i := i + 1;
      }
      assert ps[..|ps|] == ps;
    }

    /** `magic_answer_callback`. */
    method OnAnswer(a: Answer)
      modifies this
      ensures View() == AnswerStep(old(View()), a) && cfg == old(cfg)
    {
      if a.resultCode.None? {
        return;
      }
      if a.resultCode.value == DiameterSuccess {
        if a.command == CmdMcar {
          if a.statusLevel.Some? {
            grantedLevel := a.statusLevel.value;
          }
          if a.commParams.Some? {
            ReadCommParams(a.commParams.value);
          }
          if link != "" && grantedBw > 0 {
            state := Active;
          } else {
            state := Authenticated;
          }
          registered := true;
        } else if a.command == CmdMccr {
          if a.commParams.Some? {
            ReadCommParams(a.commParams.value);
          }
          if link != "" && grantedBw > 0 {
            state := Active;
          } else if grantedBw == 0 && grantedRetBw == 0 {
            if state == Active {
              state := Authenticated;
              link := "";
              gateway := "";
            } else if a.magicStatus == 0 {
              state := Queued;
            }
          }
        } else if a.command == CmdSta {
          state := Idle;
          registered := false;
          link, gateway := "", "";
          grantedBw, grantedRetBw := 0, 0;
        }
      } else if a.command == CmdMcar {
        state := Idle;
        registered := false;
      }
    }

    /** `mntr_handler_callback`, switching on the codes it tests. */
    method OnNotification(xs: seq<NotifyAvp>)
      modifies this
      ensures View() == NotifyStep(HandlerCodes, old(View()), xs) && cfg == old(cfg)
    {
      var i := 0;
      while i < |xs|
        invariant i <= |xs|
        invariant View() == NotifyStep(HandlerCodes, old(View()), xs[..i]) && cfg == old(cfg)
      {
        assert xs[..i + 1][..i] == xs[..i];
        match xs[i] {
          case NotifyValue(code, c) =>
            if code == 10009 && ReleasesLink(c) {
              state := Authenticated;
              link := "";
              bearer := 0;
            }
          case NotifyGroup(code, cs) =>
            if code == 10050 {
              ReadReport(cs);
            }
          case OtherNotifyAvp =>
        }
        i := i + 1;
      }
      assert xs[..|xs|] == xs;
    }

    /** The Communication-Report-Parameters children of an MNTR. */
    method ReadReport(cs: seq<ReportAvp>)
      modifies this
      ensures View() == ReportStep(old(View()), cs) && cfg == old(cfg)
    {
      var j := 0;
      while j < |cs|
        invariant j <= |cs|
        invariant View() == ReportStep(old(View()), cs[..j]) && cfg == old(cfg)
      {
        assert cs[..j + 1][..j] == cs[..j];
        if cs[j].ReportGrantedBandwidth? {
          grantedBw := cs[j].bps;
        }
        j := j + 1;
      }
      assert cs[..|cs|] == cs;
    }

    /** `cmd_mcar` up to building the request: 0 when it goes ahead. */
    method PrepareMcar(args: seq<string>) returns (rc: int)
      modifies this
      ensures var p := Mcar(args, old(cfg));
        && rc == (if p.ok then 0 else -1) && cfg == p.cfg
        && View() == McarLevels(old(View()), p)
    {
      requestedLevel, grantedLevel := 0, 0;
      var c := cfg;
      var level: nat := 0;
      var subscribe := false;
      var ok := true;
      if |args| >= 2 {
        if args[1] == "auth" {
        } else if args[1] == "subscribe" {
          level := if |args| >= 3 then LevelArg(args[2]) else 3;
          ok := ValidLevel(level);
          subscribe := true;
        } else if args[1] == "connect" {
          var from := 2;
          if |args| >= 3 {
            c := c.(profile := Bounded(args[2], 63));
            from := 3;
          }
          if |args| >= 4 {
            c := c.(requestedBw := Kbps(args[3]), requestedRetBw := Kbps(args[3]));
            from := 4;
          }
          if |args| >= 5 && args[4] != "subscribe" {
            c := c.(requestedRetBw := Kbps(args[4]));
            from := 5;
          }
          var found := ScanSubscribe(args, from);
          if found.Some? {
            subscribe := true;
            level := LevelAfter(args, found.value);
            ok := ValidLevel(level);
          }
        } else if args[1] == "create_session" {
        } else {
          ok := false;
        }
      }
      cfg := c;
      if ok && subscribe {
        requestedLevel := level;
      }
      rc := if ok then 0 else -1;
    }

    /** The scan of `cmd_mcar connect` for the word "subscribe". */
    static method ScanSubscribe(args: seq<string>, from: nat) returns (r: Option<nat>)
      ensures r == FindSubscribe(args, from)
    {
      var i := from;
      while i < |args|
        invariant from <= i && (i <= |args| || i == from)
        invariant FindSubscribe(args, from) == FindSubscribe(args, i)
        decreases |args| - i
      {
        if args[i] == "subscribe" {
          return Some(i);
        }
        i := i + 1;
      }
      r := None;
    }

    /** `cmd_mccr` up to building the request: 0 when it goes ahead. */
    method PrepareMccr(args: seq<string>) returns (rc: int, scenario: Option<MccrScenario>)
      modifies this
      ensures (scenario, cfg) == Mccr(old(registered), old(state), args, old(cfg))
      ensures rc == (if scenario.Some? then 0 else -1) && View() == old(View())
    {
      if |args| < 2 || !registered {
        return -1, None;
      }
      var action := args[1];
      if action == "start" || action == "create" {
        scenario := Some(if state == Active then ModifyLink else OpenLink);
        cfg := StartCfg(args, cfg);
      } else if action == "modify" {
        if state != Active {
          return -1, None;
        }
        scenario := Some(ModifyLink);
        cfg := ModifyCfg(args, cfg);
      } else if action == "stop" || action == "release" {
        scenario := Some(StopLink);
        cfg := cfg.(requestedBw := 0, requestedRetBw := 0, requiredBw := 0, requiredRetBw := 0, keepRequest := false);
      } else if action == "queue" {
        scenario := Some(QueueLink);
        cfg := QueueCfg(args, cfg);
      } else {
        return -1, None;
      }
      rc := 0;
    }
  }
}
