/** The server's configuration as the policy code sees it: the DLM table
    (Datalink_Profile.xml), the central policy (rule sets, traffic class
    definitions, switching policy) and the client profiles, together with
    the string-to-enum conversions the XML loaders apply and the lookups
    every handler uses. The libxml2 loaders themselves are not modelled:
    a configuration is a value. */
module MagicConfig {
  import opened Wrappers
  import opened Text
  import opened CString

  // ------------------------------------------------------------ enums

  /** `DLMType`: 0 unknown, 1 satellite, 2 cellular, 3 hybrid. */
  datatype DlmType = DlmUnknown | Satellite | Cellular | Hybrid

  function DlmTypeCode(t: DlmType): int {
    match t
    case DlmUnknown => 0
    case Satellite => 1
    case Cellular => 2
    case Hybrid => 3
  }

  /** `LoadBalanceAlgorithm`. */
  datatype LoadBalance = LbUnknown | RoundRobin | LeastLoaded | PriorityFirst

  /** `PolicyAction`: DEFAULT 0, PERMIT 1, PROHIBIT 2. */
  datatype PolicyAction = ActionDefault | Permit | Prohibit

  /** `CfgFlightPhase`: GATE 0 … MAINTENANCE 8, UNKNOWN -1. */
  datatype CfgFlightPhase = Gate | Taxi | TakeOff | Climb | Cruise | Descent | Approach | Landing | Maintenance | PhaseUnknown

  /** `PriorityType`. */
  datatype PriorityType = PriorityUnknown | Blocking | Preemption

  /** `parse_dlm_type`: `atoi` of the text, 1..3, anything else unknown. */
  function ParseDlmType(s: Option<string>): (t: DlmType)
    ensures t != DlmUnknown ==> s.Some? && Atoi(s.value) == DlmTypeCode(t)
  {
    if s.None? then DlmUnknown
    else match Atoi(s.value)
      case 1 => Satellite
      case 2 => Cellular
      case 3 => Hybrid
      case _ => DlmUnknown
  }

  /** The configuration file writes a type as its decimal code, and that
      text reads back as the same type. */
  lemma DlmTypeRoundTrip(t: DlmType)
    ensures ParseDlmType(Some(IntToString(DlmTypeCode(t)))) == t
  {
    AtoiOfIntToString(DlmTypeCode(t));
  }

  /** `parse_link_type`: the older name-based spelling of a DLM type;
      "GATELINK" and "HYBRID" both stand for the hybrid type. */
  function ParseLinkType(s: Option<string>): (t: DlmType)
    ensures t == Satellite <==> s == Some("SATELLITE")
    ensures t == Cellular <==> s == Some("CELLULAR")
    ensures t == Hybrid <==> s == Some("GATELINK") || s == Some("HYBRID")
  {
    if s == Some("SATELLITE") then Satellite
    else if s == Some("CELLULAR") then Cellular
    else if s == Some("GATELINK") || s == Some("HYBRID") then Hybrid
    else DlmUnknown
  }

  /** `Coverage`: 0 unknown, then the three named areas. */
  datatype Coverage = CoverageUnknown | Global | Terrestrial | GateOnly

  /** `parse_coverage`: exact names, anything else unknown. */
  function ParseCoverage(s: Option<string>): (c: Coverage)
    ensures c == Global <==> s == Some("GLOBAL")
    ensures c == Terrestrial <==> s == Some("TERRESTRIAL")
    ensures c == GateOnly <==> s == Some("GATE_ONLY")
  {
    if s == Some("GLOBAL") then Global
    else if s == Some("TERRESTRIAL") then Terrestrial
    else if s == Some("GATE_ONLY") then GateOnly
    else CoverageUnknown
  }

  /** `parse_security_level`: HIGH 3, MEDIUM 2, LOW 1, anything else 0. */
  function ParseSecurityLevel(s: Option<string>): (level: nat)
    ensures level <= 3
    ensures level == 3 <==> s == Some("HIGH")
    ensures level == 2 <==> s == Some("MEDIUM")
    ensures level == 1 <==> s == Some("LOW")
  {
    if s == Some("HIGH") then 3
    else if s == Some("MEDIUM") then 2
    else if s == Some("LOW") then 1
    else 0
  }

  /** `parse_load_balance_algorithm`: the three names, else their codes. */
  function ParseLoadBalance(s: Option<string>): LoadBalance {
    if s.None? then LbUnknown
    else if s.value == "RoundRobin" then RoundRobin
    else if s.value == "LeastLoaded" then LeastLoaded
    else if s.value == "Priority" then PriorityFirst
    else match Atoi(s.value)
      case 1 => RoundRobin
      case 2 => LeastLoaded
      case 3 => PriorityFirst
      case _ => LbUnknown
  }

  function LoadBalanceName(a: LoadBalance): string {
    match a
    case LbUnknown => ""
    case RoundRobin => "RoundRobin"
    case LeastLoaded => "LeastLoaded"
    case PriorityFirst => "Priority"
  }

  function LoadBalanceCode(a: LoadBalance): int {
    match a
    case LbUnknown => 0
    case RoundRobin => 1
    case LeastLoaded => 2
    case PriorityFirst => 3
  }

  /** An algorithm may be written either by name or by code. */
  lemma LoadBalanceSpellings(a: LoadBalance)
    requires a != LbUnknown
    ensures ParseLoadBalance(Some(LoadBalanceName(a))) == a
    ensures ParseLoadBalance(Some(IntToString(LoadBalanceCode(a)))) == a
  {
    AtoiOfIntToString(LoadBalanceCode(a));
    var code := IntToString(LoadBalanceCode(a));
    assert |code| == 1 by {
      assert code == [DigitChar(LoadBalanceCode(a))];
    }
  }

  /** `parse_policy_action`: exact "PERMIT" / "PROHIBIT", else DEFAULT. */
  function ParsePolicyAction(s: Option<string>): (a: PolicyAction)
    ensures a == Permit <==> s == Some("PERMIT")
    ensures a == Prohibit <==> s == Some("PROHIBIT")
  {
    if s.None? then ActionDefault
    else if s.value == "PERMIT" then Permit
    else if s.value == "PROHIBIT" then Prohibit
    else ActionDefault
  }

  /** The name a phase is written with in the configuration files. */
  function PhaseName(p: CfgFlightPhase): string {
    match p
    case Gate => "GATE"
    case Taxi => "TAXI"
    case TakeOff => "TAKE_OFF"
    case Climb => "CLIMB"
    case Cruise => "CRUISE"
    case Descent => "DESCENT"
    case Approach => "APPROACH"
    case Landing => "LANDING"
    case Maintenance => "MAINTENANCE"
    case PhaseUnknown => "UNKNOWN"
  }

  /** `magic_config_parse_flight_phase`: exact, case-sensitive names, with
      "TAKEOFF" accepted beside "TAKE_OFF". */
  function ParseFlightPhase(s: Option<string>): (p: CfgFlightPhase)
    ensures p == TakeOff <==> s == Some("TAKE_OFF") || s == Some("TAKEOFF")
    ensures p != TakeOff && p != PhaseUnknown ==> s == Some(PhaseName(p))
  {
    if s.None? then PhaseUnknown
    else if s.value == "GATE" then Gate
    else if s.value == "TAXI" then Taxi
    else if s.value == "TAKE_OFF" || s.value == "TAKEOFF" then TakeOff
    else if s.value == "CLIMB" then Climb
    else if s.value == "CRUISE" then Cruise
    else if s.value == "DESCENT" then Descent
    else if s.value == "APPROACH" then Approach
    else if s.value == "LANDING" then Landing
    else if s.value == "MAINTENANCE" then Maintenance
    else PhaseUnknown
  }

  /** Every known phase reads back from its name. */
  lemma FlightPhaseRoundTrip(p: CfgFlightPhase)
    requires p != PhaseUnknown
    ensures ParseFlightPhase(Some(PhaseName(p))) == p
  {
  }

  /** `parse_priority_type`: `atoi` 1 blocking, 2 preemption. */
  function ParsePriorityType(s: Option<string>): (t: PriorityType)
    ensures t == Blocking <==> s.Some? && Atoi(s.value) == 1
    ensures t == Preemption <==> s.Some? && Atoi(s.value) == 2
  {
    if s.None? then PriorityUnknown
    else if Atoi(s.value) == 1 then Blocking
    else if Atoi(s.value) == 2 then Preemption
    else PriorityUnknown
  }

  /** `get_child_bool`: "true"/"1" and "false"/"0"; an absent element or
      any other text gives the default. */
  function ChildBool(content: Option<string>, default: bool): (b: bool)
    ensures content == Some("true") || content == Some("1") ==> b
    ensures content == Some("false") || content == Some("0") ==> !b
    ensures !(content.Some? && content.value in {"true", "1", "false", "0"}) ==> b == default
  {
    if content.None? then default
    else if content.value == "true" || content.value == "1" then true
    else if content.value == "false" || content.value == "0" then false
    else default
  }

  /** `parse_client_bandwidth`: `(uint32_t)atoi(text) / 1000`, 0 when the
      element is absent. */
  function KbpsOf(content: Option<string>): (kbps: nat)
    ensures kbps < 0x1_0000_0000 / 1000 + 1
  {
    (if content.None? then 0 else CastU32(Atoi(content.value))) / 1000
  }

  /** A rate written in bps reads back as whole kbps, rounded down. */
  lemma KbpsOfWrittenRate(bps: nat)
    requires bps < 0x8000_0000
    ensures KbpsOf(Some(NatToString(bps))) == bps / 1000
  {
    AtoiOfIntToString(bps);
    assert IntToString(bps) == NatToString(bps);
  }

  // ------------------------------------------------------- the records

  /** The fields of a `DLMConfig` the policy code reads. The float
      `max_forward_bw_kbps` is a whole number of kbps here. */
  datatype DlmConfig = DlmConfig(
    name: string, dlmType: DlmType, maxForwardKbps: nat, latencyMs: nat,
    supportedQos: seq<nat>, coverageEnabled: bool, isActive: bool)

  /** `PathPreference`. */
  datatype PathPreference = PathPreference(
    ranking: nat, linkId: string, action: PolicyAction,
    hasMaxLatency: bool, maxLatencyMs: nat, onGroundOnly: bool, airborneOnly: bool)

  /** `PolicyRule`. */
  datatype PolicyRule = PolicyRule(trafficClass: string, preferences: seq<PathPreference>)

  /** `PolicyRuleSet`: `flight_phases` is free text searched with
      `strstr`. */
  datatype RuleSet = RuleSet(id: string, flightPhases: string, rules: seq<PolicyRule>)

  /** `TrafficClassDefinition`. */
  datatype TrafficClassDef = TrafficClassDef(
    id: string, hasPriorityClass: bool, priorityClass: nat, hasQosLevel: bool, qosLevel: nat,
    patterns: seq<string>, isDefault: bool)

  /** The parts of a `ClientProfile` the lookups and the policy read. */
  datatype ClientProfile = ClientProfile(
    profileName: string, clientId: string, enabled: bool,
    maxForwardKbps: nat, priorityClass: nat,
    allowedLevels: seq<nat>, allowedDlms: seq<string>, preferredDlm: string,
    allowedPhases: seq<CfgFlightPhase>)

  /** `MagicConfig`. */
  datatype Config = Config(
    dlms: seq<DlmConfig>, classDefs: seq<TrafficClassDef>, rulesets: seq<RuleSet>,
    clients: seq<ClientProfile>, adifDegraded: bool)

  // ----------------------------------------------------------- lookups

  /** `magic_config_find_dlm`: the first DLM with exactly that name. */
  function FindDlm(dlms: seq<DlmConfig>, name: string): (r: Option<nat>)
    ensures r.Some? ==> r.value < |dlms| && dlms[r.value].name == name
    ensures r.Some? ==> forall j :: 0 <= j < r.value ==> dlms[j].name != name
    ensures r.None? ==> forall j :: 0 <= j < |dlms| ==> dlms[j].name != name
  {
    if |dlms| == 0 then None
    else if dlms[0].name == name then Some(0)
    else match FindDlm(dlms[1..], name)
      case None => None
      case Some(k) => Some(k + 1)
  }

  /** `magic_config_find_client`: the first profile with that client id. */
  function FindClient(clients: seq<ClientProfile>, id: string): (r: Option<nat>)
    ensures r.Some? ==> r.value < |clients| && clients[r.value].clientId == id
    ensures r.Some? ==> forall j :: 0 <= j < r.value ==> clients[j].clientId != id
    ensures r.None? ==> forall j :: 0 <= j < |clients| ==> clients[j].clientId != id
  {
    if |clients| == 0 then None
    else if clients[0].clientId == id then Some(0)
    else match FindClient(clients[1..], id)
      case None => None
      case Some(k) => Some(k + 1)
  }

  /** `magic_config_find_client_by_profile`: the scan stops at the first
      profile name that matches, and yields nothing when that profile is
      disabled. */
  function FindClientByProfile(clients: seq<ClientProfile>, name: string): (r: Option<nat>)
    ensures r.Some? ==> r.value < |clients| && clients[r.value].profileName == name && clients[r.value].enabled
    ensures r.Some? ==> forall j :: 0 <= j < r.value ==> clients[j].profileName != name
  {
    if |clients| == 0 then None
    else if clients[0].profileName == name then (if clients[0].enabled then Some(0) else None)
    else match FindClientByProfile(clients[1..], name)
      case None => None
      case Some(k) => Some(k + 1)
  }

  /** An enabled profile is found exactly when no profile before it has the
      same name; a disabled first match hides every later one. */
  lemma {:induction false} FindClientByProfileMeans(clients: seq<ClientProfile>, name: string, i: nat)
    requires i < |clients| && clients[i].profileName == name
    ensures FindClientByProfile(clients, name) == Some(i) <==>
              clients[i].enabled && forall j :: 0 <= j < i ==> clients[j].profileName != name
  {
    if i > 0 && clients[0].profileName != name {
      FindClientByProfileMeans(clients[1..], name, i - 1);
      var r := FindClientByProfile(clients, name);
      if forall j :: 0 <= j < i - 1 ==> clients[1..][j].profileName != name {
        forall j | 0 <= j < i ensures clients[j].profileName != name {
          if j > 0 { assert clients[j] == clients[1..][j - 1]; }
        }
      }
    }
  }

  /** `magic_config_is_dlm_allowed`: no client, no; an empty list allows
      every DLM. */
  predicate IsDlmAllowed(client: Option<ClientProfile>, id: string) {
    client.Some? && (|client.value.allowedDlms| == 0 || id in client.value.allowedDlms)
  }

  /** `magic_config_is_qos_level_allowed`. */
  predicate IsQosLevelAllowed(client: Option<ClientProfile>, level: nat) {
    client.Some? && (|client.value.allowedLevels| == 0 || level in client.value.allowedLevels)
  }

  /** `magic_config_is_flight_phase_allowed`. */
  predicate IsFlightPhaseAllowed(client: Option<ClientProfile>, phase: CfgFlightPhase) {
    client.Some? && (|client.value.allowedPhases| == 0 || phase in client.value.allowedPhases)
  }

  /** `magic_config_dlm_supports_qos`: plain membership, no empty-list
      rule. */
  predicate DlmSupportsQos(dlm: Option<DlmConfig>, level: nat) {
    dlm.Some? && level in dlm.value.supportedQos
  }

  /** The three client lists agree on their convention: an empty list
      permits everything, a non-empty one only its members; and the DLM's
      QoS list differs from them, since an empty one supports nothing. */
  lemma AllowListConventions(c: ClientProfile, d: DlmConfig, id: string, level: nat, phase: CfgFlightPhase)
    ensures |c.allowedDlms| == 0 ==> IsDlmAllowed(Some(c), id)
    ensures |c.allowedDlms| > 0 ==> (IsDlmAllowed(Some(c), id) <==> exists i :: 0 <= i < |c.allowedDlms| && c.allowedDlms[i] == id)
    ensures |c.allowedLevels| == 0 ==> IsQosLevelAllowed(Some(c), level)
    ensures |c.allowedPhases| == 0 ==> IsFlightPhaseAllowed(Some(c), phase)
    ensures !IsDlmAllowed(None, id) && !IsQosLevelAllowed(None, level) && !IsFlightPhaseAllowed(None, phase)
    ensures |d.supportedQos| == 0 ==> !DlmSupportsQos(Some(d), level)
  {
    if |c.allowedDlms| > 0 && id in c.allowedDlms {
      var i :| 0 <= i < |c.allowedDlms| && c.allowedDlms[i] == id;
    }
  }

  /** `magic_config_find_ruleset`: the first rule set whose phase text
      contains the phase name as a substring. */
  function FindRuleset(rulesets: seq<RuleSet>, phase: string): (r: Option<nat>)
    ensures r.Some? ==> r.value < |rulesets| && IsSubstring(phase, rulesets[r.value].flightPhases)
    ensures r.Some? ==> forall j :: 0 <= j < r.value ==> !IsSubstring(phase, rulesets[j].flightPhases)
    ensures r.None? ==> forall j :: 0 <= j < |rulesets| ==> !IsSubstring(phase, rulesets[j].flightPhases)
  {
    if |rulesets| == 0 then None
    else if IsSubstring(phase, rulesets[0].flightPhases) then Some(0)
    else match FindRuleset(rulesets[1..], phase)
      case None => None
      case Some(k) => Some(k + 1)
  }

  /** Because the match is a substring test, a phase whose name is part of
      another rule set's list selects that rule set if it comes first: a
      rule set listing "PRE_CRUISE" is chosen for "CRUISE", and the empty
      phase name picks the first rule set. */
  lemma FindRulesetBySubstring(rulesets: seq<RuleSet>, phase: string, prefix: string, suffix: string)
    requires |rulesets| > 0 && rulesets[0].flightPhases == prefix + phase + suffix
    ensures FindRuleset(rulesets, phase) == Some(0)
  {
    assert OccursAt(phase, rulesets[0].flightPhases, |prefix|);
  }
}
