/** The older policy engine of the MAGIC server (`policy_engine.c` in the
    backup tree): it follows the flight phase, keeps one state record per
    configured data link, and chooses a path for a traffic class by scoring
    the preferences of the first matching rule of the phase's rule set.
    Clocks are the `now` arguments. The log output, the decision's reason
    text, the status and decision printers and the custom evaluator hook
    are not modelled. */
module BackupPolicyEngine {
  import opened Wrappers
  import opened Text

  const U32: nat := 0x1_0000_0000
  /** `MAX_ACTIVE_LINKS` and `MAX_SELECTED_PATHS`. */
  const MaxActiveLinks: nat := 10
  const MaxSelectedPaths: nat := 5

  // ------------------------------------------------------ flight phases

  /** `FlightPhase`. */
  const Unknown: int := 0
  const Parked: int := 1
  const Taxi: int := 2
  const TakeOff: int := 3
  const Climb: int := 4
  const Cruise: int := 5
  const Oceanic: int := 6
  const Descent: int := 7
  const Approach: int := 8
  const Landing: int := 9

  /** `policy_engine_get_phase_string`. */
  function PhaseString(phase: int): string {
    if phase == Parked then "PARKED"
    else if phase == Taxi then "TAXI"
    else if phase == TakeOff then "TAKEOFF"
    else if phase == Climb then "CLIMB"
    else if phase == Cruise then "CRUISE"
    else if phase == Oceanic then "OCEANIC"
    else if phase == Descent then "DESCENT"
    else if phase == Approach then "APPROACH"
    else if phase == Landing then "LANDING"
    else "UNKNOWN"
  }

  /** `policy_engine_parse_phase_string`: exact, case-sensitive names;
      NULL and anything else are PHASE_UNKNOWN. */
  function ParsePhaseString(s: Option<string>): int {
    match s
    case None => Unknown
    case Some(t) =>
      if t == "PARKED" then Parked
      else if t == "TAXI" then Taxi
      else if t == "TAKEOFF" then TakeOff
      else if t == "CLIMB" then Climb
      else if t == "CRUISE" then Cruise
      else if t == "OCEANIC" then Oceanic
      else if t == "DESCENT" then Descent
      else if t == "APPROACH" then Approach
      else if t == "LANDING" then Landing
      else Unknown
  }

  /** Each of the nine phases reads back from its name; every other code
      is printed as "UNKNOWN", which reads as PHASE_UNKNOWN. */
  lemma PhaseStringRoundTrip(phase: int)
    ensures Parked <= phase <= Landing ==> ParsePhaseString(Some(PhaseString(phase))) == phase
    ensures !(Parked <= phase <= Landing) ==>
      PhaseString(phase) == "UNKNOWN" && ParsePhaseString(Some(PhaseString(phase))) == Unknown
  {
  }

  /** Only the nine names parse to a phase, and each to the one printed
      under it. */
  lemma ParsedPhaseIsNamed(s: string)
    ensures ParsePhaseString(Some(s)) != Unknown ==>
      Parked <= ParsePhaseString(Some(s)) <= Landing && PhaseString(ParsePhaseString(Some(s))) == s
  {
  }

  // ---------------------------------------------------- traffic classes

  /** `TrafficClass`. */
  const UnknownClass: int := 0
  const FlightCritical: int := 1
  const CockpitData: int := 2
  const CabinOperations: int := 3
  const PassengerEntertainment: int := 4
  const BulkData: int := 5
  const AcarsComms: int := 6
  const AllTraffic: int := 99

  predicate NamedClass(c: int) {
    FlightCritical <= c <= AcarsComms || c == AllTraffic
  }

  /** `policy_engine_get_traffic_class_string`. */
  function TrafficClassString(c: int): string {
    if c == FlightCritical then "FLIGHT_CRITICAL"
    else if c == CockpitData then "COCKPIT_DATA"
    else if c == CabinOperations then "CABIN_OPERATIONS"
    else if c == PassengerEntertainment then "PASSENGER_ENTERTAINMENT"
    else if c == BulkData then "BULK_DATA"
    else if c == AcarsComms then "ACARS_COMMS"
    else if c == AllTraffic then "ALL_TRAFFIC"
    else "UNKNOWN"
  }

  /** `policy_engine_parse_traffic_class_string`. */
  function ParseTrafficClassString(s: Option<string>): int {
    match s
    case None => UnknownClass
    case Some(t) =>
      if t == "FLIGHT_CRITICAL" then FlightCritical
      else if t == "COCKPIT_DATA" then CockpitData
      else if t == "CABIN_OPERATIONS" then CabinOperations
      else if t == "PASSENGER_ENTERTAINMENT" then PassengerEntertainment
      else if t == "BULK_DATA" then BulkData
      else if t == "ACARS_COMMS" then AcarsComms
      else if t == "ALL_TRAFFIC" then AllTraffic
      else UnknownClass
  }

  /** Each of the seven classes reads back from its name; every other code
      is printed as "UNKNOWN", which reads as TRAFFIC_CLASS_UNKNOWN. */
  lemma TrafficClassRoundTrip(c: int)
    ensures NamedClass(c) ==> ParseTrafficClassString(Some(TrafficClassString(c))) == c
    ensures !NamedClass(c) ==>
      TrafficClassString(c) == "UNKNOWN" && ParseTrafficClassString(Some(TrafficClassString(c))) == UnknownClass
  {
  }

  /** Only the seven names parse to a class, and each to the one printed
      under it. */
  lemma ParsedClassIsNamed(s: string)
    ensures ParseTrafficClassString(Some(s)) != UnknownClass ==>
      NamedClass(ParseTrafficClassString(Some(s))) && TrafficClassString(ParseTrafficClassString(Some(s))) == s
  {
  }

  // ------------------------------------------------------ configuration

  /** `PolicyAction`. */
  datatype Action = ActionDefault | Permit | Prohibit

  /** The parts of a `DatalinkProfile` the engine reads. */
  datatype LinkProfile = LinkProfile(linkId: string, maxTxKbps: nat, latencyMs: nat, costIndex: nat)

  /** `PathPreference` without its security requirement, which the engine
      does not read. */
  datatype Preference = Preference(ranking: nat, linkId: string, action: Action)

  datatype Rule = Rule(trafficClass: string, prefs: seq<Preference>)

  /** `PolicyRuleSet`: `flight_phases` is free text searched with
      `strstr`. */
  datatype RuleSet = RuleSet(id: string, flightPhases: string, rules: seq<Rule>)

  /** The parts of a `ClientProfile` the engine reads. */
  datatype ClientProfile = ClientProfile(clientId: string, systemRole: string)

  /** The loaded `MagicConfig`, as far as the engine reads it. */
  datatype Config = Config(datalinks: seq<LinkProfile>, rulesets: seq<RuleSet>, clients: seq<ClientProfile>)

  /** `magic_config_find_ruleset`: the first rule set whose phase text
      contains the phase name. */
  function FindRuleset(rulesets: seq<RuleSet>, phase: string): (r: Option<nat>)
    ensures r.Some? ==> r.value < |rulesets| && IsSubstring(phase, rulesets[r.value].flightPhases)
    ensures r.Some? ==> forall j :: 0 <= j < r.value ==> !IsSubstring(phase, rulesets[j].flightPhases)
    ensures r.None? ==> forall j :: 0 <= j < |rulesets| ==> !IsSubstring(phase, rulesets[j].flightPhases)
  {
    if |rulesets| == 0 then None
    else if IsSubstring(phase, rulesets[0].flightPhases) then Some(0)
    else match FindRuleset(rulesets[1..], phase)
      case None => None
      case Some(k) => Some(k + 1)
  }

  /** `magic_config_find_client`: the first client with that id. */
  function FindClient(clients: seq<ClientProfile>, id: string): (r: Option<nat>)
    ensures r.Some? ==> r.value < |clients| && clients[r.value].clientId == id
    ensures r.Some? ==> forall j :: 0 <= j < r.value ==> clients[j].clientId != id
    ensures r.None? ==> forall j :: 0 <= j < |clients| ==> clients[j].clientId != id
  {
    if |clients| == 0 then None
    else if clients[0].clientId == id then Some(0)
    else match FindClient(clients[1..], id)
      case None => None
      case Some(k) => Some(k + 1)
  }

  // ---------------------------------------------------------- link state

  /** `LinkState`; the configuration pointer is kept as the cost index it
      is read for, and the loss rate is left out (see `PathScore`). */
  datatype LinkState = LinkState(
    linkId: string, isUp: bool, bandwidthKbps: nat, loadKbps: nat, rttMs: nat,
    costIndex: nat, lastUpdate: int)

  const EmptyLink := LinkState("", false, 0, 0, 0, 0, 0)

  /** The state `policy_engine_init` gives a configured link: down, the
      link's maximum rate available, no load, its typical latency. */
  function InitialLink(p: LinkProfile, now: int): LinkState {
    LinkState(p.linkId, false, p.maxTxKbps, 0, p.latencyMs, p.costIndex, now)
  }

  /** The lookup loop of `update_link_state`, `select_path` and
      `is_path_available`: the first tracked link with that id. */
  function FindLink(links: seq<LinkState>, id: string): (r: Option<nat>)
    ensures r.Some? ==> r.value < |links| && links[r.value].linkId == id
    ensures r.Some? ==> forall j :: 0 <= j < r.value ==> links[j].linkId != id
    ensures r.None? ==> forall j :: 0 <= j < |links| ==> links[j].linkId != id
  {
    if |links| == 0 then None
    else if links[0].linkId == id then Some(0)
    else match FindLink(links[1..], id)
      case None => None
      case Some(k) => Some(k + 1)
  }

  // ------------------------------------------------------------ scoring

  /** The latency term: `1000 - rtt_ms` for a known round-trip time. */
  function LatencyTerm(rttMs: nat): int {
    if rttMs > 0 then 1000 - rttMs else 0
  }

  /** `current_load_kbps * 100 / available_bandwidth_kbps`, the product
      taken in 32 bits; 0 without bandwidth. */
  function LoadPercent(l: LinkState): nat {
    if l.bandwidthKbps > 0 then (l.loadKbps * 100 % U32) / l.bandwidthKbps else 0
  }

  /** The terms of `calculate_path_score` added as integers: the base,
      the ranking, bandwidth, latency, cost, load and reliability terms. */
  function ScoreSum(l: LinkState, ranking: nat): int {
    10000 + (10 - ranking) * 2000 + l.bandwidthKbps / 1000 + LatencyTerm(l.rttMs)
      + (100 - l.costIndex) * 50 + (100 - LoadPercent(l)) * 20 + 1000
  }

  /** `calculate_path_score`. Every term is added in `uint32_t`, so the
      score is the integer sum modulo 2^32: a term that goes negative
      (a round trip over 1000 ms, a ranking over 10, a cost index over
      100) subtracts, and a sum below zero wraps to near 2^32. A link that
      is down scores 0. The loss rate of a tracked link is 0, so the
      reliability term is 1000. */
  function PathScore(l: LinkState, ranking: nat): (score: nat)
    ensures score < U32
    ensures !l.isUp ==> score == 0
    ensures l.isUp && 0 <= ScoreSum(l, ranking) < U32 ==> score == ScoreSum(l, ranking)
  {
    if !l.isUp then 0 else ScoreSum(l, ranking) % U32
  }

  /** A link up with a round trip of 40 s, no bandwidth and the highest
      cost scores far above the same link with a 10 ms round trip: its
      sum is −8000, which wraps to 2^32 − 8000. */
  lemma SlowLinkOutscoresFastLink()
    ensures var fast := LinkState("L", true, 0, 0, 10, 100, 0);
      var slow := fast.(rttMs := 40000);
      && PathScore(fast, 1) == 31990
      && PathScore(slow, 1) == U32 - 8000
      && PathScore(slow, 1) > PathScore(fast, 1)
  {
    var fast := LinkState("L", true, 0, 0, 10, 100, 0);
    var slow := fast.(rttMs := 40000);
    assert ScoreSum(fast, 1) == 31990;
    assert ScoreSum(slow, 1) == -8000;
  }

  /** The score as evidently intended: the integer sum, floored at 0 so
      that a poor link is never preferred. */
  function PathScoreIntended(l: LinkState, ranking: nat): (score: nat)
    ensures !l.isUp ==> score == 0
  {
    if !l.isUp || ScoreSum(l, ranking) < 0 then 0 else ScoreSum(l, ranking)
  }

  /** With the intended score, of two otherwise equal links a longer round
      trip never scores higher; the wrapped score agrees with it whenever
      the sum stays within 32 bits. */
  lemma IntendedPrefersLowerLatency(l: LinkState, ranking: nat, rtt1: nat, rtt2: nat)
    requires 0 < rtt1 <= rtt2
    ensures PathScoreIntended(l.(rttMs := rtt1), ranking) >= PathScoreIntended(l.(rttMs := rtt2), ranking)
    ensures l.isUp && 0 <= ScoreSum(l, ranking) < U32 ==> PathScoreIntended(l, ranking) == PathScore(l, ranking)
  {
    var l1 := l.(rttMs := rtt1);
    var l2 := l.(rttMs := rtt2);
    assert LoadPercent(l1) == LoadPercent(l2) == LoadPercent(l);
    assert ScoreSum(l1, ranking) - ScoreSum(l2, ranking) == rtt2 - rtt1;
  }

  // ------------------------------------------------------ path selection

  /** `PathSelectionResult` without the unused metrics. */
  datatype PathResult = PathResult(linkId: string, ranking: nat, action: Action, isAvailable: bool, score: nat)

  /** The rule test of `select_path` and `is_path_available`. */
  predicate Matches(r: Rule, cls: string) {
    r.trafficClass == cls || r.trafficClass == "ALL_TRAFFIC"
  }

  /** The first rule for the class or for all traffic. */
  function MatchRule(rules: seq<Rule>, cls: string): (r: Option<nat>)
    ensures r.Some? ==> r.value < |rules| && Matches(rules[r.value], cls)
    ensures r.Some? ==> forall j :: 0 <= j < r.value ==> !Matches(rules[j], cls)
    ensures r.None? ==> forall j :: 0 <= j < |rules| ==> !Matches(rules[j], cls)
  {
    if |rules| == 0 then None
    else if Matches(rules[0], cls) then Some(0)
    else match MatchRule(rules[1..], cls)
      case None => None
      case Some(k) => Some(k + 1)
  }

  /** One preference judged: available when its link is tracked, up and
      not prohibited, and then scored. */
  function Evaluate(links: seq<LinkState>, p: Preference): (r: PathResult)
    ensures r.linkId == p.linkId
    ensures r.isAvailable <==>
      FindLink(links, p.linkId).Some? && links[FindLink(links, p.linkId).value].isUp && p.action != Prohibit
    ensures r.score > 0 ==> r.isAvailable
  {
    var k := FindLink(links, p.linkId);
    var available := k.Some? && links[k.value].isUp && p.action != Prohibit;
    PathResult(p.linkId, p.ranking, p.action, available,
               if available then PathScore(links[k.value], p.ranking) else 0)
  }

  /** The preferences judged in order. */
  function EvaluateAll(links: seq<LinkState>, prefs: seq<Preference>): (rs: seq<PathResult>)
    ensures |rs| == |prefs|
  {
    if |prefs| == 0 then []
    else EvaluateAll(links, prefs[..|prefs| - 1]) + [Evaluate(links, prefs[|prefs| - 1])]
  }

  lemma {:induction false} EvaluateAllAt(links: seq<LinkState>, prefs: seq<Preference>, i: nat)
    requires i < |prefs|
    ensures EvaluateAll(links, prefs)[i] == Evaluate(links, prefs[i])
    decreases |prefs|
  {
    if i < |prefs| - 1 {
      EvaluateAllAt(links, prefs[..|prefs| - 1], i);
    }
  }

  /** The best-path scan: a result replaces the best one only with a
      strictly higher score, starting from 0. */
  function Best(rs: seq<PathResult>): (b: (Option<nat>, nat))
    ensures b.0.Some? ==> b.0.value < |rs|
  {
    if |rs| == 0 then (None, 0)
    else
      var prev := Best(rs[..|rs| - 1]);
      if rs[|rs| - 1].score > prev.1 then (Some(|rs| - 1), rs[|rs| - 1].score) else prev
  }

  /** The scan picks the first result with the highest score, provided
      that score is positive; it picks none exactly when every score is
      0. */
  lemma {:induction false} BestIsFirstHighest(rs: seq<PathResult>)
    ensures var (b, s) := Best(rs);
      && (b.None? <==> forall j :: 0 <= j < |rs| ==> rs[j].score == 0)
      && (b.None? ==> s == 0)
      && (b.Some? ==>
            && b.value < |rs| && s == rs[b.value].score > 0
            && (forall j :: 0 <= j < |rs| ==> rs[j].score <= s)
            && (forall j :: 0 <= j < b.value ==> rs[j].score < s))
  {
    if |rs| > 0 {
      var init := rs[..|rs| - 1];
      BestIsFirstHighest(init);
      assert forall j :: 0 <= j < |rs| - 1 ==> rs[j] == init[j];
    }
  }

  /** The preferences `select_path` looks at: at most `MAX_SELECTED_PATHS`. */
  function Capped(prefs: seq<Preference>): (r: seq<Preference>)
    ensures |r| <= MaxSelectedPaths && |r| <= |prefs| && r == prefs[..|r|]
    ensures |prefs| <= MaxSelectedPaths ==> r == prefs
  {
    if |prefs| <= MaxSelectedPaths then prefs else prefs[..MaxSelectedPaths]
  }

  /** `PathSelectionDecision` without its time and reason text: the
      judged paths and the selected link, if any. */
  datatype Decision = Decision(trafficClass: int, paths: seq<PathResult>, selected: Option<string>)

  /** The preferences `select_path` judges: the capped preferences of the
      first rule of the active rule set that matches the class; none
      without a rule set or a matching rule. */
  function RulePrefs(active: Option<RuleSet>, tc: int): (r: Option<seq<Preference>>)
    ensures r.Some? <==> active.Some? && MatchRule(active.value.rules, TrafficClassString(tc)).Some?
  {
    match active
    case None => None
    case Some(rs) =>
      match MatchRule(rs.rules, TrafficClassString(tc))
      case None => None
      case Some(m) => Some(Capped(rs.rules[m].prefs))
  }

  /** `policy_engine_select_path` on the active rule set and the tracked
      links: without preferences to judge nothing is selected and no path
      is judged; otherwise every preference is judged and the first
      highest-scoring one, if it scores above 0, is selected. */
  function Select(active: Option<RuleSet>, links: seq<LinkState>, tc: int): Decision {
    match RulePrefs(active, tc)
    case None => Decision(tc, [], None)
    case Some(prefs) =>
      var paths := EvaluateAll(links, prefs);
      match Best(paths).0
      case None => Decision(tc, paths, None)
      case Some(k) => Decision(tc, paths, Some(paths[k].linkId))
  }

  /** A selection comes from the judged preference the scan picks: its
      link, available, scoring above 0 and no lower than any other. */
  lemma SelectedPref(active: Option<RuleSet>, links: seq<LinkState>, tc: int)
    ensures var d := Select(active, links, tc);
      d.selected.Some? ==>
        && RulePrefs(active, tc).Some?
        && var prefs := RulePrefs(active, tc).value;
           && d.paths == EvaluateAll(links, prefs) && Best(d.paths).0.Some?
           && var k := Best(d.paths).0.value;
              && k < |prefs| && d.paths[k] == Evaluate(links, prefs[k])
              && prefs[k].linkId == d.selected.value && d.paths[k].score > 0
              && forall j :: 0 <= j < |d.paths| ==> d.paths[j].score <= d.paths[k].score
  {
    var d := Select(active, links, tc);
    if d.selected.Some? {
      var prefs := RulePrefs(active, tc).value;
      BestIsFirstHighest(d.paths);
      EvaluateAllAt(links, prefs, Best(d.paths).0.value);
    }
  }

  /** The selected link is the link of an available preference of the
      first matching rule that scores highest, and is selected only then;
      without a rule set nothing is selected. */
  lemma SelectPicksBest(active: Option<RuleSet>, links: seq<LinkState>, tc: int)
    ensures active.None? ==> Select(active, links, tc).selected.None?
    ensures var d := Select(active, links, tc);
      d.selected.Some? ==>
        && active.Some? && MatchRule(active.value.rules, TrafficClassString(tc)).Some?
        && exists k :: 0 <= k < |d.paths| && d.paths[k].linkId == d.selected.value
             && d.paths[k].isAvailable && d.paths[k].score > 0
             && (forall j :: 0 <= j < |d.paths| ==> d.paths[j].score <= d.paths[k].score)
    ensures var d := Select(active, links, tc);
      d.selected.None? <==> forall j :: 0 <= j < |d.paths| ==> d.paths[j].score == 0
  {
    var d := Select(active, links, tc);
    SelectedPref(active, links, tc);
    BestIsFirstHighest(d.paths);
    if d.selected.Some? {
      var k := Best(d.paths).0.value;
      assert d.paths[k].linkId == d.selected.value && d.paths[k].isAvailable;
    }
  }

  /** A link that is untracked or down is neither selected nor
      available. */
  lemma DownLinkNotOffered(active: Option<RuleSet>, links: seq<LinkState>, id: string, tc: int)
    requires FindLink(links, id).Some? ==> !links[FindLink(links, id).value].isUp
    ensures !PathAvailable(active, links, id, tc)
    ensures Select(active, links, tc).selected != Some(id)
  {
    SelectedPref(active, links, tc);
  }

  /** With every tracked link down nothing is selected and no path is
      available. */
  lemma AllDownOffersNothing(active: Option<RuleSet>, links: seq<LinkState>, id: string, tc: int)
    requires forall j :: 0 <= j < |links| ==> !links[j].isUp
    ensures Select(active, links, tc).selected.None?
    ensures !PathAvailable(active, links, id, tc)
  {
    DownLinkNotOffered(active, links, id, tc);
    var d := Select(active, links, tc);
    if d.selected.Some? {
      DownLinkNotOffered(active, links, d.selected.value, tc);
    }
  }

  // --------------------------------------------------- path availability

  /** The first preference naming the link. */
  function FindPref(prefs: seq<Preference>, id: string): (r: Option<nat>)
    ensures r.Some? ==> r.value < |prefs| && prefs[r.value].linkId == id
    ensures r.Some? ==> forall j :: 0 <= j < r.value ==> prefs[j].linkId != id
    ensures r.None? ==> forall j :: 0 <= j < |prefs| ==> prefs[j].linkId != id
  {
    if |prefs| == 0 then None
    else if prefs[0].linkId == id then Some(0)
    else match FindPref(prefs[1..], id)
      case None => None
      case Some(k) => Some(k + 1)
  }

  /** The rule scan of `is_path_available`: the first matching rule that
      names the link decides, by whether its first preference for the link
      is not a prohibition. */
  function AllowedIn(rules: seq<Rule>, cls: string, id: string): bool {
    if |rules| == 0 then false
    else if Matches(rules[0], cls) && FindPref(rules[0].prefs, id).Some? then
      rules[0].prefs[FindPref(rules[0].prefs, id).value].action != Prohibit
    else AllowedIn(rules[1..], cls, id)
  }

  /** `policy_engine_is_path_available`. */
  function PathAvailable(active: Option<RuleSet>, links: seq<LinkState>, id: string, tc: int): bool {
    match FindLink(links, id)
    case None => false
    case Some(k) =>
      links[k].isUp && active.Some? && AllowedIn(active.value.rules, TrafficClassString(tc), id)
  }

  /** When the first matching rule names the link, its first preference
      for the link decides. */
  lemma {:induction false} AllowedByFirstMatch(rules: seq<Rule>, cls: string, id: string, m: nat)
    requires MatchRule(rules, cls) == Some(m) && FindPref(rules[m].prefs, id).Some?
    ensures AllowedIn(rules, cls, id) <==> rules[m].prefs[FindPref(rules[m].prefs, id).value].action != Prohibit
    decreases |rules|
  {
    if m > 0 {
      assert !Matches(rules[0], cls);
      AllowedByFirstMatch(rules[1..], cls, id, m - 1);
    }
  }

  /** A link `select_path` chooses is one `is_path_available` accepts for
      the same class, provided the preferences it judges name each link
      once. */
  lemma SelectedIsAvailable(active: Option<RuleSet>, links: seq<LinkState>, tc: int)
    requires RulePrefs(active, tc).Some? ==>
      var prefs := RulePrefs(active, tc).value;
      forall i, j :: 0 <= i < j < |prefs| ==> prefs[i].linkId != prefs[j].linkId
    ensures var d := Select(active, links, tc);
      d.selected.Some? ==> PathAvailable(active, links, d.selected.value, tc)
  {
    var d := Select(active, links, tc);
    SelectedPref(active, links, tc);
    if d.selected.Some? {
      var rs := active.value;
      var cls := TrafficClassString(tc);
      var m := MatchRule(rs.rules, cls).value;
      var full := rs.rules[m].prefs;
      var prefs := RulePrefs(active, tc).value;
      var k := Best(d.paths).0.value;
      var id := d.selected.value;
      assert prefs == full[..|prefs|];
      assert full[k] == prefs[k];
      var f := FindPref(full, id).value;
      assert f == k;
      AllowedByFirstMatch(rs.rules, cls, id, m);
    }
  }

  // ----------------------------------------------------- engine context

  /** `PolicyEngineContext`: the phase with its name and change time, the
      active rule set as an index into the configuration, the link-state
      array with its count, and the statistics. */
  datatype Context = Context(
    config: Config, phase: int, phaseStr: string, phaseChangeTime: int,
    active: Option<nat>, links: seq<LinkState>, numLinks: nat,
    totalDecisions: nat, phaseSwitches: nat, pathSelections: nat, startTime: int)

  predicate ContextValid(c: Context) {
    |c.links| == MaxActiveLinks && c.numLinks <= MaxActiveLinks
    && (c.active.Some? ==> c.active.value < |c.config.rulesets|)
  }

  function Tracked(c: Context): seq<LinkState>
    requires ContextValid(c)
  {
    c.links[..c.numLinks]
  }

  function ActiveSet(c: Context): Option<RuleSet>
    requires ContextValid(c)
  {
    match c.active
    case None => None
    case Some(i) => Some(c.config.rulesets[i])
  }

  /** The link array `policy_engine_init` leaves: one initial state per
      configured link, the rest zeroed. */
  function InitialLinks(dl: seq<LinkProfile>, now: int, n: nat): seq<LinkState>
    requires n <= MaxActiveLinks
  {
    seq(MaxActiveLinks, i requires 0 <= i < MaxActiveLinks => if i < n && i < |dl| then InitialLink(dl[i], now) else EmptyLink)
  }

  /** `policy_engine_init`: PARKED, every configured link tracked, the
      rule set for "PARKED" active, the statistics zero. */
  function Initial(config: Config, now: int): Context
    requires |config.datalinks| <= MaxActiveLinks
  {
    Context(config, Parked, "PARKED", now, FindRuleset(config.rulesets, "PARKED"),
            InitialLinks(config.datalinks, now, |config.datalinks|), |config.datalinks|, 0, 0, 0, now)
  }

  /** Right after initialisation every tracked link is down, offers its
      maximum rate and carries no load, so no path is available and none
      can be selected. */
  lemma InitialSelectsNothing(config: Config, now: int, tc: int, id: string)
    requires |config.datalinks| <= MaxActiveLinks
    ensures ContextValid(Initial(config, now))
    ensures var c := Initial(config, now);
      && |Tracked(c)| == |config.datalinks|
      && (forall j :: 0 <= j < |config.datalinks| ==> Tracked(c)[j] == InitialLink(config.datalinks[j], now))
      && Select(ActiveSet(c), Tracked(c), tc).selected.None?
      && !PathAvailable(ActiveSet(c), Tracked(c), id, tc)
  {
    var c := Initial(config, now);
    assert forall j :: 0 <= j < |Tracked(c)| ==> Tracked(c)[j] == InitialLink(config.datalinks[j], now);
    AllDownOffersNothing(ActiveSet(c), Tracked(c), id, tc);
  }

  /** `policy_engine_set_flight_phase`: the same phase changes nothing;
      another one is recorded with its name and time, counted, and makes
      the rule set found for its name active, or none. */
  function SetPhase(c: Context, phase: int, now: int): Context {
    if c.phase == phase then c
    else c.(phase := phase, phaseStr := PhaseString(phase), phaseChangeTime := now,
            phaseSwitches := c.phaseSwitches + 1,
            active := FindRuleset(c.config.rulesets, PhaseString(phase)))
  }

  /** Setting a phase twice counts one switch, and the second call changes
      nothing; a change activates the first rule set whose phase text
      names the new phase, and it keeps the context valid. */
  lemma SetPhaseOnce(c: Context, phase: int, now: int, later: int)
    ensures SetPhase(SetPhase(c, phase, now), phase, later) == SetPhase(c, phase, now)
    ensures SetPhase(c, phase, now).phaseSwitches == c.phaseSwitches + (if c.phase == phase then 0 else 1)
    ensures c.phase != phase ==>
      var a := SetPhase(c, phase, now).active;
      && (a.Some? ==> IsSubstring(PhaseString(phase), c.config.rulesets[a.value].flightPhases))
      && (a.None? <==> forall j :: 0 <= j < |c.config.rulesets| ==> !IsSubstring(PhaseString(phase), c.config.rulesets[j].flightPhases))
    ensures ContextValid(c) ==> ContextValid(SetPhase(c, phase, now))
    ensures SetPhase(c, phase, now).links == c.links && SetPhase(c, phase, now).totalDecisions == c.totalDecisions
  {
  }

  /** `policy_engine_update_link_state`: −1 for an untracked link with
      nothing changed; otherwise the first tracked link with the id takes
      the new status, bandwidth and round-trip time. */
  function UpdateLink(c: Context, id: string, isUp: bool, bandwidthKbps: nat, rttMs: nat, now: int): (int, Context)
    requires ContextValid(c)
  {
    match FindLink(Tracked(c), id)
    case None => (-1, c)
    case Some(k) =>
      (0, c.(links := c.links[k := c.links[k].(isUp := isUp, bandwidthKbps := bandwidthKbps, rttMs := rttMs, lastUpdate := now)]))
  }

  /** An update leaves every other link and the rest of the context as
      they were; once a link is reported down, neither operation offers it
      for any class. */
  lemma UpdateLinkEffect(c: Context, id: string, isUp: bool, bandwidthKbps: nat, rttMs: nat, now: int, tc: int)
    requires ContextValid(c)
    ensures var (rc, c1) := UpdateLink(c, id, isUp, bandwidthKbps, rttMs, now);
      && ContextValid(c1)
      && (rc == -1 <==> FindLink(Tracked(c), id).None?)
      && (rc == -1 ==> c1 == c)
      && c1.(links := c.links) == c
      && (forall j :: 0 <= j < MaxActiveLinks && c.links[j].linkId != id ==> c1.links[j] == c.links[j])
      && (rc == 0 ==> var l := c1.links[FindLink(Tracked(c), id).value];
            l.isUp == isUp && l.bandwidthKbps == bandwidthKbps && l.rttMs == rttMs)
    ensures var (rc, c1) := UpdateLink(c, id, isUp, bandwidthKbps, rttMs, now);
      !isUp ==>
        && !PathAvailable(ActiveSet(c1), Tracked(c1), id, tc)
        && Select(ActiveSet(c1), Tracked(c1), tc).selected != Some(id)
  {
    var c1 := UpdateLink(c, id, isUp, bandwidthKbps, rttMs, now).1;
    if !isUp {
      UpdatedLinkIsDown(c, id, bandwidthKbps, rttMs, now);
      DownLinkNotOffered(ActiveSet(c1), Tracked(c1), id, tc);
    }
  }

  /** After a down report the link with that id, if tracked, is down. */
  lemma UpdatedLinkIsDown(c: Context, id: string, bandwidthKbps: nat, rttMs: nat, now: int)
    requires ContextValid(c)
    ensures var c1 := UpdateLink(c, id, false, bandwidthKbps, rttMs, now).1;
      ContextValid(c1) && (FindLink(Tracked(c1), id).Some? ==> !Tracked(c1)[FindLink(Tracked(c1), id).value].isUp)
  {
    var c1 := UpdateLink(c, id, false, bandwidthKbps, rttMs, now).1;
    match FindLink(Tracked(c), id)
    case None =>
    case Some(k) =>
      assert forall j :: 0 <= j < c.numLinks ==> Tracked(c1)[j].linkId == Tracked(c)[j].linkId;
      assert FindLink(Tracked(c1), id) == Some(k) by {
        FindLinkSameIds(Tracked(c), Tracked(c1), id);
      }
  }

  /** The lookup depends on the ids alone. */
  lemma {:induction false} FindLinkSameIds(a: seq<LinkState>, b: seq<LinkState>, id: string)
    requires |a| == |b| && forall j :: 0 <= j < |a| ==> a[j].linkId == b[j].linkId
    ensures FindLink(a, id) == FindLink(b, id)
    decreases |a|
  {
    if |a| > 0 {
      FindLinkSameIds(a[1..], b[1..], id);
    }
  }

  /** `policy_engine_select_path` on the context: the decision on the
      active rule set and tracked links, with the decision counted and a
      selection counted as such; 0 exactly when a link is selected. */
  function SelectIn(c: Context, tc: int): (int, Decision, Context)
    requires ContextValid(c)
  {
    var d := Select(ActiveSet(c), Tracked(c), tc);
    (if d.selected.Some? then 0 else -1, d,
     c.(totalDecisions := c.totalDecisions + 1,
        pathSelections := c.pathSelections + (if d.selected.Some? then 1 else 0)))
  }

  /** Every call is counted as a decision; only successful ones as
      selections; the links and the phase are untouched. */
  lemma SelectInCounts(c: Context, tc: int)
    requires ContextValid(c)
    ensures var (rc, d, c1) := SelectIn(c, tc);
      && c1.totalDecisions == c.totalDecisions + 1
      && (rc == 0 <==> c1.pathSelections == c.pathSelections + 1)
      && (rc == 0 || c1.pathSelections == c.pathSelections)
      && c1.links == c.links && c1.phase == c.phase && c1.active == c.active
      && (c.active.None? ==> rc == -1)
  {
    SelectPicksBest(ActiveSet(c), Tracked(c), tc);
  }

  // ---------------------------------------------------- traffic mapping

  /** The role test of `map_client_to_traffic_class`, in its order. */
  function RoleClass(role: string): int {
    if IsSubstring("FLIGHT_CRITICAL", role) then FlightCritical
    else if IsSubstring("ACARS", role) then AcarsComms
    else if IsSubstring("CABIN_OPERATIONS", role) then CabinOperations
    else if IsSubstring("PASSENGER", role) then PassengerEntertainment
    else if IsSubstring("BULK", role) || IsSubstring("DATA", role) then BulkData
    else UnknownClass
  }

  /** `policy_engine_map_client_to_traffic_class`: unknown clients are
      TRAFFIC_CLASS_UNKNOWN, known ones are classed by their role. */
  function MapClient(config: Config, clientId: string): int {
    match FindClient(config.clients, clientId)
    case None => UnknownClass
    case Some(i) => RoleClass(config.clients[i].systemRole)
  }

  /** A client's class always has a name that reads back as that class;
      no role maps to COCKPIT_DATA or ALL_TRAFFIC, and a role that names
      FLIGHT_CRITICAL is flight critical whatever else it names. */
  lemma MapClientClasses(config: Config, clientId: string, role: string)
    ensures var c := MapClient(config, clientId);
      && ParseTrafficClassString(Some(TrafficClassString(c))) == c
      && c != CockpitData && c != AllTraffic
    ensures IsSubstring("FLIGHT_CRITICAL", role) ==> RoleClass(role) == FlightCritical
  {
  }

  /** The cockpit-data role is classed as bulk data: only its `DATA`
      matches. */
  lemma CockpitRoleIsBulk()
    ensures RoleClass("COCKPIT_DATA") == BulkData
  {
    AbsentCharNoSubstring("FLIGHT_CRITICAL", "COCKPIT_DATA", 0);
    AbsentCharNoSubstring("ACARS", "COCKPIT_DATA", 3);
    AbsentCharNoSubstring("CABIN_OPERATIONS", "COCKPIT_DATA", 2);
    AbsentCharNoSubstring("PASSENGER", "COCKPIT_DATA", 2);
    AbsentCharNoSubstring("BULK", "COCKPIT_DATA", 0);
    assert OccursAt("DATA", "COCKPIT_DATA", 8);
  }

  /** `policy_engine_map_diameter_app_to_traffic_class`. */
  function MapDiameterApp(appId: nat): int {
    if appId == 16777216 then FlightCritical
    else if appId == 16777251 then FlightCritical
    else if appId == 16777238 then CockpitData
    else if appId == 16777302 then CabinOperations
    else AllTraffic
  }

  /** Every application maps to a named class that reads back as itself;
      any application but the four listed goes to ALL_TRAFFIC, which
      only a catch-all rule serves. */
  lemma DiameterClassesAreNamed(appId: nat)
    ensures NamedClass(MapDiameterApp(appId))
    ensures ParseTrafficClassString(Some(TrafficClassString(MapDiameterApp(appId)))) == MapDiameterApp(appId)
    ensures appId !in {16777216, 16777251, 16777238, 16777302} ==>
      TrafficClassString(MapDiameterApp(appId)) == "ALL_TRAFFIC"
  {
  }

  // -------------------------------------------------------------- engine

  /** The engine context in place: a fixed array of link states and the
      fields the operations update. */
  class Engine {
    var config: Config
    var phase: int
    var phaseStr: string
    var phaseChangeTime: int
    var active: Option<nat>
    const links: array<LinkState>
    var numLinks: nat
    var totalDecisions: nat
    var phaseSwitches: nat
    var pathSelections: nat
    var startTime: int

    predicate Valid()
      reads this
    {
      links.Length == MaxActiveLinks && numLinks <= MaxActiveLinks
      && (active.Some? ==> active.value < |config.rulesets|)
    }

    function State(): (c: Context)
      requires Valid()
      reads this, links
      ensures ContextValid(c)
    {
      Context(config, phase, phaseStr, phaseChangeTime, active, links[..], numLinks,
              totalDecisions, phaseSwitches, pathSelections, startTime)
    }

    /** `policy_engine_init` on a configuration of at most
        `MAX_LINKS` (= `MAX_ACTIVE_LINKS`) data links. */
    constructor (cfg: Config, now: int)
      requires |cfg.datalinks| <= MaxActiveLinks
      ensures Valid() && fresh(links)
      ensures State() == Initial(cfg, now)
    {
      config := cfg;
      phase := Parked;
      phaseStr := "PARKED";
      phaseChangeTime := now;
      startTime := now;
      numLinks := |cfg.datalinks|;
      totalDecisions, phaseSwitches, pathSelections := 0, 0, 0;
      active := FindRuleset(cfg.rulesets, "PARKED");
      links := new LinkState[MaxActiveLinks](_ => EmptyLink);
      new;
      for i := 0 to |cfg.datalinks|
        modifies links
        invariant links[..] == InitialLinks(cfg.datalinks, now, i)
      {
        links[i] := InitialLink(cfg.datalinks[i], now);
      }
    }

    /** `policy_engine_set_flight_phase`; it always returns 0. */
    method SetFlightPhase(newPhase: int, now: int) returns (rc: int)
      requires Valid()
      modifies this
      ensures Valid() && rc == 0
      ensures State() == SetPhase(old(State()), newPhase, now)
    {
      if phase == newPhase {
        return 0;
      }
      var name := PhaseString(newPhase);
      phase := newPhase;
      phaseStr := name;
      phaseChangeTime := now;
      phaseSwitches := phaseSwitches + 1;
      active := FindRuleset(config.rulesets, name);
      rc := 0;
    }

    /** The lookup loop shared by the operations. */
    method LookupLink(id: string) returns (k: Option<nat>)
      requires Valid()
      ensures k == FindLink(links[..numLinks], id)
    {
      var i := 0;
      while i < numLinks
        invariant i <= numLinks
        invariant FindLink(links[..numLinks], id) == (match FindLink(links[i..numLinks], id)
                                                       case None => None
                                                       case Some(j) => Some(i + j))
      {
        if links[i].linkId == id {
          return Some(i);
        }
        assert links[i..numLinks][1..] == links[i + 1..numLinks];
        i := i + 1;
      }
      return None;
    }

    /** `policy_engine_update_link_state`. */
    method UpdateLinkState(id: string, isUp: bool, bandwidthKbps: nat, rttMs: nat, now: int) returns (rc: int)
      requires Valid()
      modifies links
      ensures Valid()
      ensures (rc, State()) == UpdateLink(old(State()), id, isUp, bandwidthKbps, rttMs, now)
    {
      var k := LookupLink(id);
      if k.None? {
        return -1;
      }
      var i := k.value;
      links[i] := links[i].(isUp := isUp, bandwidthKbps := bandwidthKbps, rttMs := rttMs, lastUpdate := now);
      rc := 0;
    }

    /** The rule loop of `select_path`. */
    method MatchingRule(rules: seq<Rule>, cls: string) returns (m: Option<nat>)
      ensures m == MatchRule(rules, cls)
    {
      var i := 0;
      while i < |rules|
        invariant i <= |rules|
        invariant MatchRule(rules, cls) == (match MatchRule(rules[i..], cls)
                                            case None => None
                                            case Some(j) => Some(i + j))
      {
        if rules[i].trafficClass == cls || rules[i].trafficClass == "ALL_TRAFFIC" {
          return Some(i);
        }
        assert rules[i..][1..] == rules[i + 1..];
        i := i + 1;
      }
      return None;
    }

    /** One preference judged against the tracked links. */
    method Judge(p: Preference) returns (r: PathResult)
      requires Valid()
      ensures r == Evaluate(links[..numLinks], p)
    {
      var k := LookupLink(p.linkId);
      var available := k.Some? && links[k.value].isUp && p.action != Prohibit;
      var score := if available then PathScore(links[k.value], p.ranking) else 0;
      r := PathResult(p.linkId, p.ranking, p.action, available, score);
    }

    /** The judging loop of `select_path`: every preference judged in
        order, with the best one found so far. */
    method JudgeAll(prefs: seq<Preference>) returns (paths: seq<PathResult>, best: Option<nat>)
      requires Valid()
      ensures paths == EvaluateAll(links[..numLinks], prefs) && best == Best(paths).0
    {
      paths := [];
      best := None;
      var bestScore: nat := 0;
      for i := 0 to |prefs|
        invariant paths == EvaluateAll(links[..numLinks], prefs[..i])
        invariant (best, bestScore) == Best(paths)
      {
        var r := Judge(prefs[i]);
        assert prefs[..i + 1][..i] == prefs[..i];
        if r.score > bestScore {
          best, bestScore := Some(i), r.score;
        }
        paths := paths + [r];
        assert paths[..i] == EvaluateAll(links[..numLinks], prefs[..i]);
      }
      assert prefs[..|prefs|] == prefs;
    }

    /** The decision `select_path` reaches, before its counters. */
    method Decide(tc: int) returns (decision: Decision)
      requires Valid()
      ensures decision == Select(ActiveSet(State()), Tracked(State()), tc)
    {
      if active.None? {
        return Decision(tc, [], None);
      }
      var rs := config.rulesets[active.value];
      var m := MatchingRule(rs.rules, TrafficClassString(tc));
      if m.None? {
        return Decision(tc, [], None);
      }
      var prefs := Capped(rs.rules[m.value].prefs);
      assert RulePrefs(ActiveSet(State()), tc) == Some(prefs);
      var paths, best := JudgeAll(prefs);
      if best.Some? {
        decision := Decision(tc, paths, Some(paths[best.value].linkId));
      } else {
        decision := Decision(tc, paths, None);
      }
    }

    /** `policy_engine_select_path`. */
    method SelectPath(tc: int) returns (rc: int, decision: Decision)
      requires Valid()
      modifies this
      ensures Valid()
      ensures (rc, decision, State()) == SelectIn(old(State()), tc)
    {
      ghost var c := State();
      decision := Decide(tc);
      assert decision == SelectIn(c, tc).1;
      totalDecisions := totalDecisions + 1;
      if decision.selected.Some? {
        pathSelections := pathSelections + 1;
        rc := 0;
      } else {
        rc := -1;
      }
      assert State() == SelectIn(c, tc).2;
    }

    /** The preference loop of `is_path_available` for one rule. */
    method PrefFor(prefs: seq<Preference>, id: string) returns (f: Option<nat>)
      ensures f == FindPref(prefs, id)
    {
      var j := 0;
      while j < |prefs|
        invariant j <= |prefs|
        invariant FindPref(prefs, id) == (match FindPref(prefs[j..], id)
                                          case None => None
                                          case Some(x) => Some(j + x))
      {
        if prefs[j].linkId == id {
          return Some(j);
        }
        assert prefs[j..][1..] == prefs[j + 1..];
        j := j + 1;
      }
      return None;
    }

    /** `policy_engine_is_path_available`. */
    method IsPathAvailable(id: string, tc: int) returns (available: bool)
      requires Valid()
      ensures available == PathAvailable(ActiveSet(State()), Tracked(State()), id, tc)
    {
      var k := LookupLink(id);
      if k.None? || !links[k.value].isUp {
        return false;
      }
      if active.None? {
        return false;
      }
      var rules := config.rulesets[active.value].rules;
      var cls := TrafficClassString(tc);
      var i := 0;
      while i < |rules|
        invariant i <= |rules|
        invariant AllowedIn(rules, cls, id) == AllowedIn(rules[i..], cls, id)
      {
        if rules[i].trafficClass == cls || rules[i].trafficClass == "ALL_TRAFFIC" {
          var f := PrefFor(rules[i].prefs, id);
          if f.Some? {
            return rules[i].prefs[f.value].action != Prohibit;
          }
        }
        assert rules[i..][1..] == rules[i + 1..];
        i := i + 1;
      }
      return false;
    }
  }
}
