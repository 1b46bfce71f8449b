/** The server's path-selection policy: the wildcard matcher used for
    profile-name patterns, the dynamic traffic classification, the link
    switching hysteresis, the link score and `magic_policy_select_path`.
    The clock, the floating-point coverage test and the LMI load table are
    parameters. */
module MagicPolicy {
  import opened Wrappers
  import opened Text
  import opened CString
  import opened MagicConfig

  // ---------------------------------------------------- wildcard match

  /** What a pattern means: '*' stands for any run of characters (possibly
      empty), '?' for exactly one, and every other character for itself
      with ASCII case ignored; the whole text must be consumed. */
  predicate Matches(p: string, s: string)
    decreases |p| + |s|
  {
    if |p| == 0 then |s| == 0
    else if p[0] == '*' then Matches(p[1..], s) || (|s| > 0 && Matches(p, s[1..]))
    else |s| > 0 && (p[0] == '?' || Lower(p[0]) == Lower(s[0])) && Matches(p[1..], s[1..])
  }

  /** `magic_policy_wildcard_match`: NULL on either side is no match. */
  method WildcardMatch(pattern: Option<string>, str: Option<string>) returns (b: bool)
    ensures b <==> pattern.Some? && str.Some? && Matches(pattern.value, str.value)
  {
    if pattern.None? || str.None? {
      return false;
    }
    b := MatchFrom(pattern.value, str.value);
  }

  /** The body of `magic_policy_wildcard_match`: a pointer walk over both
      strings that recurses once per '*' on every remaining suffix. */
  method MatchFrom(p: string, s: string) returns (b: bool)
    decreases |p|
    ensures b == Matches(p, s)
  {
    var i, j := 0, 0;
    while i < |p| && j < |s|
      invariant 0 <= i <= |p| && 0 <= j <= |s|
      invariant Matches(p[i..], s[j..]) == Matches(p, s)
    {
      if p[i] == '*' {
        i := i + 1;
        if i == |p| {
          StarMatchesAnything(s[j..]);
          assert p[i - 1..] == "*";
          return true;
        }
        var k := j;
        while k < |s|
          invariant j <= k <= |s|
          invariant Matches(p[i - 1..], s[k..]) == Matches(p, s)
        {
          var hit := MatchFrom(p[i..], s[k..]);
          assert p[i - 1..][1..] == p[i..];
          if hit {
            return true;
          }
          assert s[k..][1..] == s[k + 1..];
          k := k + 1;
        }
        assert p[i - 1..][1..] == p[i..];
        b := MatchFrom(p[i..], s[k..]);
        return;
      } else if p[i] == '?' {
        assert p[i..][1..] == p[i + 1..] && s[j..][1..] == s[j + 1..];
        i, j := i + 1, j + 1;
      } else {
        if Lower(p[i]) != Lower(s[j]) {
          return false;
        }
        assert p[i..][1..] == p[i + 1..] && s[j..][1..] == s[j + 1..];
        i, j := i + 1, j + 1;
      }
    }
    while i < |p| && p[i] == '*'
      invariant 0 <= i <= |p| && (i == |p| || j == |s|)
      invariant Matches(p[i..], s[j..]) == Matches(p, s)
    {
      assert p[i..][1..] == p[i + 1..];
      i := i + 1;
    }
    b := i == |p| && j == |s|;
  }

  /** A lone '*' matches every text, the empty one included. */
  lemma {:induction false} StarMatchesAnything(s: string)
    ensures Matches("*", s)
  {
    if |s| > 0 {
      StarMatchesAnything(s[1..]);
    }
  }

  /** A lone '?' matches exactly the one-character texts. */
  lemma QuestionMatchesOneChar(s: string)
    ensures Matches("?", s) <==> |s| == 1
  {
    assert "?"[1..] == "";
  }

  /** A pattern without wildcards matches exactly the texts equal to it
      ignoring ASCII case. */
  lemma {:induction false} LiteralPatternMatches(p: string, s: string)
    requires forall i :: 0 <= i < |p| ==> p[i] != '*' && p[i] != '?'
    ensures Matches(p, s) <==> EqualsIgnoreCase(p, s)
  {
    if |p| > 0 && |s| > 0 {
      LiteralPatternMatches(p[1..], s[1..]);
      if EqualsIgnoreCase(p, s) {
        assert EqualsIgnoreCase(p[1..], s[1..]) by {
          forall i | 0 <= i < |p| - 1 ensures Lower(p[1..][i]) == Lower(s[1..][i]) {
            assert Lower(p[i + 1]) == Lower(s[i + 1]);
          }
        }
      }
      if Matches(p, s) {
        forall i | 0 <= i < |p| ensures Lower(p[i]) == Lower(s[i]) {
          if i > 0 { assert Lower(p[1..][i - 1]) == Lower(s[1..][i - 1]); }
        }
      }
    }
  }

  // ------------------------------------------------ traffic classification

  const BestEffort := "BEST_EFFORT"

  /** Some pattern of the list matches the profile name. */
  predicate AnyPatternMatches(patterns: seq<string>, name: string) {
    exists k :: 0 <= k < |patterns| && Matches(patterns[k], name)
  }

  /** A non-default definition claims a client by priority class, then QoS
      level, then profile-name pattern. */
  predicate Claims(d: TrafficClassDef, prio: nat, qos: nat, profile: Option<string>) {
    && !d.isDefault
    && ((d.hasPriorityClass && d.priorityClass == prio)
        || (d.hasQosLevel && d.qosLevel == qos)
        || (profile.Some? && AnyPatternMatches(d.patterns, profile.value)))
  }

  /** The last default definition, if any. */
  function LastDefault(defs: seq<TrafficClassDef>): (r: Option<nat>)
    ensures r.Some? ==> r.value < |defs| && defs[r.value].isDefault
    ensures r.Some? ==> forall j :: r.value < j < |defs| ==> !defs[j].isDefault
    ensures r.None? ==> forall j :: 0 <= j < |defs| ==> !defs[j].isDefault
  {
    if |defs| == 0 then None
    else if defs[|defs| - 1].isDefault then Some(|defs| - 1)
    else LastDefault(defs[..|defs| - 1])
  }

  /** The first definition that claims the client. */
  function FirstClaim(defs: seq<TrafficClassDef>, prio: nat, qos: nat, profile: Option<string>): (r: Option<nat>)
    ensures r.Some? ==> r.value < |defs| && Claims(defs[r.value], prio, qos, profile)
    ensures r.Some? ==> forall j :: 0 <= j < r.value ==> !Claims(defs[j], prio, qos, profile)
    ensures r.None? ==> forall j :: 0 <= j < |defs| ==> !Claims(defs[j], prio, qos, profile)
  {
    if |defs| == 0 then None
    else if Claims(defs[0], prio, qos, profile) then Some(0)
    else match FirstClaim(defs[1..], prio, qos, profile)
      case None => None
      case Some(k) => Some(k + 1)
  }

  /** The class `magic_policy_classify_traffic` assigns: the first
      definition that claims the client, else the last default definition,
      else "BEST_EFFORT". */
  function Classification(defs: seq<TrafficClassDef>, prio: nat, qos: nat, profile: Option<string>): string {
    match FirstClaim(defs, prio, qos, profile)
    case Some(i) => defs[i].id
    case None =>
      match LastDefault(defs)
      case Some(k) => defs[k].id
      case None => BestEffort
  }

  lemma LastDefaultStep(defs: seq<TrafficClassDef>, i: nat)
    requires i < |defs|
    ensures LastDefault(defs[..i + 1]) == if defs[i].isDefault then Some(i) else LastDefault(defs[..i])
  {
    assert defs[..i + 1][..i] == defs[..i];
  }

  /** `magic_policy_classify_traffic`. */
  method ClassifyTraffic(defs: seq<TrafficClassDef>, prio: nat, qos: nat, profile: Option<string>) returns (cls: string)
    ensures cls == Classification(defs, prio, qos, profile)
    ensures (forall i :: 0 <= i < |defs| ==> !Claims(defs[i], prio, qos, profile)) && LastDefault(defs).None? ==> cls == BestEffort
  {
    var matchedDefault := BestEffort;
    var i := 0;
    ghost var last: Option<nat> := None;
    while i < |defs|
      invariant i <= |defs| && last == LastDefault(defs[..i])
      invariant forall j :: 0 <= j < i ==> !Claims(defs[j], prio, qos, profile)
      invariant matchedDefault == if last.Some? then defs[last.value].id else BestEffort
    {
      LastDefaultStep(defs, i);
      var d := defs[i];
      if d.isDefault {
        matchedDefault := d.id;
        last := Some(i);
      } else {
        var hit := false;
        if d.hasPriorityClass && d.priorityClass == prio {
          hit := true;
        } else if d.hasQosLevel && d.qosLevel == qos {
          hit := true;
        } else if profile.Some? && |d.patterns| > 0 {
          hit := PatternHit(d.patterns, profile.value);
        }
        if hit {
          assert Claims(defs[i], prio, qos, profile);
          return d.id;
        }
      }
      i := i + 1;
    }
    assert defs[..i] == defs;
    cls := matchedDefault;
  }

  /** The pattern loop of `magic_policy_classify_traffic`. */
  method PatternHit(patterns: seq<string>, name: string) returns (hit: bool)
    ensures hit == AnyPatternMatches(patterns, name)
  {
    var k := 0;
    while k < |patterns|
      invariant k <= |patterns|
      invariant forall m :: 0 <= m < k ==> !Matches(patterns[m], name)
    {
      hit := WildcardMatch(Some(patterns[k]), Some(name));
      if hit {
        return true;
      }
      k := k + 1;
    }
    hit := false;
  }

  // ------------------------------------------------------ link switching

  /** The fields of a `ClientSession` the switching rule reads. */
  datatype SwitchView = SwitchView(assignedLink: string, lastSwitch: int, currentPercent: nat)

  /** `magic_policy_can_switch_link`, with the clock as `now`: always for a
      first assignment, never to the same link, never within the dwell
      time of the last switch, and, when both percentages are positive,
      only to a link at least `hysteresis` percent better (uint32
      arithmetic). A NULL link id allows the switch. */
  function CanSwitchLink(s: SwitchView, newLink: Option<string>, newPercent: nat,
                         minDwell: nat, hysteresis: nat, now: int): bool
  {
    if newLink.None? then true
    else if s.assignedLink == "" then true
    else if s.assignedLink == newLink.value then false
    else if s.lastSwitch > 0 && now - s.lastSwitch < minDwell then false
    else if s.currentPercent > 0 && newPercent > 0 then
      var threshold := CastU32(s.currentPercent + CastU32(s.currentPercent * hysteresis) / 100);
      newPercent >= threshold
    else true
  }

  /** For percentages and a hysteresis of at most 100 nothing wraps: a
      switch between two different links, past the dwell time, is allowed
      exactly when the new link is better by the hysteresis margin,
      rounded down. */
  lemma CanSwitchLinkHysteresis(s: SwitchView, newLink: string, newPercent: nat,
                                minDwell: nat, hysteresis: nat, now: int)
    requires s.assignedLink != "" && s.assignedLink != newLink
    requires s.lastSwitch <= 0 || now - s.lastSwitch >= minDwell
    requires 0 < s.currentPercent <= 100 && 0 < newPercent && hysteresis <= 100
    ensures CanSwitchLink(s, Some(newLink), newPercent, minDwell, hysteresis, now)
            <==> newPercent >= s.currentPercent + (s.currentPercent * hysteresis) / 100
  {
    var x := PercentProduct(s.currentPercent, hysteresis);
    assert CastU32(x) == x;
    assert CastU32(s.currentPercent + x / 100) == s.currentPercent + x / 100;
  }

  /** The hysteresis product of two percentages. */
  function PercentProduct(a: nat, b: nat): (x: nat)
    requires a <= 100 && b <= 100
    ensures x == a * b && x <= 100 * 100
  {
    assert a * b <= 100 * b;
    a * b
  }

  /** The same link is never switched to, a first assignment always is, and
      the dwell time blocks any switch away from an assigned link. */
  lemma CanSwitchLinkGuards(s: SwitchView, newLink: string, newPercent: nat, minDwell: nat, hysteresis: nat, now: int)
    ensures s.assignedLink == "" ==> CanSwitchLink(s, Some(newLink), newPercent, minDwell, hysteresis, now)
    ensures s.assignedLink != "" && s.assignedLink == newLink ==> !CanSwitchLink(s, Some(newLink), newPercent, minDwell, hysteresis, now)
    ensures s.assignedLink != "" && s.lastSwitch > 0 && now - s.lastSwitch < minDwell ==>
              !CanSwitchLink(s, Some(newLink), newPercent, minDwell, hysteresis, now)
  {
  }

  // ---------------------------------------------------------- link score

  const Rejected := -999999

  function TypeBonus(t: DlmType): int {
    match t
    case Satellite => 5
    case Cellular => 3
    case Hybrid => 4
    case DlmUnknown => 0
  }

  /** `calculate_link_score`. The ranking and headroom terms are unsigned
      and wrap before they reach the signed score. */
  function LinkScore(dlm: DlmConfig, pref: PathPreference, requested: nat): int {
    if pref.hasMaxLatency && dlm.latencyMs > pref.maxLatencyMs then Rejected
    else
      var ranked :=
        if dlm.maxForwardKbps >= requested then CastI32((10 - pref.ranking) * 1000 + (dlm.maxForwardKbps - requested) / 100)
        else CastI32((10 - pref.ranking) * 1000) - 5000;
      var latency := if dlm.latencyMs < 50 then 100 else if dlm.latencyMs > 500 then -50 else 0;
      ranked + latency + TypeBonus(dlm.dlmType)
  }

  /** Within rankings 1..10 and realistic bandwidths the score orders links
      by ranking first: one step of ranking outweighs every other term. */
  lemma LinkScoreRanking(dlm: DlmConfig, a: PathPreference, b: PathPreference, requested: nat)
    requires a.ranking < b.ranking <= 10 && requested <= dlm.maxForwardKbps < 100_000_000
    requires !(a.hasMaxLatency && dlm.latencyMs > a.maxLatencyMs) && !(b.hasMaxLatency && dlm.latencyMs > b.maxLatencyMs)
    ensures LinkScore(dlm, a, requested) - LinkScore(dlm, b, requested) == 1000 * (b.ranking - a.ranking)
  {
  }

  /** A link over the latency limit scores exactly `Rejected`; any other
      link with ranking at most 10 scores well above it. */
  lemma LinkScoreRejects(dlm: DlmConfig, pref: PathPreference, requested: nat)
    requires pref.ranking <= 10 && dlm.maxForwardKbps < 100_000_000
    ensures pref.hasMaxLatency && dlm.latencyMs > pref.maxLatencyMs ==> LinkScore(dlm, pref, requested) == Rejected
    ensures !(pref.hasMaxLatency && dlm.latencyMs > pref.maxLatencyMs) ==> LinkScore(dlm, pref, requested) >= -5050
  {
  }

  // --------------------------------------------------------- select path

  /** `PolicyRequest`. The position is reduced to whether it was given
      (`positionKnown`: latitude or longitude non-zero). */
  datatype PolicyRequest = PolicyRequest(
    clientId: string, profileName: string, requestedFl: nat, requestedRl: nat,
    priorityClass: nat, qosLevel: nat, flightPhase: string,
    positionKnown: bool, onGround: bool, hasAdif: bool)

  /** One `ClientInfo` slot of the LMI context, as the load balancing reads
      it. */
  datatype LmiLoad = LmiLoad(registered: bool, linkId: string, activeBearers: nat)

  /** `PolicyResponse` without the free-text reason. */
  datatype PolicyResponse = PolicyResponse(
    success: bool, selectedLink: string, grantedFl: nat, grantedRl: nat, qosLevel: nat, matchedClass: string)

  const EmptyResponse := PolicyResponse(false, "", 0, 0, 0, "")

  /** The active bearers of the first registered LMI client on the link; 0
      without an LMI context. */
  function LoadOf(loads: Option<seq<LmiLoad>>, link: string): nat {
    if loads.None? then 0 else FirstLoad(loads.value, link)
  }

  function FirstLoad(ls: seq<LmiLoad>, link: string): nat {
    if |ls| == 0 then 0
    else if ls[0].registered && ls[0].linkId == link then ls[0].activeBearers
    else FirstLoad(ls[1..], link)
  }

  /** The first rule of the list with exactly that traffic class. */
  function RuleWithClass(rules: seq<PolicyRule>, cls: string): (r: Option<nat>)
    ensures r.Some? ==> r.value < |rules| && rules[r.value].trafficClass == cls
    ensures r.None? ==> forall j :: 0 <= j < |rules| ==> rules[j].trafficClass != cls
  {
    if |rules| == 0 then None
    else if rules[0].trafficClass == cls then Some(0)
    else match RuleWithClass(rules[1..], cls)
      case None => None
      case Some(k) => Some(k + 1)
  }

  /** The rule lookup of `magic_policy_select_path`: the classified traffic
      class, then "ALL_TRAFFIC", then "PRIORITY_<n>" for the client's
      priority class when it is positive. */
  function MatchRule(rules: seq<PolicyRule>, cls: string, clientPriority: nat): (r: Option<nat>)
    ensures r.Some? ==> r.value < |rules|
    ensures r.Some? ==> rules[r.value].trafficClass in {cls, "ALL_TRAFFIC", "PRIORITY_" + NatToString(clientPriority)}
    ensures r.None? ==> forall j :: 0 <= j < |rules| ==> rules[j].trafficClass != cls && rules[j].trafficClass != "ALL_TRAFFIC"
  {
    var exact := RuleWithClass(rules, cls);
    if exact.Some? then exact
    else
      var all := RuleWithClass(rules, "ALL_TRAFFIC");
      if all.Some? then all
      else if clientPriority > 0 then RuleWithClass(rules, "PRIORITY_" + NatToString(clientPriority))
      else None
  }

  /** The score a preference earns in `magic_policy_select_path`, or
      `None` when the loop skips it. `inCoverage` names the DLMs whose
      coverage box holds the aircraft. */
  function Candidate(cfg: Config, client: ClientProfile, req: PolicyRequest, inCoverage: set<string>,
                     loads: Option<seq<LmiLoad>>, pref: PathPreference): Option<int>
  {
    if pref.action == Prohibit then None
    else if !IsDlmAllowed(Some(client), pref.linkId) then None
    else match FindDlm(cfg.dlms, pref.linkId)
      case None => None
      case Some(d) =>
        var dlm := cfg.dlms[d];
        if !dlm.isActive then None
        else if !cfg.adifDegraded && dlm.coverageEnabled && req.hasAdif && req.positionKnown && dlm.name !in inCoverage then None
        else if req.hasAdif && pref.onGroundOnly && !req.onGround then None
        else if req.hasAdif && pref.airborneOnly && req.onGround then None
        else
          var bonus := if client.preferredDlm != "" && pref.linkId == client.preferredDlm then 500 else 0;
          Some(LinkScore(dlm, pref, req.requestedFl) - 600 * LoadOf(loads, pref.linkId) + bonus)
  }

  /** The running best of the preference loop after the first `n`
      preferences: the best score so far (starting at `Rejected`) and the
      index of the preference that set it; ties keep the earlier one. */
  function Pick(cfg: Config, client: ClientProfile, req: PolicyRequest, inCoverage: set<string>,
                loads: Option<seq<LmiLoad>>, prefs: seq<PathPreference>, n: nat): (r: (int, Option<nat>))
    requires n <= |prefs|
    ensures r.1.Some? ==> r.1.value < n
  {
    if n == 0 then (Rejected, None)
    else
      var (best, sel) := Pick(cfg, client, req, inCoverage, loads, prefs, n - 1);
      match Candidate(cfg, client, req, inCoverage, loads, prefs[n - 1])
      case Some(score) => if score > best then (score, Some(n - 1)) else (best, sel)
      case None => (best, sel)
  }

  /** The chosen preference is a candidate with the best score, strictly
      better than every earlier candidate and no worse than any later one;
      nothing is chosen exactly when no candidate beats `Rejected`. */
  lemma {:induction false} PickIsBest(cfg: Config, client: ClientProfile, req: PolicyRequest, inCoverage: set<string>,
                                      loads: Option<seq<LmiLoad>>, prefs: seq<PathPreference>, n: nat)
    requires n <= |prefs|
    ensures var (best, sel) := Pick(cfg, client, req, inCoverage, loads, prefs, n);
      && (sel.Some? ==> Candidate(cfg, client, req, inCoverage, loads, prefs[sel.value]) == Some(best) && best > Rejected)
      && (sel.None? ==> best == Rejected)
      && (forall j :: 0 <= j < n && Candidate(cfg, client, req, inCoverage, loads, prefs[j]).Some? ==>
            Candidate(cfg, client, req, inCoverage, loads, prefs[j]).value <= best)
      && (sel.Some? ==> forall j :: 0 <= j < sel.value && Candidate(cfg, client, req, inCoverage, loads, prefs[j]).Some? ==>
            Candidate(cfg, client, req, inCoverage, loads, prefs[j]).value < best)
  {
    if n > 0 {
      PickIsBest(cfg, client, req, inCoverage, loads, prefs, n - 1);
    }
  }

  /** `magic_policy_select_path` as a value: its return code and
      response. */
  function SelectPathSpec(cfg: Config, req: PolicyRequest, inCoverage: set<string>, loads: Option<seq<LmiLoad>>): (int, PolicyResponse) {
    match FindClient(cfg.clients, req.clientId)
    case None => (-1, EmptyResponse)
    case Some(c) =>
      var client := cfg.clients[c];
      var limit := if client.maxForwardKbps == 0 then 10000 else client.maxForwardKbps;
      if !client.enabled || req.requestedFl > limit then (-1, EmptyResponse)
      else
        var found := FindRuleset(cfg.rulesets, req.flightPhase);
        if found.None? && |cfg.rulesets| == 0 then (-1, EmptyResponse)
        else
          var rs := cfg.rulesets[if found.Some? then found.value else 0];
          var cls := Classification(cfg.classDefs, req.priorityClass, req.qosLevel, Some(req.profileName));
          var resp := EmptyResponse.(matchedClass := Bounded(cls, 63));
          match MatchRule(rs.rules, cls, client.priorityClass)
          case None => (-1, resp)
          case Some(r) =>
            var prefs := rs.rules[r].preferences;
            var (best, sel) := Pick(cfg, client, req, inCoverage, loads, prefs, |prefs|);
            if sel.None? then (-1, resp)
            else (0, resp.(success := true, selectedLink := Bounded(prefs[sel.value].linkId, 63),
                           grantedFl := req.requestedFl, grantedRl := req.requestedRl, qosLevel := req.qosLevel))
  }

  /** What a successful decision guarantees: the client is known, enabled
      and within its bandwidth limit, the chosen link is permitted, allowed
      for the client, configured and active, the grant is exactly the
      request, and no other preference of the rule scores higher. */
  lemma SelectPathSound(cfg: Config, req: PolicyRequest, inCoverage: set<string>, loads: Option<seq<LmiLoad>>)
    requires SelectPathSpec(cfg, req, inCoverage, loads).0 == 0
    ensures var (_, resp) := SelectPathSpec(cfg, req, inCoverage, loads);
      && resp.success && resp.grantedFl == req.requestedFl && resp.grantedRl == req.requestedRl && resp.qosLevel == req.qosLevel
      && exists c, d :: 0 <= c < |cfg.clients| && 0 <= d < |cfg.dlms|
           && cfg.clients[c].clientId == req.clientId && cfg.clients[c].enabled
           && IsDlmAllowed(Some(cfg.clients[c]), cfg.dlms[d].name) && cfg.dlms[d].isActive
           && resp.selectedLink == Bounded(cfg.dlms[d].name, 63)
  {
    var c := FindClient(cfg.clients, req.clientId).value;
    var client := cfg.clients[c];
    var found := FindRuleset(cfg.rulesets, req.flightPhase);
    var rs := cfg.rulesets[if found.Some? then found.value else 0];
    var cls := Classification(cfg.classDefs, req.priorityClass, req.qosLevel, Some(req.profileName));
    var r := MatchRule(rs.rules, cls, client.priorityClass).value;
    var prefs := rs.rules[r].preferences;
    PickIsBest(cfg, client, req, inCoverage, loads, prefs, |prefs|);
    var sel := Pick(cfg, client, req, inCoverage, loads, prefs, |prefs|).1.value;
    var pref := prefs[sel];
    var d := FindDlm(cfg.dlms, pref.linkId).value;
    assert cfg.dlms[d].name == pref.linkId;
  }

  /** The refusals that come before any rule is consulted. */
  lemma SelectPathRefuses(cfg: Config, req: PolicyRequest, inCoverage: set<string>, loads: Option<seq<LmiLoad>>)
    ensures (forall c :: 0 <= c < |cfg.clients| ==> cfg.clients[c].clientId != req.clientId) ==>
              SelectPathSpec(cfg, req, inCoverage, loads) == (-1, EmptyResponse)
    ensures |cfg.rulesets| == 0 ==> SelectPathSpec(cfg, req, inCoverage, loads).0 == -1
    ensures forall c :: 0 <= c < |cfg.clients| && FindClient(cfg.clients, req.clientId) == Some(c) && !cfg.clients[c].enabled ==>
              SelectPathSpec(cfg, req, inCoverage, loads) == (-1, EmptyResponse)
  {
  }

  /** `magic_policy_select_path`. */
  method SelectPath(cfg: Config, req: PolicyRequest, inCoverage: set<string>, loads: Option<seq<LmiLoad>>)
    returns (rc: int, resp: PolicyResponse)
    ensures (rc, resp) == SelectPathSpec(cfg, req, inCoverage, loads)
  {
    resp := EmptyResponse;
    var c := FindClient(cfg.clients, req.clientId);
    if c.None? {
      return -1, resp;
    }
    var client := cfg.clients[c.value];
    if !client.enabled {
      return -1, resp;
    }
    var limit := client.maxForwardKbps;
    if limit == 0 {
      limit := 10000;
    }
    if req.requestedFl > limit {
      return -1, resp;
    }
    var found := FindRuleset(cfg.rulesets, req.flightPhase);
    var rsIndex := 0;
    if found.Some? {
      rsIndex := found.value;
    } else if |cfg.rulesets| == 0 {
      return -1, resp;
    }
    var rs := cfg.rulesets[rsIndex];
    var cls := ClassifyTraffic(cfg.classDefs, req.priorityClass, req.qosLevel, Some(req.profileName));
    resp := resp.(matchedClass := Bounded(cls, 63));
    var rule := MatchRule(rs.rules, cls, client.priorityClass);
    if rule.None? {
      return -1, resp;
    }
    var prefs := rs.rules[rule.value].preferences;
    var best, sel := PickBest(cfg, client, req, inCoverage, loads, prefs);
    if sel.None? {
      return -1, resp;
    }
    rc := 0;
    resp := resp.(success := true, selectedLink := Bounded(prefs[sel.value].linkId, 63),
                  grantedFl := req.requestedFl, grantedRl := req.requestedRl, qosLevel := req.qosLevel);
  }

  /** The preference loop of `magic_policy_select_path`. */
  method PickBest(cfg: Config, client: ClientProfile, req: PolicyRequest, inCoverage: set<string>,
                  loads: Option<seq<LmiLoad>>, prefs: seq<PathPreference>)
    returns (best: int, sel: Option<nat>)
    ensures (best, sel) == Pick(cfg, client, req, inCoverage, loads, prefs, |prefs|)
  {
    best, sel := Rejected, None;
    var i := 0;
    while i < |prefs|
      invariant i <= |prefs|
      invariant (best, sel) == Pick(cfg, client, req, inCoverage, loads, prefs, i)
    {
      var score := ScorePreference(cfg, client, req, inCoverage, loads, prefs[i]);
      if score.Some? && score.value > best {
        best, sel := score.value, Some(i);
      }
      i := i + 1;
    }
  }

  /** One pass of the preference loop: the skip tests, the score, the load
      penalty read from the LMI clients, and the preferred-DLM bonus. */
  method ScorePreference(cfg: Config, client: ClientProfile, req: PolicyRequest, inCoverage: set<string>,
                         loads: Option<seq<LmiLoad>>, pref: PathPreference)
    returns (score: Option<int>)
    ensures score == Candidate(cfg, client, req, inCoverage, loads, pref)
  {
    if pref.action == Prohibit || !IsDlmAllowed(Some(client), pref.linkId) {
      return None;
    }
    var d := FindDlm(cfg.dlms, pref.linkId);
    if d.None? {
      return None;
    }
    var dlm := cfg.dlms[d.value];
    if !dlm.isActive {
      return None;
    }
    if !cfg.adifDegraded && dlm.coverageEnabled && req.hasAdif && req.positionKnown && dlm.name !in inCoverage {
      return None;
    }
    if req.hasAdif && ((pref.onGroundOnly && !req.onGround) || (pref.airborneOnly && req.onGround)) {
      return None;
    }
    var s := LinkScore(dlm, pref, req.requestedFl);
    var active := 0;
    if loads.Some? {
      var j := 0;
      var ls := loads.value;
      while j < |ls|
        invariant j <= |ls|
        invariant FirstLoad(ls, pref.linkId) == FirstLoad(ls[j..], pref.linkId)
      {
        if ls[j].registered && ls[j].linkId == pref.linkId {
          active := ls[j].activeBearers;
          break;
        }
        assert ls[j..][1..] == ls[j + 1..];
        j := j + 1;
      }
    }
    s := s - 600 * active;
    if client.preferredDlm != "" && pref.linkId == client.preferredDlm {
      s := s + 500;
    }
    score := Some(s);
  }

  // ---------------------------------------- the latency limit is not final

  /** As written, a link over its preference's latency limit is scored
      `Rejected` but not skipped; the load penalty and the preferred-DLM
      bonus are applied afterwards, so an idle preferred link over the
      limit scores `Rejected + 500` and is selected when nothing better is
      available. */
  lemma LatencyRejectedLinkSelected(cfg: Config, req: PolicyRequest, c: nat, d: nat)
    requires c < |cfg.clients| && d < |cfg.dlms| && |cfg.rulesets| == 1
    requires forall j :: 0 <= j < |cfg.clients| ==> (cfg.clients[j].clientId == req.clientId <==> j == c)
    requires forall j :: 0 <= j < |cfg.dlms| ==> (cfg.dlms[j].name == cfg.dlms[d].name <==> j == d)
    requires var client := cfg.clients[c];
      && client.enabled && client.maxForwardKbps == 0 && req.requestedFl <= 10000
      && client.allowedDlms == [] && client.preferredDlm == cfg.dlms[d].name != ""
    requires cfg.dlms[d].isActive && !cfg.dlms[d].coverageEnabled
    requires cfg.rulesets[0].rules == [PolicyRule(Classification(cfg.classDefs, req.priorityClass, req.qosLevel, Some(req.profileName)),
                                                  [PathPreference(1, cfg.dlms[d].name, Permit, true, 0, false, false)])]
    requires cfg.dlms[d].latencyMs > 0
    ensures SelectPathSpec(cfg, req, {}, None).0 == 0
    ensures SelectPathSpec(cfg, req, {}, None).1.selectedLink == Bounded(cfg.dlms[d].name, 63)
  {
    var pref := PathPreference(1, cfg.dlms[d].name, Permit, true, 0, false, false);
    var client := cfg.clients[c];
    assert FindClient(cfg.clients, req.clientId) == Some(c);
    assert FindDlm(cfg.dlms, cfg.dlms[d].name) == Some(d);
    assert LinkScore(cfg.dlms[d], pref, req.requestedFl) == Rejected;
    assert Candidate(cfg, client, req, {}, None, pref) == Some(Rejected + 500);
    var prefs := [pref];
    assert Pick(cfg, client, req, {}, None, prefs, 1) == (Rejected + 500, Some(0));
    var cls := Classification(cfg.classDefs, req.priorityClass, req.qosLevel, Some(req.profileName));
    assert MatchRule(cfg.rulesets[0].rules, cls, client.priorityClass) == Some(0);
  }

  /** The evidently intended scoring: a preference whose link is over the
      latency limit is dropped like a prohibited one. */
  function CandidateChecked(cfg: Config, client: ClientProfile, req: PolicyRequest, inCoverage: set<string>,
                            loads: Option<seq<LmiLoad>>, pref: PathPreference): (r: Option<int>)
    ensures r.Some? ==> Candidate(cfg, client, req, inCoverage, loads, pref) == r
  {
    match FindDlm(cfg.dlms, pref.linkId)
    case Some(d) =>
      if pref.hasMaxLatency && cfg.dlms[d].latencyMs > pref.maxLatencyMs then None
      else Candidate(cfg, client, req, inCoverage, loads, pref)
    case None => None
  }

  /** The running best with the corrected scoring. */
  function PickChecked(cfg: Config, client: ClientProfile, req: PolicyRequest, inCoverage: set<string>,
                       loads: Option<seq<LmiLoad>>, prefs: seq<PathPreference>, n: nat): (r: (int, Option<nat>))
    requires n <= |prefs|
    ensures r.1.Some? ==> r.1.value < n
  {
    if n == 0 then (Rejected, None)
    else
      var (best, sel) := PickChecked(cfg, client, req, inCoverage, loads, prefs, n - 1);
      match CandidateChecked(cfg, client, req, inCoverage, loads, prefs[n - 1])
      case Some(score) => if score > best then (score, Some(n - 1)) else (best, sel)
      case None => (best, sel)
  }

  /** With the corrected scoring no link over its latency limit is ever
      chosen. */
  lemma {:induction false} PickCheckedRespectsLatency(cfg: Config, client: ClientProfile, req: PolicyRequest, inCoverage: set<string>,
                                                      loads: Option<seq<LmiLoad>>, prefs: seq<PathPreference>, n: nat)
    requires n <= |prefs|
    ensures var sel := PickChecked(cfg, client, req, inCoverage, loads, prefs, n).1;
      sel.Some? ==>
        var pref := prefs[sel.value];
        exists d :: 0 <= d < |cfg.dlms| && cfg.dlms[d].name == pref.linkId && cfg.dlms[d].isActive
          && !(pref.hasMaxLatency && cfg.dlms[d].latencyMs > pref.maxLatencyMs)
  {
    if n > 0 {
      PickCheckedRespectsLatency(cfg, client, req, inCoverage, loads, prefs, n - 1);
      var sel := PickChecked(cfg, client, req, inCoverage, loads, prefs, n).1;
      if sel == Some(n - 1) {
        var pref := prefs[n - 1];
        var d := FindDlm(cfg.dlms, pref.linkId).value;
        assert cfg.dlms[d].name == pref.linkId;
      }
    }
  }
}
