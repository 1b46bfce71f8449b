/** The server's session table: one slot per Diameter session, and one
    `ClientContext` per client with its bandwidth quota and the list of its
    session slots. Time is a parameter; the mutex is not modelled, since
    every operation runs under it. */
module MagicSession {
  import opened Wrappers
  import opened CString

  const MaxSessions: nat := 100
  const MaxSessionsPerClient: nat := 10
  const MaxTftPerSession: nat := 8
  const MaxClients: nat := 50

  /** `SessionState`: INIT 0 … CLOSED 6. */
  datatype SessionState = Init | Authenticated | Active | Modifying | Suspended | Terminating | Closed

  /** `SessionTftRule`. */
  datatype TftRule = TftRule(
    inUse: bool, tftId: nat, direction: nat, protocol: nat, srcIp: string, dstIp: string,
    srcPortStart: nat, srcPortEnd: nat, dstPortStart: nat, dstPortEnd: nat)

  /** The fields of a `ClientSession` the server logic reads and writes.
      `tfts` holds the first `num_tft_rules` entries of `tft_rules`. */
  datatype Session = Session(
    inUse: bool, sessionId: string, clientId: string, clientRealm: string,
    assignedLink: string, bearerId: nat, createdAt: int, lastActivity: int,
    grantedFl: nat, grantedRl: nat, state: SessionState, tfts: seq<TftRule>,
    subscribedLevel: nat, subscriptionActive: bool,
    lastSwitchTime: int, previousLink: string, currentBwPercent: nat,
    lastMntrSent: int, lastNotifiedBw: nat, mntrPendingAck: bool, keepRequest: bool,
    gatewayIp: string)

  /** A slot after `memset(…, 0, …)`. */
  const EmptySession := Session(false, "", "", "", "", 0, 0, 0, 0, 0, Init, [], 0, false, 0, "", 0, 0, 0, false, false, "")

  /** The fields of a `ClientContext` the quota logic uses. `indices` is
      the whole `active_session_indices` array. */
  datatype ClientContext = ClientContext(
    inUse: bool, clientId: string,
    maxFl: nat, maxRl: nat, guaranteedFl: nat, guaranteedRl: nat,
    maxConcurrent: nat, allocatedFl: nat, allocatedRl: nat,
    indices: seq<int>, activeCount: int, totalCreated: nat, firstSeen: int, lastActivity: int)

  const EmptyContext := ClientContext(false, "", 0, 0, 0, 0, 0, 0, 0, seq(MaxSessionsPerClient, _ => 0), 0, 0, 0, 0)

  /** `SessionManager` without its mutex. */
  datatype Table = Table(sessions: seq<Session>, sessionCount: int, clients: seq<ClientContext>, clientCount: int)

  // ------------------------------------------------------------ counting

  /** The number of occupied session slots. */
  function InUse(ss: seq<Session>): nat {
    if |ss| == 0 then 0 else InUse(ss[..|ss| - 1]) + (if ss[|ss| - 1].inUse then 1 else 0)
  }

  lemma {:induction false} InUseUpdate(ss: seq<Session>, k: nat, s: Session)
    requires k < |ss|
    ensures InUse(ss[k := s]) + (if ss[k].inUse then 1 else 0) == InUse(ss) + (if s.inUse then 1 else 0)
    decreases |ss|
  {
    var n := |ss| - 1;
    if k < n {
      assert ss[k := s][..n] == ss[..n][k := s];
      InUseUpdate(ss[..n], k, s);
    } else {
      assert ss[k := s][..n] == ss[..n];
    }
  }

  /** The number of client contexts in use. */
  function ContextsInUse(cs: seq<ClientContext>): nat {
    if |cs| == 0 then 0 else ContextsInUse(cs[..|cs| - 1]) + (if cs[|cs| - 1].inUse then 1 else 0)
  }

  lemma {:induction false} ContextsInUseUpdate(cs: seq<ClientContext>, k: nat, c: ClientContext)
    requires k < |cs|
    ensures ContextsInUse(cs[k := c]) + (if cs[k].inUse then 1 else 0) == ContextsInUse(cs) + (if c.inUse then 1 else 0)
    decreases |cs|
  {
    var n := |cs| - 1;
    if k < n {
      assert cs[k := c][..n] == cs[..n][k := c];
      ContextsInUseUpdate(cs[..n], k, c);
    } else {
      assert cs[k := c][..n] == cs[..n];
    }
  }

  /** The shape every context keeps: a ten-entry index array of which the
      first `active_session_count` are live, and 32-bit allocations. */
  predicate ContextValid(c: ClientContext) {
    && |c.indices| == MaxSessionsPerClient && 0 <= c.activeCount <= MaxSessionsPerClient
    && c.allocatedFl < 0x1_0000_0000 && c.allocatedRl < 0x1_0000_0000
  }

  /** The fifty contexts, each with its shape. */
  predicate ContextsValid(cs: seq<ClientContext>) {
    |cs| == MaxClients && forall j :: 0 <= j < |cs| ==> ContextValid(cs[j])
  }

  /** The table invariant: `session_count` and `client_count` count the
      occupied slots, free session slots are zeroed, every context has its
      shape, and no session holds more than eight TFT rules. */
  predicate Valid(t: Table) {
    && |t.sessions| == MaxSessions
    && t.sessionCount == InUse(t.sessions)
    && t.clientCount == ContextsInUse(t.clients)
    && ContextsValid(t.clients)
    && (forall i :: 0 <= i < |t.sessions| ==> |t.sessions[i].tfts| <= MaxTftPerSession)
    && (forall i :: 0 <= i < |t.sessions| ==> t.sessions[i].inUse || t.sessions[i] == EmptySession)
  }

  lemma {:induction false} InUseEmpty(n: nat)
    ensures InUse(seq(n, _ => EmptySession)) == 0
  {
    if n > 0 {
      assert seq(n, _ => EmptySession)[..n - 1] == seq(n - 1, _ => EmptySession);
      InUseEmpty(n - 1);
    }
  }

  lemma {:induction false} ContextsInUseEmpty(n: nat)
    ensures ContextsInUse(seq(n, _ => EmptyContext)) == 0
  {
    if n > 0 {
      assert seq(n, _ => EmptyContext)[..n - 1] == seq(n - 1, _ => EmptyContext);
      ContextsInUseEmpty(n - 1);
    }
  }

  /** `magic_session_init`: every slot zeroed, both counts 0. */
  function Initial(): (t: Table)
    ensures Valid(t)
  {
    InUseEmpty(MaxSessions);
    ContextsInUseEmpty(MaxClients);
    Table(seq(MaxSessions, _ => EmptySession), 0, seq(MaxClients, _ => EmptyContext), 0)
  }

  // ------------------------------------------------------------- lookups

  /** `magic_session_find_by_id`: the first occupied slot with that id. */
  function FindSession(ss: seq<Session>, id: string): (r: Option<nat>)
    ensures r.Some? ==> r.value < |ss| && ss[r.value].inUse && ss[r.value].sessionId == id
    ensures r.Some? ==> forall j :: 0 <= j < r.value ==> !(ss[j].inUse && ss[j].sessionId == id)
    ensures r.None? ==> forall j :: 0 <= j < |ss| ==> !(ss[j].inUse && ss[j].sessionId == id)
  {
    if |ss| == 0 then None
    else if ss[0].inUse && ss[0].sessionId == id then Some(0)
    else match FindSession(ss[1..], id)
      case None => None
      case Some(k) => Some(k + 1)
  }

  /** Whether `magic_session_find_by_client` accepts a slot: occupied, the
      client's, and neither closed nor terminating. */
  predicate LiveFor(s: Session, clientId: string) {
    s.inUse && s.clientId == clientId && s.state != Closed && s.state != Terminating
  }

  /** `magic_session_find_by_client`. */
  function FindByClient(ss: seq<Session>, clientId: string): (r: Option<nat>)
    ensures r.Some? ==> r.value < |ss| && LiveFor(ss[r.value], clientId)
    ensures r.Some? ==> forall j :: 0 <= j < r.value ==> !LiveFor(ss[j], clientId)
    ensures r.None? ==> forall j :: 0 <= j < |ss| ==> !LiveFor(ss[j], clientId)
  {
    if |ss| == 0 then None
    else if LiveFor(ss[0], clientId) then Some(0)
    else match FindByClient(ss[1..], clientId)
      case None => None
      case Some(k) => Some(k + 1)
  }

  function FirstFreeSession(ss: seq<Session>): (r: Option<nat>)
    ensures r.Some? ==> r.value < |ss| && !ss[r.value].inUse && forall j :: 0 <= j < r.value ==> ss[j].inUse
    ensures r.None? ==> forall j :: 0 <= j < |ss| ==> ss[j].inUse
  {
    if |ss| == 0 then None
    else if !ss[0].inUse then Some(0)
    else match FirstFreeSession(ss[1..])
      case None => None
      case Some(k) => Some(k + 1)
  }

  /** The client-context search shared by get-or-create, find and delete. */
  function FindContext(cs: seq<ClientContext>, id: string): (r: Option<nat>)
    ensures r.Some? ==> r.value < |cs| && cs[r.value].inUse && cs[r.value].clientId == id
    ensures r.Some? ==> forall j :: 0 <= j < r.value ==> !(cs[j].inUse && cs[j].clientId == id)
    ensures r.None? ==> forall j :: 0 <= j < |cs| ==> !(cs[j].inUse && cs[j].clientId == id)
  {
    if |cs| == 0 then None
    else if cs[0].inUse && cs[0].clientId == id then Some(0)
    else match FindContext(cs[1..], id)
      case None => None
      case Some(k) => Some(k + 1)
  }

  function FirstFreeContext(cs: seq<ClientContext>): (r: Option<nat>)
    ensures r.Some? ==> r.value < |cs| && !cs[r.value].inUse && forall j :: 0 <= j < r.value ==> cs[j].inUse
    ensures r.None? ==> forall j :: 0 <= j < |cs| ==> cs[j].inUse
  {
    if |cs| == 0 then None
    else if !cs[0].inUse then Some(0)
    else match FirstFreeContext(cs[1..])
      case None => None
      case Some(k) => Some(k + 1)
  }

  // ------------------------------------------------ per-client quota

  /** A fresh context: the id, the default limit of ten concurrent
      sessions, and every index −1. */
  function NewContext(id: string, now: int): ClientContext {
    EmptyContext.(inUse := true, clientId := Bounded(id, 63), firstSeen := now, lastActivity := now,
                  maxConcurrent := MaxSessionsPerClient, indices := seq(MaxSessionsPerClient, _ => -1))
  }

  /** `magic_client_context_get_or_create`: the existing context, else the
      first free one; `None` when all fifty are taken. */
  function GetOrCreateContext(t: Table, id: string, now: int): (r: (Option<nat>, Table))
    ensures r.1.sessions == t.sessions && r.1.sessionCount == t.sessionCount
    ensures r.0.Some? ==> r.0.value < |r.1.clients| && r.1.clients[r.0.value].inUse
    ensures ContextsValid(t.clients) ==> ContextsValid(r.1.clients)
  {
    match FindContext(t.clients, id)
    case Some(j) => (Some(j), t)
    case None =>
      match FirstFreeContext(t.clients)
      case None => (None, t)
      case Some(k) => (Some(k), t.(clients := t.clients[k := NewContext(id, now)], clientCount := t.clientCount + 1))
  }

  /** `magic_client_context_set_quota`. */
  function SetQuota(c: ClientContext, maxFl: nat, maxRl: nat, guarFl: nat, guarRl: nat): ClientContext {
    c.(maxFl := maxFl, maxRl := maxRl, guaranteedFl := guarFl, guaranteedRl := guarRl)
  }

  /** The headroom `max − allocated`, or 0 when the allocation has reached
      the maximum. */
  function Headroom(limit: nat, used: nat): nat {
    if limit > used then limit - used else 0
  }

  /** `magic_client_can_allocate_bandwidth`: with both maxima 0 the request
      is granted whole; otherwise a headroom below the guaranteed rate in
      either direction refuses with zero grants, and each grant is the
      request capped at the headroom. */
  function CanAllocate(c: ClientContext, reqFl: nat, reqRl: nat): (r: (int, nat, nat))
    ensures r.0 == 0 || r.0 == -1
    ensures r.0 == -1 <==>
              !(c.maxFl == 0 && c.maxRl == 0)
              && (Headroom(c.maxFl, c.allocatedFl) < c.guaranteedFl || Headroom(c.maxRl, c.allocatedRl) < c.guaranteedRl)
    ensures r.0 == -1 ==> r.1 == 0 && r.2 == 0
    ensures r.0 == 0 ==> r.1 <= reqFl && r.2 <= reqRl
    ensures r.0 == 0 && !(c.maxFl == 0 && c.maxRl == 0) ==>
              r.1 <= Headroom(c.maxFl, c.allocatedFl) && r.2 <= Headroom(c.maxRl, c.allocatedRl)
              && (r.1 == reqFl || r.1 == Headroom(c.maxFl, c.allocatedFl))
              && (r.2 == reqRl || r.2 == Headroom(c.maxRl, c.allocatedRl))
  {
    if c.maxFl == 0 && c.maxRl == 0 then (0, reqFl, reqRl)
    else
      var availFl := Headroom(c.maxFl, c.allocatedFl);
      var availRl := Headroom(c.maxRl, c.allocatedRl);
      if availFl < c.guaranteedFl || availRl < c.guaranteedRl then (-1, 0, 0)
      else (0, if reqFl < availFl then reqFl else availFl, if reqRl < availRl then reqRl else availRl)
  }

  /** One direction of `magic_client_update_allocated_bandwidth`: a
      non-negative delta is added modulo 2^32, a negative one subtracted
      with a floor of 0. */
  function ApplyDelta(total: nat, delta: int): (r: nat)
    ensures delta < 0 ==> r <= total
    ensures total < 0x1_0000_0000 ==> r < 0x1_0000_0000
    ensures delta == 0 && total < 0x1_0000_0000 ==> r == total
    ensures delta < 0 && total >= CastU32(-delta) ==> r == total - CastU32(-delta)
    ensures delta < 0 && total < CastU32(-delta) ==> r == 0
  {
    if delta >= 0 then CastU32(total + CastU32(delta))
    else
      var dec := CastU32(-delta);
      if total >= dec then total - dec else 0
  }

  /** `magic_client_update_allocated_bandwidth`. */
  function UpdateAllocated(c: ClientContext, dFl: int, dRl: int, now: int): ClientContext {
    c.(allocatedFl := ApplyDelta(c.allocatedFl, dFl), allocatedRl := ApplyDelta(c.allocatedRl, dRl), lastActivity := now)
  }

  /** Granting a rate and then returning it restores the allocation, as
      long as the sum stays within 32 bits. */
  lemma ReturnRestoresAllocation(total: nat, g: nat)
    requires total + g < 0x1_0000_0000 && g < 0x8000_0000
    ensures ApplyDelta(ApplyDelta(total, g), -(g as int)) == total
  {
  }

  /** A refund larger than the allocation leaves 0, never a wrapped value. */
  lemma RefundSaturates(total: nat, g: nat)
    requires 0 < g < 0x8000_0000 && total < g
    ensures ApplyDelta(total, -(g as int)) == 0
  {
  }

  /** Recording a grant `can_allocate_bandwidth` allowed keeps each
      direction's allocation within its maximum, or where it already was
      when the maximum had been reached. */
  lemma GrantStaysWithinQuota(c: ClientContext, reqFl: nat, reqRl: nat, now: int)
    requires c.allocatedFl < 0x1_0000_0000 && c.allocatedRl < 0x1_0000_0000
    requires c.maxFl < 0x1_0000_0000 && c.maxRl < 0x1_0000_0000
    requires !(c.maxFl == 0 && c.maxRl == 0)
    ensures var (rc, gFl, gRl) := CanAllocate(c, reqFl, reqRl);
      var c1 := UpdateAllocated(c, gFl, gRl, now);
      rc == 0 ==>
        && c1.allocatedFl <= (if c.maxFl > c.allocatedFl then c.maxFl else c.allocatedFl)
        && c1.allocatedRl <= (if c.maxRl > c.allocatedRl then c.maxRl else c.allocatedRl)
  {
  }

  /** `magic_client_can_create_session`: no limit when the maximum is 0,
      otherwise fewer live sessions than the maximum (compared as `int`). */
  predicate CanCreate(c: ClientContext) {
    c.maxConcurrent == 0 || c.activeCount < CastI32(c.maxConcurrent)
  }

  /** Whether `idx` is among the live indices. */
  function FirstIndex(xs: seq<int>, x: int): (r: Option<nat>)
    ensures r.Some? ==> r.value < |xs| && xs[r.value] == x && forall j :: 0 <= j < r.value ==> xs[j] != x
    ensures r.None? ==> forall j :: 0 <= j < |xs| ==> xs[j] != x
  {
    if |xs| == 0 then None
    else if xs[0] == x then Some(0)
    else match FirstIndex(xs[1..], x)
      case None => None
      case Some(k) => Some(k + 1)
  }

  /** The live part of the index list. */
  function Live(c: ClientContext): seq<int>
    requires ContextValid(c)
  {
    c.indices[..c.activeCount]
  }

  /** `magic_client_add_session`: −1 for an index outside the table, at the
      concurrency limit or with the list full; 0 without change for an
      index already listed; otherwise the index is appended. */
  function AddSession(c: ClientContext, idx: int, now: int): (r: (int, ClientContext))
    requires ContextValid(c)
    ensures ContextValid(r.1)
    ensures r.0 == -1 ==> r.1 == c
  {
    if idx < 0 || idx >= MaxSessions then (-1, c)
    else if !CanCreate(c) then (-1, c)
    else if FirstIndex(Live(c), idx).Some? then (0, c)
    else if c.activeCount < MaxSessionsPerClient then
      (0, c.(indices := c.indices[c.activeCount := idx], activeCount := c.activeCount + 1,
             totalCreated := c.totalCreated + 1, lastActivity := now))
    else (-1, c)
  }

  /** `magic_client_remove_session`: the later indices move down one
      place, the vacated last place becomes −1; −1 when not listed. */
  function RemoveSession(c: ClientContext, idx: int, now: int): (r: (int, ClientContext))
    requires ContextValid(c)
    ensures ContextValid(r.1)
  {
    if idx < 0 then (-1, c)
    else match FirstIndex(Live(c), idx)
      case None => (-1, c)
      case Some(i) =>
        (0, c.(indices := c.indices[..i] + c.indices[i + 1..c.activeCount] + [-1] + c.indices[c.activeCount..],
               activeCount := c.activeCount - 1, lastActivity := now))
  }

  /** Removing an index keeps the other live indices in their order, and
      the place freed at the end holds −1. */
  lemma RemoveSessionKeepsOrder(c: ClientContext, idx: int, now: int)
    requires ContextValid(c) && idx >= 0
    ensures var (rc, c1) := RemoveSession(c, idx, now);
      && (rc == 0 <==> idx in Live(c))
      && (rc == 0 ==> exists i :: 0 <= i < |Live(c)| && Live(c)[i] == idx
                               && Live(c1) == Live(c)[..i] + Live(c)[i + 1..]
                               && c1.indices[c1.activeCount] == -1)
      && (rc == -1 ==> c1 == c)
  {
    var (rc, c1) := RemoveSession(c, idx, now);
    match FirstIndex(Live(c), idx)
    case None =>
    case Some(i) =>
      assert Live(c1) == Live(c)[..i] + Live(c)[i + 1..];
      assert c1.indices[c1.activeCount] == -1;
  }

  /** Adding a new index and removing it again gives back the same live
      list. */
  lemma AddThenRemove(c: ClientContext, idx: int, now: int, later: int)
    requires ContextValid(c) && 0 <= idx < MaxSessions && idx !in Live(c)
    requires CanCreate(c) && c.activeCount < MaxSessionsPerClient
    ensures var (rc, c1) := AddSession(c, idx, now);
      && rc == 0 && Live(c1) == Live(c) + [idx]
      && RemoveSession(c1, idx, later).0 == 0
      && Live(RemoveSession(c1, idx, later).1) == Live(c)
  {
    var (rc, c1) := AddSession(c, idx, now);
    assert FirstIndex(Live(c), idx).None?;
    assert Live(c1) == Live(c) + [idx];
    var n := |Live(c)|;
    assert FirstIndex(Live(c1), idx) == Some(n) by {
      assert Live(c1)[n] == idx;
    }
    var c2 := RemoveSession(c1, idx, later).1;
    assert Live(c2) == Live(c1)[..n];
  }

  /** A listed index is not added twice. */
  lemma AddSessionIdempotent(c: ClientContext, idx: int, now: int, later: int)
    requires ContextValid(c) && AddSession(c, idx, now).0 == 0
    ensures var c1 := AddSession(c, idx, now).1; AddSession(c1, idx, later) == (0, c1) || AddSession(c1, idx, later).0 == -1
    ensures var c1 := AddSession(c, idx, now).1; idx in Live(c1)
  {
    var c1 := AddSession(c, idx, now).1;
    if FirstIndex(Live(c), idx).Some? {
      var i := FirstIndex(Live(c), idx).value;
      assert Live(c)[i] == idx;
    } else {
      assert Live(c1)[|Live(c1)| - 1] == idx;
    }
    if CanCreate(c1) {
      var i :| 0 <= i < |Live(c1)| && Live(c1)[i] == idx;
      assert FirstIndex(Live(c1), idx).Some?;
    }
  }

  // ----------------------------------------------------- session updates

  /** `magic_session_assign_link`: ACTIVE with the link, bearer and grants.
      Moving from one link to a different one records the old link and the
      switch time; a first assignment records the switch time only. */
  function AssignLink(s: Session, link: string, bearer: nat, fl: nat, rl: nat, now: int): Session {
    var switched := s.assignedLink != "" && s.assignedLink != link;
    s.(previousLink := if switched then Bounded(s.assignedLink, 63) else s.previousLink,
       lastSwitchTime := if s.assignedLink == "" || switched then now else s.lastSwitchTime,
       assignedLink := Bounded(link, 63), bearerId := bearer, grantedFl := fl, grantedRl := rl,
       state := Active, lastActivity := now)
  }

  /** Re-assigning the same link is not a switch, and moving away and back
      leaves the intermediate link as the previous one. */
  lemma AssignLinkSwitches(s: Session, a: string, b: string, bearer: nat, fl: nat, rl: nat, t1: int, t2: int, t3: int)
    requires a != "" && b != "" && a != b && |a| <= 63 && |b| <= 63
    ensures var s1 := AssignLink(s, a, bearer, fl, rl, t1);
      && s1.state == Active && s1.assignedLink == a
      && (s.assignedLink == "" || s.assignedLink != a ==> s1.lastSwitchTime == t1)
      && (s.assignedLink == a ==> s1.lastSwitchTime == s.lastSwitchTime && s1.previousLink == s.previousLink)
      && AssignLink(s1, a, bearer, fl, rl, t2).lastSwitchTime == s1.lastSwitchTime
      && AssignLink(s1, a, bearer, fl, rl, t2).previousLink == s1.previousLink
      && AssignLink(AssignLink(s1, b, bearer, fl, rl, t2), a, bearer, fl, rl, t3).previousLink == b
      && AssignLink(AssignLink(s1, b, bearer, fl, rl, t2), a, bearer, fl, rl, t3).lastSwitchTime == t3
  {
  }

  /** Whether `magic_session_release_link` has anything to release. */
  predicate HoldsLink(s: Session) {
    s.bearerId != 0 && s.assignedLink != ""
  }

  /** `magic_session_release_link`: bearer, link and grants cleared when a
      link is held; otherwise nothing changes. The route removal it asks
      of the data plane is not part of this model. */
  function ReleaseLink(s: Session): (r: Session)
    ensures !HoldsLink(r)
  {
    if !HoldsLink(s) then s
    else s.(bearerId := 0, assignedLink := "", grantedFl := 0, grantedRl := 0)
  }

  /** Releasing twice is releasing once; a session without a link is left
      exactly as it was; the session stays in its state. */
  lemma ReleaseLinkIdempotent(s: Session)
    ensures ReleaseLink(ReleaseLink(s)) == ReleaseLink(s)
    ensures !HoldsLink(s) ==> ReleaseLink(s) == s
    ensures ReleaseLink(s).state == s.state && ReleaseLink(s).inUse == s.inUse
    ensures HoldsLink(s) ==> ReleaseLink(s).grantedFl == 0 && ReleaseLink(s).grantedRl == 0
  {
  }

  /** `magic_session_suspend`: only from ACTIVE; the grants go to 0. */
  function Suspend(s: Session, now: int): (int, Session) {
    if s.state != Active then (-1, s)
    else (0, s.(grantedFl := 0, grantedRl := 0, state := Suspended, lastActivity := now))
  }

  /** `magic_session_resume`: only from SUSPENDED, back to ACTIVE. */
  function Resume(s: Session, now: int): (int, Session) {
    if s.state != Suspended then (-1, s)
    else (0, s.(state := Active, lastActivity := now))
  }

  /** Suspend and resume are partners on the state: each refuses what the
      other produced twice, and a round trip returns to ACTIVE — but the
      grants saved at suspension are not restored, so the resumed session
      holds zero bandwidth. */
  lemma SuspendResumeRoundTrip(s: Session, t1: int, t2: int)
    requires s.state == Active
    ensures var (rc1, s1) := Suspend(s, t1);
      && rc1 == 0 && s1.state == Suspended
      && Suspend(s1, t2) == (-1, s1)
      && var (rc2, s2) := Resume(s1, t2);
         rc2 == 0 && s2.state == Active && Resume(s2, t2) == (-1, s2)
         && s2 == s.(grantedFl := 0, grantedRl := 0, lastActivity := t2)
  {
  }

  /** A state other than the one an operation needs leaves the session
      untouched. */
  lemma SuspendResumeRefuse(s: Session, now: int)
    ensures s.state != Active <==> Suspend(s, now) == (-1, s)
    ensures s.state != Suspended <==> Resume(s, now) == (-1, s)
  {
  }

  /** `magic_session_set_subscription`: the level, active when positive. */
  function SetSubscription(s: Session, level: nat): (r: Session)
    ensures r.subscriptionActive <==> level > 0
    ensures r.subscribedLevel == level
  {
    s.(subscribedLevel := level, subscriptionActive := level > 0)
  }

  /** `magic_session_add_tft`: appended and marked in use, −1 when eight
      rules are already held. */
  function AddTft(s: Session, rule: TftRule): (int, Session) {
    if |s.tfts| >= MaxTftPerSession then (-1, s)
    else (0, s.(tfts := s.tfts + [rule.(inUse := true)]))
  }

  /** Whether a rule admits a flow under `magic_session_find_tft`: protocol
      0, an empty address and a 0–0 port range are wildcards, and an absent
      address argument skips its check. */
  predicate TftMatches(r: TftRule, src: Option<string>, dst: Option<string>, proto: nat, sport: nat, dport: nat) {
    && r.inUse
    && (r.protocol == 0 || r.protocol == proto)
    && (src.None? || r.srcIp == "" || r.srcIp == src.value)
    && (dst.None? || r.dstIp == "" || r.dstIp == dst.value)
    && ((r.srcPortStart == 0 && r.srcPortEnd == 0) || r.srcPortStart <= sport <= r.srcPortEnd)
    && ((r.dstPortStart == 0 && r.dstPortEnd == 0) || r.dstPortStart <= dport <= r.dstPortEnd)
  }

  /** `magic_session_find_tft`: the first rule admitting the flow. */
  function FindTft(rules: seq<TftRule>, src: Option<string>, dst: Option<string>, proto: nat, sport: nat, dport: nat): (r: Option<nat>)
    ensures r.Some? ==> r.value < |rules| && TftMatches(rules[r.value], src, dst, proto, sport, dport)
    ensures r.Some? ==> forall j :: 0 <= j < r.value ==> !TftMatches(rules[j], src, dst, proto, sport, dport)
    ensures r.None? ==> forall j :: 0 <= j < |rules| ==> !TftMatches(rules[j], src, dst, proto, sport, dport)
  {
    if |rules| == 0 then None
    else if TftMatches(rules[0], src, dst, proto, sport, dport) then Some(0)
    else match FindTft(rules[1..], src, dst, proto, sport, dport)
      case None => None
      case Some(k) => Some(k + 1)
  }

  /** A rule added as the session's first is found for every flow it
      admits, and an all-wildcard rule admits every flow. */
  lemma AddedTftIsFound(s: Session, rule: TftRule, src: Option<string>, dst: Option<string>, proto: nat, sport: nat, dport: nat)
    requires |s.tfts| == 0
    requires TftMatches(rule.(inUse := true), src, dst, proto, sport, dport)
    ensures var (rc, s1) := AddTft(s, rule); rc == 0 && FindTft(s1.tfts, src, dst, proto, sport, dport) == Some(0)
    ensures TftMatches(TftRule(true, rule.tftId, rule.direction, 0, "", "", 0, 0, 0, 0), src, dst, proto, sport, dport)
  {
  }

  // ------------------------------------------------------ table updates

  /** The new slot `magic_session_create` writes: zeroed, then INIT with
      the ids, the realm when one is given, and the clock. */
  function NewSession(sid: string, cid: string, realm: Option<string>, now: int): Session {
    EmptySession.(inUse := true, sessionId := Bounded(sid, 127), clientId := Bounded(cid, 63),
                  clientRealm := if realm.Some? && realm.value != "" then Bounded(realm.value, 63) else "",
                  state := Init, createdAt := now, lastActivity := now)
  }

  /** Listing a slot with its client, which `create` does after taking the
      slot and whose failure it ignores. */
  function Attach(t: Table, cid: string, k: nat, now: int): (r: Table)
    requires ContextsValid(t.clients)
    ensures r.sessions == t.sessions && r.sessionCount == t.sessionCount && ContextsValid(r.clients)
  {
    var (ctx, t1) := GetOrCreateContext(t, cid, now);
    match ctx
    case None => t1
    case Some(j) => t1.(clients := t1.clients[j := AddSession(t1.clients[j], k, now).1])
  }

  /** `magic_session_create`: the first free slot; `None` for a missing id
      or a full table. Duplicate ids are not checked. */
  function Create(t: Table, sid: Option<string>, cid: Option<string>, realm: Option<string>, now: int): (r: (Option<nat>, Table))
    requires ContextsValid(t.clients)
    ensures ContextsValid(r.1.clients)
  {
    if sid.None? || cid.None? then (None, t)
    else match FirstFreeSession(t.sessions)
      case None => (None, t)
      case Some(k) =>
        var t1 := Attach(t.(sessions := t.sessions[k := NewSession(sid.value, cid.value, realm, now)]), cid.value, k, now);
        (Some(k), t1.(sessionCount := t1.sessionCount + 1))
  }

  /** What `delete` does to the client of session `s` in slot `i`: its
      grants are refunded and the slot leaves its list. */
  function Unlist(cs: seq<ClientContext>, s: Session, i: nat, now: int): (r: seq<ClientContext>)
    requires ContextsValid(cs)
    ensures ContextsValid(r) && ContextsInUse(r) == ContextsInUse(cs)
  {
    match FindContext(cs, s.clientId)
    case None => cs
    case Some(j) =>
      var c := UpdateAllocated(cs[j], -CastI32(s.grantedFl), -CastI32(s.grantedRl), now);
      ContextsInUseUpdate(cs, j, RemoveSession(c, i, now).1);
      cs[j := RemoveSession(c, i, now).1]
  }

  /** `magic_session_delete`: the session's grants go back to its client
      (saturating), its index leaves the client's list, its slot is zeroed
      and the count drops when positive; −1 when no slot has the id. */
  function Delete(t: Table, sid: Option<string>, now: int): (r: (int, Table))
    requires ContextsValid(t.clients)
    ensures ContextsValid(r.1.clients)
  {
    if sid.None? then (-1, t)
    else match FindSession(t.sessions, sid.value)
      case None => (-1, t)
      case Some(i) =>
        (0, t.(sessions := t.sessions[i := EmptySession], clients := Unlist(t.clients, t.sessions[i], i, now),
               sessionCount := if t.sessionCount > 0 then t.sessionCount - 1 else t.sessionCount))
  }

  /** Updates of one slot (assign, release, suspend, resume, TFTs). */
  function UpdateSlot(t: Table, i: nat, s: Session): Table
    requires i < |t.sessions|
  {
    t.(sessions := t.sessions[i := s])
  }

  lemma AttachValid(t: Table, cid: string, k: nat, now: int)
    requires ContextsValid(t.clients) && t.clientCount == ContextsInUse(t.clients)
    ensures Attach(t, cid, k, now).clientCount == ContextsInUse(Attach(t, cid, k, now).clients)
  {
    var (ctx, t1) := GetOrCreateContext(t, cid, now);
    if FindContext(t.clients, cid).None? && FirstFreeContext(t.clients).Some? {
      ContextsInUseUpdate(t.clients, FirstFreeContext(t.clients).value, NewContext(cid, now));
    }
    assert t1.clientCount == ContextsInUse(t1.clients);
    if ctx.Some? {
      var j := ctx.value;
      ContextsInUseUpdate(t1.clients, j, AddSession(t1.clients[j], k, now).1);
    }
  }

  /** Creation and deletion keep both counts equal to the occupied slots. */
  lemma CreateValid(t: Table, sid: Option<string>, cid: Option<string>, realm: Option<string>, now: int)
    requires Valid(t)
    ensures Valid(Create(t, sid, cid, realm, now).1)
  {
    if sid.Some? && cid.Some? && FirstFreeSession(t.sessions).Some? {
      var k := FirstFreeSession(t.sessions).value;
      var s := NewSession(sid.value, cid.value, realm, now);
      var ss := t.sessions[k := s];
      InUseUpdate(t.sessions, k, s);
      AttachValid(t.(sessions := ss), cid.value, k, now);
      CreateOk(t, sid.value, cid.value, realm, now);
      assert forall i :: 0 <= i < |ss| ==> |ss[i].tfts| <= MaxTftPerSession;
      assert forall i :: 0 <= i < |ss| ==> ss[i].inUse || ss[i] == EmptySession;
    }
  }

  /** The table `create` leaves when a slot is free. */
  lemma CreateOk(t: Table, sid: string, cid: string, realm: Option<string>, now: int)
    requires ContextsValid(t.clients) && FirstFreeSession(t.sessions).Some?
    ensures var k := FirstFreeSession(t.sessions).value;
      var a := Attach(t.(sessions := t.sessions[k := NewSession(sid, cid, realm, now)]), cid, k, now);
      && Create(t, Some(sid), Some(cid), realm, now).0 == Some(k)
      && Create(t, Some(sid), Some(cid), realm, now).1 == a.(sessionCount := a.sessionCount + 1)
      && a.sessions == t.sessions[k := NewSession(sid, cid, realm, now)]
  {
  }

  /** Placing a session with id `id` at `k`, where no earlier slot holds
      that id, makes `k` the slot the lookup finds. */
  lemma FindPlaced(ss: seq<Session>, k: nat, s: Session, id: string)
    requires k < |ss| && s.inUse && s.sessionId == id
    requires forall j :: 0 <= j < k ==> !(ss[j].inUse && ss[j].sessionId == id)
    ensures FindSession(ss[k := s], id) == Some(k)
  {
    var t := ss[k := s];
    assert t[k].inUse && t[k].sessionId == id;
    assert forall j :: 0 <= j < k ==> t[j] == ss[j];
  }

  lemma DeleteValid(t: Table, sid: Option<string>, now: int)
    requires Valid(t)
    ensures Valid(Delete(t, sid, now).1)
  {
    if sid.Some? && FindSession(t.sessions, sid.value).Some? {
      var i := FindSession(t.sessions, sid.value).value;
      InUseUpdate(t.sessions, i, EmptySession);
    }
  }

  lemma UpdateSlotValid(t: Table, i: nat, s: Session)
    requires Valid(t) && i < |t.sessions| && t.sessions[i].inUse && s.inUse && |s.tfts| <= MaxTftPerSession
    ensures Valid(UpdateSlot(t, i, s))
  {
    InUseUpdate(t.sessions, i, s);
  }

  /** What `create` does to the session slots: the first free one takes
      the new session and the count goes up by one. */
  lemma CreateSlots(t: Table, sid: string, cid: string, realm: Option<string>, now: int)
    requires Valid(t)
    ensures var (k, t1) := Create(t, Some(sid), Some(cid), realm, now);
      && k == FirstFreeSession(t.sessions)
      && (k.Some? ==> t1.sessions == t.sessions[k.value := NewSession(sid, cid, realm, now)]
                      && t1.sessionCount == t.sessionCount + 1)
      && (k.None? ==> t1 == t)
  {
  }

  /** What `delete` does to the session slots: the slot found is zeroed
      and a positive count drops by one. */
  lemma DeleteSlots(t: Table, sid: string, now: int)
    requires ContextsValid(t.clients) && FindSession(t.sessions, sid).Some?
    ensures var i := FindSession(t.sessions, sid).value;
      var (rc, t1) := Delete(t, Some(sid), now);
      && rc == 0 && t1.sessions == t.sessions[i := EmptySession]
      && t1.sessionCount == (if t.sessionCount > 0 then t.sessionCount - 1 else t.sessionCount)
  {
  }

  /** A new session is the first slot holding its id, unless an earlier
      slot already had it. */
  lemma CreateFinds(t: Table, sid: string, cid: string, now: int)
    requires Valid(t) && |sid| <= 127 && FindSession(t.sessions, sid).None?
    ensures var (k, t1) := Create(t, Some(sid), Some(cid), None, now);
      k.Some? ==> FindSession(t1.sessions, sid) == k && t1.sessions[k.value].state == Init
  {
    var (k, t1) := Create(t, Some(sid), Some(cid), None, now);
    CreateSlots(t, sid, cid, None, now);
    if k.Some? {
      FindPlaced(t.sessions, k.value, NewSession(sid, cid, None, now), sid);
    }
  }

  /** Deleting a session just created frees its slot again and restores
      the session count. */
  lemma CreateThenDelete(t: Table, sid: string, cid: string, now: int, later: int)
    requires Valid(t) && |sid| <= 127 && FindSession(t.sessions, sid).None?
    ensures var (k, t1) := Create(t, Some(sid), Some(cid), None, now);
      k.Some? ==>
        && Delete(t1, Some(sid), later).0 == 0
        && Delete(t1, Some(sid), later).1.sessions == t.sessions
        && Delete(t1, Some(sid), later).1.sessionCount == t.sessionCount
  {
    var (k, t1) := Create(t, Some(sid), Some(cid), None, now);
    CreateSlots(t, sid, cid, None, now);
    CreateFinds(t, sid, cid, now);
    if k.Some? {
      DeleteRestores(t, t1, k.value, sid, later);
    }
  }

  lemma DeleteRestores(t: Table, t1: Table, i: nat, sid: string, later: int)
    requires Valid(t) && i < |t.sessions| && !t.sessions[i].inUse
    requires ContextsValid(t1.clients) && FindSession(t1.sessions, sid) == Some(i)
    requires t1.sessions == t.sessions[i := t1.sessions[i]] && t1.sessionCount == t.sessionCount + 1
    ensures Delete(t1, Some(sid), later).0 == 0
    ensures Delete(t1, Some(sid), later).1.sessions == t.sessions
    ensures Delete(t1, Some(sid), later).1.sessionCount == t.sessionCount
  {
    DeleteSlots(t1, sid, later);
    assert t.sessions[i] == EmptySession;
    assert t1.sessions[i := EmptySession] == t.sessions;
  }

  /** The refund `delete` makes to the session's client: each grant comes
      off the allocation, which stops at 0. */
  lemma UnlistRefunds(cs: seq<ClientContext>, s: Session, i: nat, now: int)
    requires ContextsValid(cs) && FindContext(cs, s.clientId).Some?
    requires s.grantedFl < 0x8000_0000 && s.grantedRl < 0x8000_0000
    ensures var j := FindContext(cs, s.clientId).value;
      && Unlist(cs, s, i, now)[j].allocatedFl == (if cs[j].allocatedFl >= s.grantedFl then cs[j].allocatedFl - s.grantedFl else 0)
      && Unlist(cs, s, i, now)[j].allocatedRl == (if cs[j].allocatedRl >= s.grantedRl then cs[j].allocatedRl - s.grantedRl else 0)
  {
    var j := FindContext(cs, s.clientId).value;
    assert CastI32(s.grantedFl) == s.grantedFl && CastU32(s.grantedFl) == s.grantedFl;
    assert CastI32(s.grantedRl) == s.grantedRl && CastU32(s.grantedRl) == s.grantedRl;
    var c := UpdateAllocated(cs[j], -CastI32(s.grantedFl), -CastI32(s.grantedRl), now);
    assert ContextValid(cs[j]);
    assert RemoveSession(c, i, now).1.allocatedFl == c.allocatedFl;
    assert RemoveSession(c, i, now).1.allocatedRl == c.allocatedRl;
  }

  /** Deleting a session refunds its grants to its client, never below 0,
      and lowers the count by one. */
  lemma DeleteRefunds(t: Table, sid: string, now: int)
    requires Valid(t) && FindSession(t.sessions, sid).Some?
    requires var s := t.sessions[FindSession(t.sessions, sid).value];
      s.grantedFl < 0x8000_0000 && s.grantedRl < 0x8000_0000 && FindContext(t.clients, s.clientId).Some?
    ensures var i := FindSession(t.sessions, sid).value;
      var s := t.sessions[i];
      var j := FindContext(t.clients, s.clientId).value;
      var (rc, t1) := Delete(t, Some(sid), now);
      && rc == 0
      && t1.clients[j].allocatedFl == (if t.clients[j].allocatedFl >= s.grantedFl then t.clients[j].allocatedFl - s.grantedFl else 0)
      && t1.clients[j].allocatedRl == (if t.clients[j].allocatedRl >= s.grantedRl then t.clients[j].allocatedRl - s.grantedRl else 0)
      && t1.sessionCount == t.sessionCount - 1
  {
    var i := FindSession(t.sessions, sid).value;
    InUseUpdate(t.sessions, i, EmptySession);
    UnlistRefunds(t.clients, t.sessions[i], i, now);
  }

  // ------------------------------------------------------ timeout sweep

  /** Whether `magic_session_cleanup_timeout` sweeps a slot: occupied and
      idle for longer than the timeout. */
  predicate TimedOut(s: Session, timeout: nat, now: int) {
    s.inUse && now - s.lastActivity > timeout
  }

  function SweepOne(s: Session, timeout: nat, now: int): Session {
    if TimedOut(s, timeout, now) then EmptySession else s
  }

  function Swept(ss: seq<Session>, timeout: nat, now: int): (r: seq<Session>)
    ensures |r| == |ss|
  {
    seq(|ss|, i requires 0 <= i < |ss| => SweepOne(ss[i], timeout, now))
  }

  function CountTimedOut(ss: seq<Session>, timeout: nat, now: int): nat {
    if |ss| == 0 then 0
    else CountTimedOut(ss[..|ss| - 1], timeout, now) + (if TimedOut(ss[|ss| - 1], timeout, now) then 1 else 0)
  }

  /** The sweep empties exactly the timed-out slots. */
  lemma {:induction false} InUseSwept(ss: seq<Session>, timeout: nat, now: int)
    ensures InUse(Swept(ss, timeout, now)) + CountTimedOut(ss, timeout, now) == InUse(ss)
    decreases |ss|
  {
    if |ss| > 0 {
      var n := |ss| - 1;
      assert Swept(ss, timeout, now)[..n] == Swept(ss[..n], timeout, now);
      InUseSwept(ss[..n], timeout, now);
    }
  }

  /** `magic_session_cleanup_timeout` as written: the timed-out slots are
      zeroed and counted, and `session_count` is left as it was. */
  function CleanupTimeout(t: Table, timeout: nat, now: int): (int, Table) {
    (CountTimedOut(t.sessions, timeout, now), t.(sessions := Swept(t.sessions, timeout, now)))
  }

  lemma {:induction false} CountTimedOutPositive(ss: seq<Session>, k: nat, timeout: nat, now: int)
    requires k < |ss| && TimedOut(ss[k], timeout, now)
    ensures CountTimedOut(ss, timeout, now) > 0
    decreases |ss|
  {
    if k < |ss| - 1 {
      assert ss[..|ss| - 1][k] == ss[k];
      CountTimedOutPositive(ss[..|ss| - 1], k, timeout, now);
    }
  }

  /** The sweep as written breaks the count invariant whenever it frees a
      slot: one session idle for longer than the timeout is enough to leave
      `session_count` above the occupied slots by the number swept, and
      nothing brings it back down. */
  lemma CleanupTimeoutLeavesCount(t: Table, k: nat, timeout: nat, now: int)
    requires Valid(t) && k < |t.sessions| && TimedOut(t.sessions[k], timeout, now)
    ensures var (n, t1) := CleanupTimeout(t, timeout, now);
      n > 0 && t1.sessionCount == InUse(t1.sessions) + n && !Valid(t1)
  {
    InUseSwept(t.sessions, timeout, now);
    CountTimedOutPositive(t.sessions, k, timeout, now);
  }

  /** The sweep as intended: `session_count` drops by the number swept. */
  function CleanupTimeoutCounted(t: Table, timeout: nat, now: int): (int, Table) {
    var n := CountTimedOut(t.sessions, timeout, now);
    (n, t.(sessions := Swept(t.sessions, timeout, now), sessionCount := t.sessionCount - n))
  }

  /** With the decrement the sweep keeps the table invariant. */
  lemma CleanupTimeoutCountedValid(t: Table, timeout: nat, now: int)
    requires Valid(t)
    ensures Valid(CleanupTimeoutCounted(t, timeout, now).1)
    ensures var (n, t1) := CleanupTimeoutCounted(t, timeout, now);
      forall i :: 0 <= i < |t1.sessions| ==> !TimedOut(t1.sessions[i], timeout, now)
  {
    InUseSwept(t.sessions, timeout, now);
  }

  // ---------------------------------------------------------- the object

  /** `SessionManager`: the two slot arrays and their counts. */
  class SessionManager {
    const sessions: array<Session>
    const clients: array<ClientContext>
    var sessionCount: int
    var clientCount: int

    function State(): Table
      reads this, sessions, clients
    {
      Table(sessions[..], sessionCount, clients[..], clientCount)
    }

    /** `magic_session_init`. */
    constructor ()
      ensures State() == Initial() && fresh(sessions) && fresh(clients)
    {
      sessions := new Session[MaxSessions](_ => EmptySession);
      clients := new ClientContext[MaxClients](_ => EmptyContext);
      sessionCount := 0;
      clientCount := 0;
      new;
      assert sessions[..] == seq(MaxSessions, _ => EmptySession);
      assert forall j :: 0 <= j < clients.Length ==> clients[j] == EmptyContext;
      assert |clients[..]| == |seq(MaxClients, _ => EmptyContext)|;
      assert clients[..] == seq(MaxClients, _ => EmptyContext);
      assert State() == Table(seq(MaxSessions, _ => EmptySession), 0, seq(MaxClients, _ => EmptyContext), 0);
    }

    /** `magic_session_find_by_id`. */
    method FindById(id: string) returns (r: Option<nat>)
      ensures r == FindSession(sessions[..], id)
    {
      var i := 0;
      while i < sessions.Length
        invariant i <= sessions.Length
        invariant forall j :: 0 <= j < i ==> !(sessions[j].inUse && sessions[j].sessionId == id)
      {
        if sessions[i].inUse && sessions[i].sessionId == id {
          return Some(i);
        }
        i := i + 1;
      }
      return None;
    }

    method FindClientContext(id: string) returns (r: Option<nat>)
      ensures r == FindContext(clients[..], id)
    {
      var i := 0;
      while i < clients.Length
        invariant i <= clients.Length
        invariant forall j :: 0 <= j < i ==> !(clients[j].inUse && clients[j].clientId == id)
      {
        if clients[i].inUse && clients[i].clientId == id {
          return Some(i);
        }
        i := i + 1;
      }
      return None;
    }

    /** `magic_client_context_get_or_create`. */
    method ContextFor(id: string, now: int) returns (r: Option<nat>)
      modifies this, clients
      ensures (r, State()) == GetOrCreateContext(old(State()), id, now)
      ensures unchanged(sessions)
    {
      r := FindClientContext(id);
      if r.Some? {
        return;
      }
      var i := 0;
      while i < clients.Length && clients[i].inUse
        invariant i <= clients.Length
        invariant forall j :: 0 <= j < i ==> clients[j].inUse
      {
        i := i + 1;
      }
      if i == clients.Length {
        return None;
      }
      clients[i] := NewContext(id, now);
      clientCount := clientCount + 1;
      r := Some(i);
    }

    /** `magic_client_add_session` on context `j`. */
    method AddSessionIndex(j: nat, idx: int, now: int) returns (rc: int)
      requires j < clients.Length && ContextValid(clients[j])
      modifies clients
      ensures (rc, clients[j]) == AddSession(old(clients[j]), idx, now)
      ensures forall k :: 0 <= k < clients.Length && k != j ==> clients[k] == old(clients[k])
    {
      var c := clients[j];
      if idx < 0 || idx >= MaxSessions {
        return -1;
      }
      if !(c.maxConcurrent == 0 || c.activeCount < CastI32(c.maxConcurrent)) {
        return -1;
      }
      var i := 0;
      while i < c.activeCount
        invariant 0 <= i <= c.activeCount
        invariant forall k :: 0 <= k < i ==> c.indices[k] != idx
      {
        if c.indices[i] == idx {
          assert FirstIndex(Live(c), idx).Some? by { assert Live(c)[i] == idx; }
          return 0;
        }
        i := i + 1;
      }
      assert FirstIndex(Live(c), idx).None?;
      if c.activeCount < MaxSessionsPerClient {
        clients[j] := c.(indices := c.indices[c.activeCount := idx], activeCount := c.activeCount + 1,
                         totalCreated := c.totalCreated + 1, lastActivity := now);
        return 0;
      }
      return -1;
    }

    /** The shift of `magic_client_remove_session`: the entries after
      place `i` move down one place and the last live place becomes −1. */
    static method ShiftOut(xs: seq<int>, i: nat, n: nat) returns (ids: seq<int>)
      requires i < n <= |xs|
      ensures ids == xs[..i] + xs[i + 1..n] + [-1] + xs[n..]
    {
      ids := xs;
      var m := i;
      while m < n - 1
        invariant i <= m <= n - 1
        invariant |ids| == |xs|
        invariant forall k :: 0 <= k < i ==> ids[k] == xs[k]
        invariant forall k :: i <= k < m ==> ids[k] == xs[k + 1]
        invariant forall k :: m <= k < |ids| ==> ids[k] == xs[k]
      {
        ids := ids[m := ids[m + 1]];
        m := m + 1;
      }
      ids := ids[n - 1 := -1];
    }

    /** `magic_client_remove_session` on context `j`: the later indices are
      moved down one place at a time. */
    method RemoveSessionIndex(j: nat, idx: int, now: int) returns (rc: int)
      requires j < clients.Length && ContextValid(clients[j])
      modifies clients
      ensures (rc, clients[j]) == RemoveSession(old(clients[j]), idx, now)
      ensures forall k :: 0 <= k < clients.Length && k != j ==> clients[k] == old(clients[k])
    {
      var c := clients[j];
      if idx < 0 {
        return -1;
      }
      var i := 0;
      while i < c.activeCount && c.indices[i] != idx
        invariant 0 <= i <= c.activeCount
        invariant forall k :: 0 <= k < i ==> c.indices[k] != idx
      {
        i := i + 1;
      }
      if i == c.activeCount {
        assert FirstIndex(Live(c), idx).None?;
        return -1;
      }
      assert FirstIndex(Live(c), idx) == Some(i) by {
        assert Live(c)[i] == idx;
        assert forall k :: 0 <= k < i ==> Live(c)[k] != idx;
      }
      var ids := ShiftOut(c.indices, i, c.activeCount);
      clients[j] := c.(indices := ids, activeCount := c.activeCount - 1, lastActivity := now);
      rc := 0;
    }

    /** The client half of `magic_session_create`: the slot joins its
      client's list, when a context can be found or made. */
    method AttachSlot(cid: string, k: nat, now: int)
      requires ContextsValid(clients[..])
      modifies this, clients
      ensures State() == Attach(old(State()), cid, k, now)
    {
      var ctx := ContextFor(cid, now);
      if ctx.Some? {
        var _ := AddSessionIndex(ctx.value, k, now);
        assert clients[..] == old(State()).clients[..][ctx.value := clients[ctx.value]];
      }
    }

    /** The client half of `magic_session_delete`. */
    method UnlistSlot(s: Session, i: nat, now: int)
      requires ContextsValid(clients[..])
      modifies clients
      ensures clients[..] == Unlist(old(clients[..]), s, i, now)
    {
      var ctx := FindClientContext(s.clientId);
      if ctx.Some? {
        var j := ctx.value;
        clients[j] := UpdateAllocated(clients[j], -CastI32(s.grantedFl), -CastI32(s.grantedRl), now);
        var _ := RemoveSessionIndex(j, i, now);
      }
    }

    /** The free-slot scan of `magic_session_create`. */
    method FreeSlot() returns (r: Option<nat>)
      ensures r == FirstFreeSession(sessions[..])
    {
      var k := 0;
      while k < sessions.Length && sessions[k].inUse
        invariant k <= sessions.Length
        invariant forall j :: 0 <= j < k ==> sessions[j].inUse
      {
        k := k + 1;
      }
      if k == sessions.Length {
        return None;
      }
      return Some(k);
    }

    /** `magic_session_create`. */
    method CreateSession(sid: Option<string>, cid: Option<string>, realm: Option<string>, now: int) returns (r: Option<nat>)
      requires Valid(State())
      modifies this, sessions, clients
      ensures (r, State()) == Create(old(State()), sid, cid, realm, now)
      ensures Valid(State())
    {
      if sid.None? || cid.None? {
        return None;
      }
      var free := FreeSlot();
      if free.None? {
        return None;
      }
      var k := free.value;
      ghost var t0 := State();
      CreateValid(t0, sid, cid, realm, now);
      CreateOk(t0, sid.value, cid.value, realm, now);
      sessions[k] := NewSession(sid.value, cid.value, realm, now);
      assert State() == t0.(sessions := t0.sessions[k := NewSession(sid.value, cid.value, realm, now)]);
      AttachSlot(cid.value, k, now);
      sessionCount := sessionCount + 1;
      r := Some(k);
    }

    /** `magic_session_delete`. */
    method DeleteSession(sid: Option<string>, now: int) returns (rc: int)
      requires Valid(State())
      modifies this, sessions, clients
      ensures (rc, State()) == Delete(old(State()), sid, now)
      ensures Valid(State())
    {
      DeleteValid(State(), sid, now);
      if sid.None? {
        return -1;
      }
      var i := FindById(sid.value);
      if i.None? {
        return -1;
      }
      UnlistSlot(sessions[i.value], i.value, now);
      sessions[i.value] := EmptySession;
      if sessionCount > 0 {
        sessionCount := sessionCount - 1;
      }
      rc := 0;
    }

    /** `magic_session_assign_link` on slot `i`. */
    method AssignSessionLink(i: nat, link: string, bearer: nat, fl: nat, rl: nat, now: int)
      requires i < sessions.Length
      modifies sessions
      ensures sessions[..] == old(sessions[..])[i := AssignLink(old(sessions[i]), link, bearer, fl, rl, now)]
    {
      var s := sessions[i];
      var previous := s.previousLink;
      var switchTime := s.lastSwitchTime;
      if s.assignedLink != "" && s.assignedLink != link {
        previous := Bounded(s.assignedLink, 63);
        switchTime := now;
      } else if s.assignedLink == "" {
        switchTime := now;
      }
      sessions[i] := s.(previousLink := previous, lastSwitchTime := switchTime, assignedLink := Bounded(link, 63),
                        bearerId := bearer, grantedFl := fl, grantedRl := rl, state := Active, lastActivity := now);
    }

    /** `magic_session_release_link` on slot `i`. */
    method ReleaseSessionLink(i: nat)
      requires i < sessions.Length
      modifies sessions
      ensures sessions[..] == old(sessions[..])[i := ReleaseLink(old(sessions[i]))]
    {
      var s := sessions[i];
      if s.bearerId == 0 || s.assignedLink == "" {
        assert sessions[..] == old(sessions[..])[i := s];
        return;
      }
      sessions[i] := s.(bearerId := 0, assignedLink := "", grantedFl := 0, grantedRl := 0);
    }

    /** `magic_session_suspend` on slot `i`. */
    method SuspendSession(i: nat, now: int) returns (rc: int)
      requires i < sessions.Length
      modifies sessions
      ensures var (rc', s') := Suspend(old(sessions[i]), now);
        rc == rc' && sessions[..] == old(sessions[..])[i := s']
    {
      var s := sessions[i];
      if s.state != Active {
        assert sessions[..] == old(sessions[..])[i := s];
        return -1;
      }
      sessions[i] := s.(grantedFl := 0, grantedRl := 0, state := Suspended, lastActivity := now);
      rc := 0;
    }

    /** `magic_session_resume` on slot `i`. */
    method ResumeSession(i: nat, now: int) returns (rc: int)
      requires i < sessions.Length
      modifies sessions
      ensures var (rc', s') := Resume(old(sessions[i]), now);
        rc == rc' && sessions[..] == old(sessions[..])[i := s']
    {
      var s := sessions[i];
      if s.state != Suspended {
        assert sessions[..] == old(sessions[..])[i := s];
        return -1;
      }
      sessions[i] := s.(state := Active, lastActivity := now);
      rc := 0;
    }

    /** `magic_session_add_tft` on slot `i`. */
    method AddSessionTft(i: nat, rule: TftRule) returns (rc: int)
      requires i < sessions.Length
      modifies sessions
      ensures var (rc', s') := AddTft(old(sessions[i]), rule);
        rc == rc' && sessions[..] == old(sessions[..])[i := s']
    {
      var s := sessions[i];
      if |s.tfts| >= MaxTftPerSession {
        assert sessions[..] == old(sessions[..])[i := s];
        return -1;
      }
      sessions[i] := s.(tfts := s.tfts + [rule.(inUse := true)]);
      rc := 0;
    }

    /** `magic_session_find_tft` on slot `i`. */
    method FindSessionTft(i: nat, src: Option<string>, dst: Option<string>, proto: nat, sport: nat, dport: nat)
      returns (r: Option<nat>)
      requires i < sessions.Length
      ensures r == FindTft(sessions[i].tfts, src, dst, proto, sport, dport)
    {
      var rules := sessions[i].tfts;
      var k := 0;
      while k < |rules|
        invariant k <= |rules|
        invariant forall j :: 0 <= j < k ==> !TftMatches(rules[j], src, dst, proto, sport, dport)
      {
        if TftMatches(rules[k], src, dst, proto, sport, dport) {
          return Some(k);
        }
        k := k + 1;
      }
      return None;
    }

    /** `magic_session_cleanup_timeout`, as written: `session_count` is not
      touched. */
    method CleanupTimeoutSweep(timeout: nat, now: int) returns (cleaned: int)
      modifies sessions
      ensures (cleaned, State()) == CleanupTimeout(old(State()), timeout, now)
    {
      cleaned := 0;
      var i := 0;
      while i < sessions.Length
        modifies sessions
        invariant i <= sessions.Length
        invariant cleaned == CountTimedOut(old(sessions[..])[..i], timeout, now)
        invariant forall j :: 0 <= j < i ==> sessions[j] == SweepOne(old(sessions[j]), timeout, now)
        invariant forall j :: i <= j < sessions.Length ==> sessions[j] == old(sessions[j])
      {
        assert old(sessions[..])[..i + 1][..i] == old(sessions[..])[..i];
        if sessions[i].inUse && now - sessions[i].lastActivity > timeout {
          sessions[i] := EmptySession;
          cleaned := cleaned + 1;
        }
        i := i + 1;
      }
      assert old(sessions[..])[..i] == old(sessions[..]);
      assert sessions[..] == Swept(old(sessions[..]), timeout, now);
    }
  }
}
