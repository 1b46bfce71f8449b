/** The server's link-management interface towards the DLMs: each
    registered DLM client's bearer slots, the MIH Link_Resource decision
    table (IEEE 802.21) in its three entry points, DLM registration, the
    link-parameter copy, the event-callback table and the heartbeat
    timeout sweep.

    Sockets, threads and mutexes are left out; the clock is a parameter and
    an invoked callback is recorded as an `Invocation`. */
module MagicLmi {
  import opened Wrappers
  import opened Text
  import opened MihProtocol
  import opened MagicConfig

  const MaxDlmClients: nat := 10
  const MaxBearers: nat := 8
  const MaxEventCallbacks: nat := 16
  const HeartbeatTimeoutSec: int := 30

  const ZeroQos := QosParam(0, 0, 0, 0.0)

  // ---------------------------------------------------------- the records

  /** `BearerState`. */
  datatype BearerState = BearerState(active: bool, id: nat, qos: QosParam, created: int, txBytes: nat, rxBytes: nat)

  /** A bearer slot after `memset(…, 0, …)`. */
  const ClearedBearer := BearerState(false, 0, ZeroQos, 0, 0, 0)

  /** The standard `LINK_PARAMETERS` fields the copy reads. */
  datatype LinkParameters = LinkParameters(
    availableKbps: nat, rxKbps: nat, latencyMs: nat, signalDbm: int,
    ip: nat, netmask: nat, linkState: nat, quality: nat)

  /** `mih_link_parameters_t`. */
  datatype LinkParams = LinkParams(
    currentKbps: nat, latencyMs: nat, signalDbm: int, ip: nat, netmask: nat, linkState: nat, quality: nat)

  const ZeroParams := LinkParams(0, 0, 0, 0, 0, 0, 0)
  const ZeroParameters := LinkParameters(0, 0, 0, 0, 0, 0, 0, 0)

  /** The parts of a `DlmClient` slot the modelled operations touch. */
  datatype DlmClient = DlmClient(
    registered: bool, fd: int, linkId: string, lastHeartbeat: int, lastSeen: int, dlmPid: int,
    bearers: seq<BearerState>, numActive: nat, params: LinkParams, current: LinkParameters)

  const EmptyClient := DlmClient(false, 0, "", 0, 0, 0, seq(MaxBearers, _ => ClearedBearer), 0, ZeroParams, ZeroParameters)

  /** A client slot always has its eight bearer slots. */
  predicate Shaped(c: DlmClient) {
    |c.bearers| == MaxBearers
  }

  /** The number of active bearer slots. */
  function ActiveCount(bs: seq<BearerState>): (n: nat)
    ensures n <= |bs|
  {
    if |bs| == 0 then 0 else (if bs[0].active then 1 else 0) + ActiveCount(bs[1..])
  }

  /** The bearer table's own invariant: the counter counts the active
      slots, an active slot `i` carries id `i + 1` and a free slot is
      cleared. */
  predicate Tidy(c: DlmClient) {
    Shaped(c)
    && c.numActive == ActiveCount(c.bearers)
    && forall i :: 0 <= i < |c.bearers| ==>
         if c.bearers[i].active then c.bearers[i].id == i + 1 else c.bearers[i] == ClearedBearer
  }

  /** Replacing one slot changes the count by the difference of the two
      activity bits. */
  lemma {:induction false} ActiveCountUpdate(bs: seq<BearerState>, k: nat, b: BearerState)
    requires k < |bs|
    ensures ActiveCount(bs[k := b]) + (if bs[k].active then 1 else 0) == ActiveCount(bs) + (if b.active then 1 else 0)
  {
    if k == 0 {
      assert bs[k := b][1..] == bs[1..];
    } else {
      assert bs[k := b][1..] == bs[1..][k - 1 := b];
      ActiveCountUpdate(bs[1..], k - 1, b);
    }
  }

  lemma {:induction false} ActiveCountAll(bs: seq<BearerState>)
    requires forall j :: 0 <= j < |bs| ==> bs[j].active
    ensures ActiveCount(bs) == |bs|
  {
    if |bs| > 0 {
      ActiveCountAll(bs[1..]);
    }
  }

  lemma {:induction false} ActiveCountSome(bs: seq<BearerState>, k: nat)
    requires k < |bs| && !bs[k].active
    ensures ActiveCount(bs) < |bs|
  {
    if k > 0 {
      ActiveCountSome(bs[1..], k - 1);
    }
  }

  lemma {:induction false} ActiveCountCleared(n: nat)
    ensures ActiveCount(seq(n, _ => ClearedBearer)) == 0
  {
    if n > 0 {
      assert seq(n, _ => ClearedBearer)[1..] == seq(n - 1, _ => ClearedBearer);
      ActiveCountCleared(n - 1);
    }
  }

  /** A fresh client slot is tidy. */
  lemma EmptyClientTidy()
    ensures Tidy(EmptyClient)
  {
    ActiveCountCleared(MaxBearers);
  }

  // ------------------------------------------------------- bearer slots

  /** The allocator's search: the first inactive slot. */
  function FirstInactive(bs: seq<BearerState>): (r: Option<nat>)
    ensures r.Some? ==> r.value < |bs| && !bs[r.value].active && forall j :: 0 <= j < r.value ==> bs[j].active
    ensures r.None? ==> forall j :: 0 <= j < |bs| ==> bs[j].active
  {
    if |bs| == 0 then None
    else if !bs[0].active then Some(0)
    else match FirstInactive(bs[1..])
      case None => None
      case Some(k) => Some(k + 1)
  }

  /** `magic_dlm_allocate_bearer`: the id handed out (0 when every slot
      is active) and the client afterwards. The uint8 counter is written
      with its wrap-around. */
  function Allocate(c: DlmClient, now: int): (int, DlmClient) {
    match FirstInactive(c.bearers)
      case None => (0, c)
      case Some(i) =>
        var b := c.bearers[i].(active := true, id := i + 1, created := now, txBytes := 0, rxBytes := 0);
        (i + 1, c.(bearers := c.bearers[i := b], numActive := (c.numActive + 1) % 256))
  }

  /** `magic_dlm_find_bearer`: the slot of an active bearer id. */
  function FindBearer(c: DlmClient, id: nat): (r: Option<nat>)
    requires Shaped(c)
    ensures r.Some? <==> 1 <= id <= MaxBearers && c.bearers[id - 1].active
    ensures r.Some? ==> r.value == id - 1
  {
    if id == 0 || id > MaxBearers then None
    else if c.bearers[id - 1].active then Some(id - 1)
    else None
  }

  /** `magic_dlm_release_bearer`. */
  function Release(c: DlmClient, id: nat): (int, DlmClient)
    requires Shaped(c)
  {
    match FindBearer(c, id)
      case None => (-1, c)
      case Some(i) => (0, c.(bearers := c.bearers[i := ClearedBearer], numActive := (c.numActive + 255) % 256))
  }

  /** The QoS parameters of slot `i` replaced. */
  function SetQos(c: DlmClient, i: nat, q: QosParam): (r: DlmClient)
    requires i < |c.bearers|
  {
    c.(bearers := c.bearers[i := c.bearers[i].(qos := q)])
  }

  /** A new bearer gets the first free slot and the id one above its
      index; the id is 0 exactly when all eight bearers are active. */
  lemma AllocateTakesFirstFree(c: DlmClient, now: int)
    requires Tidy(c)
    ensures var (id, c1) := Allocate(c, now);
      (id == 0 <==> c.numActive == MaxBearers)
      && (id == 0 ==> c1 == c)
      && (id != 0 ==> FirstInactive(c.bearers) == Some(id - 1) && Shaped(c1)
                      && FindBearer(c, id).None? && FindBearer(c1, id) == Some(id - 1)
                      && c1.numActive == c.numActive + 1)
  {
    var r := FirstInactive(c.bearers);
    if r.None? {
      ActiveCountAll(c.bearers);
    } else {
      ActiveCountSome(c.bearers, r.value);
      ActiveCountUpdate(c.bearers, r.value, Allocate(c, now).1.bearers[r.value]);
    }
  }

  /** Allocation keeps the table tidy. */
  lemma AllocateKeepsTidy(c: DlmClient, now: int)
    requires Tidy(c)
    ensures Tidy(Allocate(c, now).1)
  {
    var r := FirstInactive(c.bearers);
    if r.Some? {
      var c1 := Allocate(c, now).1;
      ActiveCountSome(c.bearers, r.value);
      ActiveCountUpdate(c.bearers, r.value, c1.bearers[r.value]);
    }
  }

  /** Release keeps the table tidy and frees the slot of the id. */
  lemma ReleaseKeepsTidy(c: DlmClient, id: nat)
    requires Tidy(c)
    ensures Tidy(Release(c, id).1)
    ensures (Release(c, id).0 == 0) == FindBearer(c, id).Some?
    ensures FindBearer(Release(c, id).1, id).None?
  {
    var r := FindBearer(c, id);
    if r.Some? {
      ActiveCountUpdate(c.bearers, r.value, ClearedBearer);
    }
  }

  /** Releasing the bearer just allocated gives back the table as it was. */
  lemma AllocateThenRelease(c: DlmClient, now: int)
    requires Tidy(c) && c.numActive < MaxBearers
    ensures var (id, c1) := Allocate(c, now);
      id != 0 && Release(c1, id) == (0, c)
  {
    AllocateTakesFirstFree(c, now);
    var (id, c1) := Allocate(c, now);
    var i := id - 1;
    assert c.bearers[i] == ClearedBearer;
    assert c1.bearers[i := ClearedBearer] == c.bearers;
  }

  /** Changing the QoS of a slot keeps the table tidy. */
  lemma SetQosKeepsTidy(c: DlmClient, i: nat, q: QosParam)
    requires Tidy(c) && i < |c.bearers| && c.bearers[i].active
    ensures Tidy(SetQos(c, i, q))
  {
    ActiveCountUpdate(c.bearers, i, c.bearers[i].(qos := q));
  }

  // ------------------------------------------- the resource decision table

  /** `MsgMihResourceReq` / `LINK_Resource_Request`: a `has_…` flag and
      its value are one `Option`. */
  datatype ResourceReq = ResourceReq(action: int, bearerId: Option<nat>, qos: Option<QosParam>)

  /** `MsgMihResourceResp`. */
  datatype ResourceResp = ResourceResp(status: int, bearerId: Option<nat>, reason: string)

  /** `LINK_Resource_Confirm` and `MIH_Link_Resource_Confirm`. */
  datatype Confirm = Confirm(status: int, bearerId: Option<nat>)

  /** `handle_mih_resource_request_internal`. */
  function HandleResource(c: DlmClient, req: ResourceReq, now: int): (ResourceResp, DlmClient)
    requires Shaped(c)
  {
    if req.action == ActionRequest then
      if req.qos.None? then (ResourceResp(StatusFailure, None, "QoS parameters required"), c)
      else if !ValidQos(req.qos) then (ResourceResp(StatusQosNotSupported, None, "Invalid QoS parameters"), c)
      else if req.bearerId.Some? then
        match FindBearer(c, req.bearerId.value)
          case None => (ResourceResp(StatusInvalidBearer, None, "Bearer not found"), c)
          case Some(i) => (ResourceResp(StatusSuccess, req.bearerId, "Resources updated"), SetQos(c, i, req.qos.value))
      else
        var (id, c1) := Allocate(c, now);
        if id == 0 then (ResourceResp(StatusInsufficientResources, None, "No free bearer slots"), c1)
        else (ResourceResp(StatusSuccess, Some(id), "Allocated bearer ID " + NatToString(id)), SetQos(c1, id - 1, req.qos.value))
    else if req.action == ActionRelease then
      if req.bearerId.None? then (ResourceResp(StatusFailure, None, "Bearer ID required"), c)
      else
        var (rc, c1) := Release(c, req.bearerId.value);
        if rc == 0 then (ResourceResp(StatusSuccess, None, "Bearer released"), c1)
        else (ResourceResp(StatusInvalidBearer, None, "Bearer not found"), c1)
    else (ResourceResp(StatusFailure, None, "Unknown action"), c)
  }

  /** `magic_dlm_link_resource_request`: the same table without the QoS
      check, and an unknown action answers 0 with the zeroed status. */
  function LinkResource(c: DlmClient, req: ResourceReq, now: int): (int, Confirm, DlmClient)
    requires Shaped(c)
  {
    if req.action == ActionRequest then
      if req.qos.None? then (-1, Confirm(StatusFailure, None), c)
      else if req.bearerId.Some? then
        match FindBearer(c, req.bearerId.value)
          case None => (-1, Confirm(StatusInvalidBearer, None), c)
          case Some(i) => (0, Confirm(StatusSuccess, req.bearerId), SetQos(c, i, req.qos.value))
      else
        var (id, c1) := Allocate(c, now);
        if id == 0 then (-1, Confirm(StatusInsufficientResources, None), c1)
        else (0, Confirm(StatusSuccess, Some(id)), SetQos(c1, id - 1, req.qos.value))
    else if req.action == ActionRelease then
      if req.bearerId.None? then (-1, Confirm(StatusFailure, None), c)
      else
        var (rc, c1) := Release(c, req.bearerId.value);
        if rc == 0 then (0, Confirm(StatusSuccess, None), c1)
        else (-1, Confirm(StatusInvalidBearer, None), c1)
    else (0, Confirm(0, None), c)
  }

  /** A request for a new bearer with valid QoS succeeds exactly when a
      slot is free, and the new bearer then carries the requested QoS. */
  lemma NewBearerOutcome(c: DlmClient, req: ResourceReq, now: int)
    requires Tidy(c) && req.action == ActionRequest && ValidQos(req.qos) && req.bearerId.None?
    ensures var (resp, c1) := HandleResource(c, req, now);
      (resp.status == StatusSuccess <==> c.numActive < MaxBearers)
      && (resp.status != StatusSuccess ==> resp.status == StatusInsufficientResources && c1 == c)
      && (resp.status == StatusSuccess ==>
            resp.bearerId.Some? && Shaped(c1) && FindBearer(c1, resp.bearerId.value) == Some(resp.bearerId.value - 1)
            && c1.bearers[resp.bearerId.value - 1].qos == req.qos.value)
  {
    AllocateTakesFirstFree(c, now);
  }

  /** A release succeeds exactly when the id names an active bearer, and
      the id names none afterwards. */
  lemma ReleaseOutcome(c: DlmClient, req: ResourceReq, now: int)
    requires Tidy(c) && req.action == ActionRelease && req.bearerId.Some?
    ensures var (resp, c1) := HandleResource(c, req, now);
      (resp.status == StatusSuccess <==> FindBearer(c, req.bearerId.value).Some?)
      && (resp.status != StatusSuccess ==> resp.status == StatusInvalidBearer && c1 == c)
      && Shaped(c1) && FindBearer(c1, req.bearerId.value).None?
  {
    ReleaseKeepsTidy(c, req.bearerId.value);
  }

  /** Every answer of the internal handler keeps the table tidy. */
  lemma HandleResourceKeepsTidy(c: DlmClient, req: ResourceReq, now: int)
    requires Tidy(c)
    ensures Tidy(HandleResource(c, req, now).1)
  {
    if req.action == ActionRequest && req.qos.Some? && ValidQos(req.qos) {
      if req.bearerId.Some? {
        var r := FindBearer(c, req.bearerId.value);
        if r.Some? {
          SetQosKeepsTidy(c, r.value, req.qos.value);
        }
      } else {
        AllocateTakesFirstFree(c, now);
        AllocateKeepsTidy(c, now);
        var (id, c1) := Allocate(c, now);
        if id != 0 {
          SetQosKeepsTidy(c1, id - 1, req.qos.value);
        }
      }
    } else if req.action == ActionRelease && req.bearerId.Some? {
      ReleaseKeepsTidy(c, req.bearerId.value);
    }
  }

  /** For a request or a release whose QoS (if any) is valid, the link-layer
      entry point gives the internal handler's status, bearer and table, and
      answers 0 exactly on success; for an unknown action the two differ. */
  lemma LinkResourceMirrorsHandler(c: DlmClient, req: ResourceReq, now: int)
    requires Shaped(c)
    requires req.action == ActionRelease || (req.action == ActionRequest && (req.qos.None? || ValidQos(req.qos)))
    ensures var (rc, conf, c1) := LinkResource(c, req, now);
      var (resp, c2) := HandleResource(c, req, now);
      conf == Confirm(resp.status, resp.bearerId) && c1 == c2 && (rc == 0 <==> conf.status == StatusSuccess)
  {
  }

  lemma UnknownActionDiffers(c: DlmClient, req: ResourceReq, now: int)
    requires Shaped(c) && req.action != ActionRequest && req.action != ActionRelease
    ensures LinkResource(c, req, now) == (0, Confirm(StatusSuccess, None), c)
    ensures HandleResource(c, req, now).0.status == StatusFailure
  {
  }

  // ---------------------------------------------------------- the client table

  /** `magic_lmi_find_by_link`: the first registered client of a link. */
  function FindByLink(cs: seq<DlmClient>, linkId: string): (r: Option<nat>)
    ensures r.Some? ==> r.value < |cs| && cs[r.value].registered && cs[r.value].linkId == linkId
    ensures r.Some? ==> forall j :: 0 <= j < r.value ==> !(cs[j].registered && cs[j].linkId == linkId)
    ensures r.None? ==> forall j :: 0 <= j < |cs| ==> !(cs[j].registered && cs[j].linkId == linkId)
  {
    if |cs| == 0 then None
    else if cs[0].registered && cs[0].linkId == linkId then Some(0)
    else match FindByLink(cs[1..], linkId)
      case None => None
      case Some(k) => Some(k + 1)
  }

  function FirstUnregistered(cs: seq<DlmClient>): (r: Option<nat>)
    ensures r.Some? ==> r.value < |cs| && !cs[r.value].registered && forall j :: 0 <= j < r.value ==> cs[j].registered
    ensures r.None? ==> forall j :: 0 <= j < |cs| ==> cs[j].registered
  {
    if |cs| == 0 then None
    else if !cs[0].registered then Some(0)
    else match FirstUnregistered(cs[1..])
      case None => None
      case Some(k) => Some(k + 1)
  }

  /** The fields of `MIH_EXT_Link_Register_Request` the handler keeps. */
  datatype RegisterReq = RegisterReq(linkAddr: string, dlmPid: int)

  /** `MIH_EXT_Link_Register_Confirm`. */
  datatype RegisterConfirm = RegisterConfirm(status: int, assignedId: nat)

  /** The client a registration writes into a free slot; its bearer slots
      are kept as they were. */
  function Registered(c: DlmClient, fd: int, req: RegisterReq, now: int): DlmClient {
    c.(registered := true, fd := fd, linkId := req.linkAddr, dlmPid := req.dlmPid, lastHeartbeat := now, lastSeen := now)
  }

  /** The configured DLM of that name, marked active. */
  function MarkActive(dlms: seq<DlmConfig>, name: string): (r: seq<DlmConfig>)
    ensures |r| == |dlms|
  {
    match FindDlm(dlms, name)
      case None => dlms
      case Some(k) => dlms[k := dlms[k].(isActive := true)]
  }

  /** `handle_mih_register_request`. */
  function Register(cs: seq<DlmClient>, dlms: seq<DlmConfig>, fd: int, req: RegisterReq, now: int)
    : (RegisterConfirm, seq<DlmClient>, seq<DlmConfig>)
  {
    match FirstUnregistered(cs)
      case None => (RegisterConfirm(StatusInsufficientResources, 0), cs, dlms)
      case Some(k) => (RegisterConfirm(StatusSuccess, k + 1), cs[k := Registered(cs[k], fd, req, now)], MarkActive(dlms, req.linkAddr))
  }

  /** A registration is refused only when all ten slots are taken; once
      accepted, the link's DLM can be found, its configuration entry (if
      any) is active and the id is one above the slot. */
  lemma RegisterOutcome(cs: seq<DlmClient>, dlms: seq<DlmConfig>, fd: int, req: RegisterReq, now: int)
    ensures var (conf, cs1, dlms1) := Register(cs, dlms, fd, req, now);
      (conf.status == StatusInsufficientResources <==> forall j :: 0 <= j < |cs| ==> cs[j].registered)
      && (conf.status == StatusInsufficientResources ==> cs1 == cs && dlms1 == dlms)
      && (conf.status != StatusInsufficientResources ==>
            conf.status == StatusSuccess && 1 <= conf.assignedId <= |cs|
            && cs1[conf.assignedId - 1].registered && cs1[conf.assignedId - 1].lastSeen == now
            && FindByLink(cs1, req.linkAddr).Some?
            && (FindDlm(dlms, req.linkAddr).Some? ==> dlms1[FindDlm(dlms, req.linkAddr).value].isActive))
  {
    var r := FirstUnregistered(cs);
    if r.Some? {
      var cs1 := cs[r.value := Registered(cs[r.value], fd, req, now)];
      assert cs1[r.value].registered && cs1[r.value].linkId == req.linkAddr;
    }
  }

  /** The high-level `MIH_Link_Resource.request` the policy side issues. */
  datatype MihResourceRequest = MihResourceRequest(linkAddr: string, destination: string, action: int, bearerId: Option<nat>, qos: Option<QosParam>)

  /** `magic_dlm_mih_link_resource_request`: the link must be configured
      and active and have a registered DLM, then the internal handler
      decides. */
  function MihLinkResource(cs: seq<DlmClient>, dlms: seq<DlmConfig>, req: MihResourceRequest, now: int)
    : (int, Confirm, seq<DlmClient>)
    requires forall j :: 0 <= j < |cs| ==> Shaped(cs[j])
  {
    match FindDlm(dlms, req.linkAddr)
      case None => (-1, Confirm(StatusLinkNotAvailable, None), cs)
      case Some(d) =>
        if !dlms[d].isActive then (-1, Confirm(StatusLinkNotAvailable, None), cs)
        else match FindByLink(cs, dlms[d].name)
          case None => (-1, Confirm(StatusLinkNotAvailable, None), cs)
          case Some(k) =>
            var (resp, c1) := HandleResource(cs[k], ResourceReq(req.action, req.bearerId, req.qos), now);
            (if resp.status == StatusSuccess then 0 else -1, Confirm(resp.status, resp.bearerId), cs[k := c1])
  }

  /** The link is unavailable exactly when it is unknown, inactive or has
      no registered DLM, and then nothing changes; otherwise the answer is
      the handler's and 0 means success. */
  lemma MihLinkResourceOutcome(cs: seq<DlmClient>, dlms: seq<DlmConfig>, req: MihResourceRequest, now: int)
    requires forall j :: 0 <= j < |cs| ==> Shaped(cs[j])
    ensures var (rc, conf, cs1) := MihLinkResource(cs, dlms, req, now);
      var d := FindDlm(dlms, req.linkAddr);
      var reachable := d.Some? && dlms[d.value].isActive && FindByLink(cs, req.linkAddr).Some?;
      (rc == 0 <==> conf.status == StatusSuccess)
      && (!reachable ==> conf.status == StatusLinkNotAvailable && cs1 == cs)
      && (reachable ==> var k := FindByLink(cs, req.linkAddr).value;
            (conf.status, cs1[k]) == (HandleResource(cs[k], ResourceReq(req.action, req.bearerId, req.qos), now).0.status,
                                      HandleResource(cs[k], ResourceReq(req.action, req.bearerId, req.qos), now).1))
  {
  }

  // --------------------------------------------------- the parameter copy

  /** `sync_client_params`: the current bandwidth is the available one,
      or the receive rate when none is available. */
  function Synced(p: LinkParameters): (r: LinkParams)
    ensures r.currentKbps == 0 <==> p.availableKbps == 0 && p.rxKbps == 0
    ensures r.currentKbps == p.availableKbps || (p.availableKbps == 0 && r.currentKbps == p.rxKbps)
    ensures (r.latencyMs, r.signalDbm, r.ip, r.netmask, r.linkState, r.quality)
         == (p.latencyMs, p.signalDbm, p.ip, p.netmask, p.linkState, p.quality)
  {
    var bw := if p.availableKbps == 0 then p.rxKbps else p.availableKbps;
    LinkParams(bw, p.latencyMs, p.signalDbm, p.ip, p.netmask, p.linkState, p.quality)
  }

  // -------------------------------------------------------- event callbacks

  /** `EventCallbackEntry`; the function pointer is an opaque handler. */
  datatype Callback = Callback(eventType: nat, handler: nat)

  /** One call of a callback. */
  datatype Invocation = Invocation(handler: nat, linkId: string, eventType: nat)

  /** `trigger_lmi_event_callbacks`: the entries of that event type, in
      registration order. */
  function Invocations(cbs: seq<Callback>, linkId: string, eventType: nat): seq<Invocation>
    decreases |cbs|
  {
    if |cbs| == 0 then []
    else
      var last := cbs[|cbs| - 1];
      Invocations(cbs[..|cbs| - 1], linkId, eventType)
      + (if last.eventType == eventType then [Invocation(last.handler, linkId, eventType)] else [])
  }

  /** Entries registered later fire later. */
  lemma {:induction false} InvocationsAppend(a: seq<Callback>, b: seq<Callback>, linkId: string, eventType: nat)
    ensures Invocations(a + b, linkId, eventType) == Invocations(a, linkId, eventType) + Invocations(b, linkId, eventType)
    decreases |b|
  {
    if |b| == 0 {
      assert a + b == a;
    } else {
      var b0 := b[..|b| - 1];
      assert (a + b)[..|a + b| - 1] == a + b0;
      InvocationsAppend(a, b0, linkId, eventType);
    }
  }

  /** Only entries of the event's type fire, each with the event's link. */
  lemma {:induction false} InvocationsMatch(cbs: seq<Callback>, linkId: string, eventType: nat)
    ensures forall v :: v in Invocations(cbs, linkId, eventType) ==>
      v.linkId == linkId && v.eventType == eventType && Callback(eventType, v.handler) in cbs
    decreases |cbs|
  {
    if |cbs| > 0 {
      var init := cbs[..|cbs| - 1];
      InvocationsMatch(init, linkId, eventType);
      assert forall x :: x in init ==> x in cbs;
    }
  }

  /** `magic_lmi_register_event_callback` on the table `cbs` filled up to
      `n`. */
  function RegisterCallback(cbs: seq<Callback>, eventType: nat, handler: nat): (r: (int, seq<Callback>)) {
    if |cbs| >= MaxEventCallbacks then (-1, cbs) else (0, cbs + [Callback(eventType, handler)])
  }

  /** A registered handler fires for its event type after every handler
      registered before it. */
  lemma RegisteredHandlerFires(cbs: seq<Callback>, eventType: nat, handler: nat, linkId: string)
    requires |cbs| < MaxEventCallbacks
    ensures var (rc, cbs1) := RegisterCallback(cbs, eventType, handler);
      rc == 0 && Invocations(cbs1, linkId, eventType) == Invocations(cbs, linkId, eventType) + [Invocation(handler, linkId, eventType)]
  {
    var cbs1 := cbs + [Callback(eventType, handler)];
    assert cbs1[..|cbs1| - 1] == cbs;
  }

  // ---------------------------------------------------------- heartbeats

  /** A registered client silent for more than the timeout. */
  predicate Expired(c: DlmClient, now: int) {
    c.registered && now - c.lastSeen > HeartbeatTimeoutSec
  }

  /** What the monitor does to one client: unregister it and forget its
      socket. */
  function Swept(c: DlmClient, now: int): DlmClient {
    if Expired(c, now) then c.(registered := false, fd := if c.fd > 0 then -1 else c.fd) else c
  }

  /** The callbacks the monitor fires, slot by slot. */
  function SweepLog(cs: seq<DlmClient>, cbs: seq<Callback>, now: int): seq<Invocation>
    decreases |cs|
  {
    if |cs| == 0 then []
    else
      var last := cs[|cs| - 1];
      SweepLog(cs[..|cs| - 1], cbs, now) + (if Expired(last, now) then Invocations(cbs, last.linkId, LinkEventDown) else [])
  }

  /** After a sweep no registered client is overdue, the clients that were
      not overdue are untouched, and a second sweep changes nothing. */
  lemma SweepOutcome(c: DlmClient, now: int)
    ensures !Expired(Swept(c, now), now)
    ensures !Expired(c, now) ==> Swept(c, now) == c
    ensures Expired(c, now) ==> !Swept(c, now).registered && Swept(c, now).fd <= 0
    ensures Swept(Swept(c, now), now) == Swept(c, now)
  {
  }

  /** Every callback the sweep fires is a LINK_EVENT_DOWN for an overdue
      client's link. */
  lemma {:induction false} SweepLogNamesExpired(cs: seq<DlmClient>, cbs: seq<Callback>, now: int)
    ensures forall v :: v in SweepLog(cs, cbs, now) ==>
      v.eventType == LinkEventDown && exists j :: 0 <= j < |cs| && Expired(cs[j], now) && cs[j].linkId == v.linkId
    decreases |cs|
  {
    if |cs| > 0 {
      var init := cs[..|cs| - 1];
      var last := cs[|cs| - 1];
      SweepLogNamesExpired(init, cbs, now);
      InvocationsMatch(cbs, last.linkId, LinkEventDown);
      forall v | v in SweepLog(cs, cbs, now)
        ensures v.eventType == LinkEventDown && exists j :: 0 <= j < |cs| && Expired(cs[j], now) && cs[j].linkId == v.linkId
      {
        if v in SweepLog(init, cbs, now) {
          var j :| 0 <= j < |init| && Expired(init[j], now) && init[j].linkId == v.linkId;
          assert cs[j] == init[j];
        } else {
          assert Expired(last, now) && v in Invocations(cbs, last.linkId, LinkEventDown);
          assert cs[|cs| - 1] == last;
        }
      }
    }
  }

  // ------------------------------------------------------------ the context

  /** `MagicLmiContext`: the client slots, the configured DLMs the
      registration marks active, and the callback table. */
  class LmiContext {
    const clients: array<DlmClient>
    var dlms: seq<DlmConfig>
    const callbacks: array<Callback>
    var numCallbacks: nat

    predicate Valid()
      reads this, clients, callbacks
    {
      clients.Length == MaxDlmClients
      && callbacks.Length == MaxEventCallbacks
      && numCallbacks <= MaxEventCallbacks
      && forall j :: 0 <= j < clients.Length ==> Shaped(clients[j])
    }

    function Table(): seq<Callback>
      reads this, callbacks
      requires numCallbacks <= callbacks.Length
    {
      callbacks[..numCallbacks]
    }

    constructor (dlms: seq<DlmConfig>)
      ensures Valid() && fresh(clients) && fresh(callbacks)
      ensures clients[..] == seq(MaxDlmClients, _ => EmptyClient) && this.dlms == dlms && Table() == []
    {
      clients := new DlmClient[MaxDlmClients](_ => EmptyClient);
      callbacks := new Callback[MaxEventCallbacks](_ => Callback(0, 0));
      this.dlms := dlms;
      numCallbacks := 0;
    }

    /** `magic_lmi_find_by_link`. */
    method FindClientByLink(linkId: string) returns (r: Option<nat>)
      ensures r == FindByLink(clients[..], linkId)
    {
      var i := 0;
      while i < clients.Length
        invariant i <= clients.Length
        invariant forall j :: 0 <= j < i ==> !(clients[j].registered && clients[j].linkId == linkId)
      {
        if clients[i].registered && clients[i].linkId == linkId {
          return Some(i);
        }
        i := i + 1;
      }
      return None;
    }

    /** `magic_dlm_allocate_bearer` on client slot `k`. */
    method AllocateBearer(k: nat, now: int) returns (id: nat)
      requires Valid() && k < clients.Length
      modifies clients
      ensures Valid()
      ensures (id, clients[..]) == (Allocate(old(clients[k]), now).0, old(clients[..])[k := Allocate(old(clients[k]), now).1])
    {
      var c := clients[k];
      var i := 0;
      while i < MaxBearers
        invariant i <= MaxBearers
        invariant forall j :: 0 <= j < i ==> c.bearers[j].active
      {
        if !c.bearers[i].active {
          var b := c.bearers[i].(active := true, id := i + 1, created := now, txBytes := 0, rxBytes := 0);
          clients[k] := c.(bearers := c.bearers[i := b], numActive := (c.numActive + 1) % 256);
          return i + 1;
        }
        i := i + 1;
      }
      assert clients[..] == old(clients[..])[k := c];
      return 0;
    }

    /** `magic_dlm_find_bearer` on client slot `k`. */
    method FindClientBearer(k: nat, id: nat) returns (r: Option<nat>)
      requires Valid() && k < clients.Length
      ensures r == FindBearer(clients[k], id)
    {
      if id == 0 || id > MaxBearers {
        return None;
      }
      if clients[k].bearers[id - 1].active {
        return Some(id - 1);
      }
      return None;
    }

    /** `magic_dlm_release_bearer` on client slot `k`. */
    method ReleaseBearer(k: nat, id: nat) returns (rc: int)
      requires Valid() && k < clients.Length
      modifies clients
      ensures Valid()
      ensures (rc, clients[..]) == (Release(old(clients[k]), id).0, old(clients[..])[k := Release(old(clients[k]), id).1])
    {
      var c := clients[k];
      assert clients[..] == old(clients[..])[k := c];
      if id == 0 || id > MaxBearers {
        return -1;
      }
      if c.bearers[id - 1].active {
        clients[k] := c.(bearers := c.bearers[id - 1 := ClearedBearer], numActive := (c.numActive + 255) % 256);
        return 0;
      }
      return -1;
    }

    /** Writes the QoS of bearer slot `i` of client `k`. */
    method StoreQos(k: nat, i: nat, q: QosParam)
      requires Valid() && k < clients.Length && i < MaxBearers
      modifies clients
      ensures Valid() && clients[..] == old(clients[..])[k := SetQos(old(clients[k]), i, q)]
    {
      clients[k] := SetQos(clients[k], i, q);
    }

    /** `handle_mih_resource_request_internal` on client slot `k`. */
    method HandleResourceRequest(k: nat, req: ResourceReq, now: int) returns (resp: ResourceResp)
      requires Valid() && k < clients.Length
      modifies clients
      ensures Valid()
      ensures (resp, clients[..]) == (HandleResource(old(clients[k]), req, now).0, old(clients[..])[k := HandleResource(old(clients[k]), req, now).1])
    {
      assert clients[..] == old(clients[..])[k := clients[k]];
      if req.action == ActionRequest {
        if req.qos.None? {
          return ResourceResp(StatusFailure, None, "QoS parameters required");
        }
        if !ValidQos(req.qos) {
          return ResourceResp(StatusQosNotSupported, None, "Invalid QoS parameters");
        }
        if req.bearerId.Some? {
          var slot := FindClientBearer(k, req.bearerId.value);
          if slot.None? {
            return ResourceResp(StatusInvalidBearer, None, "Bearer not found");
          }
          StoreQos(k, slot.value, req.qos.value);
          return ResourceResp(StatusSuccess, req.bearerId, "Resources updated");
        }
        ghost var c0 := clients[k];
        var id := AllocateBearer(k, now);
        if id == 0 {
          return ResourceResp(StatusInsufficientResources, None, "No free bearer slots");
        }
        assert clients[k] == Allocate(c0, now).1 && id == Allocate(c0, now).0;
        StoreQos(k, id - 1, req.qos.value);
        assert clients[..] == old(clients[..])[k := SetQos(Allocate(c0, now).1, id - 1, req.qos.value)];
        return ResourceResp(StatusSuccess, Some(id), "Allocated bearer ID " + NatToString(id));
      } else if req.action == ActionRelease {
        if req.bearerId.None? {
          return ResourceResp(StatusFailure, None, "Bearer ID required");
        }
        var rc := ReleaseBearer(k, req.bearerId.value);
        if rc == 0 {
          return ResourceResp(StatusSuccess, None, "Bearer released");
        }
        return ResourceResp(StatusInvalidBearer, None, "Bearer not found");
      }
      return ResourceResp(StatusFailure, None, "Unknown action");
    }

    /** `magic_dlm_link_resource_request` on client slot `k`. */
    method LinkResourceRequest(k: nat, req: ResourceReq, now: int) returns (rc: int, confirm: Confirm)
      requires Valid() && k < clients.Length
      modifies clients
      ensures Valid()
      ensures (rc, confirm, clients[..]) == (LinkResource(old(clients[k]), req, now).0, LinkResource(old(clients[k]), req, now).1,
                                              old(clients[..])[k := LinkResource(old(clients[k]), req, now).2])
    {
      assert clients[..] == old(clients[..])[k := clients[k]];
      confirm := Confirm(0, None);
      if req.action == ActionRequest {
        if req.qos.None? {
          return -1, Confirm(StatusFailure, None);
        }
        var id: int;
        if req.bearerId.Some? {
          id := req.bearerId.value;
          var slot := FindClientBearer(k, id);
          if slot.None? {
            return -1, Confirm(StatusInvalidBearer, None);
          }
          StoreQos(k, slot.value, req.qos.value);
        } else {
          ghost var c0 := clients[k];
          var got := AllocateBearer(k, now);
          id := got;
          if id == 0 {
            return -1, Confirm(StatusInsufficientResources, None);
          }
          assert clients[k] == Allocate(c0, now).1 && id == Allocate(c0, now).0;
          StoreQos(k, id - 1, req.qos.value);
          assert clients[..] == old(clients[..])[k := SetQos(Allocate(c0, now).1, id - 1, req.qos.value)];
        }
        confirm := Confirm(StatusSuccess, Some(id));
      } else if req.action == ActionRelease {
        if req.bearerId.None? {
          return -1, Confirm(StatusFailure, None);
        }
        var r := ReleaseBearer(k, req.bearerId.value);
        if r != 0 {
          return -1, Confirm(StatusInvalidBearer, None);
        }
        confirm := Confirm(StatusSuccess, None);
      }
      rc := 0;
    }

    /** `magic_dlm_mih_link_resource_request`. */
    method MihLinkResourceRequest(req: MihResourceRequest, now: int) returns (rc: int, confirm: Confirm)
      requires Valid()
      modifies clients
      ensures Valid()
      ensures (rc, confirm, clients[..]) == MihLinkResource(old(clients[..]), dlms, req, now)
    {
      var d := FindDlm(dlms, req.linkAddr);
      if d.None? || !dlms[d.value].isActive {
        return -1, Confirm(StatusLinkNotAvailable, None);
      }
      var k := FindClientByLink(dlms[d.value].name);
      if k.None? {
        return -1, Confirm(StatusLinkNotAvailable, None);
      }
      var resp := HandleResourceRequest(k.value, ResourceReq(req.action, req.bearerId, req.qos), now);
      confirm := Confirm(resp.status, resp.bearerId);
      rc := if confirm.status == StatusSuccess then 0 else -1;
    }

    /** `handle_mih_register_request`: the confirm is what the socket
        would carry. */
    method RegisterRequest(fd: int, req: RegisterReq, now: int) returns (confirm: RegisterConfirm)
      requires Valid()
      modifies this, clients
      ensures Valid() && numCallbacks == old(numCallbacks)
      ensures (confirm, clients[..], dlms) == Register(old(clients[..]), old(dlms), fd, req, now)
    {
      var i := 0;
      while i < clients.Length && clients[i].registered
        invariant i <= clients.Length
        invariant forall j :: 0 <= j < i ==> clients[j].registered
      {
        i := i + 1;
      }
      if i == clients.Length {
        return RegisterConfirm(StatusInsufficientResources, 0);
      }
      clients[i] := Registered(clients[i], fd, req, now);
      dlms := MarkActive(dlms, req.linkAddr);
      confirm := RegisterConfirm(StatusSuccess, i + 1);
    }

    /** `sync_client_params` on client slot `k`. */
    method SyncClientParams(k: nat)
      requires Valid() && k < clients.Length
      modifies clients
      ensures Valid() && clients[..] == old(clients[..])[k := old(clients[k]).(params := Synced(old(clients[k]).current))]
    {
      var c := clients[k];
      var bw := c.current.availableKbps;
      if bw == 0 {
        bw := c.current.rxKbps;
      }
      clients[k] := c.(params := LinkParams(bw, c.current.latencyMs, c.current.signalDbm, c.current.ip,
                                            c.current.netmask, c.current.linkState, c.current.quality));
    }

    /** `magic_lmi_register_event_callback`. */
    method RegisterEventCallback(eventType: nat, handler: nat) returns (rc: int)
      requires Valid()
      modifies this, callbacks
      ensures Valid() && dlms == old(dlms)
      ensures (rc, Table()) == RegisterCallback(old(Table()), eventType, handler)
    {
      if numCallbacks >= MaxEventCallbacks {
        return -1;
      }
      callbacks[numCallbacks] := Callback(eventType, handler);
      numCallbacks := numCallbacks + 1;
      assert Table() == old(Table()) + [Callback(eventType, handler)];
      rc := 0;
    }

    /** `trigger_lmi_event_callbacks`: the calls it makes, in order. */
    method TriggerCallbacks(linkId: string, eventType: nat) returns (log: seq<Invocation>)
      requires Valid()
      ensures log == Invocations(Table(), linkId, eventType)
    {
      log := [];
      var i := 0;
      while i < numCallbacks
        invariant i <= numCallbacks
        invariant log == Invocations(callbacks[..i], linkId, eventType)
      {
        assert callbacks[..i + 1][..i] == callbacks[..i];
        if callbacks[i].eventType == eventType {
          log := log + [Invocation(callbacks[i].handler, linkId, eventType)];
        }
        i := i + 1;
      }
    }

    /** One pass of the heartbeat monitor thread at time `now`. */
    method SweepHeartbeats(now: int) returns (log: seq<Invocation>)
      requires Valid()
      modifies clients
      ensures Valid()
      ensures forall j :: 0 <= j < clients.Length ==> clients[j] == Swept(old(clients[j]), now)
      ensures log == SweepLog(old(clients[..]), Table(), now)
    {
      log := [];
      var i := 0;
      while i < clients.Length
        invariant Valid() && i <= clients.Length
        invariant forall j :: 0 <= j < i ==> clients[j] == Swept(old(clients[j]), now)
        invariant forall j :: i <= j < clients.Length ==> clients[j] == old(clients[j])
        invariant log == SweepLog(old(clients[..])[..i], Table(), now)
      {
        assert old(clients[..])[..i + 1][..i] == old(clients[..])[..i];
        var c := clients[i];
        if c.registered && now - c.lastSeen > HeartbeatTimeoutSec {
          var fired := TriggerCallbacks(c.linkId, LinkEventDown);
          log := log + fired;
          clients[i] := c.(registered := false, fd := if c.fd > 0 then -1 else c.fd);
        }
        i := i + 1;
      }
      assert old(clients[..])[..i] == old(clients[..]);
    }
  }
}
