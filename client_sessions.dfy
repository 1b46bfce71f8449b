/** The client's session table (ten Diameter sessions, one of them the
    "current" one) and its cache of DLM status records fed by MSCR pushes.
    The clock is a parameter. */
module ClientSessions {
  import opened Wrappers
  import opened CString

  const MaxClientSessions: nat := 10
  const MaxDlmCount: nat := 8
  /** `dlm_available` before the first report: unknown. */
  const AvailabilityUnknown: nat := 2

  datatype ClientState = Idle | Authenticating | Authenticated | Establishing | Active | Modifying | Terminating

  /** A `ClientSessionRecord` (packet counters not modelled). */
  datatype Record = Record(
    inUse: bool, sessionId: string, state: ClientState, createdAt: int, lastActivity: int,
    grantedFl: nat, grantedRl: nat, bearerId: nat, assignedLink: string)

  /** A slot after `memset(…, 0, …)`. */
  const EmptyRecord := Record(false, "", Idle, 0, 0, 0, 0, 0, "")

  datatype Table = Table(sessions: seq<Record>, numActive: int, current: string)

  function Find(rs: seq<Record>, id: string): (r: Option<nat>)
    ensures r.Some? ==> r.value < |rs| && rs[r.value].inUse && rs[r.value].sessionId == id
    ensures r.Some? ==> forall j :: 0 <= j < r.value ==> !(rs[j].inUse && rs[j].sessionId == id)
    ensures r.None? ==> forall j :: 0 <= j < |rs| ==> !(rs[j].inUse && rs[j].sessionId == id)
  {
    if |rs| == 0 then None
    else if rs[0].inUse && rs[0].sessionId == id then Some(0)
    else match Find(rs[1..], id)
      case None => None
      case Some(k) => Some(k + 1)
  }

  function FirstFree(rs: seq<Record>): (r: Option<nat>)
    ensures r.Some? ==> r.value < |rs| && !rs[r.value].inUse && forall j :: 0 <= j < r.value ==> rs[j].inUse
    ensures r.None? ==> forall j :: 0 <= j < |rs| ==> rs[j].inUse
  {
    if |rs| == 0 then None
    else if !rs[0].inUse then Some(0)
    else match FirstFree(rs[1..])
      case None => None
      case Some(k) => Some(k + 1)
  }

  function InUse(rs: seq<Record>): nat {
    if |rs| == 0 then 0 else (if rs[0].inUse then 1 else 0) + InUse(rs[1..])
  }

  lemma {:induction false} InUseUpdate(rs: seq<Record>, k: nat, r: Record)
    requires k < |rs|
    ensures InUse(rs[k := r]) + (if rs[k].inUse then 1 else 0) == InUse(rs) + (if r.inUse then 1 else 0)
  {
    if k > 0 {
      assert rs[k := r][1..] == rs[1..][k - 1 := r];
      InUseUpdate(rs[1..], k - 1, r);
    } else {
      assert rs[k := r][1..] == rs[1..];
    }
  }

  lemma {:induction false} InUseEmpty(n: nat)
    ensures InUse(seq(n, _ => EmptyRecord)) == 0
  {
    if n > 0 {
      assert seq(n, _ => EmptyRecord)[1..] == seq(n - 1, _ => EmptyRecord);
      InUseEmpty(n - 1);
    }
  }

  /** `num_active` counts the occupied slots, and free slots are zeroed. */
  predicate Valid(t: Table) {
    && |t.sessions| == MaxClientSessions
    && t.numActive == InUse(t.sessions)
    && forall i :: 0 <= i < |t.sessions| ==> t.sessions[i].inUse || t.sessions[i] == EmptyRecord
  }

  /** `session_manager_init` and `session_manager_cleanup`. */
  function Cleared(): Table {
    Table(seq(MaxClientSessions, _ => EmptyRecord), 0, "")
  }

  /** `session_manager_create`: the first free slot, AUTHENTICATING, made
      current; duplicates are not checked. `None` for a NULL id or a full
      table. */
  function Create(t: Table, id: Option<string>, now: int): (Option<nat>, Table) {
    if id.None? then (None, t)
    else match FirstFree(t.sessions)
      case None => (None, t)
      case Some(k) =>
        var r := EmptyRecord.(inUse := true, sessionId := Bounded(id.value, 127), state := Authenticating,
                              createdAt := now, lastActivity := now);
        (Some(k), t.(sessions := t.sessions[k := r], numActive := t.numActive + 1, current := Bounded(id.value, 127)))
  }

  /** `session_manager_update_state` (and `session_manager_authenticated`). */
  function UpdateState(t: Table, id: string, state: ClientState, now: int): (int, Table) {
    match Find(t.sessions, id)
    case None => (-1, t)
    case Some(i) => (0, t.(sessions := t.sessions[i := t.sessions[i].(state := state, lastActivity := now)]))
  }

  /** `session_manager_link_established`: ACTIVE with the grant; the link is
      copied only when given. */
  function LinkEstablished(t: Table, id: string, fl: nat, rl: nat, bearer: nat, link: Option<string>, now: int): (int, Table) {
    match Find(t.sessions, id)
    case None => (-1, t)
    case Some(i) =>
      var s := t.sessions[i];
      var s1 := s.(state := Active, grantedFl := fl, grantedRl := rl, bearerId := bearer, lastActivity := now,
                   assignedLink := if link.Some? then Bounded(link.value, 63) else s.assignedLink);
      (0, t.(sessions := t.sessions[i := s1]))
  }

  /** `session_manager_delete`: the first matching slot is zeroed, and the
      current id is cleared when it names the deleted session. */
  function Delete(t: Table, id: Option<string>): (int, Table) {
    if id.None? then (-1, t)
    else match Find(t.sessions, id.value)
      case None => (-1, t)
      case Some(i) =>
        (0, t.(sessions := t.sessions[i := EmptyRecord], numActive := t.numActive - 1,
               current := if t.current == id.value then "" else t.current))
  }

  /** `session_manager_set_current`: only an existing session can become
      current. */
  function SetCurrent(t: Table, id: Option<string>): (int, Table) {
    if id.None? || Find(t.sessions, id.value).None? then (-1, t)
    else (0, t.(current := Bounded(id.value, 127)))
  }

  /** `session_manager_get_current`: NULL when no session is current. */
  function GetCurrent(t: Table): Option<string> {
    if t.current == "" then None else Some(t.current)
  }

  // ------------------------------------------------------------ properties

  lemma ClearedValid()
    ensures Valid(Cleared()) && GetCurrent(Cleared()).None?
  {
    InUseEmpty(MaxClientSessions);
  }

  /** Every table operation keeps the count and the zeroed free slots. */
  lemma CreateValid(t: Table, id: Option<string>, now: int)
    requires Valid(t)
    ensures Valid(Create(t, id, now).1)
  {
    if id.Some? && FirstFree(t.sessions).Some? {
      var k := FirstFree(t.sessions).value;
      InUseUpdate(t.sessions, k, Create(t, id, now).1.sessions[k]);
    }
  }

  lemma DeleteValid(t: Table, id: Option<string>)
    requires Valid(t)
    ensures Valid(Delete(t, id).1)
  {
    if id.Some? && Find(t.sessions, id.value).Some? {
      InUseUpdate(t.sessions, Find(t.sessions, id.value).value, EmptyRecord);
    }
  }

  lemma UpdatesValid(t: Table, id: string, state: ClientState, fl: nat, rl: nat, bearer: nat, link: Option<string>, now: int)
    requires Valid(t)
    ensures Valid(UpdateState(t, id, state, now).1)
    ensures Valid(LinkEstablished(t, id, fl, rl, bearer, link, now).1)
  {
    if Find(t.sessions, id).Some? {
      var i := Find(t.sessions, id).value;
      InUseUpdate(t.sessions, i, UpdateState(t, id, state, now).1.sessions[i]);
      InUseUpdate(t.sessions, i, LinkEstablished(t, id, fl, rl, bearer, link, now).1.sessions[i]);
    }
  }

  /** A created session can be found, is current and is authenticating,
      unless an earlier slot already holds the same id. */
  lemma CreateThenFind(t: Table, id: string, now: int)
    requires |id| <= 127 && Find(t.sessions, id).None?
    ensures var (k, t1) := Create(t, Some(id), now);
      k.Some? ==> (Find(t1.sessions, id) == k && t1.sessions[k.value].state == Authenticating
                   && GetCurrent(t1) == (if id == "" then None else Some(id)))
  {
    var (k, t1) := Create(t, Some(id), now);
    if k.Some? {
      assert t1.sessions[k.value].inUse && t1.sessions[k.value].sessionId == id;
    }
  }

  /** Deleting a session just created restores the count and the table; the
      current id is cleared. */
  lemma CreateThenDelete(t: Table, id: string, now: int)
    requires Valid(t) && |id| <= 127 && Find(t.sessions, id).None?
    ensures var (k, t1) := Create(t, Some(id), now);
      k.Some? ==> Delete(t1, Some(id)) == (0, t.(current := ""))
  {
    var (k, t1) := Create(t, Some(id), now);
    if k.Some? {
      var i := k.value;
      CreateThenFind(t, id, now);
      assert t1.current == id && t1.numActive - 1 == t.numActive;
      assert t.sessions[i] == EmptyRecord;
      assert t1.sessions[i := EmptyRecord] == t.sessions;
      var d := Delete(t1, Some(id));
      assert d.1.sessions == t.sessions && d.1.numActive == t.numActive && d.1.current == "";
    }
  }

  /** A NULL id, a missing session or a state change never alters the count
      or the current id. */
  lemma LinkEstablishedMeans(t: Table, id: string, fl: nat, rl: nat, bearer: nat, link: Option<string>, now: int)
    requires Find(t.sessions, id).Some?
    ensures var (rc, t1) := LinkEstablished(t, id, fl, rl, bearer, link, now);
      var i := Find(t.sessions, id).value;
      && rc == 0 && t1.numActive == t.numActive && t1.current == t.current
      && t1.sessions[i].state == Active && t1.sessions[i].grantedFl == fl && t1.sessions[i].grantedRl == rl
      && t1.sessions[i].bearerId == bearer
      && (link.None? ==> t1.sessions[i].assignedLink == t.sessions[i].assignedLink)
      && forall j :: 0 <= j < |t.sessions| && j != i ==> t1.sessions[j] == t.sessions[j]
  {
  }

  // ------------------------------------------------------ DLM status cache

  /** A `DLMStatusRecord` (link lists and float bandwidths not modelled). */
  datatype DlmRecord = DlmRecord(inUse: bool, name: string, available: nat, lastUpdate: int)

  const EmptyDlm := DlmRecord(false, "", 0, 0)

  datatype DlmTable = DlmTable(records: seq<DlmRecord>, count: nat)

  /** The records fill from the front and are never freed: exactly the
      first `count` are in use. */
  predicate DlmValid(d: DlmTable) {
    && |d.records| == MaxDlmCount && d.count <= MaxDlmCount
    && forall i :: 0 <= i < |d.records| ==> (d.records[i].inUse <==> i < d.count)
  }

  /** The existing-record search, which looks only below `count`. */
  function FindDlm(rs: seq<DlmRecord>, count: nat, name: string): (r: Option<nat>)
    ensures r.Some? ==> r.value < count && r.value < |rs| && rs[r.value].inUse && rs[r.value].name == name
    ensures r.Some? ==> forall j :: 0 <= j < r.value ==> !(rs[j].inUse && rs[j].name == name)
    ensures r.None? ==> forall j :: 0 <= j < count && j < |rs| ==> !(rs[j].inUse && rs[j].name == name)
  {
    if |rs| == 0 || count == 0 then None
    else if rs[0].inUse && rs[0].name == name then Some(0)
    else match FindDlm(rs[1..], count - 1, name)
      case None => None
      case Some(k) => Some(k + 1)
  }

  function FirstFreeDlm(rs: seq<DlmRecord>): (r: Option<nat>)
    ensures r.Some? ==> r.value < |rs| && !rs[r.value].inUse && forall j :: 0 <= j < r.value ==> rs[j].inUse
    ensures r.None? ==> forall j :: 0 <= j < |rs| ==> rs[j].inUse
  {
    if |rs| == 0 then None
    else if !rs[0].inUse then Some(0)
    else match FirstFreeDlm(rs[1..])
      case None => None
      case Some(k) => Some(k + 1)
  }

  /** `dlm_status_find_or_create`: the existing record, else a new one with
      availability unknown; `None` for an empty name or a full table. */
  function FindOrCreate(d: DlmTable, name: string, now: int): (Option<nat>, DlmTable) {
    if name == "" then (None, d)
    else match FindDlm(d.records, d.count, name)
      case Some(i) => (Some(i), d)
      case None =>
        match FirstFreeDlm(d.records)
        case None => (None, d)
        case Some(k) =>
          (Some(k), d.(records := d.records[k := DlmRecord(true, Bounded(name, 63), AvailabilityUnknown, now)],
                       count := d.count + 1))
  }

  /** `dlm_status_update_available`: the value is always stored; a change is
      reported only between known values. */
  function UpdateAvailable(d: DlmTable, name: string, v: nat, now: int): (bool, DlmTable) {
    var (slot, d1) := FindOrCreate(d, name, now);
    match slot
    case None => (false, d1)
    case Some(i) =>
      var prior := d1.records[i].available;
      (prior != v && prior != AvailabilityUnknown,
       d1.(records := d1.records[i := d1.records[i].(available := v, lastUpdate := now)]))
  }

  lemma FindOrCreateValid(d: DlmTable, name: string, now: int)
    requires DlmValid(d)
    ensures DlmValid(FindOrCreate(d, name, now).1)
  {
    FirstFreeIsCount(d);
  }

  /** The free record found is the one just after the used ones. */
  lemma FirstFreeIsCount(d: DlmTable)
    requires DlmValid(d)
    ensures FirstFreeDlm(d.records) == (if d.count < MaxDlmCount then Some(d.count) else None)
  {
    var f := FirstFreeDlm(d.records);
    if d.count < MaxDlmCount {
      assert !d.records[d.count].inUse;
    }
    if f.Some? {
      assert !d.records[f.value].inUse;
    }
  }

  /** Asking twice for the same name gives the same record, and the second
      time changes nothing. */
  lemma FindOrCreateTwice(d: DlmTable, name: string, now: int, later: int)
    requires DlmValid(d) && |name| <= 63
    ensures var (r1, d1) := FindOrCreate(d, name, now);
      r1.Some? ==> FindOrCreate(d1, name, later) == (r1, d1)
  {
    var (r1, d1) := FindOrCreate(d, name, now);
    if r1.Some? && FindDlm(d.records, d.count, name).None? {
      var k := r1.value;
      FirstFreeIsCount(d);
      assert d1.records[k].inUse && d1.records[k].name == name;
    }
  }

  /** The first report about a DLM never counts as a change; a later one
      does exactly when the value differs. */
  lemma UpdateAvailableMeans(d: DlmTable, name: string, v: nat, now: int)
    requires DlmValid(d) && name != "" && FindOrCreate(d, name, now).0.Some?
    ensures var (changed, d1) := UpdateAvailable(d, name, v, now);
      var i := FindOrCreate(d, name, now).0.value;
      && d1.records[i].available == v
      && (FindDlm(d.records, d.count, name).None? ==> !changed)
      && (FindDlm(d.records, d.count, name).Some? ==>
            (changed <==> d.records[i].available != v && d.records[i].available != AvailabilityUnknown))
  {
  }

  // ---------------------------------------------------------- the objects

  /** `SessionManager`. */
  class SessionManager {
    const sessions: array<Record>
    var numActive: int
    var current: string

    function State(): Table
      reads this, sessions
    {
      Table(sessions[..], numActive, current)
    }

    /** `session_manager_init`. */
    constructor ()
      ensures State() == Cleared() && fresh(sessions)
    {
      sessions := new Record[MaxClientSessions](_ => EmptyRecord);
      numActive := 0;
      current := "";
    }

    method FindSlot(id: string) returns (r: Option<nat>)
      ensures r == Find(sessions[..], id)
    {
      var i := 0;
      while i < sessions.Length
        invariant i <= sessions.Length
        invariant forall j :: 0 <= j < i ==> !(sessions[j].inUse && sessions[j].sessionId == id)
      {
        if sessions[i].inUse && sessions[i].sessionId == id {
          return Some(i);
        }
        i := i + 1;
      }
      return None;
    }

    /** `session_manager_create`. */
    method CreateSession(id: Option<string>, now: int) returns (r: Option<nat>)
      modifies this, sessions
      ensures (r, State()) == Create(old(State()), id, now)
    {
      if id.None? {
        return None;
      }
      var i := 0;
      while i < sessions.Length && sessions[i].inUse
        invariant i <= sessions.Length
        invariant forall j :: 0 <= j < i ==> sessions[j].inUse
      {
        i := i + 1;
      }
      if i == sessions.Length {
        return None;
      }
      sessions[i] := EmptyRecord.(inUse := true, sessionId := Bounded(id.value, 127), state := Authenticating,
                                  createdAt := now, lastActivity := now);
      numActive := numActive + 1;
      current := Bounded(id.value, 127);
      r := Some(i);
    }

    /** `session_manager_update_state`. */
    method SetState(id: string, state: ClientState, now: int) returns (rc: int)
      modifies sessions
      ensures (rc, State()) == UpdateState(old(State()), id, state, now)
    {
      var i := FindSlot(id);
      if i.None? {
        return -1;
      }
      sessions[i.value] := sessions[i.value].(state := state, lastActivity := now);
      rc := 0;
    }

    /** `session_manager_link_established`. */
    method EstablishLink(id: string, fl: nat, rl: nat, bearer: nat, link: Option<string>, now: int) returns (rc: int)
      modifies sessions
      ensures (rc, State()) == LinkEstablished(old(State()), id, fl, rl, bearer, link, now)
    {
      var i := FindSlot(id);
      if i.None? {
        return -1;
      }
      var s := sessions[i.value];
      var linkName := if link.Some? then Bounded(link.value, 63) else s.assignedLink;
      sessions[i.value] := s.(state := Active, grantedFl := fl, grantedRl := rl, bearerId := bearer,
                              lastActivity := now, assignedLink := linkName);
      rc := 0;
    }

    /** `session_manager_delete`. */
    method DeleteSession(id: Option<string>) returns (rc: int)
      modifies this, sessions
      ensures (rc, State()) == Delete(old(State()), id)
    {
      if id.None? {
        return -1;
      }
      var i := FindSlot(id.value);
      if i.None? {
        return -1;
      }
      sessions[i.value] := EmptyRecord;
      numActive := numActive - 1;
      if current == id.value {
        current := "";
      }
      rc := 0;
    }

    /** `session_manager_set_current`. */
    method MakeCurrent(id: Option<string>) returns (rc: int)
      modifies this
      ensures (rc, State()) == SetCurrent(old(State()), id)
    {
      if id.None? {
        return -1;
      }
      var i := FindSlot(id.value);
      if i.None? {
        return -1;
      }
      current := Bounded(id.value, 127);
      rc := 0;
    }
  }

  /** `DLMStatusManager`. */
  class DlmStatusManager {
    const records: array<DlmRecord>
    var count: nat

    function State(): DlmTable
      reads this, records
    {
      DlmTable(records[..], count)
    }

    /** `dlm_status_init`. */
    constructor ()
      ensures State() == DlmTable(seq(MaxDlmCount, _ => EmptyDlm), 0) && DlmValid(State()) && fresh(records)
    {
      records := new DlmRecord[MaxDlmCount](_ => EmptyDlm);
      count := 0;
    }

    /** `dlm_status_find_or_create`. */
    method FindOrCreateRecord(name: string, now: int) returns (r: Option<nat>)
      modifies this, records
      ensures (r, State()) == FindOrCreate(old(State()), name, now)
    {
      if name == "" {
        return None;
      }
      var i := 0;
      while i < count && i < records.Length
        invariant i <= records.Length && i <= count
        invariant forall j :: 0 <= j < i ==> !(records[j].inUse && records[j].name == name)
      {
        if records[i].inUse && records[i].name == name {
          return Some(i);
        }
        i := i + 1;
      }
      i := 0;
      while i < records.Length && records[i].inUse
        invariant i <= records.Length
        invariant forall j :: 0 <= j < i ==> records[j].inUse
      {
        i := i + 1;
      }
      if i == records.Length {
        return None;
      }
      records[i] := DlmRecord(true, Bounded(name, 63), AvailabilityUnknown, now);
      count := count + 1;
      r := Some(i);
    }

    /** `dlm_status_update_available`. */
    method UpdateAvailability(name: string, v: nat, now: int) returns (changed: bool)
      modifies this, records
      ensures (changed, State()) == UpdateAvailable(old(State()), name, v, now)
    {
      var slot := FindOrCreateRecord(name, now);
      if slot.None? {
        return false;
      }
      var i := slot.value;
      var prior := records[i].available;
      changed := prior != v && prior != AvailabilityUnknown;
      records[i] := records[i].(available := v, lastUpdate := now);
    }
  }
}
