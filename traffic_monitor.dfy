/** Per-session traffic accounting: each session gets a conntrack mark
    derived from the DJB2 hash of its Diameter session id, and a fixed pool
    of 256 slots records the live sessions. Firewall commands become a
    success flag passed in; the clock is a parameter. */
module TrafficMonitor {
  import opened Wrappers
  import opened CString

  const MarkBase: nat := 0x100
  const MarkMax: nat := 0x1FF
  const MaxSessions: nat := 256
  const StatsCacheTtl: int := 2
  const U32: nat := 0x1_0000_0000

  // ------------------------------------------------------------- hashing

  /** A `char` read as the C `int` it promotes to on a signed-char target. */
  function SignedByte(c: char): int {
    var b := c as int % 256;
    if b >= 128 then b - 256 else b
  }

  /** DJB2 from a starting value: h := h * 33 + c for each character, in
      uint32 arithmetic. */
  function Djb2From(h: nat, s: string): (r: nat)
    ensures r < U32 || (|s| == 0 && r == h)
    decreases |s|
  {
    if |s| == 0 then h else Djb2From((h * 33 + SignedByte(s[0])) % U32, s[1..])
  }

  function Djb2(s: string): nat {
    Djb2From(5381, s)
  }

  /** Hashing a concatenation continues from the hash of the first part. */
  lemma {:induction false} Djb2Append(h: nat, a: string, b: string)
    ensures Djb2From(h, a + b) == Djb2From(Djb2From(h, a), b)
    decreases |a|
  {
    if |a| > 0 {
      assert (a + b)[1..] == a[1..] + b;
      Djb2Append((h * 33 + SignedByte(a[0])) % U32, a[1..], b);
    } else {
      assert a + b == b;
    }
  }

  /** `djb2_hash`, a loop over the characters. */
  method Djb2Hash(s: string) returns (h: nat)
    ensures h == Djb2(s) && h < U32
  {
    h := 5381;
    var i := 0;
    while i < |s|
      invariant i <= |s| && h < U32
      invariant Djb2From(h, s[i..]) == Djb2(s)
    {
      assert s[i..][1..] == s[i + 1..];
      h := (h * 33 + SignedByte(s[i])) % U32;
      i := i + 1;
    }
  }

  /** `traffic_session_id_to_mark`: 0 for an empty id, else the hash folded
      into [MarkBase, MarkMax]. */
  function MarkOf(sessionId: string): nat {
    if |sessionId| == 0 then 0 else MarkBase + Djb2(sessionId) % (MarkMax - MarkBase + 1)
  }

  lemma MarkRange(sessionId: string)
    ensures |sessionId| == 0 <==> MarkOf(sessionId) == 0
    ensures |sessionId| > 0 ==> MarkBase <= MarkOf(sessionId) <= MarkMax
  {
  }

  // ---------------------------------------------------------- slot table

  /** A `TrafficSession` slot (the byte and packet counters are not
      modelled). */
  datatype Slot = Slot(inUse: bool, sessionId: string, clientId: string, clientIp: string, mark: nat, startTime: int)

  const FreeSlot := Slot(false, "", "", "", 0, 0)

  datatype Monitor = Monitor(slots: seq<Slot>, count: nat, nextMark: nat, initialized: bool)

  function FindSession(slots: seq<Slot>, id: string): (r: Option<nat>)
    ensures r.Some? ==> r.value < |slots| && slots[r.value].inUse && slots[r.value].sessionId == id
    ensures r.Some? ==> forall j :: 0 <= j < r.value ==> !(slots[j].inUse && slots[j].sessionId == id)
    ensures r.None? ==> forall j :: 0 <= j < |slots| ==> !(slots[j].inUse && slots[j].sessionId == id)
  {
    if |slots| == 0 then None
    else if slots[0].inUse && slots[0].sessionId == id then Some(0)
    else match FindSession(slots[1..], id)
      case None => None
      case Some(k) => Some(k + 1)
  }

  function FindByMark(slots: seq<Slot>, mark: nat): (r: Option<nat>)
    ensures r.Some? ==> r.value < |slots| && slots[r.value].inUse && slots[r.value].mark == mark
    ensures r.Some? ==> forall j :: 0 <= j < r.value ==> !(slots[j].inUse && slots[j].mark == mark)
    ensures r.None? ==> forall j :: 0 <= j < |slots| ==> !(slots[j].inUse && slots[j].mark == mark)
  {
    if |slots| == 0 then None
    else if slots[0].inUse && slots[0].mark == mark then Some(0)
    else match FindByMark(slots[1..], mark)
      case None => None
      case Some(k) => Some(k + 1)
  }

  function FirstFree(slots: seq<Slot>): (r: Option<nat>)
    ensures r.Some? ==> r.value < |slots| && !slots[r.value].inUse && forall j :: 0 <= j < r.value ==> slots[j].inUse
    ensures r.None? ==> forall j :: 0 <= j < |slots| ==> slots[j].inUse
  {
    if |slots| == 0 then None
    else if !slots[0].inUse then Some(0)
    else match FirstFree(slots[1..])
      case None => None
      case Some(k) => Some(k + 1)
  }

  function InUse(slots: seq<Slot>): nat {
    if |slots| == 0 then 0 else (if slots[0].inUse then 1 else 0) + InUse(slots[1..])
  }

  lemma {:induction false} InUseUpdate(slots: seq<Slot>, k: nat, s: Slot)
    requires k < |slots|
    ensures InUse(slots[k := s]) + (if slots[k].inUse then 1 else 0) == InUse(slots) + (if s.inUse then 1 else 0)
  {
    if k > 0 {
      assert slots[k := s][1..] == slots[1..][k - 1 := s];
      InUseUpdate(slots[1..], k - 1, s);
    } else {
      assert slots[k := s][1..] == slots[1..];
    }
  }

  lemma {:induction false} InUseAtMost(slots: seq<Slot>)
    ensures InUse(slots) <= |slots|
  {
    if |slots| > 0 { InUseAtMost(slots[1..]); }
  }

  lemma {:induction false} InUseFree(n: nat)
    ensures InUse(seq(n, _ => FreeSlot)) == 0
  {
    if n > 0 {
      assert seq(n, _ => FreeSlot)[1..] == seq(n - 1, _ => FreeSlot);
      InUseFree(n - 1);
    }
  }

  /** The bookkeeping register and unregister keep: the counter counts the
      live slots, the fallback counter stays in the mark range, and every
      live slot carries a mark of that range or, for an empty session id,
      mark 0. */
  predicate Valid(m: Monitor) {
    && |m.slots| == MaxSessions
    && m.count == InUse(m.slots)
    && MarkBase <= m.nextMark <= MarkMax
    && forall i :: 0 <= i < |m.slots| && m.slots[i].inUse ==> m.slots[i].mark == 0 || MarkBase <= m.slots[i].mark <= MarkMax
  }

  /** `traffic_monitor_init`: an empty table, the fallback counter at the
      base of the range. */
  function Initial(): Monitor {
    Monitor(seq(MaxSessions, _ => FreeSlot), 0, MarkBase, true)
  }

  lemma InitialValid()
    ensures Valid(Initial())
  {
    InUseFree(MaxSessions);
  }

  /** The mark a new session gets: its hash mark, or on a clash the fallback
      counter (not checked again), which then advances and wraps. */
  function ChooseMark(m: Monitor, id: string): (nat, nat) {
    var h := MarkOf(id);
    if FindByMark(m.slots, h).Some? then
      (m.nextMark, if m.nextMark + 1 > MarkMax then MarkBase else m.nextMark + 1)
    else (h, m.nextMark)
  }

  /** `traffic_register_session`; `None` is a NULL pointer and `firewallOk`
      the outcome of the iptables/nftables command. Returns the mark, 0 on
      failure, and the new table. */
  function Register(m: Monitor, sessionId: Option<string>, clientId: Option<string>, clientIp: Option<string>,
                    firewallOk: bool, now: int): (nat, Monitor)
  {
    if !m.initialized || sessionId.None? || clientIp.None? then (0, m)
    else match FindSession(m.slots, sessionId.value)
      case Some(i) => (m.slots[i].mark, m)
      case None =>
        match FirstFree(m.slots)
        case None => (0, m)
        case Some(k) =>
          var (mark, next) := ChooseMark(m, sessionId.value);
          if !firewallOk then (0, m.(nextMark := next))
          else
            var slot := Slot(true, Bounded(sessionId.value, 127),
                             if clientId.Some? then Bounded(clientId.value, 63) else "",
                             Bounded(clientIp.value, 63), mark, now);
            (mark, m.(slots := m.slots[k := slot], count := CastU32(m.count + 1), nextMark := next))
  }

  /** `traffic_unregister_session`: only the in-use flag is cleared. */
  function Unregister(m: Monitor, sessionId: Option<string>): (int, Monitor) {
    if !m.initialized || sessionId.None? then (-1, m)
    else match FindSession(m.slots, sessionId.value)
      case None => (-1, m)
      case Some(i) =>
        (0, m.(slots := m.slots[i := m.slots[i].(inUse := false)], count := CastU32(m.count - 1)))
  }

  // ------------------------------------------------------------ properties

  lemma ChooseMarkRange(m: Monitor, id: string)
    requires Valid(m)
    ensures var (mark, next) := ChooseMark(m, id);
      (mark == 0 || MarkBase <= mark <= MarkMax) && MarkBase <= next <= MarkMax
  {
    MarkRange(id);
  }

  lemma RegisterValid(m: Monitor, sessionId: Option<string>, clientId: Option<string>, clientIp: Option<string>,
                      firewallOk: bool, now: int)
    requires Valid(m)
    ensures Valid(Register(m, sessionId, clientId, clientIp, firewallOk, now).1)
  {
    if m.initialized && sessionId.Some? && clientIp.Some? && FindSession(m.slots, sessionId.value).None? {
      match FirstFree(m.slots)
      case None =>
      case Some(k) =>
        var id := sessionId.value;
        ChooseMarkRange(m, id);
        var (mark, next) := ChooseMark(m, id);
        var slot := Slot(true, Bounded(id, 127), if clientId.Some? then Bounded(clientId.value, 63) else "",
                         Bounded(clientIp.value, 63), mark, now);
        InUseUpdate(m.slots, k, slot);
        InUseUpdate(m.slots, k, m.slots[k].(inUse := true));
        InUseAtMost(m.slots[k := m.slots[k].(inUse := true)]);
    }
  }

  lemma UnregisterValid(m: Monitor, sessionId: Option<string>)
    requires Valid(m)
    ensures Valid(Unregister(m, sessionId).1)
  {
    if m.initialized && sessionId.Some? {
      match FindSession(m.slots, sessionId.value)
      case None =>
      case Some(i) =>
        InUseUpdate(m.slots, i, m.slots[i].(inUse := false));
        InUseAtMost(m.slots);
    }
  }

  /** An empty session id clashes with no live mark, so it would be recorded
      with mark 0, the "failure" value; the hash mark of any other id is in
      range. */
  lemma EmptyIdGetsMarkZero(m: Monitor, clientIp: string, now: int)
    requires Valid(m) && m.initialized && FindSession(m.slots, "").None? && FirstFree(m.slots).Some? && FindByMark(m.slots, 0).None?
    ensures Register(m, Some(""), None, Some(clientIp), true, now).0 == 0
    ensures InUse(Register(m, Some(""), None, Some(clientIp), true, now).1.slots) == InUse(m.slots) + 1
  {
    var k := FirstFree(m.slots).value;
    var slot := Slot(true, "", "", Bounded(clientIp, 63), 0, now);
    assert Register(m, Some(""), None, Some(clientIp), true, now).1.slots == m.slots[k := slot];
    InUseUpdate(m.slots, k, slot);
  }

  /** Registering a recorded session again returns the same mark and
      changes nothing. */
  lemma RegisterTwice(m: Monitor, id: string, clientId: Option<string>, ip: string, ok: bool, now: int, later: int)
    requires |id| <= 127
    ensures var (mark, m1) := Register(m, Some(id), clientId, Some(ip), ok, now);
      mark != 0 ==> Register(m1, Some(id), clientId, Some(ip), ok, later) == (mark, m1)
  {
    var (mark, m1) := Register(m, Some(id), clientId, Some(ip), ok, now);
    if mark != 0 && FindSession(m.slots, id).None? {
      var k := FirstFree(m.slots).value;
      assert m1.slots[k].inUse && m1.slots[k].sessionId == id;
      assert FindSession(m1.slots, id) == Some(k);
    }
  }

  /** Unregistering a just registered session gives back its slot and the
      counter; the session is no longer found. */
  lemma RegisterUnregister(m: Monitor, id: string, ip: string, now: int)
    requires Valid(m) && |id| <= 127
    ensures var (mark, m1) := Register(m, Some(id), None, Some(ip), true, now);
      var (rc, m2) := Unregister(m1, Some(id));
      mark != 0 && FindSession(m.slots, id).None? ==>
        rc == 0 && m2.count == m.count && FindSession(m2.slots, id).None?
        && forall j :: 0 <= j < |m.slots| ==> m2.slots[j].inUse == m.slots[j].inUse
  {
    var (mark, m1) := Register(m, Some(id), None, Some(ip), true, now);
    if mark != 0 && FindSession(m.slots, id).None? {
      var k := FirstFree(m.slots).value;
      var slot := StoredSlot(m, id, None, ip, now);
      RegisterStored(m, id, None, ip, now);
      StoredIsFound(m.slots, k, slot, id);
      InUseAtMost(m.slots);
      var free := slot.(inUse := false);
      var m2 := Unregister(m1, Some(id)).1;
      assert m2.slots == m1.slots[k := free];
      assert m1.slots[k := free] == m.slots[k := free];
      UnregisterForgets(m.slots, k, free, id);
    }
  }

  /** The slot `register` fills for a new session. */
  function StoredSlot(m: Monitor, id: string, clientId: Option<string>, ip: string, now: int): Slot {
    Slot(true, Bounded(id, 127), if clientId.Some? then Bounded(clientId.value, 63) else "",
         Bounded(ip, 63), ChooseMark(m, id).0, now)
  }

  /** What `register` leaves when it records a new session. */
  lemma RegisterStored(m: Monitor, id: string, clientId: Option<string>, ip: string, now: int)
    requires m.initialized && FindSession(m.slots, id).None? && FirstFree(m.slots).Some?
    ensures var (mark, m1) := Register(m, Some(id), clientId, Some(ip), true, now);
      && mark == ChooseMark(m, id).0
      && m1 == m.(slots := m.slots[FirstFree(m.slots).value := StoredSlot(m, id, clientId, ip, now)],
                  count := CastU32(m.count + 1), nextMark := ChooseMark(m, id).1)
  {
  }

  /** A session stored in the first free slot is the one its id finds. */
  lemma StoredIsFound(slots: seq<Slot>, k: nat, slot: Slot, id: string)
    requires k < |slots| && FindSession(slots, id).None? && slot.inUse && slot.sessionId == id
    ensures FindSession(slots[k := slot], id) == Some(k)
  {
    var s1 := slots[k := slot];
    assert s1[k].inUse && s1[k].sessionId == id;
    assert forall j :: 0 <= j < k ==> s1[j] == slots[j];
  }

  /** A slot overwritten by a free one leaves no slot with an id that no
      slot had before. */
  lemma UnregisterForgets(slots: seq<Slot>, k: nat, free: Slot, id: string)
    requires k < |slots| && !free.inUse && FindSession(slots, id).None?
    ensures FindSession(slots[k := free], id).None?
  {
    var s1 := slots[k := free];
    assert forall j :: 0 <= j < |s1| && j != k ==> s1[j] == slots[j];
  }

  /** A session id of 128 characters or more is stored truncated, so it can
      never be found, unregistered or recognised again. */
  lemma LongIdIsLost(m: Monitor, id: string, ip: string, now: int)
    requires |id| >= 128 && FindSession(m.slots, id).None?
    ensures var m1 := Register(m, Some(id), None, Some(ip), true, now).1;
      FindSession(m1.slots, id).None? && Unregister(m1, Some(id)).0 == -1
  {
    var m1 := Register(m, Some(id), None, Some(ip), true, now).1;
    forall j | 0 <= j < |m1.slots| ensures !(m1.slots[j].inUse && m1.slots[j].sessionId == id) {
      if m1.slots[j] != m.slots[j] {
        assert |m1.slots[j].sessionId| <= 127;
      }
    }
    assert FindSession(m1.slots, id).None?;
  }

  /** The fallback mark is not checked for clashes: with the counter's mark
      already live and the new id's hash mark taken, two live sessions end
      up with the same mark. */
  lemma DuplicateMarkHazard()
    ensures var s0 := Slot(true, "a", "", "10.0.0.1", 0x100, 0);
      var s1 := Slot(true, "b", "", "10.0.0.2", MarkOf("x"), 0);
      var m := Monitor([s0, s1] + seq(MaxSessions - 2, _ => FreeSlot), 2, 0x100, true);
      var (mark, m1) := Register(m, Some("x"), None, Some("10.0.0.3"), true, 0);
      && Valid(m) && mark == 0x100
      && m1.slots[0].inUse && m1.slots[2].inUse && m1.slots[0].mark == m1.slots[2].mark
  {
    var s0 := Slot(true, "a", "", "10.0.0.1", 0x100, 0);
    var s1 := Slot(true, "b", "", "10.0.0.2", MarkOf("x"), 0);
    var free := seq(MaxSessions - 2, _ => FreeSlot);
    var slots := [s0, s1] + free;
    assert Djb2("x") == 177693 by {
      assert "x"[1..] == "";
    }
    InUseFree(MaxSessions - 2);
    assert slots[1..] == [s1] + free && ([s1] + free)[1..] == free;
    assert FindSession(slots, "x") == None by {
      assert FindSession(free, "x") == None;
    }
    assert FirstFree(slots) == Some(2) by {
      assert FirstFree(free) == Some(0);
    }
    assert FindByMark(slots, MarkOf("x")) == Some(1);
  }

  /** `get_session_stats` answers from its cache while it is younger than
      the TTL. */
  predicate CacheFresh(now: int, cacheTime: int) {
    now - cacheTime < StatsCacheTtl
  }

  // ------------------------------------------------------------ the pool

  /** `TrafficMonitorContext`: the slot pool and its counters. */
  class MonitorContext {
    const sessions: array<Slot>
    var count: nat
    var nextMark: nat
    var initialized: bool

    function State(): Monitor
      reads this, sessions
    {
      Monitor(sessions[..], count, nextMark, initialized)
    }

    /** `traffic_monitor_init`. */
    constructor ()
      ensures State() == Initial() && fresh(sessions)
    {
      sessions := new Slot[MaxSessions](_ => FreeSlot);
      count := 0;
      nextMark := MarkBase;
      initialized := true;
    }

    /** `traffic_find_session`. */
    method FindSessionSlot(id: string) returns (r: Option<nat>)
      ensures r == FindSession(sessions[..], id)
    {
      var i := 0;
      while i < sessions.Length
        invariant i <= sessions.Length
        invariant forall j :: 0 <= j < i ==> !(sessions[j].inUse && sessions[j].sessionId == id)
      {
        if sessions[i].inUse && sessions[i].sessionId == id {
          return Some(i);
        }
        i := i + 1;
      }
      return None;
    }

    /** `traffic_find_by_mark`. */
    method FindMarkSlot(mark: nat) returns (r: Option<nat>)
      ensures r == FindByMark(sessions[..], mark)
    {
      var i := 0;
      while i < sessions.Length
        invariant i <= sessions.Length
        invariant forall j :: 0 <= j < i ==> !(sessions[j].inUse && sessions[j].mark == mark)
      {
        if sessions[i].inUse && sessions[i].mark == mark {
          return Some(i);
        }
        i := i + 1;
      }
      return None;
    }

    method FreeSlotIndex() returns (r: Option<nat>)
      ensures r == FirstFree(sessions[..])
    {
      var i := 0;
      while i < sessions.Length
        invariant i <= sessions.Length
        invariant forall j :: 0 <= j < i ==> sessions[j].inUse
      {
        if !sessions[i].inUse {
          return Some(i);
        }
        i := i + 1;
      }
      return None;
    }

    /** `traffic_register_session`. */
    method RegisterSession(sessionId: Option<string>, clientId: Option<string>, clientIp: Option<string>,
                           firewallOk: bool, now: int) returns (mark: nat)
      modifies this, sessions
      ensures (mark, State()) == Register(old(State()), sessionId, clientId, clientIp, firewallOk, now)
    {
      ghost var m0 := State();
      if !initialized || sessionId.None? || clientIp.None? {
        return 0;
      }
      var existing := FindSessionSlot(sessionId.value);
      if existing.Some? {
        return sessions[existing.value].mark;
      }
      var k := FreeSlotIndex();
      if k.None? {
        return 0;
      }
      mark := MarkOf(sessionId.value);
      var conflict := FindMarkSlot(mark);
      if conflict.Some? {
        mark := nextMark;
        nextMark := nextMark + 1;
        if nextMark > MarkMax {
          nextMark := MarkBase;
        }
      }
      if !firewallOk {
        return 0;
      }
      RegisterStored(m0, sessionId.value, clientId, clientIp.value, now);
      sessions[k.value] := Slot(true, Bounded(sessionId.value, 127),
                                if clientId.Some? then Bounded(clientId.value, 63) else "",
                                Bounded(clientIp.value, 63), mark, now);
      assert sessions[..] == m0.slots[k.value := StoredSlot(m0, sessionId.value, clientId, clientIp.value, now)];
      count := CastU32(count + 1);
    }

    /** `traffic_unregister_session`. */
    method UnregisterSession(sessionId: Option<string>) returns (rc: int)
      modifies this, sessions
      ensures (rc, State()) == Unregister(old(State()), sessionId)
    {
      if !initialized || sessionId.None? {
        return -1;
      }
      var i := FindSessionSlot(sessionId.value);
      if i.None? {
        return -1;
      }
      sessions[i.value] := sessions[i.value].(inUse := false);
      count := CastU32(count - 1);
      rc := 0;
    }
  }
}
