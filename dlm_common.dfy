/** The link state every DLM prototype shares: the bearer map with its
    bandwidth accounting, the whitespace trimming of configuration lines and
    the INI configuration loader.

    Counters are C unsigned integers: the usage counters are uint32 and the
    bearer-id counter is uint8, and their wrap-around is written out. */
module DlmCommon {
  import opened Wrappers
  import opened Text
  import opened CString

  const MaxBearers: nat := 16
  const U32: nat := 0x1_0000_0000
  const U8: nat := 256

  // ------------------------------------------------------------ bearer map

  /** One `bearer_map` slot. */
  datatype Bearer = Bearer(id: nat, active: bool, fl: nat, rl: nat, cos: nat, created: int)

  /** A slot after `memset(…, 0, …)`. */
  const ClearedBearer := Bearer(0, false, 0, 0, 0, 0)

  /** What an active slot contributes to a usage counter. */
  datatype Measure = Forward | Return | Slots

  function Weight(b: Bearer, m: Measure): nat {
    if !b.active then 0
    else match m
      case Forward => b.fl
      case Return => b.rl
      case Slots => 1
  }

  /** The sum over the active slots. */
  function Total(bs: seq<Bearer>, m: Measure): nat {
    if |bs| == 0 then 0 else Weight(bs[0], m) + Total(bs[1..], m)
  }

  /** Replacing one slot changes the sum by the difference of the two weights. */
  lemma {:induction false} TotalUpdate(bs: seq<Bearer>, k: nat, b: Bearer, m: Measure)
    requires k < |bs|
    ensures Total(bs[k := b], m) + Weight(bs[k], m) == Total(bs, m) + Weight(b, m)
  {
    if k > 0 {
      assert bs[k := b][1..] == bs[1..][k - 1 := b];
      TotalUpdate(bs[1..], k - 1, b, m);
    } else {
      assert bs[k := b][1..] == bs[1..];
    }
  }

  lemma {:induction false} TotalOfCleared(n: nat, m: Measure)
    ensures Total(seq(n, _ => ClearedBearer), m) == 0
  {
    if n > 0 {
      assert seq(n, _ => ClearedBearer)[1..] == seq(n - 1, _ => ClearedBearer);
      TotalOfCleared(n - 1, m);
    }
  }

  /** The allocator's slot search: the first inactive slot. */
  function FirstInactive(bs: seq<Bearer>): (r: Option<nat>)
    ensures r.Some? ==> r.value < |bs| && !bs[r.value].active && forall j :: 0 <= j < r.value ==> bs[j].active
    ensures r.None? ==> forall j :: 0 <= j < |bs| ==> bs[j].active
  {
    if |bs| == 0 then None
    else if !bs[0].active then Some(0)
    else match FirstInactive(bs[1..])
      case None => None
      case Some(k) => Some(k + 1)
  }

  /** The release search: the first active slot carrying `id`. */
  function FindActive(bs: seq<Bearer>, id: nat): (r: Option<nat>)
    ensures r.Some? ==> r.value < |bs| && bs[r.value].active && bs[r.value].id == id
    ensures r.Some? ==> forall j :: 0 <= j < r.value ==> !(bs[j].active && bs[j].id == id)
    ensures r.None? ==> forall j :: 0 <= j < |bs| ==> !(bs[j].active && bs[j].id == id)
  {
    if |bs| == 0 then None
    else if bs[0].active && bs[0].id == id then Some(0)
    else match FindActive(bs[1..], id)
      case None => None
      case Some(k) => Some(k + 1)
  }

  /** The fields of `dlm_state_simulator_t` the bearer operations use. */
  datatype LinkState = LinkState(
    bearers: seq<Bearer>, usageFl: nat, usageRl: nat, numActive: nat, nextId: nat, rssi: int, quality: nat)

  /** `dlm_state_init`: everything zero except the first bearer id 1, RSSI
      -60 dBm and signal quality 80. */
  function InitialState(): LinkState {
    LinkState(seq(MaxBearers, _ => ClearedBearer), 0, 0, 0, 1, -60, 80)
  }

  /** The bookkeeping both bearer operations keep: each usage counter is the
      uint32 sum of the active slots' allocations, the active counter counts
      them, and an inactive slot is cleared. */
  predicate Consistent(s: LinkState) {
    && |s.bearers| == MaxBearers
    && s.usageFl == Total(s.bearers, Forward) % U32
    && s.usageRl == Total(s.bearers, Return) % U32
    && s.numActive == Total(s.bearers, Slots)
    && s.nextId < U8
    && forall i :: 0 <= i < |s.bearers| ==> s.bearers[i].active || s.bearers[i] == ClearedBearer
  }

  /** No counter has wrapped: the usage is the true sum. */
  predicate Exact(s: LinkState) {
    Total(s.bearers, Forward) < U32 && Total(s.bearers, Return) < U32
  }

  predicate WithinCapacity(s: LinkState, maxFl: nat, maxRl: nat) {
    s.usageFl <= maxFl && s.usageRl <= maxRl
  }

  /** `dlm_allocate_bearer`: the uint32 sums are checked against the
      maxima (-1), then a free slot is searched (-2), then the slot takes the
      next id and the usage grows. Returns the code, the id and the new state. */
  function Allocate(s: LinkState, maxFl: nat, maxRl: nat, reqFl: nat, reqRl: nat, cos: nat, now: int): (int, nat, LinkState) {
    if (s.usageFl + reqFl) % U32 > maxFl || (s.usageRl + reqRl) % U32 > maxRl then (-1, 0, s)
    else match FirstInactive(s.bearers)
      case None => (-2, 0, s)
      case Some(k) =>
        (0, s.nextId, s.(bearers := s.bearers[k := Bearer(s.nextId, true, reqFl, reqRl, cos, now)],
                         usageFl := (s.usageFl + reqFl) % U32, usageRl := (s.usageRl + reqRl) % U32,
                         numActive := (s.numActive + 1) % U8, nextId := (s.nextId + 1) % U8))
  }

  /** `dlm_release_bearer`: -1 without an active slot of that id; otherwise
      the slot's allocation is subtracted (uint32) and the slot cleared. */
  function Release(s: LinkState, id: nat): (int, LinkState) {
    match FindActive(s.bearers, id)
    case None => (-1, s)
    case Some(k) =>
      var b := s.bearers[k];
      (0, s.(bearers := s.bearers[k := ClearedBearer],
             usageFl := (s.usageFl - b.fl) % U32, usageRl := (s.usageRl - b.rl) % U32,
             numActive := (s.numActive - 1) % U8))
  }

  /** Adding to a uint32 value and adding to the true sum agree modulo 2^32. */
  lemma ModAdd(x: int, a: int)
    ensures (x % U32 + a) % U32 == (x + a) % U32
  {
  }

  lemma InitialConsistent()
    ensures Consistent(InitialState()) && Exact(InitialState()) && WithinCapacity(InitialState(), 0, 0)
  {
    TotalOfCleared(MaxBearers, Forward);
    TotalOfCleared(MaxBearers, Return);
    TotalOfCleared(MaxBearers, Slots);
  }

  /** Allocation keeps the bookkeeping, whatever the outcome. */
  lemma AllocateConsistent(s: LinkState, maxFl: nat, maxRl: nat, reqFl: nat, reqRl: nat, cos: nat, now: int)
    requires Consistent(s)
    ensures Consistent(Allocate(s, maxFl, maxRl, reqFl, reqRl, cos, now).2)
  {
    var (rc, id, t) := Allocate(s, maxFl, maxRl, reqFl, reqRl, cos, now);
    if rc == 0 {
      var k := FirstInactive(s.bearers).value;
      var b := Bearer(s.nextId, true, reqFl, reqRl, cos, now);
      TotalUpdate(s.bearers, k, b, Forward);
      TotalUpdate(s.bearers, k, b, Return);
      TotalUpdate(s.bearers, k, b, Slots);
      ModAdd(Total(s.bearers, Forward), reqFl);
      ModAdd(Total(s.bearers, Return), reqRl);
      assert s.numActive < MaxBearers by {
        SlotsBound(s.bearers, k);
      }
    }
  }

  /** With a free slot, fewer than all slots are active. */
  lemma {:induction false} SlotsBound(bs: seq<Bearer>, k: nat)
    requires k < |bs| && !bs[k].active
    ensures Total(bs, Slots) < |bs|
  {
    TotalAtMost(bs);
    TotalUpdate(bs, k, bs[k].(active := true), Slots);
    TotalAtMost(bs[k := bs[k].(active := true)]);
  }

  lemma {:induction false} TotalAtMost(bs: seq<Bearer>)
    ensures Total(bs, Slots) <= |bs|
  {
    if |bs| > 0 { TotalAtMost(bs[1..]); }
  }

  /** Release keeps the bookkeeping, whatever the outcome. */
  lemma ReleaseConsistent(s: LinkState, id: nat)
    requires Consistent(s)
    ensures Consistent(Release(s, id).1)
  {
    match FindActive(s.bearers, id)
    case None =>
    case Some(k) =>
      TotalUpdate(s.bearers, k, ClearedBearer, Forward);
      TotalUpdate(s.bearers, k, ClearedBearer, Return);
      TotalUpdate(s.bearers, k, ClearedBearer, Slots);
      ModAdd(Total(s.bearers, Forward), -(s.bearers[k].fl as int));
      TotalAtMost(s.bearers);
      ModAdd(Total(s.bearers, Return), -(s.bearers[k].rl as int));
  }

  /** An allocation never takes the usage above the maxima: the new usage is
      exactly the sum the check compared. */
  lemma AllocateWithinCapacity(s: LinkState, maxFl: nat, maxRl: nat, reqFl: nat, reqRl: nat, cos: nat, now: int)
    requires WithinCapacity(s, maxFl, maxRl)
    ensures WithinCapacity(Allocate(s, maxFl, maxRl, reqFl, reqRl, cos, now).2, maxFl, maxRl)
  {
  }

  /** While the sums never wrap, a release keeps the usage within the
      maxima and the sums exact. */
  lemma ReleaseWithinCapacity(s: LinkState, id: nat, maxFl: nat, maxRl: nat)
    requires Consistent(s) && Exact(s) && WithinCapacity(s, maxFl, maxRl)
    ensures var t := Release(s, id).1; Exact(t) && WithinCapacity(t, maxFl, maxRl)
  {
    match FindActive(s.bearers, id)
    case None =>
    case Some(k) =>
      TotalUpdate(s.bearers, k, ClearedBearer, Forward);
      TotalUpdate(s.bearers, k, ClearedBearer, Return);
  }

  /** Releasing the bearer just allocated restores the state, apart from
      the id counter, provided no live bearer already carried that id. */
  lemma AllocateReleaseRoundTrip(s: LinkState, maxFl: nat, maxRl: nat, reqFl: nat, reqRl: nat, cos: nat, now: int)
    requires Consistent(s) && reqFl < U32 && reqRl < U32
    requires Allocate(s, maxFl, maxRl, reqFl, reqRl, cos, now).0 == 0
    requires forall j :: 0 <= j < |s.bearers| ==> !(s.bearers[j].active && s.bearers[j].id == s.nextId)
    ensures var (_, id, t) := Allocate(s, maxFl, maxRl, reqFl, reqRl, cos, now);
      Release(t, id) == (0, s.(nextId := (s.nextId + 1) % U8))
  {
    var k := FirstInactive(s.bearers).value;
    var b := Bearer(s.nextId, true, reqFl, reqRl, cos, now);
    var t := s.(bearers := s.bearers[k := b],
                usageFl := (s.usageFl + reqFl) % U32, usageRl := (s.usageRl + reqRl) % U32,
                numActive := (s.numActive + 1) % U8, nextId := (s.nextId + 1) % U8);
    assert Allocate(s, maxFl, maxRl, reqFl, reqRl, cos, now) == (0, s.nextId, t);
    PlacedFound(s.bearers, k, b);
    PlacedCleared(s.bearers, k, b);
    AddThenSubtract(s.usageFl, reqFl, U32);
    AddThenSubtract(s.usageRl, reqRl, U32);
    SlotsBound(s.bearers, k);
    AddThenSubtract(s.numActive, 1, U8);
  }

  /** Adding then subtracting the same amount, in uint32 or uint8
      arithmetic, is the identity on values of that width. */
  lemma AddThenSubtract(x: nat, a: nat, m: nat)
    requires m == U32 || m == U8
    requires x < m
    ensures ((x + a) % m - a) % m == x
  {
    if m == U32 {
      ModAdd(x + a, -(a as int));
    } else {
      assert ((x + a) % U8 - a) % U8 == (x + a - a) % U8;
    }
  }

  /** A slot given an id no active slot carries is the one the release
      search finds. */
  lemma PlacedFound(bs: seq<Bearer>, k: nat, b: Bearer)
    requires k < |bs| && b.active
    requires forall j :: 0 <= j < |bs| ==> !(bs[j].active && bs[j].id == b.id)
    ensures FindActive(bs[k := b], b.id) == Some(k)
  {
    var t := bs[k := b];
    assert t[k].active && t[k].id == b.id;
    assert forall j :: 0 <= j < |t| && j != k ==> t[j] == bs[j];
  }

  /** Clearing a slot that was cleared before it was filled restores it. */
  lemma PlacedCleared(bs: seq<Bearer>, k: nat, b: Bearer)
    requires k < |bs| && bs[k] == ClearedBearer
    ensures bs[k := b][k := ClearedBearer] == bs
  {
  }

  /** The uint32 check lets a huge request through when the sum wraps; the
      release that follows then leaves a usage far above the maximum. */
  lemma UsageWrapHazard()
    ensures var s0 := InitialState();
      var (rc1, id1, s1) := Allocate(s0, 1000, 1000, 1, 0, 0, 0);
      var (rc2, id2, s2) := Allocate(s1, 1000, 1000, U32 - 1, 0, 0, 0);
      var (rc3, s3) := Release(s2, id1);
      && rc1 == 0 && rc2 == 0 && rc3 == 0
      && WithinCapacity(s2, 1000, 1000) && !WithinCapacity(s3, 1000, 1000)
      && s3.usageFl == U32 - 1
  {
    var s0 := InitialState();
    assert FirstInactive(s0.bearers) == Some(0);
    var (rc1, id1, s1) := Allocate(s0, 1000, 1000, 1, 0, 0, 0);
    assert s1.bearers[0].active && s1.bearers[0].id == 1;
    assert FirstInactive(s1.bearers) == Some(1) by {
      assert !s1.bearers[1].active;
    }
    var (rc2, id2, s2) := Allocate(s1, 1000, 1000, U32 - 1, 0, 0, 0);
    assert FindActive(s2.bearers, 1) == Some(0);
  }

  /** The admission check as evidently intended: the sums compared
      without wrapping (as a 64-bit comparison would). */
  function AllocateChecked(s: LinkState, maxFl: nat, maxRl: nat, reqFl: nat, reqRl: nat, cos: nat, now: int): (int, nat, LinkState) {
    if s.usageFl + reqFl > maxFl || s.usageRl + reqRl > maxRl then (-1, 0, s)
    else Allocate(s, maxFl, maxRl, reqFl, reqRl, cos, now)
  }

  /** With uint32 maxima, the corrected check keeps the sums exact and
      within the maxima, so a later release does too. */
  lemma AllocateCheckedKeepsCapacity(s: LinkState, maxFl: nat, maxRl: nat, reqFl: nat, reqRl: nat, cos: nat, now: int)
    requires Consistent(s) && Exact(s) && WithinCapacity(s, maxFl, maxRl) && maxFl < U32 && maxRl < U32
    ensures var t := AllocateChecked(s, maxFl, maxRl, reqFl, reqRl, cos, now).2;
      Consistent(t) && Exact(t) && WithinCapacity(t, maxFl, maxRl)
  {
    var (rc, id, t) := AllocateChecked(s, maxFl, maxRl, reqFl, reqRl, cos, now);
    AllocateConsistent(s, maxFl, maxRl, reqFl, reqRl, cos, now);
    if rc == 0 {
      var k := FirstInactive(s.bearers).value;
      var b := Bearer(s.nextId, true, reqFl, reqRl, cos, now);
      assert t.bearers == s.bearers[k := b];
      assert Weight(s.bearers[k], Forward) == 0 && Weight(s.bearers[k], Return) == 0;
      TotalUpdate(s.bearers, k, b, Forward);
      TotalUpdate(s.bearers, k, b, Return);
      assert Total(t.bearers, Forward) == s.usageFl + reqFl;
      assert Total(t.bearers, Return) == s.usageRl + reqRl;
    }
  }

  /** Where no sum wraps, the corrected check decides as the code does. */
  lemma AllocateCheckedAgrees(s: LinkState, maxFl: nat, maxRl: nat, reqFl: nat, reqRl: nat, cos: nat, now: int)
    requires s.usageFl + reqFl < U32 && s.usageRl + reqRl < U32
    ensures AllocateChecked(s, maxFl, maxRl, reqFl, reqRl, cos, now) == Allocate(s, maxFl, maxRl, reqFl, reqRl, cos, now)
  {
  }

  /** The corrected check refuses the request the code lets through in
      `UsageWrapHazard`. */
  lemma AllocateCheckedRefusesWrap()
    ensures var s1 := Allocate(InitialState(), 1000, 1000, 1, 0, 0, 0).2;
      AllocateChecked(s1, 1000, 1000, U32 - 1, 0, 0, 0).0 == -1
  {
    assert FirstInactive(InitialState().bearers) == Some(0);
  }

  /** `dlm_state_simulator_t`'s bearer fields, updated in place. */
  class DlmState {
    const bearers: array<Bearer>
    var usageFl: nat
    var usageRl: nat
    var numActive: nat
    var nextId: nat
    var rssi: int
    var quality: nat

    function Snapshot(): LinkState
      reads this, bearers
    {
      LinkState(bearers[..], usageFl, usageRl, numActive, nextId, rssi, quality)
    }

    /** `dlm_state_init`. */
    constructor ()
      ensures fresh(bearers) && Snapshot() == InitialState()
    {
      bearers := new Bearer[MaxBearers](_ => ClearedBearer);
      usageFl, usageRl, numActive := 0, 0, 0;
      nextId := 1;
      rssi := -60;
      quality := 80;
    }

    /** `dlm_allocate_bearer`. */
    method AllocateBearer(maxFl: nat, maxRl: nat, reqFl: nat, reqRl: nat, cos: nat, now: int) returns (rc: int, id: nat)
      modifies this, bearers
      ensures (rc, id, Snapshot()) == Allocate(old(Snapshot()), maxFl, maxRl, reqFl, reqRl, cos, now)
    {
      if (usageFl + reqFl) % U32 > maxFl || (usageRl + reqRl) % U32 > maxRl {
        return -1, 0;
      }
      var slot := 0;
      while slot < bearers.Length && bearers[slot].active
        invariant 0 <= slot <= bearers.Length
        invariant forall j :: 0 <= j < slot ==> bearers[j].active
      {
        slot := slot + 1;
      }
      if slot == bearers.Length {
        return -2, 0;
      }
      id := nextId;
      nextId := (nextId + 1) % U8;
      bearers[slot] := Bearer(id, true, reqFl, reqRl, cos, now);
      usageFl := (usageFl + reqFl) % U32;
      usageRl := (usageRl + reqRl) % U32;
      numActive := (numActive + 1) % U8;
      rc := 0;
    }

    /** `dlm_release_bearer`. */
    method ReleaseBearer(id: nat) returns (rc: int)
      modifies this, bearers
      ensures (rc, Snapshot()) == Release(old(Snapshot()), id)
    {
      var slot := 0;
      while slot < bearers.Length && !(bearers[slot].active && bearers[slot].id == id)
        invariant 0 <= slot <= bearers.Length
        invariant forall j :: 0 <= j < slot ==> !(bearers[j].active && bearers[j].id == id)
      {
        slot := slot + 1;
      }
      if slot == bearers.Length {
        return -1;
      }
      var b := bearers[slot];
      usageFl := (usageFl - b.fl) % U32;
      usageRl := (usageRl - b.rl) % U32;
      numActive := (numActive - 1) % U8;
      bearers[slot] := ClearedBearer;
      rc := 0;
    }
  }

  // ------------------------------------------------------------- dlm_trim

  predicate LeadBlank(c: char) { c == ' ' || c == '\t' }

  predicate TrailBlank(c: char) { c == ' ' || c == '\t' || c == '\n' || c == '\r' }

  function DropLead(s: string): (r: string)
    ensures |r| <= |s| && (|r| == 0 || !LeadBlank(r[0]))
  {
    if |s| > 0 && LeadBlank(s[0]) then DropLead(s[1..]) else s
  }

  function DropTrail(s: string): (r: string)
    ensures |r| <= |s| && (|r| == 0 || !TrailBlank(r[|r| - 1]))
  {
    if |s| > 0 && TrailBlank(s[|s| - 1]) then DropTrail(s[..|s| - 1]) else s
  }

  /** What `dlm_trim` leaves: leading spaces and tabs go, then trailing
      spaces, tabs, \n and \r go, but never the first remaining character. */
  function DlmTrimmed(s: string): (r: string)
    ensures |r| <= |s|
    ensures |r| == 0 || !LeadBlank(r[0])
    ensures |r| <= 1 || !TrailBlank(r[|r| - 1])
  {
    var t := DropLead(s);
    if |t| == 0 then t else [t[0]] + DropTrail(t[1..])
  }

  /** A string `dlm_trim` leaves as it is. */
  predicate Clean(s: string) {
    |s| == 0 || (!LeadBlank(s[0]) && !TrailBlank(s[|s| - 1]))
  }

  lemma CleanTrimmed(s: string)
    requires Clean(s)
    ensures DlmTrimmed(s) == s
  {
    if |s| > 0 {
      assert s == [s[0]] + s[1..];
      if |s| > 1 {
        assert s[1..][|s[1..]| - 1] == s[|s| - 1];
      }
    }
  }

  /** Trimming twice is trimming once. */
  lemma TrimIdempotent(s: string)
    ensures DlmTrimmed(DlmTrimmed(s)) == DlmTrimmed(s)
  {
    var r := DlmTrimmed(s);
    if |r| == 1 {
      assert DropLead(r) == r;
      assert r[1..] == "";
    } else {
      CleanTrimmed(r);
    }
  }

  /** The first character after the leading blanks is never removed, so a
      line of " \r\n" keeps its "\r". */
  lemma TrimKeepsFirst()
    ensures DlmTrimmed(" \r\n") == "\r"
  {
    var s := " \r\n";
    assert s[1..] == "\r\n";
    assert DropLead(s) == DropLead("\r\n") == "\r\n";
    assert "\r\n"[1..] == "\n";
    assert "\n"[..0] == "";
    assert DropTrail("\n") == DropTrail("") == "";
  }

  /** `dlm_trim` on the text of a line buffer: the returned pointer is the
      offset `lo`, and the '\0' it writes over the trailing blanks leaves the
      string ending at `hi`. */
  method DlmTrim(s: string) returns (lo: nat, hi: nat)
    ensures lo <= hi <= |s| && s[lo..hi] == DlmTrimmed(s)
    ensures forall i :: 0 <= i < lo ==> LeadBlank(s[i])
    ensures forall i :: hi <= i < |s| ==> TrailBlank(s[i])
  {
    lo := 0;
    while lo < |s| && LeadBlank(s[lo])
      invariant lo <= |s| && DropLead(s[lo..]) == DropLead(s)
      invariant forall i :: 0 <= i < lo ==> LeadBlank(s[i])
    {
      LeadStep(s, lo);
      lo := lo + 1;
    }
    if lo == |s| {
      TrimmedAll(s);
      return lo, lo;
    }
    hi := TrailingEnd(s, lo + 1);
    TrimmedFrom(s, lo, hi);
  }

  /** The backward scan of `dlm_trim`: the end of `s` once the trailing
      blanks after position `a` are cut. */
  method TrailingEnd(s: string, a: nat) returns (hi: nat)
    requires 0 < a <= |s|
    ensures a <= hi <= |s| && DropTrail(s[a..hi]) == DropTrail(s[a..|s|])
    ensures hi == a || !TrailBlank(s[hi - 1])
    ensures forall i :: hi <= i < |s| ==> TrailBlank(s[i])
  {
    hi := |s|;
    while hi > a && TrailBlank(s[hi - 1])
      invariant a <= hi <= |s| && DropTrail(s[a..hi]) == DropTrail(s[a..|s|])
      invariant forall i :: hi <= i < |s| ==> TrailBlank(s[i])
    {
      TrailStep(s, a, hi);
      hi := hi - 1;
    }
  }

  lemma LeadStep(s: string, lo: nat)
    requires lo < |s| && LeadBlank(s[lo])
    ensures DropLead(s[lo..]) == DropLead(s[lo + 1..])
  {
    assert s[lo..][1..] == s[lo + 1..];
  }

  lemma TrimmedAll(s: string)
    requires DropLead(s[|s|..]) == DropLead(s)
    ensures DlmTrimmed(s) == ""
  {
  }

  lemma TrailStep(s: string, a: nat, b: nat)
    requires a < b <= |s| && TrailBlank(s[b - 1])
    ensures DropTrail(s[a..b]) == DropTrail(s[a..b - 1])
  {
    var u := s[a..b];
    assert u[|u| - 1] == s[b - 1];
    assert u[..|u| - 1] == s[a..b - 1];
  }

  lemma TrimmedFrom(s: string, lo: nat, hi: nat)
    requires lo < hi <= |s| && DropLead(s[lo..]) == DropLead(s) && !LeadBlank(s[lo])
    requires DropTrail(s[lo + 1..hi]) == DropTrail(s[lo + 1..|s|])
    requires hi == lo + 1 || !TrailBlank(s[hi - 1])
    ensures s[lo..hi] == DlmTrimmed(s)
  {
    LeadClean(s, lo);
    TrimmedAt(s, lo);
    TrailClean(s, lo + 1, hi);
    ConsSlice(s, lo, hi);
  }

  lemma LeadClean(s: string, lo: nat)
    requires lo < |s| && !LeadBlank(s[lo])
    ensures DropLead(s[lo..]) == s[lo..]
  {
    assert s[lo..][0] == s[lo];
  }

  lemma TrimmedAt(s: string, lo: nat)
    requires lo < |s| && DropLead(s) == s[lo..]
    ensures DlmTrimmed(s) == [s[lo]] + DropTrail(s[lo + 1..|s|])
  {
    var t := DropLead(s);
    assert t[0] == s[lo] && t[1..] == s[lo + 1..|s|];
  }

  lemma TrailClean(s: string, a: nat, b: nat)
    requires a <= b <= |s| && (b == a || !TrailBlank(s[b - 1]))
    ensures DropTrail(s[a..b]) == s[a..b]
  {
    if a < b {
      assert s[a..b][b - a - 1] == s[b - 1];
    }
  }

  lemma ConsSlice(s: string, lo: nat, hi: nat)
    requires lo < hi <= |s|
    ensures s[lo..hi] == [s[lo]] + s[lo + 1..hi]
  {
  }

  // ------------------------------------------------------- dlm_load_config

  const LinkSatcom := 1
  const LinkCellular := 2
  const LinkWifi := 3

  /** The fields of `dlm_config_manager_t` the loader writes (the float
      cost factor is not modelled). */
  datatype LinkConfig = LinkConfig(
    linkId: nat, linkType: int, linkName: string, interfaceName: string,
    maxFl: nat, maxRl: nat, delayMs: nat, jitterMs: nat,
    rssiThreshold: int, rssiMin: int, rssiMax: int, costPerMbCents: nat,
    securityLevel: nat, mtu: nat, isAsymmetric: bool, groundOnly: bool,
    reportingIntervalSec: nat, heartbeatIntervalSec: nat)

  /** `dlm_network_config_t`. */
  datatype NetConfig = NetConfig(
    interfaceName: string, ipAddress: string, gateway: string, netmask: string,
    mihfPath: string, dlmPath: string, initialRssi: int, goingDownLeadMs: int)

  /** The network defaults set before the first line is read. */
  function DefaultNet(): NetConfig {
    NetConfig("", "", "", "", "/tmp/mihf.sock", "", -60, 3000)
  }

  /** Every string fits its C buffer and every unsigned field its width. */
  predicate Fits(c: LinkConfig, n: NetConfig) {
    && c.linkId < 0x100 && |c.linkName| <= 31 && |c.interfaceName| <= 15
    && c.maxFl < U32 && c.maxRl < U32 && c.delayMs < U32 && c.jitterMs < U32
    && c.costPerMbCents < U32 && c.securityLevel < 0x100 && c.mtu < 0x1_0000
    && c.reportingIntervalSec < U32 && c.heartbeatIntervalSec < U32
    && |n.interfaceName| <= 31 && |n.ipAddress| <= 31 && |n.gateway| <= 31 && |n.netmask| <= 31
    && |n.mihfPath| <= 127 && |n.dlmPath| <= 127
  }

  /** One line of the file after trimming. */
  datatype LineKind = Ignored | Header(name: string) | Setting(key: string, value: string)

  /** Blank lines and lines starting with '#' or ';' are ignored; "[name]"
      names a section (text after ']' is dropped, a '[' without ']' is
      ignored); otherwise the line splits at its first '=' into a trimmed
      key and value, and a line without '=' is ignored. */
  function Classify(line: string): LineKind {
    var t := DlmTrimmed(line);
    if |t| == 0 || t[0] == '#' || t[0] == ';' then Ignored
    else if t[0] == '[' then
      match IndexOf(t, ']')
      case None => Ignored
      case Some(j) => Header(Bounded(t[1..j], 63))
    else
      match IndexOf(t, '=')
      case None => Ignored
      case Some(j) => Setting(DlmTrimmed(t[..j]), DlmTrimmed(t[j + 1..]))
  }

  /** The loader's state between lines: the current section and the two
      structures. */
  datatype Loading = Loading(section: string, config: LinkConfig, net: NetConfig)

  /** "true" in any case, or "1". */
  predicate Flag(v: string) {
    EqualsIgnoreCase(v, "true") || v == "1"
  }

  function SetGeneral(ld: Loading, key: string, v: string): Loading {
    var c := ld.config;
    if key == "link_id" then ld.(config := c.(linkId := CastU8(Strtol(v, 0))))
    else if key == "link_type" then
      if EqualsIgnoreCase(v, "satcom") then ld.(config := c.(linkType := LinkSatcom))
      else if EqualsIgnoreCase(v, "cellular") then ld.(config := c.(linkType := LinkCellular))
      else if EqualsIgnoreCase(v, "wifi") then ld.(config := c.(linkType := LinkWifi))
      else ld
    else if key == "link_name" then ld.(config := c.(linkName := Bounded(v, 31)))
    else ld
  }

  function SetInterface(ld: Loading, key: string, v: string): Loading {
    var n := ld.net;
    if key == "name" then
      ld.(config := ld.config.(interfaceName := Bounded(v, 15)), net := n.(interfaceName := Bounded(v, 31)))
    else if key == "ip_address" then ld.(net := n.(ipAddress := Bounded(v, 31), gateway := Bounded(v, 31)))
    else if key == "netmask" then ld.(net := n.(netmask := Bounded(v, 31)))
    else if key == "gateway" then ld.(net := n.(gateway := Bounded(v, 31)))
    else ld
  }

  function SetBandwidth(ld: Loading, key: string, v: string): Loading {
    var c := ld.config;
    if key == "max_forward_link_kbps" then ld.(config := c.(maxFl := CastU32(Atoi(v))))
    else if key == "max_return_link_kbps" then ld.(config := c.(maxRl := CastU32(Atoi(v))))
    else ld
  }

  function SetLatency(ld: Loading, key: string, v: string): Loading {
    var c := ld.config;
    if key == "delay_ms" then ld.(config := c.(delayMs := CastU32(Atoi(v))))
    else if key == "jitter_ms" then ld.(config := c.(jitterMs := CastU32(Atoi(v))))
    else ld
  }

  function SetSignal(ld: Loading, key: string, v: string): Loading {
    var c := ld.config;
    if key == "rssi_threshold_dbm" then ld.(config := c.(rssiThreshold := Atoi(v)))
    else if key == "rssi_min_dbm" then ld.(config := c.(rssiMin := Atoi(v)))
    else if key == "rssi_max_dbm" then ld.(config := c.(rssiMax := Atoi(v)))
    else if key == "initial_rssi_dbm" then ld.(net := ld.net.(initialRssi := Atoi(v)))
    else ld
  }

  /** The float "factor" key is not modelled. */
  function SetCost(ld: Loading, key: string, v: string): Loading {
    if key == "per_mb_cents" then ld.(config := ld.config.(costPerMbCents := CastU32(Atoi(v))))
    else ld
  }

  function SetTiming(ld: Loading, key: string, v: string): Loading {
    var c := ld.config;
    if key == "reporting_interval_sec" then ld.(config := c.(reportingIntervalSec := CastU32(Atoi(v))))
    else if key == "heartbeat_interval_sec" then ld.(config := c.(heartbeatIntervalSec := CastU32(Atoi(v))))
    else if key == "going_down_lead_time_ms" then ld.(net := ld.net.(goingDownLeadMs := Atoi(v)))
    else ld
  }

  function SetNetwork(ld: Loading, key: string, v: string): Loading {
    var c := ld.config;
    if key == "security_level" then ld.(config := c.(securityLevel := CastU8(Atoi(v))))
    else if key == "mtu" then ld.(config := c.(mtu := CastU16(Atoi(v))))
    else if key == "is_asymmetric" then ld.(config := c.(isAsymmetric := Flag(v)))
    else if key == "ground_only" then ld.(config := c.(groundOnly := Flag(v)))
    else ld
  }

  function SetSocket(ld: Loading, key: string, v: string): Loading {
    if key == "mihf_path" then ld.(net := ld.net.(mihfPath := Bounded(v, 127)))
    else if key == "dlm_path" then ld.(net := ld.net.(dlmPath := Bounded(v, 127)))
    else ld
  }

  /** The effect of one setting in the current section; unknown sections
      and keys change nothing. */
  function Set(ld: Loading, key: string, v: string): Loading {
    if ld.section == "general" then SetGeneral(ld, key, v)
    else if ld.section == "interface" then SetInterface(ld, key, v)
    else if ld.section == "bandwidth" then SetBandwidth(ld, key, v)
    else if ld.section == "latency" then SetLatency(ld, key, v)
    else if ld.section == "signal" then SetSignal(ld, key, v)
    else if ld.section == "cost" then SetCost(ld, key, v)
    else if ld.section == "network" then SetNetwork(ld, key, v)
    else if ld.section == "timing" then SetTiming(ld, key, v)
    else if ld.section == "socket" then SetSocket(ld, key, v)
    else ld
  }

  function ApplyLine(ld: Loading, line: string): Loading {
    match Classify(line)
    case Ignored => ld
    case Header(name) => ld.(section := name)
    case Setting(key, v) => Set(ld, key, v)
  }

  function Load(ld: Loading, lines: seq<string>): Loading
    decreases |lines|
  {
    if |lines| == 0 then ld else Load(ApplyLine(ld, lines[0]), lines[1..])
  }

  /** The result of reading a file's lines into `config`: no section yet
      and the network defaults. */
  function LoadAll(config: LinkConfig, lines: seq<string>): (LinkConfig, NetConfig) {
    var ld := Load(Loading("", config, DefaultNet()), lines);
    (ld.config, ld.net)
  }

  /** `dlm_load_config` over the lines of the file; `None` is a file that
      cannot be opened, which leaves both structures untouched. */
  method LoadConfig(file: Option<seq<string>>, config: LinkConfig, net: NetConfig)
    returns (rc: int, config': LinkConfig, net': NetConfig)
    ensures file.None? ==> rc == -1 && config' == config && net' == net
    ensures file.Some? ==> rc == 0 && (config', net') == LoadAll(config, file.value)
  {
    if file.None? {
      return -1, config, net;
    }
    var lines := file.value;
    var ld := Loading("", config, DefaultNet());
    var i := 0;
    while i < |lines|
      invariant i <= |lines|
      invariant Load(ld, lines[i..]) == Load(Loading("", config, DefaultNet()), lines)
    {
      assert lines[i..][1..] == lines[i + 1..];
      ld := ApplyLine(ld, lines[i]);
      i := i + 1;
    }
    return 0, ld.config, ld.net;
  }

  // ---------------------------------------------------- what loading means

  lemma SetFits(ld: Loading, key: string, v: string)
    requires Fits(ld.config, ld.net)
    ensures Fits(Set(ld, key, v).config, Set(ld, key, v).net)
  {
    if ld.section == "general" {
      SetGeneralFits(ld, key, v);
    }     else if ld.section == "interface" {
      SetInterfaceFits(ld, key, v);
    }     else if ld.section == "bandwidth" {
      SetBandwidthFits(ld, key, v);
    }     else if ld.section == "latency" {
      SetLatencyFits(ld, key, v);
    }     else if ld.section == "signal" {
      SetSignalFits(ld, key, v);
    }     else if ld.section == "cost" {
      SetCostFits(ld, key, v);
    }     else if ld.section == "network" {
      SetNetworkFits(ld, key, v);
    }     else if ld.section == "timing" {
      SetTimingFits(ld, key, v);
    }     else if ld.section == "socket" {
      SetSocketFits(ld, key, v);
    }
  }

  lemma SetGeneralFits(ld: Loading, key: string, v: string)
    requires Fits(ld.config, ld.net)
    ensures Fits(SetGeneral(ld, key, v).config, SetGeneral(ld, key, v).net)
  {
  }

  lemma SetInterfaceFits(ld: Loading, key: string, v: string)
    requires Fits(ld.config, ld.net)
    ensures Fits(SetInterface(ld, key, v).config, SetInterface(ld, key, v).net)
  {
  }

  lemma SetBandwidthFits(ld: Loading, key: string, v: string)
    requires Fits(ld.config, ld.net)
    ensures Fits(SetBandwidth(ld, key, v).config, SetBandwidth(ld, key, v).net)
  {
  }

  lemma SetLatencyFits(ld: Loading, key: string, v: string)
    requires Fits(ld.config, ld.net)
    ensures Fits(SetLatency(ld, key, v).config, SetLatency(ld, key, v).net)
  {
  }

  lemma SetSignalFits(ld: Loading, key: string, v: string)
    requires Fits(ld.config, ld.net)
    ensures Fits(SetSignal(ld, key, v).config, SetSignal(ld, key, v).net)
  {
  }

  lemma SetCostFits(ld: Loading, key: string, v: string)
    requires Fits(ld.config, ld.net)
    ensures Fits(SetCost(ld, key, v).config, SetCost(ld, key, v).net)
  {
  }

  lemma SetNetworkFits(ld: Loading, key: string, v: string)
    requires Fits(ld.config, ld.net)
    ensures Fits(SetNetwork(ld, key, v).config, SetNetwork(ld, key, v).net)
  {
  }

  lemma SetTimingFits(ld: Loading, key: string, v: string)
    requires Fits(ld.config, ld.net)
    ensures Fits(SetTiming(ld, key, v).config, SetTiming(ld, key, v).net)
  {
  }

  lemma SetSocketFits(ld: Loading, key: string, v: string)
    requires Fits(ld.config, ld.net)
    ensures Fits(SetSocket(ld, key, v).config, SetSocket(ld, key, v).net)
  {
  }

  lemma ApplyLineFits(ld: Loading, line: string)
    requires Fits(ld.config, ld.net)
    ensures Fits(ApplyLine(ld, line).config, ApplyLine(ld, line).net)
  {
    match Classify(line)
    case Ignored =>
    case Header(name) =>
    case Setting(key, v) => SetFits(ld, key, v);
  }

  /** Whatever the file says, every field ends within its C buffer or
      integer width, provided the configuration started that way. */
  lemma {:induction false} LoadFits(config: LinkConfig, lines: seq<string>)
    requires Fits(config, DefaultNet())
    ensures Fits(LoadAll(config, lines).0, LoadAll(config, lines).1)
  {
    LoadFitsFrom(Loading("", config, DefaultNet()), lines);
  }

  lemma {:induction false} LoadFitsFrom(ld: Loading, lines: seq<string>)
    requires Fits(ld.config, ld.net)
    ensures Fits(Load(ld, lines).config, Load(ld, lines).net)
    decreases |lines|
  {
    if |lines| > 0 {
      ApplyLineFits(ld, lines[0]);
      LoadFitsFrom(ApplyLine(ld, lines[0]), lines[1..]);
    }
  }

  function Relevant(lines: seq<string>): seq<string> {
    if |lines| == 0 then []
    else if Classify(lines[0]).Ignored? then Relevant(lines[1..])
    else [lines[0]] + Relevant(lines[1..])
  }

  /** Blank lines, comments and lines without '=' can be deleted from a file
      without changing what it loads. */
  lemma {:induction false} IgnoredLinesChangeNothing(ld: Loading, lines: seq<string>)
    ensures Load(ld, Relevant(lines)) == Load(ld, lines)
    decreases |lines|
  {
    if |lines| > 0 {
      if Classify(lines[0]).Ignored? {
        IgnoredLinesChangeNothing(ld, lines[1..]);
      } else {
        var r := [lines[0]] + Relevant(lines[1..]);
        assert r[1..] == Relevant(lines[1..]);
        IgnoredLinesChangeNothing(ApplyLine(ld, lines[0]), lines[1..]);
      }
    }
  }

  /** A file with no settings yields the network defaults and leaves the
      link configuration as it was. */
  lemma NoSettingsGiveDefaults(config: LinkConfig, lines: seq<string>)
    requires forall i :: 0 <= i < |lines| ==> !Classify(lines[i]).Setting?
    ensures LoadAll(config, lines) == (config, DefaultNet())
  {
    HeadersKeepStructures(Loading("", config, DefaultNet()), lines);
  }

  lemma {:induction false} HeadersKeepStructures(ld: Loading, lines: seq<string>)
    requires forall i :: 0 <= i < |lines| ==> !Classify(lines[i]).Setting?
    ensures Load(ld, lines).config == ld.config && Load(ld, lines).net == ld.net
    decreases |lines|
  {
    if |lines| > 0 {
      assert !Classify(lines[0]).Setting?;
      HeadersKeepStructures(ApplyLine(ld, lines[0]), lines[1..]);
    }
  }

  /** A section header reads back as the name it was written with. */
  lemma HeaderRoundTrip(name: string)
    requires ']' !in name && |name| <= 63
    ensures Classify("[" + name + "]") == Header(name)
  {
    var line := "[" + name + "]";
    assert Clean(line);
    CleanTrimmed(line);
    assert line == "[" + name + [']'] + "";
    IndexOfAfter("[" + name, ']', "");
    assert line[1..|name| + 1] == name;
  }

  /** A "key=value" line with clean key and value reads back as that
      setting. */
  lemma SettingRoundTrip(key: string, value: string)
    requires |key| > 0 && Clean(key) && Clean(value) && '=' !in key
    requires key[0] != '#' && key[0] != ';' && key[0] != '['
    ensures Classify(key + "=" + value) == Setting(key, value)
  {
    var line := key + "=" + value;
    assert line[0] == key[0];
    assert |value| > 0 ==> line[|line| - 1] == value[|value| - 1];
    assert Clean(line);
    CleanTrimmed(line);
    assert line == key + ['='] + value;
    IndexOfAfter(key, '=', value);
    assert line[..|key|] == key;
    assert line[|key| + 1..] == value;
    CleanTrimmed(key);
    CleanTrimmed(value);
  }

  lemma ApplySetting(ld: Loading, key: string, value: string)
    requires |key| > 0 && Clean(key) && Clean(value) && '=' !in key
    requires key[0] != '#' && key[0] != ';' && key[0] != '['
    ensures ApplyLine(ld, key + "=" + value) == Set(ld, key, value)
  {
    SettingRoundTrip(key, value);
  }

  /** In [interface], "ip_address" sets the gateway as well, and a later
      "gateway" overrides it without touching the address. */
  lemma GatewayDefaultsToAddress(ld: Loading, ip: string, gw: string)
    requires ld.section == "interface"
    ensures var a := Set(ld, "ip_address", ip);
      && a.net.ipAddress == Bounded(ip, 31) && a.net.gateway == Bounded(ip, 31)
      && var b := Set(a, "gateway", gw);
      b.net.gateway == Bounded(gw, 31) && b.net.ipAddress == Bounded(ip, 31)
  {
    var a := Set(ld, "ip_address", ip);
    assert a == SetInterface(ld, "ip_address", ip);
    assert Set(a, "gateway", gw) == SetInterface(a, "gateway", gw);
  }

  /** "link_type" ignores case; an unknown name leaves the type as it was. */
  lemma LinkTypeIgnoresCase(ld: Loading, v: string)
    requires ld.section == "general"
    ensures EqualsIgnoreCase(v, "satcom") ==> Set(ld, "link_type", v).config.linkType == LinkSatcom
    ensures EqualsIgnoreCase(v, "cellular") ==> Set(ld, "link_type", v).config.linkType == LinkCellular
    ensures EqualsIgnoreCase(v, "wifi") ==> Set(ld, "link_type", v).config.linkType == LinkWifi
    ensures !EqualsIgnoreCase(v, "satcom") && !EqualsIgnoreCase(v, "cellular") && !EqualsIgnoreCase(v, "wifi")
      ==> Set(ld, "link_type", v) == ld
  {
    assert Set(ld, "link_type", v) == SetGeneral(ld, "link_type", v);
  }

  /** The boolean keys accept "true" in any case and "1", nothing else. */
  lemma FlagValues()
    ensures Flag("true") && Flag("TRUE") && Flag("True") && Flag("1")
    ensures !Flag("yes") && !Flag("0") && !Flag("") && !Flag("true ")
  {
  }
}
