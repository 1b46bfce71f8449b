/** Call detail records (`magic_cdr.c`): the uint64 traffic arithmetic,
    the 1024-slot record table with its id and count bookkeeping, and the
    rollover that closes a record and opens its successor in one step. */
module MagicCdr {
  import opened Wrappers
  import opened CString

  const U32: nat := 0x1_0000_0000
  const U64: nat := 0x1_0000_0000_0000_0000
  const U64Max: nat := U64 - 1

  const MaxCdrRecords: nat := 1024
  /** Capacities of the NUL-terminated text fields (array size minus one). */
  const UuidCap: nat := 63
  const SessionCap: nat := 127
  const ClientCap: nat := 63
  const DlmCap: nat := 63

  /** `CDRStatus`. */
  const StatusUnknown: int := 0
  const StatusActive: int := 1
  const StatusFinished: int := 2
  const StatusArchived: int := 3
  const StatusRollover: int := 4

  /** `cdr_status_name`. */
  function StatusName(s: int): (r: string)
    ensures r == "UNKNOWN" <==> !(StatusActive <= s <= StatusRollover)
    ensures '"' !in r
  {
    if s == StatusActive then "ACTIVE"
    else if s == StatusFinished then "FINISHED"
    else if s == StatusArchived then "ARCHIVED"
    else if s == StatusRollover then "ROLLOVER"
    else "UNKNOWN"
  }

  /** `CDRRecord` without its mutex. */
  datatype Cdr = Cdr(
    id: nat, uuid: string, sessionId: string, clientId: string,
    status: int, inUse: bool,
    startTime: int, stopTime: int, archiveTime: int,
    bytesIn: nat, bytesOut: nat, packetsIn: nat, packetsOut: nat,
    baseIn: nat, baseOut: nat,
    overflowIn: nat, overflowOut: nat, lastIn: nat, lastOut: nat,
    dlmName: string, bearerId: nat)

  /** A slot after `memset(cdr, 0, …)`. */
  const Zeroed: Cdr := Cdr(0, "", "", "", StatusUnknown, false, 0, 0, 0,
                           0, 0, 0, 0, 0, 0, 0, 0, 0, 0, "", 0)

  /** The C field types: what a record can hold at all. */
  predicate Fits(c: Cdr) {
    c.id < U32 && c.bearerId < 0x100
    && |c.uuid| <= UuidCap && |c.sessionId| <= SessionCap
    && |c.clientId| <= ClientCap && |c.dlmName| <= DlmCap
    && c.bytesIn < U64 && c.bytesOut < U64 && c.packetsIn < U64 && c.packetsOut < U64
    && c.baseIn < U64 && c.baseOut < U64
    && c.overflowIn < U32 && c.overflowOut < U32
    && c.lastIn < U64 && c.lastOut < U64
  }

  // ------------------------------------------------------ counter arithmetic

  /** `cdr_detect_overflow`: the counter went down by more than half the
      uint64 range, so it wrapped rather than jittered. */
  predicate DetectOverflow(current: nat, previous: nat) {
    current < previous && previous - current > U64Max / 2
  }

  /** A wrap is detected exactly when the counter fell and the forward
      distance modulo 2^64 from `previous` to `current` is at most 2^63. */
  lemma OverflowIsShortWrap(current: nat, previous: nat)
    requires current < U64 && previous < U64
    ensures DetectOverflow(current, previous)
            <==> current < previous && (current - previous) % U64 <= U64 / 2
  {
    if current < previous {
      assert (current - previous) % U64 == current - previous + U64;
    }
  }

  /** One direction of `cdr_get_actual_traffic`, in uint64 arithmetic. */
  function Actual(bytes: nat, base: nat, overflows: nat): (r: nat)
    requires bytes < U64 && base < U64
    ensures r < U64
  {
    var d := if bytes >= base then bytes - base else (U64Max - base) + bytes + 1;
    if overflows > 0 then (d + (overflows * U64Max) % U64) % U64 else d
  }

  lemma MulMaxMod(n: nat)
    requires 0 < n < U64
    ensures (n * U64Max) % U64 == U64 - n
  {
    assert n * U64Max == (n - 1) * U64 + (U64 - n);
  }

  /** The traffic of a record is its counter minus its base, modulo 2^64;
      each recorded wrap takes one byte away rather than adding 2^64. */
  lemma ActualIsWrappedDifference(bytes: nat, base: nat, overflows: nat)
    requires bytes < U64 && base < U64 && overflows < U32
    ensures Actual(bytes, base, overflows) == (bytes - base - overflows) % U64
  {
    var d := if bytes >= base then bytes - base else (U64Max - base) + bytes + 1;
    assert d == (bytes - base) % U64;
    if overflows > 0 {
      MulMaxMod(overflows);
      var e := d + (U64 - overflows);
      if d >= overflows {
        assert e % U64 == d - overflows;
      } else {
        assert e % U64 == e;
      }
    }
  }

  /** The byte count `cdr_rollover` stores after a detected wrap. */
  function WrapDelta(current: nat, last: nat): (r: nat)
    requires current < U64 && last < U64
    ensures r < U64
  {
    (U64Max - last + current) % U64
  }

  /** After a wrap, the stored count is one less than the distance the
      counter moved modulo 2^64. */
  lemma WrapDeltaOneShort(current: nat, last: nat)
    requires current < U64 && last < U64 && DetectOverflow(current, last)
    ensures WrapDelta(current, last) + 1 == (current - last) % U64
  {
    assert (current - last) % U64 == current - last + U64;
  }

  function Inc32(x: nat): nat { (x + 1) % U32 }
  function Dec32(x: nat): nat { (x - 1) % U32 }
  function Inc64(x: nat): nat { (x + 1) % U64 }

  // ---------------------------------------------------------- traffic update

  /** `cdr_update_traffic`: the return code and the new record. */
  function UpdateTraffic(c: Cdr, bytesIn: nat, bytesOut: nat, packetsIn: nat, packetsOut: nat): (int, Cdr) {
    if !c.inUse then (-1, c)
    else
      var wi := DetectOverflow(bytesIn, c.lastIn);
      var wo := DetectOverflow(bytesOut, c.lastOut);
      (if wi || wo then 1 else 0,
       c.(overflowIn := if wi then Inc32(c.overflowIn) else c.overflowIn,
          overflowOut := if wo then Inc32(c.overflowOut) else c.overflowOut,
          bytesIn := bytesIn, bytesOut := bytesOut,
          packetsIn := packetsIn, packetsOut := packetsOut,
          lastIn := bytesIn, lastOut := bytesOut))
  }

  /** An update reports 1 exactly when a direction wrapped and counts that
      wrap; it stores the sample as the new reference point, so the same
      sample a second time reports nothing and changes nothing. */
  lemma UpdateOutcome(c: Cdr, bi: nat, bo: nat, pi: nat, po: nat)
    requires c.inUse
    ensures var (rc, d) := UpdateTraffic(c, bi, bo, pi, po);
      && (rc == 1 <==> DetectOverflow(bi, c.lastIn) || DetectOverflow(bo, c.lastOut))
      && (rc == 0 <==> !DetectOverflow(bi, c.lastIn) && !DetectOverflow(bo, c.lastOut))
      && (DetectOverflow(bi, c.lastIn) ==> d.overflowIn == Inc32(c.overflowIn))
      && (!DetectOverflow(bi, c.lastIn) ==> d.overflowIn == c.overflowIn)
      && (DetectOverflow(bo, c.lastOut) ==> d.overflowOut == Inc32(c.overflowOut))
      && (!DetectOverflow(bo, c.lastOut) ==> d.overflowOut == c.overflowOut)
      && d.lastIn == d.bytesIn == bi && d.lastOut == d.bytesOut == bo
      && UpdateTraffic(d, bi, bo, pi, po) == (0, d)
  {
  }

  /** A record not in use is refused and left alone. */
  lemma UpdateRefusesUnused(c: Cdr, bi: nat, bo: nat, pi: nat, po: nat)
    requires !c.inUse
    ensures UpdateTraffic(c, bi, bo, pi, po) == (-1, c)
  {
  }

  // -------------------------------------------------------------- the table

  /** The manager's records and counters. */
  datatype Ledger = Ledger(records: seq<Cdr>, nextId: nat, recordCount: nat,
                           totalCreated: nat, totalArchived: nat)

  /** First slot not in use. */
  function FirstFree(rs: seq<Cdr>): (r: Option<nat>)
    ensures r.Some? ==> r.value < |rs| && !rs[r.value].inUse
                        && forall j :: 0 <= j < r.value ==> rs[j].inUse
    ensures r.None? ==> forall j :: 0 <= j < |rs| ==> rs[j].inUse
  {
    if |rs| == 0 then None
    else if !rs[0].inUse then Some(0)
    else match FirstFree(rs[1..])
         case None => None
         case Some(k) => Some(k + 1)
  }

  predicate OpenFor(c: Cdr, sid: string) {
    c.inUse && c.status == StatusActive && c.sessionId == sid
  }

  /** `cdr_find_by_session`: the first in-use ACTIVE record of a session. */
  function FindBySession(rs: seq<Cdr>, sid: string): (r: Option<nat>)
    ensures r.Some? ==> r.value < |rs| && OpenFor(rs[r.value], sid)
                        && forall j :: 0 <= j < r.value ==> !OpenFor(rs[j], sid)
    ensures r.None? ==> forall j :: 0 <= j < |rs| ==> !OpenFor(rs[j], sid)
  {
    if |rs| == 0 then None
    else if OpenFor(rs[0], sid) then Some(0)
    else match FindBySession(rs[1..], sid)
         case None => None
         case Some(k) => Some(k + 1)
  }

  /** The record `cdr_create` writes into a zeroed slot. */
  function Opened(id: nat, uuid: string, sid: string, client: Option<string>,
                  dlm: Option<string>, now: int): Cdr
  {
    Zeroed.(id := id, uuid := Bounded(uuid, UuidCap),
            sessionId := Bounded(sid, SessionCap),
            clientId := if client.Some? then Bounded(client.value, ClientCap) else "",
            dlmName := if dlm.Some? then Bounded(dlm.value, DlmCap) else "",
            status := StatusActive, startTime := now, inUse := true)
  }

  /** `cdr_create`, with the generated uuid and the clock as parameters:
      the slot used, if any, and the new ledger. */
  function Create(l: Ledger, initialized: bool, sid: Option<string>, client: Option<string>,
                  dlm: Option<string>, uuid: string, now: int): (Option<nat>, Ledger)
  {
    if !initialized || sid.None? then (None, l)
    else match FirstFree(l.records)
      case None => (None, l)
      case Some(k) =>
        (Some(k), l.(records := l.records[k := Opened(l.nextId, uuid, sid.value, client, dlm, now)],
                     nextId := Inc32(l.nextId), recordCount := Inc32(l.recordCount),
                     totalCreated := Inc64(l.totalCreated)))
  }

  /** `cdr_archive` on slot `k`: the return code, the record as written to
      the archive directory, and the new ledger. */
  function Archive(l: Ledger, k: nat, now: int): (int, Cdr, Ledger)
    requires k < |l.records|
  {
    var c := l.records[k];
    if c.status == StatusActive then (-1, c, l)
    else (0, c.(status := StatusArchived, archiveTime := now),
          l.(records := l.records[k := Zeroed], recordCount := Dec32(l.recordCount),
             totalArchived := Inc64(l.totalArchived)))
  }

  /** `cdr_close` on slot `k`: final counters, FINISHED, then archived. */
  function Close(l: Ledger, k: nat, bytesIn: nat, bytesOut: nat, now: int): (int, Ledger)
    requires k < |l.records|
  {
    var c := l.records[k];
    if !c.inUse then (-1, l)
    else
      var f := c.(bytesIn := bytesIn, bytesOut := bytesOut, stopTime := now, status := StatusFinished);
      (0, Archive(l.(records := l.records[k := f]), k, now).2)
  }

  /** `CDRRolloverResult`. */
  datatype RolloverResult = RolloverResult(
    success: bool, oldId: nat, oldUuid: string, newId: nat, newUuid: string,
    finalIn: nat, finalOut: nat, errorCode: int)

  const NoResult: RolloverResult := RolloverResult(false, 0, "", 0, "", 0, 0, 0)

  /** Step 2-3 of `cdr_rollover`: the old record closed as ROLLOVER with
      its wraps counted. */
  function Closing(c: Cdr, curIn: nat, curOut: nat, now: int): (d: Cdr)
    requires curIn < U64 && curOut < U64 && c.lastIn < U64 && c.lastOut < U64
  {
    var wi := DetectOverflow(curIn, c.lastIn);
    var wo := DetectOverflow(curOut, c.lastOut);
    c.(overflowIn := if wi then Inc32(c.overflowIn) else c.overflowIn,
       overflowOut := if wo then Inc32(c.overflowOut) else c.overflowOut,
       bytesIn := if wi then WrapDelta(curIn, c.lastIn) else curIn,
       bytesOut := if wo then WrapDelta(curOut, c.lastOut) else curOut,
       stopTime := now, status := StatusRollover)
  }

  /** Step 4 of `cdr_rollover`: the successor record, counted from the
      current counters. */
  function Successor(prev: Cdr, id: nat, uuid: string, curIn: nat, curOut: nat, now: int): Cdr {
    Zeroed.(id := id, uuid := Bounded(uuid, UuidCap),
            sessionId := Bounded(prev.sessionId, SessionCap),
            clientId := Bounded(prev.clientId, ClientCap),
            dlmName := Bounded(prev.dlmName, DlmCap), bearerId := prev.bearerId,
            status := StatusActive, startTime := now, inUse := true,
            baseIn := curIn, baseOut := curOut, lastIn := curIn, lastOut := curOut)
  }

  predicate AllFit(rs: seq<Cdr>) {
    forall i :: 0 <= i < |rs| ==> Fits(rs[i])
  }

  /** `cdr_rollover`: the return code, the result record and the new
      ledger. */
  function Rollover(l: Ledger, sid: string, curIn: nat, curOut: nat, uuid: string, now: int)
    : (int, RolloverResult, Ledger)
    requires AllFit(l.records) && curIn < U64 && curOut < U64
  {
    match FindBySession(l.records, sid)
    case None => (-1, NoResult.(errorCode := -1), l)
    case Some(k) =>
      var prev := Closing(l.records[k], curIn, curOut, now);
      var res := NoResult.(oldId := prev.id, oldUuid := Bounded(prev.uuid, UuidCap),
                           finalIn := Actual(prev.bytesIn, prev.baseIn, prev.overflowIn),
                           finalOut := Actual(prev.bytesOut, prev.baseOut, prev.overflowOut));
      var rs := l.records[k := prev];
      match FirstFree(rs)
      case None =>
        (-1, res.(errorCode := -2),
         l.(records := rs[k := prev.(status := StatusActive, stopTime := 0)]))
      case Some(j) =>
        var nw := Successor(prev, l.nextId, uuid, curIn, curOut, now);
        var l2 := l.(records := rs[j := nw], nextId := Inc32(l.nextId),
                     recordCount := Inc32(l.recordCount), totalCreated := Inc64(l.totalCreated));
        (0, res.(success := true, newId := nw.id, newUuid := Bounded(nw.uuid, UuidCap)),
         Archive(l2, k, now).2)
  }

  // ------------------------------------------------------ table invariant

  function CountInUse(rs: seq<Cdr>): (n: nat)
    ensures n <= |rs|
  {
    if |rs| == 0 then 0 else (if rs[0].inUse then 1 else 0) + CountInUse(rs[1..])
  }

  lemma {:induction false} CountInUseUpdate(rs: seq<Cdr>, k: nat, c: Cdr)
    requires k < |rs|
    ensures CountInUse(rs[k := c]) + (if rs[k].inUse then 1 else 0)
            == CountInUse(rs) + (if c.inUse then 1 else 0)
    decreases |rs|
  {
    if k > 0 {
      CountInUseUpdate(rs[1..], k - 1, c);
      assert rs[k := c][1..] == rs[1..][k - 1 := c];
    } else {
      assert rs[k := c][1..] == rs[1..];
    }
  }

  lemma {:induction false} CountBelowWithFree(rs: seq<Cdr>, k: nat)
    requires k < |rs| && !rs[k].inUse
    ensures CountInUse(rs) < |rs|
    decreases |rs|
  {
    if k > 0 {
      CountBelowWithFree(rs[1..], k - 1);
    }
  }

  lemma AllFitUpdate(rs: seq<Cdr>, k: nat, c: Cdr)
    requires AllFit(rs) && k < |rs| && Fits(c)
    ensures AllFit(rs[k := c])
  {
  }

  /** What the manager keeps true: 1024 slots of well-typed records, the
      counters within their C types, and `record_count` equal to the
      number of slots in use. */
  predicate Counted(l: Ledger) {
    |l.records| == MaxCdrRecords && AllFit(l.records)
    && l.nextId < U32 && l.totalCreated < U64 && l.totalArchived < U64
    && l.recordCount == CountInUse(l.records)
  }

  lemma OpenedFits(id: nat, uuid: string, sid: string, client: Option<string>, dlm: Option<string>, now: int)
    requires id < U32
    ensures Fits(Opened(id, uuid, sid, client, dlm, now))
  {
  }

  /** A successful create uses the first free slot, opens it ACTIVE under
      the next id, and the session then has an open record; it fails only
      when uninitialised, without a session id, or with every slot taken.
      The table stays counted. */
  lemma CreateOutcome(l: Ledger, initialized: bool, sid: Option<string>, client: Option<string>,
                      dlm: Option<string>, uuid: string, now: int)
    requires Counted(l)
    ensures var (r, l2) := Create(l, initialized, sid, client, dlm, uuid, now);
      && Counted(l2)
      && (r.None? <==> !initialized || sid.None? || FirstFree(l.records).None?)
      && (r.Some? ==> r == FirstFree(l.records)
                      && l2.records[r.value].status == StatusActive && l2.records[r.value].inUse
                      && l2.records[r.value].id == l.nextId
                      && l2.nextId == Inc32(l.nextId)
                      && (|sid.value| <= SessionCap ==> FindBySession(l2.records, sid.value).Some?))
  {
    var (r, l2) := Create(l, initialized, sid, client, dlm, uuid, now);
    if r.Some? {
      var k := r.value;
      CountInUseUpdate(l.records, k, l2.records[k]);
      CountBelowWithFree(l.records, k);
      if |sid.value| <= SessionCap {
        assert OpenFor(l2.records[k], sid.value);
      }
    }
  }

  /** Archiving refuses an ACTIVE record and changes nothing; otherwise the
      archive copy is ARCHIVED at `now`, the slot is zeroed, and a table
      whose archived slot was in use stays counted. */
  lemma ArchiveOutcome(l: Ledger, k: nat, now: int)
    requires Counted(l) && k < |l.records|
    ensures var (rc, saved, l2) := Archive(l, k, now);
      && (rc == -1 <==> l.records[k].status == StatusActive)
      && (rc == -1 ==> l2 == l)
      && (rc == 0 ==> saved == l.records[k].(status := StatusArchived, archiveTime := now)
                      && l2.records == l.records[k := Zeroed]
                      && l2.totalArchived == Inc64(l.totalArchived))
      && (rc == 0 && l.records[k].inUse ==> Counted(l2))
  {
    if l.records[k].status != StatusActive && l.records[k].inUse {
      CountInUseUpdate(l.records, k, Zeroed);
      AllFitUpdate(l.records, k, Zeroed);
    }
  }

  /** Closing an in-use record archives it with the final counters; the
      table stays counted. */
  lemma CloseOutcome(l: Ledger, k: nat, bi: nat, bo: nat, now: int)
    requires Counted(l) && k < |l.records| && bi < U64 && bo < U64
    ensures var (rc, l2) := Close(l, k, bi, bo, now);
      && (rc == -1 <==> !l.records[k].inUse)
      && (rc == -1 ==> l2 == l)
      && (rc == 0 ==> Counted(l2) && l2.records == l.records[k := Zeroed]
                      && l2.totalArchived == Inc64(l.totalArchived))
  {
    if l.records[k].inUse {
      var c := l.records[k];
      var f := c.(bytesIn := bi, bytesOut := bo, stopTime := now, status := StatusFinished);
      var lf := l.(records := l.records[k := f]);
      CountInUseUpdate(l.records, k, f);
      assert Counted(lf);
      ArchiveOutcome(lf, k, now);
      assert l.records[k := f][k := Zeroed] == l.records[k := Zeroed];
    }
  }

  lemma {:induction false} FindAfterUpdate(rs: seq<Cdr>, sid: string, k: nat, c: Cdr)
    requires FindBySession(rs, sid) == Some(k) && OpenFor(c, sid)
    ensures FindBySession(rs[k := c], sid) == Some(k)
    decreases |rs|
  {
    if k > 0 {
      assert rs[k := c][1..] == rs[1..][k - 1 := c];
      FindAfterUpdate(rs[1..], sid, k - 1, c);
    }
  }

  lemma ClosingFits(c: Cdr, curIn: nat, curOut: nat, now: int)
    requires Fits(c) && curIn < U64 && curOut < U64
    ensures Fits(Closing(c, curIn, curOut, now))
  {
  }

  lemma SuccessorFits(prev: Cdr, id: nat, uuid: string, curIn: nat, curOut: nat, now: int)
    requires Fits(prev) && id < U32 && curIn < U64 && curOut < U64
    ensures Fits(Successor(prev, id, uuid, curIn, curOut, now))
  {
  }

  /** The successful path of `Rollover` written out: the old slot closed,
      the successor placed in the first free slot, then the old slot
      archived. */
  lemma RolloverUnfolds(l: Ledger, sid: string, curIn: nat, curOut: nat, uuid: string, now: int)
    requires AllFit(l.records) && curIn < U64 && curOut < U64
    requires FindBySession(l.records, sid).Some?
    requires FirstFree(l.records).Some?
    ensures var k := FindBySession(l.records, sid).value;
      var j := FirstFree(l.records).value;
      var prev := Closing(l.records[k], curIn, curOut, now);
      var nw := Successor(prev, l.nextId, uuid, curIn, curOut, now);
      && j != k
      && Rollover(l, sid, curIn, curOut, uuid, now)
         == (0, NoResult.(success := true, oldId := prev.id, oldUuid := Bounded(prev.uuid, UuidCap),
                          newId := nw.id, newUuid := Bounded(nw.uuid, UuidCap),
                          finalIn := Actual(prev.bytesIn, prev.baseIn, prev.overflowIn),
                          finalOut := Actual(prev.bytesOut, prev.baseOut, prev.overflowOut)),
             Ledger(l.records[k := prev][j := nw][k := Zeroed], Inc32(l.nextId),
                    Dec32(Inc32(l.recordCount)), Inc64(l.totalCreated), Inc64(l.totalArchived)))
  {
    var k := FindBySession(l.records, sid).value;
    var j := FirstFree(l.records).value;
    var prev := Closing(l.records[k], curIn, curOut, now);
    var rs := l.records[k := prev];
    assert j != k && !rs[j].inUse;
    assert forall i :: 0 <= i < j ==> rs[i].inUse;
    match FirstFree(rs)
    case None =>
    case Some(r) =>
      assert !(r < j) && !(j < r);
  }

  /** Closing slot `k`, filling free slot `j` and zeroing `k` again keeps
      the table counted with the same count. */
  lemma SwapCounted(l: Ledger, k: nat, j: nat, prev: Cdr, nw: Cdr)
    requires Counted(l) && k < |l.records| && j < |l.records| && k != j
    requires l.records[k].inUse && !l.records[j].inUse && Fits(prev) && prev.inUse && Fits(nw) && nw.inUse
    ensures Dec32(Inc32(l.recordCount)) == l.recordCount
    ensures Counted(Ledger(l.records[k := prev][j := nw][k := Zeroed], Inc32(l.nextId),
                           Dec32(Inc32(l.recordCount)), Inc64(l.totalCreated), Inc64(l.totalArchived)))
  {
    var rs := l.records[k := prev];
    var rs2 := rs[j := nw];
    CountInUseUpdate(l.records, k, prev);
    CountInUseUpdate(rs, j, nw);
    CountInUseUpdate(rs2, k, Zeroed);
    CountBelowWithFree(l.records, j);
    AllFitUpdate(l.records, k, prev);
    AllFitUpdate(rs, j, nw);
    AllFitUpdate(rs2, k, Zeroed);
  }

  /** Successful rollover: the session's open record is archived out of
      its slot and a successor takes the first free slot, and the table
      stays counted with the same number of records in use. */
  lemma RolloverSucceeds(l: Ledger, sid: string, curIn: nat, curOut: nat, uuid: string, now: int)
    requires Counted(l) && curIn < U64 && curOut < U64
    requires FindBySession(l.records, sid).Some?
    requires FirstFree(l.records).Some?
    ensures var k := FindBySession(l.records, sid).value;
      var j := FirstFree(l.records).value;
      var (rc, res, l2) := Rollover(l, sid, curIn, curOut, uuid, now);
      var prev := Closing(l.records[k], curIn, curOut, now);
      && rc == 0 && res.success && res.errorCode == 0
      && Counted(l2) && l2.recordCount == l.recordCount
      && l2.records[k] == Zeroed && l2.records[j].inUse
      && res.oldId == prev.id && res.newId == l.nextId
      && res.finalIn == Actual(prev.bytesIn, prev.baseIn, prev.overflowIn)
      && res.finalOut == Actual(prev.bytesOut, prev.baseOut, prev.overflowOut)
      && l2.nextId == Inc32(l.nextId)
      && (forall i :: 0 <= i < |l.records| && i != k && i != j ==> l2.records[i] == l.records[i])
  {
    var k := FindBySession(l.records, sid).value;
    var j := FirstFree(l.records).value;
    RolloverUnfolds(l, sid, curIn, curOut, uuid, now);
    var prev := Closing(l.records[k], curIn, curOut, now);
    ClosingFits(l.records[k], curIn, curOut, now);
    SuccessorFits(prev, l.nextId, uuid, curIn, curOut, now);
    SwapCounted(l, k, j, prev, Successor(prev, l.nextId, uuid, curIn, curOut, now));
  }

  /** The successor of a rollover is ACTIVE under the next id, for the
      same session, client, DLM and bearer, with base and last counters at
      the current values; its byte counters start at zero, so until the
      first traffic update its traffic reads as 2^64 minus the current
      counter. */
  lemma RolloverSuccessor(l: Ledger, sid: string, curIn: nat, curOut: nat, uuid: string, now: int)
    requires Counted(l) && curIn < U64 && curOut < U64
    requires FindBySession(l.records, sid).Some?
    requires FirstFree(l.records).Some?
    ensures var k := FindBySession(l.records, sid).value;
      var j := FirstFree(l.records).value;
      var l2 := Rollover(l, sid, curIn, curOut, uuid, now).2;
      var prev := l.records[k];
      var nw := l2.records[j];
      && nw.inUse && nw.status == StatusActive && nw.id == l.nextId
      && nw.sessionId == sid && nw.clientId == prev.clientId
      && nw.dlmName == prev.dlmName && nw.bearerId == prev.bearerId
      && nw.baseIn == nw.lastIn == curIn && nw.baseOut == nw.lastOut == curOut
      && nw.overflowIn == nw.overflowOut == 0 && nw.startTime == now
      && Actual(nw.bytesIn, nw.baseIn, nw.overflowIn) == (0 - curIn) % U64
      && FindBySession(l2.records, sid).Some?
  {
    var k := FindBySession(l.records, sid).value;
    var j := FirstFree(l.records).value;
    RolloverUnfolds(l, sid, curIn, curOut, uuid, now);
    var l2 := Rollover(l, sid, curIn, curOut, uuid, now).2;
    ActualIsWrappedDifference(0, curIn, 0);
    assert OpenFor(l2.records[j], sid);
  }

  /** Rollover with every slot taken: error code -2, the old record put
      back to ACTIVE with no stop time (its wraps and byte counts stay as
      closing left them), and no record created. */
  lemma RolloverWithoutRoom(l: Ledger, sid: string, curIn: nat, curOut: nat, uuid: string, now: int)
    requires Counted(l) && curIn < U64 && curOut < U64
    requires FindBySession(l.records, sid).Some?
    requires FirstFree(l.records).None?
    ensures var k := FindBySession(l.records, sid).value;
      var (rc, res, l2) := Rollover(l, sid, curIn, curOut, uuid, now);
      && rc == -1 && !res.success && res.errorCode == -2
      && l2.records == l.records[k := Closing(l.records[k], curIn, curOut, now).(status := StatusActive, stopTime := 0)]
      && l2.nextId == l.nextId && l2.recordCount == l.recordCount
      && FindBySession(l2.records, sid) == Some(k)
      && Counted(l2)
  {
    var k := FindBySession(l.records, sid).value;
    var prev := Closing(l.records[k], curIn, curOut, now);
    var rs := l.records[k := prev];
    assert FirstFree(rs).None? by {
      assert forall i :: 0 <= i < |rs| ==> rs[i].inUse;
    }
    var back := prev.(status := StatusActive, stopTime := 0);
    CountInUseUpdate(l.records, k, back);
    ClosingFits(l.records[k], curIn, curOut, now);
    AllFitUpdate(l.records, k, back);
    assert l.records[k := prev][k := back] == l.records[k := back];
    FindAfterUpdate(l.records, sid, k, back);
  }

  /** Rollover of a session without an open record fails with -1 and
      changes nothing. */
  lemma RolloverWithoutRecord(l: Ledger, sid: string, curIn: nat, curOut: nat, uuid: string, now: int)
    requires AllFit(l.records) && curIn < U64 && curOut < U64
    requires FindBySession(l.records, sid).None?
    ensures Rollover(l, sid, curIn, curOut, uuid, now) == (-1, NoResult.(errorCode := -1), l)
  {
  }

  // ---------------------------------------------------------- the object

  /** `CDRManager`. */
  class CdrManager {
    const records: array<Cdr>
    var nextId: nat
    var recordCount: nat
    var totalCreated: nat
    var totalArchived: nat
    var initialized: bool

    function State(): Ledger
      reads this, records
    {
      Ledger(records[..], nextId, recordCount, totalCreated, totalArchived)
    }

    /** `cdr_manager_init`: empty slots, ids seeded from the clock. */
    constructor (now: int)
      ensures Counted(State()) && initialized && fresh(records)
      ensures State() == Ledger(seq(MaxCdrRecords, _ => Zeroed), now % U32, 0, 0, 0)
    {
      records := new Cdr[MaxCdrRecords](_ => Zeroed);
      nextId := now % U32;
      recordCount := 0;
      totalCreated := 0;
      totalArchived := 0;
      initialized := true;
      new;
      assert records[..] == seq(MaxCdrRecords, _ => Zeroed);
      ZeroedCount(MaxCdrRecords);
    }

    static lemma {:induction false} ZeroedCount(n: nat)
      ensures CountInUse(seq(n, _ => Zeroed)) == 0
    {
      if n > 0 {
        assert seq(n, _ => Zeroed)[1..] == seq(n - 1, _ => Zeroed);
        ZeroedCount(n - 1);
      }
    }

    /** The free-slot scan. */
    method FreeSlot() returns (r: Option<nat>)
      ensures r == FirstFree(records[..])
    {
      var k := 0;
      while k < records.Length && records[k].inUse
        invariant k <= records.Length
        invariant forall j :: 0 <= j < k ==> records[j].inUse
      {
        k := k + 1;
      }
      if k == records.Length {
        return None;
      }
      return Some(k);
    }

    /** `cdr_find_by_session`. */
    method FindSession(sid: string) returns (r: Option<nat>)
      ensures r == FindBySession(records[..], sid)
    {
      var k := 0;
      while k < records.Length
        invariant k <= records.Length
        invariant forall j :: 0 <= j < k ==> !OpenFor(records[j], sid)
      {
        if records[k].inUse && records[k].status == StatusActive && records[k].sessionId == sid {
          return Some(k);
        }
        k := k + 1;
      }
      return None;
    }

    /** `cdr_create`. */
    method CreateRecord(sid: Option<string>, client: Option<string>, dlm: Option<string>,
                        uuid: string, now: int) returns (r: Option<nat>)
      modifies this, records
      ensures (r, State()) == Create(old(State()), old(initialized), sid, client, dlm, uuid, now)
      ensures initialized == old(initialized)
    {
      if !initialized || sid.None? {
        return None;
      }
      r := FreeSlot();
      if r.None? {
        return;
      }
      records[r.value] := Opened(nextId, uuid, sid.value, client, dlm, now);
      nextId := Inc32(nextId);
      recordCount := Inc32(recordCount);
      totalCreated := Inc64(totalCreated);
    }

    /** `cdr_update_traffic` on slot `k`. */
    method UpdateRecord(k: nat, bi: nat, bo: nat, pi: nat, po: nat) returns (rc: int)
      requires k < records.Length
      modifies records
      ensures (rc, records[k]) == UpdateTraffic(old(records[k]), bi, bo, pi, po)
      ensures records[..] == old(records[..])[k := records[k]]
    {
      var c := records[k];
      if !c.inUse {
        return -1;
      }
      rc := 0;
      if DetectOverflow(bi, c.lastIn) {
        c := c.(overflowIn := Inc32(c.overflowIn));
        rc := 1;
      }
      if DetectOverflow(bo, c.lastOut) {
        c := c.(overflowOut := Inc32(c.overflowOut));
        rc := 1;
      }
      records[k] := c.(bytesIn := bi, bytesOut := bo, packetsIn := pi, packetsOut := po,
                       lastIn := bi, lastOut := bo);
    }

    /** `cdr_archive` on slot `k`; `saved` is the record as written to the
        archive directory. */
    method ArchiveRecord(k: nat, now: int) returns (rc: int, saved: Cdr)
      requires k < records.Length
      modifies this, records
      ensures (rc, saved, State()) == Archive(old(State()), k, now)
      ensures initialized == old(initialized)
    {
      saved := records[k];
      if saved.status == StatusActive {
        return -1, saved;
      }
      saved := saved.(status := StatusArchived, archiveTime := now);
      records[k] := Zeroed;
      recordCount := Dec32(recordCount);
      totalArchived := Inc64(totalArchived);
      rc := 0;
    }

    /** `cdr_close` on slot `k`. */
    method CloseRecord(k: nat, bi: nat, bo: nat, now: int) returns (rc: int)
      requires k < records.Length
      modifies this, records
      ensures (rc, State()) == Close(old(State()), k, bi, bo, now)
      ensures initialized == old(initialized)
    {
      var c := records[k];
      if !c.inUse {
        return -1;
      }
      records[k] := c.(bytesIn := bi, bytesOut := bo, stopTime := now, status := StatusFinished);
      var _, _ := ArchiveRecord(k, now);
      rc := 0;
    }

    /** `cdr_rollover`. */
    method RolloverRecord(sid: string, curIn: nat, curOut: nat, uuid: string, now: int)
      returns (rc: int, res: RolloverResult)
      requires AllFit(records[..]) && curIn < U64 && curOut < U64
      modifies this, records
      ensures (rc, res, State()) == Rollover(old(State()), sid, curIn, curOut, uuid, now)
      ensures initialized == old(initialized)
    {
      var found := FindSession(sid);
      if found.None? {
        return -1, NoResult.(errorCode := -1);
      }
      var k := found.value;
      ghost var l0 := State();
      var prev := Closing(records[k], curIn, curOut, now);
      records[k] := prev;
      res := NoResult.(oldId := prev.id, oldUuid := Bounded(prev.uuid, UuidCap),
                       finalIn := Actual(prev.bytesIn, prev.baseIn, prev.overflowIn),
                       finalOut := Actual(prev.bytesOut, prev.baseOut, prev.overflowOut));
      var free := FreeSlot();
      if free.None? {
        res := res.(errorCode := -2);
        records[k] := prev.(status := StatusActive, stopTime := 0);
        assert records[..] == l0.records[k := prev][k := prev.(status := StatusActive, stopTime := 0)];
        return -1, res;
      }
      var j := free.value;
      var nw := Successor(prev, nextId, uuid, curIn, curOut, now);
      records[j] := nw;
      nextId := Inc32(nextId);
      recordCount := Inc32(recordCount);
      totalCreated := Inc64(totalCreated);
      res := res.(success := true, newId := nw.id, newUuid := Bounded(nw.uuid, UuidCap));
      ghost var l2 := State();
      assert l2 == l0.(records := l0.records[k := prev][j := nw], nextId := Inc32(l0.nextId),
                       recordCount := Inc32(l0.recordCount), totalCreated := Inc64(l0.totalCreated));
      var _, _ := ArchiveRecord(k, now);
      rc := 0;
    }
  }
}
