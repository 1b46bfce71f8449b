/** The MCCR wait queue of the Central Information Controller
    (`magic_cic.c`): a fixed table of 64 slots holding communication
    requests that could not be served at once, each with a priority (lower
    first) and a 30-second deadline. The clock is a parameter; the mutex is
    not modelled, since every operation runs under it. */
module MccrQueue {
  import opened Wrappers
  import opened CString
  import MagicCic

  const Capacity: nat := 64
  const TimeoutSec: nat := 30
  /** `UINT32_MAX`, the priority no entry can beat. */
  const NoPriority: nat := 0xFFFF_FFFF
  /** The buffers `session_id[128]` and `client_id[MAX_ID_LEN]`, less the
      terminator. */
  const SessionIdLen: nat := 127
  const ClientIdLen: nat := 63

  /** `MccxQueueState`: PENDING 0 … CANCELLED 4. */
  datatype QueueState = Pending | Processing | Completed | Expired | Cancelled

  /** `MccxQueueEntry`. */
  datatype QueueEntry = QueueEntry(
    inUse: bool, state: QueueState, sessionId: string, clientId: string,
    params: MagicCic.CommReqParams, enqueueTime: int, expireTime: int,
    retryCount: nat, priority: nat)

  /** A zero-filled `CommReqParams`. */
  const ZeroParams := MagicCic.CommReqParams(
    "", 0, 0, 0, 0, 0, "", 0, "", "", "", "", 0, 0, 0, 0, false, false, [], false, false, [])

  /** A zero-filled entry. */
  const EmptyEntry := QueueEntry(false, Pending, "", "", ZeroParams, 0, 0, 0, 0)

  /** `MccxQueueManager`: the slots, `count` and `initialized`. */
  datatype Queue = Queue(entries: seq<QueueEntry>, count: int, initialized: bool)

  /** The zero-filled static manager and the one `mccr_queue_init` leaves. */
  function Zeroed(initialized: bool): Queue {
    Queue(seq(Capacity, _ => EmptyEntry), 0, initialized)
  }

  function InUse(es: seq<QueueEntry>): nat {
    if |es| == 0 then 0 else InUse(es[..|es| - 1]) + (if es[|es| - 1].inUse then 1 else 0)
  }

  /** The queue's invariant: 64 slots, and `count` is the number in use. */
  predicate Valid(q: Queue) {
    |q.entries| == Capacity && q.count == InUse(q.entries)
  }

  lemma {:induction false} InUseBound(es: seq<QueueEntry>)
    ensures InUse(es) <= |es|
    decreases |es|
  {
    if |es| > 0 {
      InUseBound(es[..|es| - 1]);
    }
  }

  lemma {:induction false} InUseOfZeroed(n: nat)
    requires n <= Capacity
    ensures InUse(seq(Capacity, _ => EmptyEntry)[..n]) == 0
    decreases n
  {
    if n > 0 {
      var es := seq(Capacity, _ => EmptyEntry)[..n];
      assert es[..n - 1] == seq(Capacity, _ => EmptyEntry)[..n - 1];
      InUseOfZeroed(n - 1);
    }
  }

  lemma ZeroedValid(initialized: bool)
    ensures Valid(Zeroed(initialized))
  {
    InUseOfZeroed(Capacity);
    assert seq(Capacity, _ => EmptyEntry)[..Capacity] == seq(Capacity, _ => EmptyEntry);
  }

  /** `mccr_queue_init`: a no-op once initialised. */
  function Initialised(q: Queue): Queue {
    if q.initialized then q else Zeroed(true)
  }

  // ------------------------------------------------------------ cleanup

  /** An entry `mccr_queue_cleanup_expired` removes at `now`. */
  predicate Expiring(e: QueueEntry, now: int) {
    e.inUse && e.state == Pending && now >= e.expireTime
  }

  function ExpireOne(e: QueueEntry, now: int): QueueEntry {
    if Expiring(e, now) then e.(state := Expired, inUse := false) else e
  }

  function ExpireAll(es: seq<QueueEntry>, now: int): (r: seq<QueueEntry>)
    ensures |r| == |es|
  {
    seq(|es|, i requires 0 <= i < |es| => ExpireOne(es[i], now))
  }

  function CountExpiring(es: seq<QueueEntry>, now: int): nat {
    if |es| == 0 then 0
    else CountExpiring(es[..|es| - 1], now) + (if Expiring(es[|es| - 1], now) then 1 else 0)
  }

  /** `mccr_queue_cleanup_expired`: the number of entries cleaned and the
      new queue; an uninitialised queue is left alone. */
  function Cleanup(q: Queue, now: int): (int, Queue) {
    if !q.initialized then (0, q)
    else
      var n := CountExpiring(q.entries, now);
      (n, q.(entries := ExpireAll(q.entries, now), count := q.count - n))
  }

  lemma {:induction false} InUseExpired(es: seq<QueueEntry>, now: int)
    ensures InUse(ExpireAll(es, now)) + CountExpiring(es, now) == InUse(es)
    decreases |es|
  {
    if |es| > 0 {
      var n := |es| - 1;
      assert ExpireAll(es, now)[..n] == ExpireAll(es[..n], now);
      InUseExpired(es[..n], now);
    }
  }

  /** Cleanup keeps the count exact, leaves no expired PENDING entry in
      use, and changes no other entry: PROCESSING entries and entries
      still within their deadline stay as they were. */
  lemma CleanupKeepsValid(q: Queue, now: int)
    requires Valid(q)
    ensures var (n, r) := Cleanup(q, now);
      Valid(r) && r.initialized == q.initialized && n == q.count - r.count && n >= 0
    ensures var r := Cleanup(q, now).1;
      q.initialized ==> forall i :: 0 <= i < |r.entries| ==> !Expiring(r.entries[i], now)
    ensures var r := Cleanup(q, now).1;
      forall i :: 0 <= i < |r.entries| && !Expiring(q.entries[i], now) ==> r.entries[i] == q.entries[i]
  {
    InUseExpired(q.entries, now);
  }

  // ------------------------------------------------------------ enqueue

  /** The first slot in use holding session `sid` (`strcmp` on the stored
      id). */
  function FindSession(es: seq<QueueEntry>, sid: string): (r: Option<nat>)
    ensures r.Some? ==> r.value < |es| && es[r.value].inUse && es[r.value].sessionId == sid
    ensures r.Some? ==> forall j :: 0 <= j < r.value ==> !(es[j].inUse && es[j].sessionId == sid)
    ensures r.None? ==> forall j :: 0 <= j < |es| ==> !(es[j].inUse && es[j].sessionId == sid)
  {
    if |es| == 0 then None
    else if es[0].inUse && es[0].sessionId == sid then Some(0)
    else match FindSession(es[1..], sid)
      case None => None
      case Some(k) => Some(k + 1)
  }

  /** The first slot not in use. */
  function FirstFree(es: seq<QueueEntry>): (r: Option<nat>)
    ensures r.Some? ==> r.value < |es| && !es[r.value].inUse
    ensures r.Some? ==> forall j :: 0 <= j < r.value ==> es[j].inUse
    ensures r.None? ==> forall j :: 0 <= j < |es| ==> es[j].inUse
  {
    if |es| == 0 then None
    else if !es[0].inUse then Some(0)
    else match FirstFree(es[1..])
      case None => None
      case Some(k) => Some(k + 1)
  }

  /** A queued request updated in place: new parameters and priority, one
      more retry (a `uint32_t`). */
  function Requeued(e: QueueEntry, params: MagicCic.CommReqParams, priority: nat): QueueEntry {
    e.(params := params, priority := priority, retryCount := CastU32(e.retryCount + 1))
  }

  /** A new PENDING entry, its ids cut to their buffers, due to expire 30
      seconds after `now`. */
  function Fresh(sid: string, cid: string, params: MagicCic.CommReqParams, priority: nat, now: int): QueueEntry {
    QueueEntry(true, Pending, Bounded(sid, SessionIdLen), Bounded(cid, ClientIdLen),
      params, now, now + TimeoutSec, 0, priority)
  }

  /** The part of `mccr_queue_enqueue` after initialisation and cleanup. */
  function Insert(q: Queue, sid: string, cid: string, params: MagicCic.CommReqParams, priority: nat, now: int): (int, Queue) {
    match FindSession(q.entries, sid)
    case Some(i) => (0, q.(entries := q.entries[i := Requeued(q.entries[i], params, priority)]))
    case None =>
      if q.count >= Capacity then (-1, q)
      else match FirstFree(q.entries)
        case None => (-1, q)
        case Some(i) => (0, q.(entries := q.entries[i := Fresh(sid, cid, params, priority, now)], count := q.count + 1))
  }

  /** `mccr_queue_enqueue`: initialise if needed, clean up, then requeue
      or insert. */
  function Enqueued(q: Queue, sid: string, cid: string, params: MagicCic.CommReqParams, priority: nat, now: int): (int, Queue) {
    Insert(Cleanup(Initialised(q), now).1, sid, cid, params, priority, now)
  }

  lemma {:induction false} InUseUpdate(es: seq<QueueEntry>, i: nat, e: QueueEntry)
    requires i < |es|
    ensures InUse(es[i := e]) == InUse(es) - (if es[i].inUse then 1 else 0) + (if e.inUse then 1 else 0)
    decreases |es|
  {
    var n := |es| - 1;
    if i < n {
      assert es[i := e][..n] == es[..n][i := e];
      InUseUpdate(es[..n], i, e);
    } else {
      assert es[i := e][..n] == es[..n];
    }
  }

  lemma InitValid(q: Queue)
    requires Valid(q)
    ensures Valid(Initialised(q)) && Initialised(q).initialized
  {
    ZeroedValid(true);
  }

  /** Enqueueing keeps the queue valid and initialised. */
  lemma EnqueueKeepsValid(q: Queue, sid: string, cid: string, params: MagicCic.CommReqParams, priority: nat, now: int)
    requires Valid(q)
    ensures var r := Enqueued(q, sid, cid, params, priority, now).1; Valid(r) && r.initialized
  {
    InitValid(q);
    var c := Cleanup(Initialised(q), now).1;
    CleanupKeepsValid(Initialised(q), now);
    match FindSession(c.entries, sid)
    case Some(i) =>
      InUseUpdate(c.entries, i, Requeued(c.entries[i], params, priority));
    case None =>
      if c.count < Capacity {
        match FirstFree(c.entries)
        case None =>
        case Some(i) =>
          InUseUpdate(c.entries, i, Fresh(sid, cid, params, priority, now));
      }
  }

  /** A session already queued is updated in place: same slot, new
      parameters and priority, one more retry, the count unchanged, and
      the request accepted. */
  lemma EnqueueExisting(q: Queue, sid: string, cid: string, params: MagicCic.CommReqParams, priority: nat, now: int)
    requires Valid(q)
    requires var c := Cleanup(Initialised(q), now).1; FindSession(c.entries, sid).Some?
    ensures var c := Cleanup(Initialised(q), now).1;
      var i := FindSession(c.entries, sid).value;
      var (rc, r) := Enqueued(q, sid, cid, params, priority, now);
      rc == 0 && r.count == c.count && r.entries[i].params == params && r.entries[i].priority == priority
        && r.entries[i].retryCount == (c.entries[i].retryCount + 1) % 0x1_0000_0000
        && r.entries[i].state == c.entries[i].state
  {
  }

  /** A session not yet queued is refused exactly when, after cleanup, 64
      entries are in use; otherwise it is stored PENDING with a deadline
      30 seconds away and the count grows by one. */
  lemma EnqueueNew(q: Queue, sid: string, cid: string, params: MagicCic.CommReqParams, priority: nat, now: int)
    requires Valid(q)
    requires var c := Cleanup(Initialised(q), now).1; FindSession(c.entries, sid).None?
    ensures var c := Cleanup(Initialised(q), now).1;
      var (rc, r) := Enqueued(q, sid, cid, params, priority, now);
      (rc == -1 <==> c.count >= Capacity) &&
      (rc == 0 ==> r.count == c.count + 1 && exists i :: 0 <= i < |r.entries| && r.entries[i] == Fresh(sid, cid, params, priority, now))
  {
    InitValid(q);
    var c := Cleanup(Initialised(q), now).1;
    CleanupKeepsValid(Initialised(q), now);
    if c.count < Capacity && FirstFree(c.entries).None? {
      assert InUse(c.entries) == |c.entries| by {
        AllInUse(c.entries);
      }
    }
    var (rc, r) := Enqueued(q, sid, cid, params, priority, now);
    if rc == 0 {
      var i := FirstFree(c.entries).value;
      assert r.entries[i] == Fresh(sid, cid, params, priority, now);
    }
  }

  lemma {:induction false} AllInUse(es: seq<QueueEntry>)
    requires forall j :: 0 <= j < |es| ==> es[j].inUse
    ensures InUse(es) == |es|
    decreases |es|
  {
    if |es| > 0 {
      AllInUse(es[..|es| - 1]);
    }
  }

  // ------------------------------------------------------------ dequeue

  /** `mccr_queue_dequeue`: the first entry of the session becomes
      COMPLETED and leaves the queue. */
  function Dequeued(q: Queue, sid: string): (int, Queue) {
    if !q.initialized then (-1, q)
    else match FindSession(q.entries, sid)
      case None => (-1, q)
      case Some(i) =>
        (0, q.(entries := q.entries[i := q.entries[i].(state := Completed, inUse := false)], count := q.count - 1))
  }

  /** Dequeueing keeps the queue valid, and succeeds exactly when the
      session is queued. */
  lemma DequeueKeepsValid(q: Queue, sid: string)
    requires Valid(q)
    ensures var (rc, r) := Dequeued(q, sid);
      Valid(r) && (rc == 0 <==> q.initialized && FindSession(q.entries, sid).Some?)
  {
    if q.initialized {
      match FindSession(q.entries, sid)
      case None =>
      case Some(i) =>
        InUseUpdate(q.entries, i, q.entries[i].(state := Completed, inUse := false));
    }
  }

  /** A request just queued for a session whose id fits its buffer can be
      taken off the queue again, and is then no longer queued (a session
      is queued at most once). */
  lemma EnqueueThenDequeue(q: Queue, sid: string, cid: string, params: MagicCic.CommReqParams, priority: nat, now: int)
    requires Valid(q) && |sid| <= SessionIdLen
    requires Unique(q.entries)
    requires Enqueued(q, sid, cid, params, priority, now).0 == 0
    ensures var r := Enqueued(q, sid, cid, params, priority, now).1;
      var (rc, d) := Dequeued(r, sid);
      rc == 0 && FindSession(d.entries, sid).None? && d.count == r.count - 1
  {
    var r := Enqueued(q, sid, cid, params, priority, now).1;
    EnqueueKeepsValid(q, sid, cid, params, priority, now);
    EnqueueKeepsUnique(q, sid, cid, params, priority, now);
    var i := FindSession(r.entries, sid);
    assert i.Some? by {
      EnqueueStores(q, sid, cid, params, priority, now);
    }
    var k := i.value;
    var d := Dequeued(r, sid).1;
    forall j | 0 <= j < |d.entries|
      ensures !(d.entries[j].inUse && d.entries[j].sessionId == sid)
    {
      if j != k {
        assert d.entries[j] == r.entries[j];
      }
    }
  }

  /** No two entries in use hold the same session. */
  predicate Unique(es: seq<QueueEntry>) {
    forall i, j :: 0 <= i < j < |es| && es[i].inUse && es[j].inUse ==> es[i].sessionId != es[j].sessionId
  }

  /** After a successful enqueue the session is queued. */
  lemma EnqueueStores(q: Queue, sid: string, cid: string, params: MagicCic.CommReqParams, priority: nat, now: int)
    requires Valid(q) && |sid| <= SessionIdLen
    requires Enqueued(q, sid, cid, params, priority, now).0 == 0
    ensures FindSession(Enqueued(q, sid, cid, params, priority, now).1.entries, sid).Some?
  {
    var c := Cleanup(Initialised(q), now).1;
    var r := Enqueued(q, sid, cid, params, priority, now).1;
    match FindSession(c.entries, sid)
    case Some(i) =>
      assert r.entries[i].inUse && r.entries[i].sessionId == sid;
    case None =>
      var i := FirstFree(c.entries).value;
      assert r.entries[i].inUse && r.entries[i].sessionId == sid;
  }

  /** Every operation keeps sessions unique in the queue, provided session
      ids fit their buffer. */
  lemma EnqueueKeepsUnique(q: Queue, sid: string, cid: string, params: MagicCic.CommReqParams, priority: nat, now: int)
    requires Valid(q) && Unique(q.entries) && |sid| <= SessionIdLen
    ensures Unique(Enqueued(q, sid, cid, params, priority, now).1.entries)
  {
    var c0 := Initialised(q);
    assert Unique(c0.entries);
    var c := Cleanup(c0, now).1;
    assert Unique(c.entries) by {
      if c0.initialized {
        forall i, j | 0 <= i < j < |c.entries| && c.entries[i].inUse && c.entries[j].inUse
          ensures c.entries[i].sessionId != c.entries[j].sessionId
        {
          assert c.entries[i] == ExpireOne(c0.entries[i], now);
          assert c.entries[j] == ExpireOne(c0.entries[j], now);
        }
      }
    }
    var r := Enqueued(q, sid, cid, params, priority, now).1;
    match FindSession(c.entries, sid)
    case Some(k) =>
      forall i, j | 0 <= i < j < |r.entries| && r.entries[i].inUse && r.entries[j].inUse
        ensures r.entries[i].sessionId != r.entries[j].sessionId
      {
        assert r.entries[i].sessionId == c.entries[i].sessionId && r.entries[i].inUse == c.entries[i].inUse;
        assert r.entries[j].sessionId == c.entries[j].sessionId && r.entries[j].inUse == c.entries[j].inUse;
      }
    case None =>
      if c.count < Capacity && FirstFree(c.entries).Some? {
        var k := FirstFree(c.entries).value;
        assert r.entries[k].sessionId == sid;
        forall i, j | 0 <= i < j < |r.entries| && r.entries[i].inUse && r.entries[j].inUse
          ensures r.entries[i].sessionId != r.entries[j].sessionId
        {
          if i != k && j != k {
            assert r.entries[i] == c.entries[i] && r.entries[j] == c.entries[j];
          } else if i == k {
            assert r.entries[j] == c.entries[j];
          } else {
            assert r.entries[i] == c.entries[i];
          }
        }
      }
  }

  // --------------------------------------------------------------- peek

  /** An entry the peek may pick. */
  predicate Waiting(e: QueueEntry) {
    e.inUse && e.state == Pending
  }

  /** The entry the scan of the first `n` slots settles on: the first
      waiting entry with the strictly smallest priority below
      `UINT32_MAX`. */
  function BestOf(es: seq<QueueEntry>, n: nat): (b: Option<nat>)
    requires n <= |es|
    ensures b.Some? ==> b.value < n && Waiting(es[b.value]) && es[b.value].priority < NoPriority
    ensures b.Some? ==> forall j :: 0 <= j < n && Waiting(es[j]) ==> es[b.value].priority <= es[j].priority
    ensures b.Some? ==> forall j :: 0 <= j < b.value && Waiting(es[j]) ==> es[b.value].priority < es[j].priority
    ensures b.None? ==> forall j :: 0 <= j < n && Waiting(es[j]) ==> es[j].priority >= NoPriority
  {
    if n == 0 then None
    else
      var b := BestOf(es, n - 1);
      var bound := if b.Some? then es[b.value].priority else NoPriority;
      if Waiting(es[n - 1]) && es[n - 1].priority < bound then Some(n - 1) else b
  }

  /** `mccr_queue_peek_highest_priority`: after cleanup, the best waiting
      entry is marked PROCESSING and returned by slot. */
  function Peek(q: Queue, now: int): (Option<nat>, Queue) {
    if !q.initialized then (None, q)
    else
      var c := Cleanup(q, now).1;
      match BestOf(c.entries, |c.entries|)
      case None => (None, c)
      case Some(i) => (Some(i), c.(entries := c.entries[i := c.entries[i].(state := Processing)]))
  }

  /** The peek keeps the queue valid; the entry it returns stays in the
      queue, no longer waiting, and no other entry changes after cleanup. */
  lemma PeekKeepsValid(q: Queue, now: int)
    requires Valid(q)
    ensures var (b, r) := Peek(q, now);
      Valid(r) && (b.Some? ==> b.value < |r.entries| && r.entries[b.value].inUse && r.entries[b.value].state == Processing)
  {
    if q.initialized {
      CleanupKeepsValid(q, now);
      var c := Cleanup(q, now).1;
      match BestOf(c.entries, |c.entries|)
      case None =>
      case Some(i) =>
        InUseUpdate(c.entries, i, c.entries[i].(state := Processing));
    }
  }

  // ------------------------------------------------------------- status

  function CountWaiting(es: seq<QueueEntry>): nat {
    if |es| == 0 then 0 else CountWaiting(es[..|es| - 1]) + (if Waiting(es[|es| - 1]) then 1 else 0)
  }

  /** `mccr_queue_get_status`: waiting entries and `count`, or zeros
      before initialisation. */
  function Status(q: Queue): (int, int) {
    if !q.initialized then (0, 0) else (CountWaiting(q.entries), q.count)
  }

  lemma {:induction false} WaitingAtMostInUse(es: seq<QueueEntry>)
    ensures CountWaiting(es) <= InUse(es)
    decreases |es|
  {
    if |es| > 0 {
      WaitingAtMostInUse(es[..|es| - 1]);
    }
  }

  /** Of a valid queue the status reports no more waiting entries than
      entries in total, and at most 64 of those. */
  lemma StatusBounds(q: Queue)
    requires Valid(q)
    ensures var (p, t) := Status(q); 0 <= p <= t <= Capacity
  {
    WaitingAtMostInUse(q.entries);
    InUseBound(q.entries);
  }

  // --------------------------------------------------------- the object

  /** `g_mccr_queue`. */
  class QueueManager {
    const entries: array<QueueEntry>
    var count: int
    var initialized: bool

    function State(): Queue
      reads this, entries
    {
      Queue(entries[..], count, initialized)
    }

    /** The zero-initialised static manager. */
    constructor ()
      ensures State() == Zeroed(false) && fresh(entries)
    {
      entries := new QueueEntry[Capacity](_ => EmptyEntry);
      count := 0;
      initialized := false;
      new;
      assert entries[..] == seq(Capacity, _ => EmptyEntry);
    }

    /** `mccr_queue_init`. */
    method Init()
      requires entries.Length == Capacity
      modifies this, entries
      ensures State() == Initialised(old(State()))
    {
      if initialized {
        return;
      }
      var i := 0;
      while i < entries.Length
        invariant i <= entries.Length
        invariant forall j :: 0 <= j < i ==> entries[j] == EmptyEntry
      {
        entries[i] := EmptyEntry;
        i := i + 1;
      }
      count := 0;
      initialized := true;
      assert entries[..] == seq(Capacity, _ => EmptyEntry);
    }

    /** `mccr_queue_cleanup_expired`. */
    method CleanupExpired(now: int) returns (cleaned: int)
      modifies this, entries
      ensures (cleaned, State()) == Cleanup(old(State()), now)
    {
      if !initialized {
        return 0;
      }
      cleaned := 0;
      var i := 0;
      while i < entries.Length
        modifies this, entries
        invariant i <= entries.Length && initialized
        invariant cleaned == CountExpiring(old(entries[..])[..i], now)
        invariant count == old(count) - cleaned
        invariant forall j :: 0 <= j < i ==> entries[j] == ExpireOne(old(entries[j]), now)
        invariant forall j :: i <= j < entries.Length ==> entries[j] == old(entries[j])
      {
        assert old(entries[..])[..i + 1][..i] == old(entries[..])[..i];
        if entries[i].inUse && entries[i].state == Pending && now >= entries[i].expireTime {
          entries[i] := entries[i].(state := Expired, inUse := false);
          count := count - 1;
          cleaned := cleaned + 1;
        }
        i := i + 1;
      }
      assert old(entries[..])[..i] == old(entries[..]);
      assert entries[..] == ExpireAll(old(entries[..]), now);
    }

    /** The first slot in use holding `sid`. */
    method FindEntry(sid: string) returns (r: Option<nat>)
      ensures r == FindSession(entries[..], sid)
    {
      var i := 0;
      while i < entries.Length
        invariant i <= entries.Length
        invariant forall j :: 0 <= j < i ==> !(entries[j].inUse && entries[j].sessionId == sid)
      {
        if entries[i].inUse && entries[i].sessionId == sid {
          FindSessionIs(entries[..], sid, i);
          return Some(i);
        }
        i := i + 1;
      }
      FindSessionNone(entries[..], sid);
      return None;
    }

    /** The first slot not in use. */
    method FreeSlot() returns (r: Option<nat>)
      ensures r == FirstFree(entries[..])
    {
      var i := 0;
      while i < entries.Length
        invariant i <= entries.Length
        invariant forall j :: 0 <= j < i ==> entries[j].inUse
      {
        if !entries[i].inUse {
          FirstFreeIs(entries[..], i);
          return Some(i);
        }
        i := i + 1;
      }
      FirstFreeNone(entries[..]);
      return None;
    }

    /** `mccr_queue_enqueue`. */
    method Enqueue(sid: string, cid: string, params: MagicCic.CommReqParams, priority: nat, now: int) returns (rc: int)
      requires entries.Length == Capacity
      modifies this, entries
      ensures (rc, State()) == Enqueued(old(State()), sid, cid, params, priority, now)
    {
      Init();
      var _ := CleanupExpired(now);
      ghost var c := State();
      var found := FindEntry(sid);
      if found.Some? {
        var i := found.value;
        entries[i] := Requeued(entries[i], params, priority);
        assert entries[..] == c.entries[i := Requeued(c.entries[i], params, priority)];
        return 0;
      }
      if count >= Capacity {
        return -1;
      }
      var free := FreeSlot();
      if free.None? {
        return -1;
      }
      var i := free.value;
      entries[i] := Fresh(sid, cid, params, priority, now);
      count := count + 1;
      assert entries[..] == c.entries[i := Fresh(sid, cid, params, priority, now)];
      return 0;
    }

    /** `mccr_queue_dequeue`. */
    method Dequeue(sid: string) returns (rc: int)
      modifies this, entries
      ensures (rc, State()) == Dequeued(old(State()), sid)
    {
      if !initialized {
        return -1;
      }
      var found := FindEntry(sid);
      if found.None? {
        return -1;
      }
      var i := found.value;
      entries[i] := entries[i].(state := Completed, inUse := false);
      count := count - 1;
      return 0;
    }

    /** `mccr_queue_peek_highest_priority`: the slot of the entry now
      PROCESSING, or none. */
    method PeekHighestPriority(now: int) returns (best: Option<nat>)
      modifies this, entries
      ensures (best, State()) == Peek(old(State()), now)
    {
      if !initialized {
        return None;
      }
      var _ := CleanupExpired(now);
      ghost var c := State();
      best := BestWaiting();
      if best.Some? {
        var k := best.value;
        entries[k] := entries[k].(state := Processing);
        assert entries[..] == c.entries[k := c.entries[k].(state := Processing)];
      }
    }

    /** The scan of the peek: the first waiting entry with the strictly
      smallest priority. */
    method BestWaiting() returns (best: Option<nat>)
      ensures best == BestOf(entries[..], entries.Length)
    {
      best := None;
      var bestPriority := NoPriority;
      var i := 0;
      while i < entries.Length
        invariant i <= entries.Length
        invariant best == BestOf(entries[..], i)
        invariant bestPriority == if best.Some? then entries[best.value].priority else NoPriority
      {
        if entries[i].inUse && entries[i].state == Pending && entries[i].priority < bestPriority {
          bestPriority := entries[i].priority;
          best := Some(i);
        }
        i := i + 1;
      }
    }

    /** `mccr_queue_get_status`. */
    method GetStatus() returns (pending: int, total: int)
      ensures (pending, total) == Status(State())
    {
      if !initialized {
        return 0, 0;
      }
      var p := 0;
      var i := 0;
      while i < entries.Length
        invariant i <= entries.Length
        invariant p == CountWaiting(entries[..][..i])
      {
        assert entries[..][..i + 1][..i] == entries[..][..i];
        if entries[i].inUse && entries[i].state == Pending {
          p := p + 1;
        }
        i := i + 1;
      }
      assert entries[..][..i] == entries[..];
      return p, count;
    }
  }

  lemma FindSessionIs(es: seq<QueueEntry>, sid: string, i: nat)
    requires i < |es| && es[i].inUse && es[i].sessionId == sid
    requires forall j :: 0 <= j < i ==> !(es[j].inUse && es[j].sessionId == sid)
    ensures FindSession(es, sid) == Some(i)
  {
  }

  lemma FindSessionNone(es: seq<QueueEntry>, sid: string)
    requires forall j :: 0 <= j < |es| ==> !(es[j].inUse && es[j].sessionId == sid)
    ensures FindSession(es, sid) == None
  {
  }

  lemma FirstFreeIs(es: seq<QueueEntry>, i: nat)
    requires i < |es| && !es[i].inUse && forall j :: 0 <= j < i ==> es[j].inUse
    ensures FirstFree(es) == Some(i)
  {
  }

  lemma FirstFreeNone(es: seq<QueueEntry>)
    requires forall j :: 0 <= j < |es| ==> es[j].inUse
    ensures FirstFree(es) == None
  {
  }
}
