/** Server-initiated notifications to MAGIC clients: MNTR, which tells one
    session of a new bandwidth or link (with storm suppression and an
    acknowledgement timeout), and MSCR, the status-change report sent to
    every subscribed session. The Diameter stack is not modelled: whether a
    message could be built and handed to the stack is a parameter
    (`Delivery`), and `now` stands for `time(NULL)`. */
module MagicCicPush {
  import opened Wrappers
  import opened Text
  import opened CString
  import MagicSession
  import MagicCic
  import MagicLmi

  type Session = MagicSession.Session
  type Table = MagicSession.Table

  const AckTimeoutSec: int := 5
  const MinIntervalSec: int := 1
  const BwChangeThreshold: nat := 10

  const StatusSuccess: nat := 0
  const StatusNoFreeBandwidth: nat := 1016
  const StatusLinkError: nat := 2007
  const StatusForcedRerouting: nat := 2010

  /** What became of one message: it could not be built (`fd_msg_new` or
      an AVP failed), the stack refused it (`fd_msg_send` failed), or it
      went out. */
  datatype Delivery = BuildFailed | SendFailed | Delivered

  /** The Destination-Realm of a message to `s`: the stored client realm,
      else what follows the first '.' of the client id, else
      "client.local", copied into a 128-byte buffer. */
  function DestRealm(s: Session): (r: string)
    ensures |r| <= 127
    ensures s.clientRealm != "" ==> IsPrefix(r, s.clientRealm)
    ensures s.clientRealm == "" && '.' !in s.clientId ==> r == "client.local"
  {
    Bounded(if s.clientRealm != "" then s.clientRealm
            else if '.' in s.clientId then AfterFirst(s.clientId, '.')
            else "client.local", 127)
  }

  /** A session without a stored realm is routed to the realm part of its
      client id `host.realm`. */
  lemma DestRealmOfClientId(s: Session, host: string, realm: string)
    requires s.clientRealm == "" && '.' !in host && |realm| <= 127
    requires s.clientId == host + "." + realm
    ensures DestRealm(s) == realm
  {
    var id := s.clientId;
    assert id[|host|] == '.';
    assert '.' in id;
    var b := BeforeFirst(id, '.');
    var a := AfterFirst(id, '.');
    assert id == b + ['.'] + a;
    assert forall j :: 0 <= j < |host| ==> id[j] == host[j];
    assert forall j :: 0 <= j < |b| ==> id[j] == b[j];
    assert |b| == |host|;
    assert a == id[|host| + 1..];
    assert id[|host| + 1..] == realm;
  }

  // ------------------------------------------------- storm suppression

  /** `change_percent` as the code computes it: the difference, the
      product and the quotient in `uint32_t`, the quotient read as an
      `int32_t`, its absolute value read back as `uint32_t`. */
  function ChangePercent(last: nat, next: nat): (r: nat)
    requires 0 < last
    ensures r < 0x1_0000_0000
  {
    var q := CastU32(CastU32(next - last) * 100) / last;
    var c := CastI32(q);
    CastU32(if c < 0 then -c else c)
  }

  /** `magic_cic_should_send_mntr`: a forced MNTR always goes; otherwise
      one within a second of the last send, or one whose bandwidth moves
      by less than the threshold, is held back. The two `uint32_t` rates
      are read through `CastU32`. */
  predicate ShouldSend(s: Session, newKbps: nat, force: bool, now: int) {
    var last := CastU32(s.lastNotifiedBw);
    var next := CastU32(newKbps);
    if force then true
    else if s.lastMntrSent > 0 && now - s.lastMntrSent < MinIntervalSec then false
    else !(last > 0 && next > 0 && ChangePercent(last, next) < BwChangeThreshold)
  }

  /** The relative change the threshold is meant to measure. */
  function ChangePercentIntended(last: nat, next: nat): nat
    requires 0 < last
  {
    (if next >= last then next - last else last - next) * 100 / last
  }

  /** The suppression as intended: the same rules on the true change. */
  predicate ShouldSendIntended(s: Session, newKbps: nat, force: bool, now: int) {
    var last := CastU32(s.lastNotifiedBw);
    var next := CastU32(newKbps);
    if force then true
    else if s.lastMntrSent > 0 && now - s.lastMntrSent < MinIntervalSec then false
    else !(last > 0 && next > 0 && ChangePercentIntended(last, next) < BwChangeThreshold)
  }

  lemma MulLeMono(x: int, y: int, b: int)
    requires x <= y && 0 <= b
    ensures x * b <= y * b
  {
  }

  lemma LessOfMulLess(x: int, y: int, b: int)
    requires 0 < b && x * b < y * b
    ensures x < y
  {
  }

  /** The intended threshold holds back exactly the moves, up or down, of
      less than a tenth of the last notified rate. */
  lemma ThresholdMeansTenPercent(last: nat, next: nat)
    requires 0 < last
    ensures ChangePercentIntended(last, next) < BwChangeThreshold
      <==> 10 * (if next >= last then next - last else last - next) < last
  {
    var d := if next >= last then next - last else last - next;
    var q := d * 100 / last;
    var r := d * 100 % last;
    assert d * 100 == q * last + r && 0 <= r < last;
    if q < 10 {
      MulLeMono(q, 9, last);
    } else {
      MulLeMono(10, q, last);
    }
  }

  /** On an increase whose product stays below 2^31 the computed
      percentage is the true one. */
  lemma GrowthComputedExactly(last: nat, next: nat)
    requires 0 < last <= next && (next - last) * 100 < 0x8000_0000
    ensures ChangePercent(last, next) == ChangePercentIntended(last, next)
  {
    var q := (next - last) * 100 / last;
    MulLeMono(1, last, q);
    assert q <= (next - last) * 100;
  }

  /** The unsigned difference of a drop by `d`, scaled by 100, wraps to
      2^32 - 100d. */
  lemma WrappedDrop(d: nat)
    requires 0 < 100 * d < 0x1_0000_0000
    ensures CastU32(CastU32(-(d as int)) * 100) == 0x1_0000_0000 - 100 * d
  {
    assert CastU32(-(d as int)) == 0x1_0000_0000 - d;
    var w := (0x1_0000_0000 - d) * 100;
    assert w == 99 * 0x1_0000_0000 + (0x1_0000_0000 - 100 * d);
  }

  lemma QuotientBounds(p: nat, last: nat)
    requires 2 <= last && 10 * last <= p < 0x1_0000_0000
    ensures 10 <= p / last < 0x8000_0000
  {
    var q := p / last;
    var r := p % last;
    assert p == q * last + r && 0 <= r < last;
    assert 10 * last < (q + 1) * last;
    LessOfMulLess(10, q + 1, last);
    assert q * last < 0x8000_0000 * last;
    LessOfMulLess(q, 0x8000_0000, last);
  }

  /** As written, a drop in bandwidth below 39045157 kbit/s always passes
      the threshold, however small: the unsigned difference wraps to
      nearly 2^32 before it is scaled. */
  lemma ShrinkAlwaysPasses(last: nat, next: nat)
    requires 0 < next < last <= 39045157
    ensures ChangePercent(last, next) >= BwChangeThreshold
  {
    var d := last - next;
    WrappedDrop(d);
    QuotientBounds(0x1_0000_0000 - 100 * d, last);
  }

  /** The discrepancy at one input: 1000 to 950 kbit/s is a 5% drop, which
      the intended rule holds back and the code sends as a 4294962% change. */
  lemma FivePercentDropSent(s: Session, now: int)
    requires s.lastNotifiedBw == 1000 && s.lastMntrSent <= 0
    ensures ChangePercent(1000, 950) == 4294962 && ChangePercentIntended(1000, 950) == 5
    ensures ShouldSend(s, 950, false, now) && !ShouldSendIntended(s, 950, false, now)
  {
    assert CastU32(950 - 1000) == 4294967246;
    assert CastU32(4294967246 * 100) == 4294962296;
  }

  // ----------------------------------------------------------- sending

  /** `MNTRParams`, the fields the send reads; a NULL string is "". The
      rates are the `uint32_t` values in bit/s. */
  datatype MntrParams = MntrParams(
    statusCode: nat, errorMessage: string, grantedBw: nat, grantedRetBw: nat, gateway: string, force: bool)

  /** An MNTR as handed to the stack. */
  datatype Mntr = Mntr(
    sessionId: string, destRealm: string, grantedBw: nat, grantedRetBw: nat,
    gateway: Option<string>, statusCode: Option<nat>, errorMessage: Option<string>)

  function MntrOf(s: Session, p: MntrParams): Mntr {
    Mntr(s.sessionId, DestRealm(s), p.grantedBw, p.grantedRetBw,
         if p.gateway != "" then Some(p.gateway) else None,
         if p.statusCode > 0 then Some(p.statusCode) else None,
         if p.errorMessage != "" then Some(p.errorMessage) else None)
  }

  /** `magic_cic_send_mntr` on one session: the return code, the session
      afterwards and the message that went out, if any. */
  function SendMntr(s: Session, p: MntrParams, now: int, d: Delivery): (Session, int, Option<Mntr>) {
    var kbps := p.grantedBw / 1000;
    if !ShouldSend(s, kbps, p.force, now) then (s, 0, None)
    else if d == BuildFailed then (s, -1, None)
    else
      var s1 := s.(mntrPendingAck := true, lastMntrSent := now, lastNotifiedBw := kbps);
      if d == SendFailed then (s1.(mntrPendingAck := false), -1, None)
      else (s1, 0, Some(MntrOf(s, p)))
  }

  /** A held-back MNTR succeeds and leaves the session as it was. */
  lemma SuppressedChangesNothing(s: Session, p: MntrParams, now: int, d: Delivery)
    requires !ShouldSend(s, p.grantedBw / 1000, p.force, now)
    ensures SendMntr(s, p, now, d) == (s, 0, None)
  {
  }

  /** A send touches only the three MNTR bookkeeping fields; a message
      goes out exactly when the send is allowed and delivered, and then it
      carries the session's id and the requested rates. */
  lemma SendMntrFrame(s: Session, p: MntrParams, now: int, d: Delivery)
    ensures var (s1, rc, msg) := SendMntr(s, p, now, d);
      && s1.(mntrPendingAck := s.mntrPendingAck, lastMntrSent := s.lastMntrSent, lastNotifiedBw := s.lastNotifiedBw) == s
      && (msg.Some? <==> ShouldSend(s, p.grantedBw / 1000, p.force, now) && d == Delivered)
      && (rc == 0 <==> !ShouldSend(s, p.grantedBw / 1000, p.force, now) || d == Delivered)
      && (msg.Some? ==> msg.value.sessionId == s.sessionId && msg.value.grantedBw == p.grantedBw
                        && s1.mntrPendingAck && s1.lastMntrSent == now && s1.lastNotifiedBw == p.grantedBw / 1000)
  {
  }

  /** A forced MNTR is never held back. */
  lemma ForcedIsAttempted(s: Session, p: MntrParams, now: int, d: Delivery)
    requires p.force
    ensures var (s1, rc, msg) := SendMntr(s, p, now, d);
      && (msg.Some? <==> d == Delivered) && (rc == 0 <==> d == Delivered)
      && (d != BuildFailed ==> s1.lastMntrSent == now && s1.lastNotifiedBw == p.grantedBw / 1000)
  {
  }

  /** Storm suppression: once an MNTR has gone out at a positive time, any
      unforced MNTR in the same second is held back. */
  lemma SecondSendSuppressed(s: Session, p: MntrParams, q: MntrParams, now: int, d: Delivery)
    requires now > 0 && !q.force
    requires SendMntr(s, p, now, Delivered).2.Some?
    ensures var s1 := SendMntr(s, p, now, Delivered).0;
      SendMntr(s1, q, now, d) == (s1, 0, None)
  {
  }

  // ------------------------------------------------------ MNTA and timeouts

  /** `mntr_answer_callback` for the session in slot `k`: an answer clears
      `pending_ack`; no answer (the stack's own timeout) also deletes the
      session. */
  function MntrAnswered(t: Table, k: nat, answered: bool, now: int): Table
    requires k < |t.sessions| && MagicSession.ContextsValid(t.clients)
  {
    var s := t.sessions[k].(mntrPendingAck := false);
    var t1 := t.(sessions := t.sessions[k := s]);
    if answered then t1 else MagicSession.Delete(t1, Some(s.sessionId), now).1
  }

  /** A session waits too long for its MNTA. */
  predicate AckOverdue(s: Session, now: int) {
    s.inUse && s.mntrPendingAck && now - s.lastMntrSent >= AckTimeoutSec
  }

  function CloseOverdue(s: Session, now: int): Session {
    if AckOverdue(s, now) then s.(mntrPendingAck := false, state := MagicSession.Closed, inUse := false) else s
  }

  function ClosedOverdue(ss: seq<Session>, now: int): (r: seq<Session>)
    ensures |r| == |ss| && forall i :: 0 <= i < |ss| ==> r[i] == CloseOverdue(ss[i], now)
  {
    seq(|ss|, i requires 0 <= i < |ss| => CloseOverdue(ss[i], now))
  }

  function CountOverdue(ss: seq<Session>, now: int): nat {
    if |ss| == 0 then 0
    else CountOverdue(ss[..|ss| - 1], now) + (if AckOverdue(ss[|ss| - 1], now) then 1 else 0)
  }

  /** `magic_cic_check_mntr_timeouts`: every overdue session is closed and
      taken out of use, and `session_count` drops by one for each. */
  function MntrSweep(t: Table, now: int): Table {
    t.(sessions := ClosedOverdue(t.sessions, now), sessionCount := t.sessionCount - CountOverdue(t.sessions, now))
  }

  lemma {:induction false} InUseClosedOverdue(ss: seq<Session>, now: int)
    ensures MagicSession.InUse(ClosedOverdue(ss, now)) + CountOverdue(ss, now) == MagicSession.InUse(ss)
    decreases |ss|
  {
    if |ss| > 0 {
      var n := |ss| - 1;
      assert ClosedOverdue(ss, now)[..n] == ClosedOverdue(ss[..n], now);
      InUseClosedOverdue(ss[..n], now);
    }
  }

  /** The sweep keeps `session_count` equal to the occupied slots, leaves
      no overdue session behind, closes exactly the overdue ones and
      touches no client context. */
  lemma MntrSweepKeepsCount(t: Table, now: int)
    requires t.sessionCount == MagicSession.InUse(t.sessions)
    ensures var t1 := MntrSweep(t, now);
      && t1.sessionCount == MagicSession.InUse(t1.sessions)
      && t1.clients == t.clients && t1.clientCount == t.clientCount
      && (forall i :: 0 <= i < |t1.sessions| ==> !AckOverdue(t1.sessions[i], now))
      && (forall i :: 0 <= i < |t.sessions| ==>
            if AckOverdue(t.sessions[i], now)
            then !t1.sessions[i].inUse && t1.sessions[i].state == MagicSession.Closed
            else t1.sessions[i] == t.sessions[i])
  {
    InUseClosedOverdue(t.sessions, now);
  }

  /** An MNTR that gets no answer within five seconds costs the session:
      the sweep at or after that closes it. */
  lemma UnansweredSendCloses(t: Table, k: nat, p: MntrParams, t0: int, now: int)
    requires k < |t.sessions| && t.sessions[k].inUse && now >= t0 + AckTimeoutSec
    requires SendMntr(t.sessions[k], p, t0, Delivered).2.Some?
    ensures var t1 := t.(sessions := t.sessions[k := SendMntr(t.sessions[k], p, t0, Delivered).0]);
      var s := MntrSweep(t1, now).sessions[k];
      !s.inUse && s.state == MagicSession.Closed
  {
  }

  /** An answered MNTR is never taken for overdue. */
  lemma AnsweredNeverOverdue(t: Table, k: nat, now: int, later: int)
    requires k < |t.sessions| && MagicSession.ContextsValid(t.clients)
    ensures MntrSweep(MntrAnswered(t, k, true, now), later).sessions[k] == MntrAnswered(t, k, true, now).sessions[k]
  {
  }

  /** The sweep as written frees a slot without zeroing it: the occupied
      count stays right, but the slot is not the zeroed slot the session
      table's invariant asks of free slots. */
  lemma MntrSweepLeavesSlotDirty(t: Table, k: nat, now: int)
    requires k < |t.sessions| && AckOverdue(t.sessions[k], now)
    ensures var s := MntrSweep(t, now).sessions[k];
      !s.inUse && s != MagicSession.EmptySession && !MagicSession.Valid(MntrSweep(t, now))
  {
    var s := MntrSweep(t, now).sessions[k];
    assert s.state != MagicSession.EmptySession.state;
  }

  // ---------------------------------------------------------- MSCR

  /** `StatusChangeType`. */
  datatype ChangeType = DlmUp | DlmDown | DlmDegraded | ClientJoin | ClientLeave

  predicate NeedsDlm(level: nat) { level >= 2 }
  predicate NeedsMagic(level: nat) { level == 1 || level == 3 || level == 7 }

  /** Whether a session subscribed at `level` is told of a change: client
      events go to the MAGIC-status levels, link events to the DLM ones. */
  predicate Wants(level: nat, change: ChangeType) {
    if change == ClientJoin || change == ClientLeave then NeedsMagic(level) else NeedsDlm(level)
  }

  /** The broadcast's choice of recipients is the subscription's own
      split of a status level into parts. */
  lemma WantsFollowsGrantedParts(level: nat, change: ChangeType)
    ensures Wants(level, change)
      == if change == ClientJoin || change == ClientLeave then MagicCic.PartsOf(level).registeredClients
         else MagicCic.PartsOf(level).dlmList
  {
  }

  /** `magic_session_find_subscribed`'s filter. */
  predicate Subscribed(s: Session) {
    s.inUse && s.subscriptionActive && (s.state == MagicSession.Authenticated || s.state == MagicSession.Active)
  }

  /** `MSCRParams`; `dlmAvailable` is 0 for available, 1 for not. */
  datatype MscrParams = MscrParams(
    change: ChangeType, dlmName: Option<string>, dlmAvailable: nat, statusCode: nat, errorMessage: string)

  /** One `DLM-Info`: name, DLM-Available (1 yes, 2 no), DLM-Max-Links and
      DLM-Allocated-Links; the two Float32 bandwidths are not modelled. */
  datatype DlmInfo = DlmInfo(name: string, available: int, maxLinks: nat, allocatedLinks: nat)

  /** An MSCR as handed to the stack. */
  datatype Mscr = Mscr(
    sessionId: string, destRealm: string, registeredClients: Option<nat>, dlmList: Option<seq<DlmInfo>>,
    statusCode: Option<nat>, errorMessage: Option<string>)

  /** The DLM-Available enumeration of a 0/1 availability flag. */
  function AvailableEnum(dlmAvailable: nat): int {
    if dlmAvailable == 0 then 1 else 2
  }

  function MscrFor(s: Session, sessionCount: int, p: MscrParams): Mscr {
    var level := s.subscribedLevel;
    Mscr(s.sessionId, DestRealm(s),
         if NeedsMagic(level) then Some(CastU32(sessionCount)) else None,
         if NeedsDlm(level) && p.dlmName.Some?
         then Some([DlmInfo(p.dlmName.value, AvailableEnum(p.dlmAvailable), MagicLmi.MaxBearers, 0)])
         else None,
         if p.statusCode > 0 then Some(p.statusCode) else None,
         if p.errorMessage != "" then Some(p.errorMessage) else None)
  }

  /** Whether slot `i` holding `s` gets the report. */
  predicate Reached(s: Session, i: nat, p: MscrParams, delivery: nat -> Delivery) {
    Subscribed(s) && Wants(s.subscribedLevel, p.change) && delivery(i) == Delivered
  }

  /** `magic_cic_broadcast_mscr`: the reports sent, in slot order;
      `delivery(i)` says what became of the one built for slot `i`. */
  function Broadcast(ss: seq<Session>, sessionCount: int, p: MscrParams, delivery: nat -> Delivery): seq<Mscr> {
    if |ss| == 0 then []
    else
      var n := |ss| - 1;
      Broadcast(ss[..n], sessionCount, p, delivery)
        + (if Reached(ss[n], n, p, delivery) then [MscrFor(ss[n], sessionCount, p)] else [])
  }

  /** The broadcast reaches exactly the subscribed sessions that want the
      change and whose report was delivered. */
  lemma {:induction false} BroadcastReachesExactly(ss: seq<Session>, sessionCount: int, p: MscrParams, delivery: nat -> Delivery)
    ensures forall i :: 0 <= i < |ss| && Reached(ss[i], i, p, delivery) ==>
      MscrFor(ss[i], sessionCount, p) in Broadcast(ss, sessionCount, p, delivery)
    ensures forall m :: m in Broadcast(ss, sessionCount, p, delivery) ==>
      exists i :: 0 <= i < |ss| && Reached(ss[i], i, p, delivery) && m == MscrFor(ss[i], sessionCount, p)
    decreases |ss|
  {
    if |ss| > 0 {
      var n := |ss| - 1;
      BroadcastReachesExactly(ss[..n], sessionCount, p, delivery);
      forall i | 0 <= i < n
        ensures ss[..n][i] == ss[i]
      {
      }
    }
  }

  /** Each report carries the parts of the status its recipient's level
      was granted: the client count for MAGIC levels, the DLM list for DLM
      levels when the event names a DLM. */
  lemma MscrCarriesGrantedParts(s: Session, sessionCount: int, p: MscrParams)
    ensures var m := MscrFor(s, sessionCount, p);
      && (m.registeredClients.Some? <==> MagicCic.PartsOf(s.subscribedLevel).registeredClients)
      && (m.dlmList.Some? <==> MagicCic.PartsOf(s.subscribedLevel).dlmList && p.dlmName.Some?)
      && (m.dlmList.Some? ==> m.dlmList.value[0].available == (if p.dlmAvailable == 0 then 1 else 2))
  {
  }

  /** `mscr_answer_callback`: an answer with Result-Code 2001 keeps the
      subscription; no answer, or any other code (0 when absent), ends it. */
  function MscrAnswered(s: Session, result: Option<nat>): Session {
    if result == Some(2001) then s else s.(subscriptionActive := false, subscribedLevel := 0)
  }

  /** A session whose report failed gets no further reports. */
  lemma FailedMscrUnsubscribes(s: Session, result: Option<nat>, i: nat, p: MscrParams, delivery: nat -> Delivery)
    requires result != Some(2001)
    ensures !Reached(MscrAnswered(s, result), i, p, delivery)
    ensures MscrAnswered(s, result).(subscriptionActive := s.subscriptionActive, subscribedLevel := s.subscribedLevel) == s
  {
  }

  /** The DLM-Info of a registered DLM client in the initial report. */
  function InfoOf(c: MagicLmi.DlmClient): DlmInfo {
    DlmInfo(c.linkId, if c.registered then 1 else 2, MagicLmi.MaxBearers, c.numActive)
  }

  /** The DLM list of the initial report: the registered clients in slot
      order. */
  function RegisteredInfos(cs: seq<MagicLmi.DlmClient>): seq<DlmInfo> {
    if |cs| == 0 then []
    else RegisteredInfos(cs[..|cs| - 1]) + (if cs[|cs| - 1].registered then [InfoOf(cs[|cs| - 1])] else [])
  }

  /** The initial list names every registered DLM and nothing else, each
      as available. */
  lemma {:induction false} RegisteredInfosExact(cs: seq<MagicLmi.DlmClient>)
    ensures forall i :: 0 <= i < |cs| && cs[i].registered ==> InfoOf(cs[i]) in RegisteredInfos(cs)
    ensures forall x :: x in RegisteredInfos(cs) ==>
      x.available == 1 && exists i :: 0 <= i < |cs| && cs[i].registered && x == InfoOf(cs[i])
    decreases |cs|
  {
    if |cs| > 0 {
      var n := |cs| - 1;
      RegisteredInfosExact(cs[..n]);
      forall i | 0 <= i < n
        ensures cs[..n][i] == cs[i]
      {
      }
    }
  }

  /** `magic_cic_send_initial_mscr`: nothing for an unsubscribed session;
      otherwise the client count and the DLM list as the level asks, with
      status SUCCESS always present. */
  function InitialMscr(s: Session, sessionCount: int, dlms: seq<MagicLmi.DlmClient>, d: Delivery): (int, Option<Mscr>) {
    var level := s.subscribedLevel;
    if level == 0 then (0, None)
    else if d != Delivered then (-1, None)
    else (0, Some(Mscr(s.sessionId, DestRealm(s),
                       if NeedsMagic(level) then Some(CastU32(sessionCount)) else None,
                       if NeedsDlm(level) then Some(RegisteredInfos(dlms)) else None,
                       Some(StatusSuccess), Some("Initial Status Report"))))
  }

  /** The initial report carries the granted parts; unlike a broadcast it
      always carries a status code and, at a DLM level, a list, even an
      empty one. */
  lemma InitialMscrCarriesGrantedParts(s: Session, sessionCount: int, dlms: seq<MagicLmi.DlmClient>)
    requires s.subscribedLevel > 0
    ensures var (rc, m) := InitialMscr(s, sessionCount, dlms, Delivered);
      && rc == 0 && m.Some? && m.value.statusCode == Some(StatusSuccess)
      && (m.value.registeredClients.Some? <==> MagicCic.PartsOf(s.subscribedLevel).registeredClients)
      && (m.value.dlmList.Some? <==> MagicCic.PartsOf(s.subscribedLevel).dlmList)
  {
  }

  // ------------------------------------------------- session events

  /** The MNTR a link event sends to a session on that link, computed
      before the session is resumed or suspended. */
  function LinkMntrParams(s: Session, isUp: bool): MntrParams {
    if isUp then MntrParams(StatusSuccess, "Link recovered", CastU32(s.grantedFl * 1000), CastU32(s.grantedRl * 1000), "", true)
    else MntrParams(StatusLinkError, "Link connection lost", 0, 0, "", true)
  }

  predicate OnLink(s: Session, linkId: string) {
    s.inUse && s.state != MagicSession.Closed && s.assignedLink == linkId
  }

  /** One slot of `magic_cic_on_link_status_change`: a session on the link
      is resumed (link up) or suspended (link down) and sent a forced MNTR. */
  function LinkEventAt(s: Session, linkId: string, isUp: bool, now: int, d: Delivery): (Session, Option<Mntr>) {
    if !OnLink(s, linkId) then (s, None)
    else
      var p := LinkMntrParams(s, isUp);
      var s1 := if isUp then MagicSession.Resume(s, now).1 else MagicSession.Suspend(s, now).1;
      var r := SendMntr(s1, p, now, d);
      (r.0, r.2)
  }

  function LinkSwept(ss: seq<Session>, linkId: string, isUp: bool, now: int, delivery: nat -> Delivery): (r: seq<Session>)
    ensures |r| == |ss|
    ensures forall i :: 0 <= i < |ss| ==> r[i] == LinkEventAt(ss[i], linkId, isUp, now, delivery(i)).0
  {
    seq(|ss|, i requires 0 <= i < |ss| => LinkEventAt(ss[i], linkId, isUp, now, delivery(i)).0)
  }

  function LinkMntrs(ss: seq<Session>, linkId: string, isUp: bool, now: int, delivery: nat -> Delivery): seq<Mntr> {
    if |ss| == 0 then []
    else
      var n := |ss| - 1;
      var m := LinkEventAt(ss[n], linkId, isUp, now, delivery(n)).1;
      LinkMntrs(ss[..n], linkId, isUp, now, delivery) + (if m.Some? then [m.value] else [])
  }

  /** The MSCR that follows a link event. */
  function LinkMscrParams(linkId: string, isUp: bool): MscrParams {
    MscrParams(if isUp then DlmUp else DlmDown, Some(linkId), if isUp then 0 else 1,
               if isUp then StatusSuccess else StatusLinkError,
               if isUp then "DLM link recovered" else "DLM link lost")
  }

  /** A link event reports the link as available exactly when it came up. */
  lemma LinkMscrAvailability(linkId: string, isUp: bool)
    ensures AvailableEnum(LinkMscrParams(linkId, isUp).dlmAvailable) == if isUp then 1 else 2
    ensures Wants(2, LinkMscrParams(linkId, isUp).change) && !Wants(1, LinkMscrParams(linkId, isUp).change)
  {
  }

  lemma LinkMntrsStep(ss: seq<Session>, i: nat, linkId: string, isUp: bool, now: int, delivery: nat -> Delivery)
    requires i < |ss|
    ensures var m := LinkEventAt(ss[i], linkId, isUp, now, delivery(i)).1;
      LinkMntrs(ss[..i + 1], linkId, isUp, now, delivery)
        == LinkMntrs(ss[..i], linkId, isUp, now, delivery) + (if m.Some? then [m.value] else [])
  {
    assert ss[..i + 1][..i] == ss[..i];
  }

  /** A link going down suspends each active session on it, takes its
      bandwidth and sends it a LINK_ERROR MNTR with no bandwidth, whatever
      the storm control says; a session elsewhere is untouched. */
  lemma LinkDownSuspends(s: Session, linkId: string, now: int, d: Delivery)
    ensures var (s1, m) := LinkEventAt(s, linkId, false, now, d);
      && (!OnLink(s, linkId) ==> s1 == s && m.None?)
      && (OnLink(s, linkId) && s.state == MagicSession.Active ==>
            s1.state == MagicSession.Suspended && s1.grantedFl == 0 && s1.grantedRl == 0)
      && (OnLink(s, linkId) ==> (m.Some? <==> d == Delivered))
      && (m.Some? ==> m.value.statusCode == Some(StatusLinkError) && m.value.grantedBw == 0)
  {
  }

  /** After a link goes down and comes back, an active session is active
      again but its recovery MNTR reports no bandwidth: the suspend cleared
      the granted rates and the resume does not restore them. */
  lemma RecoveryReportsNoBandwidth(s: Session, linkId: string, t1: int, t2: int, d: Delivery)
    requires OnLink(s, linkId) && s.state == MagicSession.Active
    ensures var s1 := LinkEventAt(s, linkId, false, t1, d).0;
      var (s2, m) := LinkEventAt(s1, linkId, true, t2, Delivered);
      s2.state == MagicSession.Active && m.Some? && m.value.grantedBw == 0 && m.value.statusCode.None?
  {
    var p := LinkMntrParams(s, false);
    var s0 := MagicSession.Suspend(s, t1).1;
    SendMntrFrame(s0, p, t1, d);
    var s1 := SendMntr(s0, p, t1, d).0;
    assert s1 == LinkEventAt(s, linkId, false, t1, d).0;
    assert OnLink(s1, linkId) && s1.state == MagicSession.Suspended && s1.grantedFl == 0;
    var q := LinkMntrParams(s1, true);
    assert q.grantedBw == 0 && q.statusCode == 0 && q.force;
    var s3 := MagicSession.Resume(s1, t2).1;
    assert s3.state == MagicSession.Active;
    SendMntrFrame(s3, q, t2, Delivered);
  }

  /** `magic_cic_on_bandwidth_change`: no change sends nothing; otherwise
      the session takes the new rate first and an unforced MNTR follows,
      NO_FREE_BANDWIDTH for a decrease and no status code (SUCCESS is 0)
      for an increase. */
  function OnBandwidthChange(s: Session, newBw: nat, reason: string, now: int, d: Delivery): (Session, int, Option<Mntr>) {
    if newBw == s.grantedFl then (s, 0, None)
    else
      var code := if newBw < s.grantedFl then StatusNoFreeBandwidth else StatusSuccess;
      var p := MntrParams(code, reason, CastU32(newBw * 1000), CastU32(s.grantedRl * 1000), "", false);
      SendMntr(s.(grantedFl := newBw, lastActivity := now), p, now, d)
  }

  lemma BandwidthChangeOutcome(s: Session, newBw: nat, reason: string, now: int, d: Delivery)
    ensures var (s1, rc, m) := OnBandwidthChange(s, newBw, reason, now, d);
      && (newBw == s.grantedFl ==> (s1, rc, m) == (s, 0, None))
      && (newBw != s.grantedFl ==> s1.grantedFl == newBw && s1.lastActivity == now)
      && (m.Some? ==> m.value.statusCode == (if newBw < s.grantedFl then Some(StatusNoFreeBandwidth) else None))
      && (m.Some? ==> m.value.grantedBw == CastU32(newBw * 1000))
  {
  }

  /** A second change in the same second is held back, but the session
      still takes the new rate. */
  lemma QuickSecondChangeHeld(s: Session, b1: nat, b2: nat, r1: string, r2: string, now: int, d: Delivery)
    requires now > 0 && b1 != s.grantedFl && b2 != b1
    requires OnBandwidthChange(s, b1, r1, now, Delivered).2.Some?
    ensures var s1 := OnBandwidthChange(s, b1, r1, now, Delivered).0;
      var (s2, rc, m) := OnBandwidthChange(s1, b2, r2, now, d);
      rc == 0 && m.None? && s2.grantedFl == b2
  {
  }

  /** `magic_cic_on_handover`: the old link becomes the previous one, the
      new link is assigned, the gateway is replaced only by a non-empty
      one, and a FORCED_REROUTING MNTR is forced out. Link and gateway
      buffers hold 63 characters. */
  function OnHandover(s: Session, newLink: string, gateway: string, now: int, d: Delivery): (Session, int, Option<Mntr>) {
    var p := MntrParams(StatusForcedRerouting, "Link handover completed",
                        CastU32(s.grantedFl * 1000), CastU32(s.grantedRl * 1000), gateway, true);
    var s1 := s.(gatewayIp := if gateway != "" then Bounded(gateway, 63) else s.gatewayIp,
                 previousLink := Bounded(s.assignedLink, 63), assignedLink := Bounded(newLink, 63),
                 lastSwitchTime := now, lastActivity := now);
    SendMntr(s1, p, now, d)
  }

  lemma HandoverRecordsLinks(s: Session, newLink: string, gateway: string, now: int, d: Delivery)
    requires |s.assignedLink| <= 63 && |newLink| <= 63 && |gateway| <= 63
    ensures var (s1, rc, m) := OnHandover(s, newLink, gateway, now, d);
      && s1.previousLink == s.assignedLink && s1.assignedLink == newLink
      && s1.gatewayIp == (if gateway == "" then s.gatewayIp else gateway)
      && (m.Some? <==> d == Delivered) && (rc == 0 <==> d == Delivered)
      && (m.Some? ==> m.value.statusCode == Some(StatusForcedRerouting)
                      && m.value.gateway == (if gateway == "" then None else Some(gateway)))
  {
  }

  /** Handing over and back restores the assigned link and records the
      intermediate one as previous. */
  lemma HandoverAndBack(s: Session, newLink: string, t1: int, t2: int, d1: Delivery, d2: Delivery)
    requires |s.assignedLink| <= 63 && |newLink| <= 63
    ensures var s1 := OnHandover(s, newLink, "", t1, d1).0;
      var s2 := OnHandover(s1, s.assignedLink, "", t2, d2).0;
      s2.assignedLink == s.assignedLink && s2.previousLink == newLink && s2.gatewayIp == s.gatewayIp
  {
  }

  // ----------------------------------------------- the session table

  /** `magic_cic_send_mntr` on slot `k`. */
  method SendMntrTo(m: MagicSession.SessionManager, k: nat, p: MntrParams, now: int, d: Delivery)
    returns (rc: int, msg: Option<Mntr>)
    requires k < m.sessions.Length
    modifies m.sessions
    ensures var (s1, rc', msg') := SendMntr(old(m.sessions[k]), p, now, d);
      rc == rc' && msg == msg' && m.sessions[..] == old(m.sessions[..])[k := s1]
  {
    var s := m.sessions[k];
    var kbps := p.grantedBw / 1000;
    if !ShouldSend(s, kbps, p.force, now) {
      assert m.sessions[..] == old(m.sessions[..])[k := s];
      return 0, None;
    }
    if d == BuildFailed {
      assert m.sessions[..] == old(m.sessions[..])[k := s];
      return -1, None;
    }
    m.sessions[k] := s.(mntrPendingAck := true, lastMntrSent := now, lastNotifiedBw := kbps);
    if d == SendFailed {
      m.sessions[k] := m.sessions[k].(mntrPendingAck := false);
      return -1, None;
    }
    return 0, Some(MntrOf(s, p));
  }

  /** `magic_cic_check_mntr_timeouts`. */
  method CheckMntrTimeouts(m: MagicSession.SessionManager, now: int)
    modifies m, m.sessions
    ensures m.State() == MntrSweep(old(m.State()), now)
  {
    ghost var ss := m.sessions[..];
    var i := 0;
    while i < m.sessions.Length
      invariant i <= m.sessions.Length
      invariant m.sessionCount == old(m.sessionCount) - CountOverdue(ss[..i], now)
      invariant forall j :: 0 <= j < i ==> m.sessions[j] == CloseOverdue(ss[j], now)
      invariant forall j :: i <= j < m.sessions.Length ==> m.sessions[j] == ss[j]
      invariant m.clientCount == old(m.clientCount)
    {
      assert ss[..i + 1][..i] == ss[..i];
      var s := m.sessions[i];
      if s.inUse && s.mntrPendingAck && now - s.lastMntrSent >= AckTimeoutSec {
        m.sessions[i] := s.(mntrPendingAck := false, state := MagicSession.Closed, inUse := false);
        m.sessionCount := m.sessionCount - 1;
      }
      assert m.sessions[i] == CloseOverdue(ss[i], now);
      i := i + 1;
    }
    assert ss[..i] == ss;
    assert m.sessions[..] == ClosedOverdue(ss, now);
  }

  /** `magic_cic_broadcast_mscr`: the loop over the subscribed sessions. */
  method BroadcastMscr(m: MagicSession.SessionManager, p: MscrParams, delivery: nat -> Delivery) returns (sent: seq<Mscr>)
    ensures sent == Broadcast(m.sessions[..], m.sessionCount, p, delivery)
  {
    sent := [];
    var i := 0;
    while i < m.sessions.Length
      invariant i <= m.sessions.Length
      invariant sent == Broadcast(m.sessions[..i], m.sessionCount, p, delivery)
    {
      assert m.sessions[..i + 1][..i] == m.sessions[..i];
      var s := m.sessions[i];
      if Subscribed(s) && Wants(s.subscribedLevel, p.change) && delivery(i) == Delivered {
        sent := sent + [MscrFor(s, m.sessionCount, p)];
      }
      i := i + 1;
    }
    assert m.sessions[..i] == m.sessions[..];
  }

  /** One pass of the MNTR loop of `magic_cic_on_link_status_change`. */
  method LinkEventSlot(m: MagicSession.SessionManager, i: nat, linkId: string, isUp: bool, now: int, d: Delivery)
    returns (msg: Option<Mntr>)
    requires i < m.sessions.Length
    modifies m.sessions
    ensures var (s1, msg') := LinkEventAt(old(m.sessions[i]), linkId, isUp, now, d);
      msg == msg' && m.sessions[..] == old(m.sessions[..])[i := s1]
  {
    var s := m.sessions[i];
    if !OnLink(s, linkId) {
      assert m.sessions[..] == old(m.sessions[..])[i := s];
      return None;
    }
    var p := LinkMntrParams(s, isUp);
    var rc;
    if isUp {
      rc := m.ResumeSession(i, now);
    } else {
      rc := m.SuspendSession(i, now);
    }
    rc, msg := SendMntrTo(m, i, p, now, d);
  }

  /** `magic_cic_on_link_status_change`: the MNTR loop over the sessions
      on the link, then the MSCR broadcast. */
  method OnLinkStatusChange(m: MagicSession.SessionManager, linkId: string, isUp: bool, now: int,
                            mntrDelivery: nat -> Delivery, mscrDelivery: nat -> Delivery)
    returns (mntrs: seq<Mntr>, mscrs: seq<Mscr>)
    modifies m.sessions
    ensures m.sessions[..] == LinkSwept(old(m.sessions[..]), linkId, isUp, now, mntrDelivery)
    ensures mntrs == LinkMntrs(old(m.sessions[..]), linkId, isUp, now, mntrDelivery)
    ensures mscrs == Broadcast(m.sessions[..], m.sessionCount, LinkMscrParams(linkId, isUp), mscrDelivery)
  {
    ghost var ss := m.sessions[..];
    mntrs := [];
    var i := 0;
    while i < m.sessions.Length
      invariant i <= m.sessions.Length
      invariant mntrs == LinkMntrs(ss[..i], linkId, isUp, now, mntrDelivery)
      invariant forall j :: 0 <= j < i ==> m.sessions[j] == LinkEventAt(ss[j], linkId, isUp, now, mntrDelivery(j)).0
      invariant forall j :: i <= j < m.sessions.Length ==> m.sessions[j] == ss[j]
    {
      LinkMntrsStep(ss, i, linkId, isUp, now, mntrDelivery);
      var msg := LinkEventSlot(m, i, linkId, isUp, now, mntrDelivery(i));
      assert m.sessions[i] == LinkEventAt(ss[i], linkId, isUp, now, mntrDelivery(i)).0;
      if msg.Some? {
        mntrs := mntrs + [msg.value];
      }
      i := i + 1;
    }
    assert ss[..i] == ss;
    assert m.sessions[..] == LinkSwept(ss, linkId, isUp, now, mntrDelivery);
    mscrs := BroadcastMscr(m, LinkMscrParams(linkId, isUp), mscrDelivery);
  }

  /** `magic_cic_on_bandwidth_change` on slot `k`. */
  method BandwidthChangeAt(m: MagicSession.SessionManager, k: nat, newBw: nat, reason: string, now: int, d: Delivery)
    returns (rc: int, msg: Option<Mntr>)
    requires k < m.sessions.Length
    modifies m.sessions
    ensures var (s1, rc', msg') := OnBandwidthChange(old(m.sessions[k]), newBw, reason, now, d);
      rc == rc' && msg == msg' && m.sessions[..] == old(m.sessions[..])[k := s1]
  {
    var s := m.sessions[k];
    if newBw == s.grantedFl {
      assert m.sessions[..] == old(m.sessions[..])[k := s];
      return 0, None;
    }
    var code := if newBw < s.grantedFl then StatusNoFreeBandwidth else StatusSuccess;
    var p := MntrParams(code, reason, CastU32(newBw * 1000), CastU32(s.grantedRl * 1000), "", false);
    m.sessions[k] := s.(grantedFl := newBw, lastActivity := now);
    rc, msg := SendMntrTo(m, k, p, now, d);
  }

  /** `magic_cic_on_handover` on slot `k`. */
  method HandoverAt(m: MagicSession.SessionManager, k: nat, newLink: string, gateway: string, now: int, d: Delivery)
    returns (rc: int, msg: Option<Mntr>)
    requires k < m.sessions.Length
    modifies m.sessions
    ensures var (s1, rc', msg') := OnHandover(old(m.sessions[k]), newLink, gateway, now, d);
      rc == rc' && msg == msg' && m.sessions[..] == old(m.sessions[..])[k := s1]
  {
    var s := m.sessions[k];
    var p := MntrParams(StatusForcedRerouting, "Link handover completed",
                        CastU32(s.grantedFl * 1000), CastU32(s.grantedRl * 1000), gateway, true);
    if gateway != "" {
      s := s.(gatewayIp := Bounded(gateway, 63));
    }
    s := s.(previousLink := Bounded(s.assignedLink, 63), assignedLink := Bounded(newLink, 63),
            lastSwitchTime := now, lastActivity := now);
    m.sessions[k] := s;
    rc, msg := SendMntrTo(m, k, p, now, d);
  }

  /** `magic_cic_send_initial_mscr` for slot `k`, with the DLM list built
      from the LMI client table. */
  method SendInitialMscr(m: MagicSession.SessionManager, k: nat, lmi: MagicLmi.LmiContext, d: Delivery)
    returns (rc: int, msg: Option<Mscr>)
    requires k < m.sessions.Length
    ensures (rc, msg) == InitialMscr(m.sessions[k], m.sessionCount, lmi.clients[..], d)
  {
    var s := m.sessions[k];
    var level := s.subscribedLevel;
    if level == 0 {
      return 0, None;
    }
    if d != Delivered {
      return -1, None;
    }
    var infos: seq<DlmInfo> := [];
    var i := 0;
    while i < lmi.clients.Length
      invariant i <= lmi.clients.Length
      invariant infos == RegisteredInfos(lmi.clients[..i])
    {
      assert lmi.clients[..i + 1][..i] == lmi.clients[..i];
      var c := lmi.clients[i];
      if c.registered {
        infos := infos + [DlmInfo(c.linkId, if c.registered then 1 else 2, MagicLmi.MaxBearers, c.numActive)];
      }
      i := i + 1;
    }
    assert lmi.clients[..i] == lmi.clients[..];
    msg := Some(Mscr(s.sessionId, DestRealm(s),
                     if NeedsMagic(level) then Some(CastU32(m.sessionCount)) else None,
                     if NeedsDlm(level) then Some(infos) else None,
                     Some(StatusSuccess), Some("Initial Status Report")));
    rc := 0;
  }
}
