/** The MAGIC data plane's routing bookkeeping (`magic_dataplane.c`): the
    registered links with their policy-routing table ids and fwmarks, the
    per-session client routing rules, and the five-tuple TFT marking rules.
    The `ip`/`iptables` commands are not run here: whether each command
    succeeds is a parameter (`routeOk`, `ipRuleOk`, `mangleOk`, the set of
    TFT slots whose re-marking fails), and the clock is the `now` argument.
    The mutex is not modelled, since every operation runs under it. */
module MagicDataplane {
  import opened Wrappers
  import opened CString

  const TableBase: nat := 100
  const TableMax: nat := 199
  const PriorityBase: nat := 1000
  const PriorityMax: nat := 2000
  const MaxLinks: nat := 10
  const MaxRules: nat := 256
  const MaxTftRules: nat := 1024
  /** The `char[16]` and `char[64]` buffers, less the terminator. */
  const IfNameLen: nat := 15
  const IpLen: nat := 63
  const LinkIdLen: nat := 63
  const SessionIdLen: nat := 63

  /** `LinkRouteConfig`. */
  datatype LinkRoute = LinkRoute(
    linkId: string, interfaceName: string, gatewayIp: string,
    tableId: nat, fwmark: nat, configured: bool)

  /** `ClientRoutingRule` (the unused `fwmark` field is left out). */
  datatype RouteRule = RouteRule(
    inUse: bool, clientIp: string, sessionId: string, linkId: string,
    priority: nat, tableId: nat, createdAt: int)

  const FreeRule := RouteRule(false, "", "", "", 0, 0, 0)

  /** `TftTuple`: addresses, ports (0 = any) and protocol (0 = any). */
  datatype Tuple = Tuple(srcIp: string, dstIp: string, srcPort: nat, dstPort: nat, protocol: nat)

  /** `TftRule`. */
  datatype TftRule = TftRule(
    inUse: bool, tuple: Tuple, sessionId: string, linkId: string,
    fwmark: nat, createdAt: int)

  const FreeTft := TftRule(false, Tuple("", "", 0, 0, 0), "", "", 0, 0)

  /** `DataplaneContext`: the live links (`links[0..num_links)`), the rule
      and TFT tables with their counters, and the flags. */
  datatype Plane = Plane(
    links: seq<LinkRoute>, rules: seq<RouteRule>, numRules: int, nextPriority: nat,
    tfts: seq<TftRule>, numTft: int, initialized: bool, routing: bool)

  // ---------------------------------------------------------------------
  // Lookups

  /** `find_link_config`: the first live link with this id. */
  function FindLink(ls: seq<LinkRoute>, id: string): (r: Option<nat>)
    ensures r.Some? ==> r.value < |ls| && ls[r.value].linkId == id
    ensures r.Some? ==> forall j :: 0 <= j < r.value ==> ls[j].linkId != id
    ensures r.None? ==> forall j :: 0 <= j < |ls| ==> ls[j].linkId != id
  {
    if |ls| == 0 then None
    else if ls[0].linkId == id then Some(0)
    else match FindLink(ls[1..], id)
      case None => None
      case Some(k) => Some(k + 1)
  }

  /** `magic_dataplane_find_rule`: the first in-use rule of the session. */
  function FindRule(rs: seq<RouteRule>, sid: string): (r: Option<nat>)
    ensures r.Some? ==> r.value < |rs| && rs[r.value].inUse && rs[r.value].sessionId == sid
    ensures r.Some? ==> forall j :: 0 <= j < r.value ==> !(rs[j].inUse && rs[j].sessionId == sid)
    ensures r.None? ==> forall j :: 0 <= j < |rs| ==> !(rs[j].inUse && rs[j].sessionId == sid)
  {
    if |rs| == 0 then None
    else if rs[0].inUse && rs[0].sessionId == sid then Some(0)
    else match FindRule(rs[1..], sid)
      case None => None
      case Some(k) => Some(k + 1)
  }

  /** `find_free_rule_slot`. */
  function FreeRuleSlot(rs: seq<RouteRule>): (r: Option<nat>)
    ensures r.Some? ==> r.value < |rs| && !rs[r.value].inUse
    ensures r.Some? ==> forall j :: 0 <= j < r.value ==> rs[j].inUse
    ensures r.None? ==> forall j :: 0 <= j < |rs| ==> rs[j].inUse
  {
    if |rs| == 0 then None
    else if !rs[0].inUse then Some(0)
    else match FreeRuleSlot(rs[1..])
      case None => None
      case Some(k) => Some(k + 1)
  }

  /** The free-slot search of `magic_dataplane_add_tft_rule`. */
  function FreeTftSlot(ts: seq<TftRule>): (r: Option<nat>)
    ensures r.Some? ==> r.value < |ts| && !ts[r.value].inUse
    ensures r.Some? ==> forall j :: 0 <= j < r.value ==> ts[j].inUse
    ensures r.None? ==> forall j :: 0 <= j < |ts| ==> ts[j].inUse
  {
    if |ts| == 0 then None
    else if !ts[0].inUse then Some(0)
    else match FreeTftSlot(ts[1..])
      case None => None
      case Some(k) => Some(k + 1)
  }

  // ---------------------------------------------------------------------
  // Counts

  function RulesInUse(rs: seq<RouteRule>): nat {
    if |rs| == 0 then 0 else RulesInUse(rs[..|rs| - 1]) + (if rs[|rs| - 1].inUse then 1 else 0)
  }

  function TftsInUse(ts: seq<TftRule>): nat {
    if |ts| == 0 then 0 else TftsInUse(ts[..|ts| - 1]) + (if ts[|ts| - 1].inUse then 1 else 0)
  }

  /** An in-use rule for client `ip` that does not belong to the excluded
      session. */
  predicate SharesIp(r: RouteRule, ip: string, exclude: Option<string>) {
    r.inUse && r.clientIp == ip && !(exclude.Some? && r.sessionId == exclude.value)
  }

  /** `count_client_ip_sessions`. */
  function IpSessions(rs: seq<RouteRule>, ip: string, exclude: Option<string>): nat {
    if |rs| == 0 then 0
    else IpSessions(rs[..|rs| - 1], ip, exclude) + (if SharesIp(rs[|rs| - 1], ip, exclude) then 1 else 0)
  }

  predicate OnTable(r: RouteRule, t: nat) { r.inUse && r.tableId == t }

  function TableRules(rs: seq<RouteRule>, t: nat): nat {
    if |rs| == 0 then 0 else TableRules(rs[..|rs| - 1], t) + (if OnTable(rs[|rs| - 1], t) then 1 else 0)
  }

  predicate OfSession(e: TftRule, sid: string) { e.inUse && e.sessionId == sid }

  /** The slots holding the session's TFT rules, in slot order. */
  function SessionTfts(ts: seq<TftRule>, sid: string): seq<nat> {
    if |ts| == 0 then []
    else SessionTfts(ts[..|ts| - 1], sid) + (if OfSession(ts[|ts| - 1], sid) then [|ts| - 1] else [])
  }

  lemma {:induction false} RulesInUseUpdate(rs: seq<RouteRule>, j: nat, r: RouteRule)
    requires j < |rs|
    ensures RulesInUse(rs[j := r]) + (if rs[j].inUse then 1 else 0)
         == RulesInUse(rs) + (if r.inUse then 1 else 0)
    decreases |rs|
  {
    var n := |rs| - 1;
    if j < n {
      assert rs[j := r][..n] == rs[..n][j := r];
      RulesInUseUpdate(rs[..n], j, r);
    } else {
      assert rs[j := r][..n] == rs[..n];
    }
  }

  lemma {:induction false} TftsInUseUpdate(ts: seq<TftRule>, j: nat, e: TftRule)
    requires j < |ts|
    ensures TftsInUse(ts[j := e]) + (if ts[j].inUse then 1 else 0)
         == TftsInUse(ts) + (if e.inUse then 1 else 0)
    decreases |ts|
  {
    var n := |ts| - 1;
    if j < n {
      assert ts[j := e][..n] == ts[..n][j := e];
      TftsInUseUpdate(ts[..n], j, e);
    } else {
      assert ts[j := e][..n] == ts[..n];
    }
  }

  lemma {:induction false} IpSessionsExist(rs: seq<RouteRule>, ip: string, exclude: Option<string>)
    ensures IpSessions(rs, ip, exclude) > 0 <==> exists j :: 0 <= j < |rs| && SharesIp(rs[j], ip, exclude)
    decreases |rs|
  {
    if |rs| > 0 {
      var n := |rs| - 1;
      IpSessionsExist(rs[..n], ip, exclude);
      if IpSessions(rs[..n], ip, exclude) > 0 {
        var j :| 0 <= j < n && SharesIp(rs[..n][j], ip, exclude);
        assert rs[j] == rs[..n][j];
      }
      if exists j :: 0 <= j < |rs| && SharesIp(rs[j], ip, exclude) {
        var j :| 0 <= j < |rs| && SharesIp(rs[j], ip, exclude);
        if j < n {
          assert rs[..n][j] == rs[j];
        }
      }
    }
  }

  lemma {:induction false} SessionTftsExact(ts: seq<TftRule>, sid: string)
    ensures forall k :: 0 <= k < |SessionTfts(ts, sid)| ==>
      SessionTfts(ts, sid)[k] < |ts| && OfSession(ts[SessionTfts(ts, sid)[k]], sid)
    ensures forall i :: 0 <= i < |ts| && OfSession(ts[i], sid) ==> i in SessionTfts(ts, sid)
    ensures forall k, l :: 0 <= k < l < |SessionTfts(ts, sid)| ==>
      SessionTfts(ts, sid)[k] < SessionTfts(ts, sid)[l]
    decreases |ts|
  {
    if |ts| > 0 {
      var n := |ts| - 1;
      SessionTftsExact(ts[..n], sid);
      assert forall i :: 0 <= i < n ==> ts[..n][i] == ts[i];
    }
  }

  lemma {:induction false} NoSessionTfts(ts: seq<TftRule>, sid: string)
    ensures (forall i :: 0 <= i < |ts| ==> !OfSession(ts[i], sid)) ==> SessionTfts(ts, sid) == []
    decreases |ts|
  {
    if |ts| > 0 {
      NoSessionTfts(ts[..|ts| - 1], sid);
      assert forall i :: 0 <= i < |ts| - 1 ==> ts[..|ts| - 1][i] == ts[i];
    }
  }

  // ---------------------------------------------------------------------
  // Bulk updates

  /** Frees every in-use rule routed through table `t`. */
  function DropTable(rs: seq<RouteRule>, t: nat): (r: seq<RouteRule>)
    ensures |r| == |rs|
  {
    seq(|rs|, i requires 0 <= i < |rs| => Unroute(rs[i], t))
  }

  function Unroute(r: RouteRule, t: nat): RouteRule {
    if OnTable(r, t) then r.(inUse := false) else r
  }

  /** Frees every in-use TFT rule of the session. */
  function DropSession(ts: seq<TftRule>, sid: string): (r: seq<TftRule>)
    ensures |r| == |ts|
  {
    seq(|ts|, i requires 0 <= i < |ts| => Unmark(ts[i], sid))
  }

  function Unmark(e: TftRule, sid: string): TftRule {
    if OfSession(e, sid) then e.(inUse := false) else e
  }

  lemma {:induction false} DropTableCount(rs: seq<RouteRule>, t: nat)
    ensures RulesInUse(DropTable(rs, t)) + TableRules(rs, t) == RulesInUse(rs)
    ensures TableRules(rs, t) <= RulesInUse(rs)
    decreases |rs|
  {
    if |rs| > 0 {
      var n := |rs| - 1;
      assert DropTable(rs, t)[..n] == DropTable(rs[..n], t);
      DropTableCount(rs[..n], t);
    }
  }

  lemma {:induction false} DropSessionCount(ts: seq<TftRule>, sid: string)
    ensures TftsInUse(DropSession(ts, sid)) + |SessionTfts(ts, sid)| == TftsInUse(ts)
    decreases |ts|
  {
    if |ts| > 0 {
      var n := |ts| - 1;
      assert DropSession(ts, sid)[..n] == DropSession(ts[..n], sid);
      DropSessionCount(ts[..n], sid);
    }
  }

  // ---------------------------------------------------------------------
  // The context and its invariant

  /** The zero-filled static context, before `magic_dataplane_init`. */
  function Zeroed(): Plane {
    Plane([], seq(MaxRules, _ => FreeRule), 0, 0, seq(MaxTftRules, _ => FreeTft), 0, false, false)
  }

  /** `magic_dataplane_init`: cleared tables, priorities from the base,
      routing enabled. */
  function Initial(): Plane {
    Zeroed().(nextPriority := PriorityBase, initialized := true, routing := true)
  }

  /** The counters match the tables, at most ten links are live, and the
      next priority lies in its range once initialised. */
  predicate Valid(pl: Plane) {
    |pl.links| <= MaxLinks && |pl.rules| == MaxRules && |pl.tfts| == MaxTftRules
    && pl.numRules == RulesInUse(pl.rules) && pl.numTft == TftsInUse(pl.tfts)
    && (pl.initialized ==> PriorityBase <= pl.nextPriority <= PriorityMax)
  }

  lemma {:induction false} ZeroedCounts(n: nat)
    ensures RulesInUse(seq(n, _ => FreeRule)) == 0 && TftsInUse(seq(n, _ => FreeTft)) == 0
    decreases n
  {
    if n > 0 {
      assert seq(n, _ => FreeRule)[..n - 1] == seq(n - 1, _ => FreeRule);
      assert seq(n, _ => FreeTft)[..n - 1] == seq(n - 1, _ => FreeTft);
      ZeroedCounts(n - 1);
    }
  }

  lemma InitialValid()
    ensures Valid(Zeroed()) && Valid(Initial())
    ensures Initial().links == [] && RulesInUse(Initial().rules) == 0 && TftsInUse(Initial().tfts) == 0
  {
    ZeroedCounts(MaxRules);
    ZeroedCounts(MaxTftRules);
  }

  // ---------------------------------------------------------------------
  // Links

  /** `magic_dataplane_register_link`; `routeOk` is whether the
      `ip route add` of `create_route_table` succeeds. */
  function Register(pl: Plane, id: string, ifName: string, gw: string, routeOk: bool): (int, Plane) {
    if !pl.initialized then (-1, pl)
    else match FindLink(pl.links, id)
      case Some(k) => (pl.links[k].tableId, pl)
      case None =>
        if |pl.links| >= MaxLinks then (-1, pl)
        else
          var t := TableBase + |pl.links|;
          var name := Bounded(ifName, IfNameLen);
          var link := LinkRoute(Bounded(id, LinkIdLen), name, Bounded(gw, IpLen), t, t, name != "" && routeOk);
          (t, pl.(links := pl.links + [link]))
  }

  /** `magic_dataplane_get_table_id` and `magic_dataplane_get_fwmark`: 0
      for an unknown link. */
  function TableIdOf(pl: Plane, id: string): nat {
    match FindLink(pl.links, id)
    case None => 0
    case Some(k) => pl.links[k].tableId
  }

  function FwmarkOf(pl: Plane, id: string): nat {
    match FindLink(pl.links, id)
    case None => 0
    case Some(k) => pl.links[k].fwmark
  }

  /** `magic_dataplane_unregister_link`: the link's rules are freed and the
      last live link is moved into its slot. */
  function Unregister(pl: Plane, id: string): (int, Plane) {
    if !pl.initialized then (-1, pl)
    else match FindLink(pl.links, id)
      case None => (-1, pl)
      case Some(k) =>
        var t := pl.links[k].tableId;
        var last := |pl.links| - 1;
        (0, pl.(links := pl.links[k := pl.links[last]][..last],
                rules := DropTable(pl.rules, t),
                numRules := pl.numRules - TableRules(pl.rules, t)))
  }

  lemma RegisterValid(pl: Plane, id: string, ifName: string, gw: string, routeOk: bool)
    requires Valid(pl)
    ensures Valid(Register(pl, id, ifName, gw, routeOk).1)
  {
  }

  lemma UnregisterValid(pl: Plane, id: string)
    requires Valid(pl)
    ensures Valid(Unregister(pl, id).1)
  {
    if pl.initialized && FindLink(pl.links, id).Some? {
      DropTableCount(pl.rules, pl.links[FindLink(pl.links, id).value].tableId);
    }
  }

  /** Every live link's fwmark is its table id, which lies in
      `[TableBase, TableBase + MaxLinks)`, inside the range 100-199 reserved
      for the data plane. */
  predicate TablesWellFormed(ls: seq<LinkRoute>) {
    forall j :: 0 <= j < |ls| ==>
      ls[j].fwmark == ls[j].tableId && TableBase <= ls[j].tableId < TableBase + MaxLinks <= TableMax
  }

  /** A registered link answers with its table id and fwmark, which are
      equal; registering it again returns the same id and changes nothing. */
  lemma RegisterThenLookup(pl: Plane, id: string, ifName: string, gw: string, routeOk: bool)
    requires TablesWellFormed(pl.links) && |id| <= LinkIdLen
    ensures var (rc, p1) := Register(pl, id, ifName, gw, routeOk);
      rc >= 0 ==> TableIdOf(p1, id) == rc && FwmarkOf(p1, id) == TableIdOf(p1, id)
                  && Register(p1, id, ifName, gw, routeOk) == (rc, p1)
    ensures pl.initialized && FindLink(pl.links, id).None? && |pl.links| < MaxLinks
      ==> Register(pl, id, ifName, gw, routeOk).0 == TableBase + |pl.links|
  {
    var (rc, p1) := Register(pl, id, ifName, gw, routeOk);
    if pl.initialized && FindLink(pl.links, id).None? && |pl.links| < MaxLinks {
      assert p1.links[|pl.links|].linkId == id;
      assert forall j :: 0 <= j < |pl.links| ==> p1.links[j] == pl.links[j];
    }
  }

  lemma TablesStayInRange(pl: Plane, id: string, ifName: string, gw: string, routeOk: bool, gone: string)
    requires Valid(pl) && TablesWellFormed(pl.links)
    ensures TablesWellFormed(Register(pl, id, ifName, gw, routeOk).1.links)
    ensures TablesWellFormed(Unregister(pl, gone).1.links)
  {
  }

  /** Unregistering frees exactly the rules routed through the link's
      table and removes the link, keeping every other live link. */
  lemma UnregisterRemovesLink(pl: Plane, id: string)
    requires Valid(pl) && pl.initialized && FindLink(pl.links, id).Some?
    ensures var k := FindLink(pl.links, id).value;
      var p1 := Unregister(pl, id).1;
      |p1.links| == |pl.links| - 1
      && (forall j :: 0 <= j < |pl.links| && j != k ==> pl.links[j] in p1.links)
      && (forall i :: 0 <= i < MaxRules ==>
            (p1.rules[i].inUse <==> pl.rules[i].inUse && pl.rules[i].tableId != pl.links[k].tableId))
  {
    var k := FindLink(pl.links, id).value;
    var p1 := Unregister(pl, id).1;
    var last := |pl.links| - 1;
    forall j | 0 <= j < |pl.links| && j != k
      ensures pl.links[j] in p1.links
    {
      if j == last {
        assert p1.links[k] == pl.links[j];
      } else {
        assert p1.links[j] == pl.links[j];
      }
    }
  }

  /** Table ids assigned as `TableBase + num_links` are reused once a link
      other than the last is unregistered: with SATCOM and WIFI registered
      (tables 100 and 101), unregistering SATCOM moves WIFI into slot 0, and
      registering CELLULAR then hands out table 101, which WIFI still holds. */
  lemma TableIdReused()
    ensures var p1 := Register(Initial(), "SATCOM", "ens37", "", true).1;
      var p2 := Register(p1, "WIFI", "ens38", "", true).1;
      var p3 := Unregister(p2, "SATCOM").1;
      var (t, p4) := Register(p3, "CELLULAR", "ens35", "", true);
      t == 101 && TableIdOf(p4, "WIFI") == 101 && TableIdOf(p4, "CELLULAR") == 101
      && !DistinctTables(p4.links)
  {
    var p1 := Register(Initial(), "SATCOM", "ens37", "", true).1;
    assert p1.links[0].linkId == "SATCOM";
    var p2 := Register(p1, "WIFI", "ens38", "", true).1;
    assert p2.links[1].linkId == "WIFI" && p2.links[1].tableId == 101;
    var p3 := Unregister(p2, "SATCOM").1;
    assert p3.links == [p2.links[1]];
    var p4 := Register(p3, "CELLULAR", "ens35", "", true).1;
    assert p4.links[1].linkId == "CELLULAR" && p4.links[1].tableId == 101;
  }

  /** No two live links share a routing table. */
  predicate DistinctTables(ls: seq<LinkRoute>) {
    forall i, j :: 0 <= i < j < |ls| ==> ls[i].tableId != ls[j].tableId
  }

  predicate TableUsed(ls: seq<LinkRoute>, t: nat) {
    exists j :: 0 <= j < |ls| && ls[j].tableId == t
  }

  /** The lowest table id from `t` up to `TableMax` that no live link holds. */
  function LowestFreeTable(ls: seq<LinkRoute>, t: nat): (r: Option<nat>)
    ensures r.Some? ==> t <= r.value <= TableMax && !TableUsed(ls, r.value)
    decreases TableMax + 1 - t
  {
    if t > TableMax then None
    else if TableUsed(ls, t) then LowestFreeTable(ls, t + 1)
    else Some(t)
  }

  /** Registration as evidently intended: the new link takes the lowest
      table id no live link holds, within the reserved range. */
  function RegisterFresh(pl: Plane, id: string, ifName: string, gw: string, routeOk: bool): (int, Plane) {
    if !pl.initialized then (-1, pl)
    else match FindLink(pl.links, id)
      case Some(k) => (pl.links[k].tableId, pl)
      case None =>
        if |pl.links| >= MaxLinks then (-1, pl)
        else match LowestFreeTable(pl.links, TableBase)
          case None => (-1, pl)
          case Some(t) =>
            var name := Bounded(ifName, IfNameLen);
            var link := LinkRoute(Bounded(id, LinkIdLen), name, Bounded(gw, IpLen), t, t, name != "" && routeOk);
            (t as int, pl.(links := pl.links + [link]))
  }

  function UsedTables(ls: seq<LinkRoute>): set<nat> {
    set j | 0 <= j < |ls| :: ls[j].tableId
  }

  function TableRange(lo: nat, hi: nat): (r: set<nat>)
    ensures forall t :: t in r <==> lo <= t < hi
    decreases hi - lo
  {
    if lo >= hi then {} else TableRange(lo, hi - 1) + {hi - 1}
  }

  lemma {:induction false} UsedTablesBound(ls: seq<LinkRoute>)
    ensures |UsedTables(ls)| <= |ls|
    decreases |ls|
  {
    if |ls| > 0 {
      var n := |ls| - 1;
      UsedTablesBound(ls[..n]);
      assert UsedTables(ls) == UsedTables(ls[..n]) + {ls[n].tableId};
    }
  }

  lemma {:induction false} TableRangeSize(lo: nat, hi: nat)
    requires lo <= hi
    ensures |TableRange(lo, hi)| == hi - lo
    decreases hi - lo
  {
    if lo < hi {
      TableRangeSize(lo, hi - 1);
    }
  }

  lemma {:induction false} NoFreeTableMeansAllUsed(ls: seq<LinkRoute>, t: nat)
    requires TableBase <= t <= TableMax + 1 && LowestFreeTable(ls, t).None?
    ensures TableRange(t, TableMax + 1) <= UsedTables(ls)
    decreases TableMax + 1 - t
  {
    if t <= TableMax {
      NoFreeTableMeansAllUsed(ls, t + 1);
      var j :| 0 <= j < |ls| && ls[j].tableId == t;
      assert t in UsedTables(ls);
      assert TableRange(t, TableMax + 1) == TableRange(t + 1, TableMax + 1) + {t};
    }
  }

  lemma SubsetSize(a: set<nat>, b: set<nat>)
    requires a <= b
    ensures |a| <= |b|
  {
    assert b == a + (b - a);
  }

  /** With fewer links than reserved table ids a free id always exists, so
      the corrected registration never refuses a link below the limit. */
  lemma FreeTableExists(ls: seq<LinkRoute>)
    requires |ls| < TableMax + 1 - TableBase
    ensures LowestFreeTable(ls, TableBase).Some?
  {
    if LowestFreeTable(ls, TableBase).None? {
      NoFreeTableMeansAllUsed(ls, TableBase);
      TableRangeSize(TableBase, TableMax + 1);
      UsedTablesBound(ls);
      SubsetSize(TableRange(TableBase, TableMax + 1), UsedTables(ls));
    }
  }

  /** The corrected registration keeps table ids distinct (unregistering
      already does), and accepts exactly the links the original accepts. */
  lemma RegisterFreshKeepsTablesDistinct(pl: Plane, id: string, ifName: string, gw: string, routeOk: bool, gone: string)
    requires Valid(pl) && DistinctTables(pl.links)
    ensures DistinctTables(RegisterFresh(pl, id, ifName, gw, routeOk).1.links)
    ensures DistinctTables(Unregister(pl, gone).1.links)
    ensures (RegisterFresh(pl, id, ifName, gw, routeOk).0 >= 0) == (Register(pl, id, ifName, gw, routeOk).0 >= 0)
  {
    if pl.initialized && FindLink(pl.links, id).None? && |pl.links| < MaxLinks {
      FreeTableExists(pl.links);
    }
    if pl.initialized && FindLink(pl.links, gone).Some? {
      var k := FindLink(pl.links, gone).value;
      var last := |pl.links| - 1;
      var ls := pl.links[k := pl.links[last]][..last];
      forall i, j | 0 <= i < j < |ls|
        ensures ls[i].tableId != ls[j].tableId
      {
        var i' := if i == k then last else i;
        var j' := if j == k then last else j;
        assert ls[i] == pl.links[i'] && ls[j] == pl.links[j'];
      }
    }
  }

  // ---------------------------------------------------------------------
  // Client routing rules

  /** The priority after `next_priority++` with its wrap to the base. */
  function NextPriority(p: nat): (r: nat)
    ensures PriorityBase <= r <= PriorityMax || r == p + 1
    ensures PriorityBase <= p <= PriorityMax ==> PriorityBase <= r <= PriorityMax
  {
    if p + 1 > PriorityMax then PriorityBase else p + 1
  }

  /** The session's existing rule freed, as `add_client_route` does before
      taking a slot. */
  function Vacate(rs: seq<RouteRule>, sid: string): (r: seq<RouteRule>)
    ensures |r| == |rs|
  {
    match FindRule(rs, sid)
    case None => rs
    case Some(j) => rs[j := rs[j].(inUse := false)]
  }

  /** 1 when the session holds a rule. */
  function Held(rs: seq<RouteRule>, sid: string): nat {
    if FindRule(rs, sid).Some? then 1 else 0
  }

  lemma VacateCount(rs: seq<RouteRule>, sid: string)
    ensures RulesInUse(Vacate(rs, sid)) + Held(rs, sid) == RulesInUse(rs)
    ensures forall i :: 0 <= i < |rs| ==> (Vacate(rs, sid)[i].inUse ==> Vacate(rs, sid)[i] == rs[i])
    ensures forall i :: 0 <= i < |rs| ==> (!rs[i].inUse ==> !Vacate(rs, sid)[i].inUse)
  {
    if FindRule(rs, sid).Some? {
      var j := FindRule(rs, sid).value;
      RulesInUseUpdate(rs, j, rs[j].(inUse := false));
    }
  }

  /** With at most one rule per session, freeing the session's rule
      leaves it without one. */
  lemma VacateClears(rs: seq<RouteRule>, sid: string)
    requires OneRulePerSession(rs)
    ensures OneRulePerSession(Vacate(rs, sid))
    ensures forall i :: 0 <= i < |rs| ==> !(Vacate(rs, sid)[i].inUse && Vacate(rs, sid)[i].sessionId == sid)
  {
    VacateCount(rs, sid);
  }

  /** Writing a rule of a session that holds none into a free slot keeps
      one rule per session and makes it the session's rule. */
  lemma InsertRule(rs: seq<RouteRule>, f: nat, rule: RouteRule)
    requires OneRulePerSession(rs) && f < |rs| && !rs[f].inUse && rule.inUse
    requires forall i :: 0 <= i < |rs| ==> !(rs[i].inUse && rs[i].sessionId == rule.sessionId)
    ensures OneRulePerSession(rs[f := rule])
    ensures FindRule(rs[f := rule], rule.sessionId) == Some(f)
    ensures RulesInUse(rs[f := rule]) == RulesInUse(rs) + 1
  {
    RulesInUseUpdate(rs, f, rule);
    var rs1 := rs[f := rule];
    assert forall i :: 0 <= i < |rs| && i != f ==> rs1[i] == rs[i];
    assert rs1[f].inUse && rs1[f].sessionId == rule.sessionId;
    var r := FindRule(rs1, rule.sessionId);
    if r.Some? {
      assert r.value == f;
    }
  }

  /** `magic_dataplane_add_client_route`: the return code, whether the
      iptables cleanup is skipped because another session shares the client
      IP, and the new context. `createOk` is whether re-creating the link's
      route table succeeds, `ipRuleOk` whether `ip rule add` does. */
  function AddRoute(pl: Plane, ip: string, sid: string, linkId: string, now: int,
                    createOk: bool, ipRuleOk: bool): (int, bool, Plane)
    requires |pl.rules| > 0
  {
    if !pl.initialized then (-1, false, pl)
    else if !pl.routing then (0, false, pl)
    else match FindLink(pl.links, linkId)
      case None => (-1, false, pl)
      case Some(k) =>
        var l := pl.links[k];
        if !l.configured && !(l.interfaceName != "" && createOk) then (-1, false, pl)
        else
          PlaceRule(Prepared(pl, k, sid), ip, sid, linkId, l.tableId, now, ipRuleOk)
  }

  /** The context once link `k` is configured and the session's old rule
      freed. */
  function Prepared(pl: Plane, k: nat, sid: string): Plane
    requires k < |pl.links|
  {
    pl.(links := pl.links[k := pl.links[k].(configured := true)],
        rules := Vacate(pl.rules, sid), numRules := pl.numRules - Held(pl.rules, sid))
  }

  /** The rest of `add_client_route` once the link is configured and the
      session's old rule is freed: take the first free slot and the next
      priority, and record the rule if `ip rule add` succeeds. */
  function PlaceRule(p2: Plane, ip: string, sid: string, linkId: string, table: nat, now: int,
                     ipRuleOk: bool): (int, bool, Plane)
  {
    match FreeRuleSlot(p2.rules)
    case None => (-1, false, p2)
    case Some(f) =>
      var prio := p2.nextPriority;
      var p3 := p2.(nextPriority := NextPriority(prio));
      var skip := IpSessions(p3.rules, ip, Some(sid)) > 0;
      if !ipRuleOk then (-1, skip, p3)
      else
        var rule := RouteRule(true, Bounded(ip, IpLen), Bounded(sid, SessionIdLen),
                              Bounded(linkId, LinkIdLen), prio, table, now);
        (0, skip, p3.(rules := p3.rules[f := rule], numRules := p3.numRules + 1))
  }

  /** `magic_dataplane_remove_client_route`: the return code, whether a
      blackhole rule is added for the freed client IP, and the new context. */
  function RemoveRoute(pl: Plane, sid: string): (int, bool, Plane) {
    if !pl.initialized then (-1, false, pl)
    else match FindRule(pl.rules, sid)
      case None => (-1, false, pl)
      case Some(j) =>
        var ip := pl.rules[j].clientIp;
        var rs := pl.rules[j := pl.rules[j].(inUse := false)];
        (0, IpSessions(rs, ip, None) == 0, pl.(rules := rs, numRules := pl.numRules - 1))
  }

  lemma AddRouteValid(pl: Plane, ip: string, sid: string, linkId: string, now: int, createOk: bool, ipRuleOk: bool)
    requires Valid(pl)
    ensures Valid(AddRoute(pl, ip, sid, linkId, now, createOk, ipRuleOk).2)
  {
    VacateCount(pl.rules, sid);
    var rs := Vacate(pl.rules, sid);
    if FreeRuleSlot(rs).Some? && FindLink(pl.links, linkId).Some? {
      var f := FreeRuleSlot(rs).value;
      var k := FindLink(pl.links, linkId).value;
      RulesInUseUpdate(rs, f, RouteRule(true, Bounded(ip, IpLen), Bounded(sid, SessionIdLen),
                                        Bounded(linkId, LinkIdLen), pl.nextPriority, pl.links[k].tableId, now));
    }
  }

  lemma RemoveRouteValid(pl: Plane, sid: string)
    requires Valid(pl)
    ensures Valid(RemoveRoute(pl, sid).2)
  {
    if pl.initialized && FindRule(pl.rules, sid).Some? {
      var j := FindRule(pl.rules, sid).value;
      RulesInUseUpdate(pl.rules, j, pl.rules[j].(inUse := false));
    }
  }

  /** The cleanup is skipped exactly when another session's rule uses the
      same client IP; routing switched off answers 0 and changes nothing. */
  lemma AddRouteSkipsForSharedIp(pl: Plane, ip: string, sid: string, linkId: string, now: int, createOk: bool, ipRuleOk: bool)
    requires |pl.rules| > 0
    ensures var (rc, skip, p1) := AddRoute(pl, ip, sid, linkId, now, createOk, ipRuleOk);
      (skip ==> exists j :: 0 <= j < |pl.rules| && SharesIp(pl.rules[j], ip, Some(sid)))
      && (rc == 0 && pl.routing ==>
            (skip <==> exists j :: 0 <= j < |pl.rules| && SharesIp(pl.rules[j], ip, Some(sid))))
    ensures pl.initialized && !pl.routing ==> AddRoute(pl, ip, sid, linkId, now, createOk, ipRuleOk) == (0, false, pl)
  {
    var rs := Vacate(pl.rules, sid);
    assert forall i :: 0 <= i < |rs| ==> (SharesIp(rs[i], ip, Some(sid)) <==> SharesIp(pl.rules[i], ip, Some(sid)));
    IpSessionsExist(rs, ip, Some(sid));
  }

  /** At most one in-use rule per session. */
  predicate OneRulePerSession(rs: seq<RouteRule>) {
    forall i :: 0 <= i < |rs| && rs[i].inUse ==> FindRule(rs, rs[i].sessionId) == Some(i)
  }

  /** A successful add leaves exactly one rule for the session, on the
      link's table with the priority that was next; removing the route
      afterwards leaves none. Both need the session id to fit its buffer,
      since the stored copy is truncated. */
  lemma AddRouteReplacesRule(pl: Plane, ip: string, sid: string, linkId: string, now: int, createOk: bool, ipRuleOk: bool)
    requires Valid(pl) && OneRulePerSession(pl.rules) && |sid| <= SessionIdLen
    ensures var (rc, _, p1) := AddRoute(pl, ip, sid, linkId, now, createOk, ipRuleOk);
      OneRulePerSession(p1.rules)
      && (rc == 0 && pl.routing ==>
            FindRule(p1.rules, sid).Some?
            && p1.rules[FindRule(p1.rules, sid).value].tableId == TableIdOf(pl, linkId)
            && p1.rules[FindRule(p1.rules, sid).value].priority == pl.nextPriority
            && p1.nextPriority == NextPriority(pl.nextPriority)
            && RemoveRoute(p1, sid).0 == 0
            && FindRule(RemoveRoute(p1, sid).2.rules, sid).None?)
  {
    VacateClears(pl.rules, sid);
    if pl.initialized && pl.routing && FindLink(pl.links, linkId).Some? {
      var k := FindLink(pl.links, linkId).value;
      var l := pl.links[k];
      if l.configured || (l.interfaceName != "" && createOk) {
        var p2 := Prepared(pl, k, sid);
        assert AddRoute(pl, ip, sid, linkId, now, createOk, ipRuleOk)
            == PlaceRule(p2, ip, sid, linkId, l.tableId, now, ipRuleOk);
        assert p2.rules == Vacate(pl.rules, sid) && p2.nextPriority == pl.nextPriority && p2.initialized;
        PlaceRuleKeepsOne(p2, ip, sid, linkId, l.tableId, now, ipRuleOk);
      }
    }
  }

  lemma PlaceRuleKeepsOne(p2: Plane, ip: string, sid: string, linkId: string, table: nat, now: int, ipRuleOk: bool)
    requires p2.initialized && OneRulePerSession(p2.rules) && |sid| <= SessionIdLen
    requires forall i :: 0 <= i < |p2.rules| ==> !(p2.rules[i].inUse && p2.rules[i].sessionId == sid)
    ensures var (rc, _, p1) := PlaceRule(p2, ip, sid, linkId, table, now, ipRuleOk);
      OneRulePerSession(p1.rules)
      && (rc == 0 ==>
            FindRule(p1.rules, sid).Some?
            && p1.rules[FindRule(p1.rules, sid).value].tableId == table
            && p1.rules[FindRule(p1.rules, sid).value].priority == p2.nextPriority
            && p1.nextPriority == NextPriority(p2.nextPriority)
            && FindRule(RemoveRoute(p1, sid).2.rules, sid).None?)
  {
    var rs := p2.rules;
    if FreeRuleSlot(rs).Some? && ipRuleOk {
      var f := FreeRuleSlot(rs).value;
      var rule := RouteRule(true, Bounded(ip, IpLen), Bounded(sid, SessionIdLen),
                            Bounded(linkId, LinkIdLen), p2.nextPriority, table, now);
      InsertRule(rs, f, rule);
      var p1 := p2.(nextPriority := NextPriority(p2.nextPriority), rules := rs[f := rule], numRules := p2.numRules + 1);
      assert PlaceRule(p2, ip, sid, linkId, table, now, ipRuleOk).2 == p1;
      var rs2 := rs[f := rule][f := rule.(inUse := false)];
      assert RemoveRoute(p1, sid).2.rules == rs2;
      assert forall i :: 0 <= i < |rs2| ==> !(rs2[i].inUse && rs2[i].sessionId == sid);
    }
  }

  /** A blackhole is added exactly when no remaining rule serves the freed
      client IP; a session without a rule is refused. */
  lemma RemoveRouteBlackhole(pl: Plane, sid: string)
    ensures var (rc, blackhole, p1) := RemoveRoute(pl, sid);
      (rc == 0 <==> pl.initialized && FindRule(pl.rules, sid).Some?)
      && (rc == 0 ==>
            var ip := pl.rules[FindRule(pl.rules, sid).value].clientIp;
            (blackhole <==> forall j :: 0 <= j < |p1.rules| ==> !(p1.rules[j].inUse && p1.rules[j].clientIp == ip)))
  {
    if pl.initialized && FindRule(pl.rules, sid).Some? {
      var j := FindRule(pl.rules, sid).value;
      var p1 := RemoveRoute(pl, sid).2;
      IpSessionsExist(p1.rules, pl.rules[j].clientIp, None);
    }
  }

  /** When `ip rule add` fails, the session's previous rule is already
      freed and the priority consumed, yet the call reports failure. */
  lemma FailedAddDropsOldRule(pl: Plane, ip: string, sid: string, linkId: string, now: int)
    requires Valid(pl) && OneRulePerSession(pl.rules) && pl.initialized && pl.routing
    requires FindLink(pl.links, linkId).Some? && pl.links[FindLink(pl.links, linkId).value].configured
    requires FindRule(pl.rules, sid).Some?
    ensures var (rc, _, p1) := AddRoute(pl, ip, sid, linkId, now, true, false);
      rc == -1 && FindRule(p1.rules, sid).None? && p1.numRules == pl.numRules - 1
      && p1.nextPriority == NextPriority(pl.nextPriority)
  {
    VacateClears(pl.rules, sid);
    var j := FindRule(pl.rules, sid).value;
    var rs := Vacate(pl.rules, sid);
    assert !rs[j].inUse;
  }

  // ---------------------------------------------------------------------
  // TFT rules

  /** `magic_dataplane_add_tft_rule`: the record is written before the
      mangle command runs; `mangleOk` is whether that command succeeds. */
  function AddTft(pl: Plane, tuple: Tuple, sid: string, linkId: string, now: int, mangleOk: bool): (int, Plane) {
    if !pl.initialized then (-1, pl)
    else match FindLink(pl.links, linkId)
      case None => (-1, pl)
      case Some(k) =>
        match FreeTftSlot(pl.tfts)
        case None => (-1, pl)
        case Some(f) =>
          var e := TftRule(true, tuple, Bounded(sid, SessionIdLen), Bounded(linkId, LinkIdLen), pl.links[k].fwmark, now);
          (if mangleOk then 0 else -1, pl.(tfts := pl.tfts[f := e], numTft := pl.numTft + 1))
  }

  /** `magic_dataplane_remove_tft_rules`: the number of rules freed. */
  function RemoveTfts(pl: Plane, sid: string): (int, Plane) {
    if !pl.initialized then (-1, pl)
    else
      var n := |SessionTfts(pl.tfts, sid)|;
      (n, pl.(tfts := DropSession(pl.tfts, sid), numTft := pl.numTft - n))
  }

  function Take(s: seq<nat>, n: nat): (r: seq<nat>)
    ensures |r| == if n < |s| then n else |s|
  {
    if n < |s| then s[..n] else s
  }

  /** `magic_dataplane_find_tft_rules`: the slots of at most `max` of the
      session's rules, the earliest first. */
  function FindTfts(ts: seq<TftRule>, sid: string, max: int): seq<nat> {
    if max <= 0 then [] else Take(SessionTfts(ts, sid), max)
  }

  /** A TFT rule `switch_tft_link` tries to move: the session's, on
      another link. */
  predicate Movable(e: TftRule, sid: string, newLink: string) {
    OfSession(e, sid) && e.linkId != newLink
  }

  /** The TFT table after the switch: the movable rules whose new mangle
      rule was installed (slot not in `failed`) carry the new link id and
      fwmark. */
  function Relink(ts: seq<TftRule>, sid: string, newLink: string, fw: nat, failed: set<nat>): (r: seq<TftRule>)
    ensures |r| == |ts|
  {
    seq(|ts|, i requires 0 <= i < |ts| => Remark(ts[i], i, sid, newLink, fw, failed))
  }

  function Remark(e: TftRule, i: nat, sid: string, newLink: string, fw: nat, failed: set<nat>): TftRule {
    if Movable(e, sid, newLink) && i !in failed
    then e.(linkId := Bounded(newLink, LinkIdLen), fwmark := fw) else e
  }

  function Relinked(ts: seq<TftRule>, sid: string, newLink: string, failed: set<nat>): nat {
    if |ts| == 0 then 0
    else
      var last := |ts| - 1;
      Relinked(ts[..last], sid, newLink, failed) + (if Movable(ts[last], sid, newLink) && last !in failed then 1 else 0)
  }

  /** `magic_dataplane_switch_tft_link`: 0 when at least one rule moved. */
  function SwitchTft(pl: Plane, sid: string, newLink: string, failed: set<nat>): (int, Plane) {
    if !pl.initialized then (-1, pl)
    else match FindLink(pl.links, newLink)
      case None => (-1, pl)
      case Some(k) =>
        var n := Relinked(pl.tfts, sid, newLink, failed);
        (if n > 0 then 0 else -1, pl.(tfts := Relink(pl.tfts, sid, newLink, pl.links[k].fwmark, failed)))
  }

  /** `magic_dataplane_switch_client_link`. */
  function SwitchClient(pl: Plane, sid: string, newLink: string, failed: set<nat>): (int, Plane) {
    if !pl.initialized then (-1, pl)
    else if |FindTfts(pl.tfts, sid, MaxTftRules)| > 0 then SwitchTft(pl, sid, newLink, failed)
    else (0, pl)
  }

  lemma AddTftValid(pl: Plane, tuple: Tuple, sid: string, linkId: string, now: int, mangleOk: bool)
    requires Valid(pl)
    ensures Valid(AddTft(pl, tuple, sid, linkId, now, mangleOk).1)
  {
    if pl.initialized && FindLink(pl.links, linkId).Some? && FreeTftSlot(pl.tfts).Some? {
      var f := FreeTftSlot(pl.tfts).value;
      var k := FindLink(pl.links, linkId).value;
      TftsInUseUpdate(pl.tfts, f, TftRule(true, tuple, Bounded(sid, SessionIdLen), Bounded(linkId, LinkIdLen), pl.links[k].fwmark, now));
    }
  }

  lemma RemoveTftsValid(pl: Plane, sid: string)
    requires Valid(pl)
    ensures Valid(RemoveTfts(pl, sid).1)
  {
    DropSessionCount(pl.tfts, sid);
  }

  lemma {:induction false} RelinkedExist(ts: seq<TftRule>, sid: string, newLink: string, failed: set<nat>)
    ensures Relinked(ts, sid, newLink, failed) > 0
      <==> exists i :: 0 <= i < |ts| && Movable(ts[i], sid, newLink) && i !in failed
    decreases |ts|
  {
    if |ts| > 0 {
      var n := |ts| - 1;
      RelinkedExist(ts[..n], sid, newLink, failed);
      assert forall i :: 0 <= i < n ==> ts[..n][i] == ts[i];
    }
  }

  lemma SwitchTftValid(pl: Plane, sid: string, newLink: string, failed: set<nat>)
    requires Valid(pl)
    ensures Valid(SwitchTft(pl, sid, newLink, failed).1) && Valid(SwitchClient(pl, sid, newLink, failed).1)
  {
    if pl.initialized && FindLink(pl.links, newLink).Some? {
      var fw := pl.links[FindLink(pl.links, newLink).value].fwmark;
      RelinkKeepsCount(pl.tfts, sid, newLink, fw, failed);
    }
  }

  lemma {:induction false} RelinkKeepsCount(ts: seq<TftRule>, sid: string, newLink: string, fw: nat, failed: set<nat>)
    ensures TftsInUse(Relink(ts, sid, newLink, fw, failed)) == TftsInUse(ts)
    decreases |ts|
  {
    if |ts| > 0 {
      var n := |ts| - 1;
      assert Relink(ts, sid, newLink, fw, failed)[..n] == Relink(ts[..n], sid, newLink, fw, failed);
      RelinkKeepsCount(ts[..n], sid, newLink, fw, failed);
    }
  }

  /** An added TFT rule carries the link's fwmark, is found for the session
      even when the mangle command failed, and is freed by removing the
      session's rules. */
  lemma AddTftThenRemove(pl: Plane, tuple: Tuple, sid: string, linkId: string, now: int, mangleOk: bool)
    requires Valid(pl) && pl.initialized && FindLink(pl.links, linkId).Some? && FreeTftSlot(pl.tfts).Some?
    requires |sid| <= SessionIdLen
    ensures var (rc, p1) := AddTft(pl, tuple, sid, linkId, now, mangleOk);
      var f := FreeTftSlot(pl.tfts).value;
      (rc == 0 <==> mangleOk)
      && p1.tfts[f].fwmark == FwmarkOf(pl, linkId) && p1.tfts[f].tuple == tuple
      && f in SessionTfts(p1.tfts, sid)
      && p1.numTft == pl.numTft + 1
      && RemoveTfts(p1, sid).0 == |SessionTfts(pl.tfts, sid)| + 1
  {
    var (rc, p1) := AddTft(pl, tuple, sid, linkId, now, mangleOk);
    var f := FreeTftSlot(pl.tfts).value;
    SessionTftsExact(p1.tfts, sid);
    SessionTftsCountUpdate(pl.tfts, sid, f, p1.tfts[f]);
  }

  lemma {:induction false} SessionTftsCountUpdate(ts: seq<TftRule>, sid: string, j: nat, e: TftRule)
    requires j < |ts|
    ensures |SessionTfts(ts[j := e], sid)| + (if OfSession(ts[j], sid) then 1 else 0)
         == |SessionTfts(ts, sid)| + (if OfSession(e, sid) then 1 else 0)
    decreases |ts|
  {
    var n := |ts| - 1;
    if j < n {
      assert ts[j := e][..n] == ts[..n][j := e];
      SessionTftsCountUpdate(ts[..n], sid, j, e);
    } else {
      assert ts[j := e][..n] == ts[..n];
    }
  }

  /** After removal the session has no TFT rule left, and no other
      session's rule changed. */
  lemma RemoveTftsClearsSession(pl: Plane, sid: string)
    requires Valid(pl) && pl.initialized
    ensures var p1 := RemoveTfts(pl, sid).1;
      SessionTfts(p1.tfts, sid) == []
      && forall i :: 0 <= i < MaxTftRules && !OfSession(pl.tfts[i], sid) ==> p1.tfts[i] == pl.tfts[i]
  {
    var p1 := RemoveTfts(pl, sid).1;
    NoSessionTfts(p1.tfts, sid);
  }

  /** The session's slots in a prefix are a prefix of its slots. */
  lemma {:induction false} SessionTftsPrefix(ts: seq<TftRule>, i: nat, sid: string)
    requires i <= |ts|
    ensures SessionTfts(ts[..i], sid) <= SessionTfts(ts, sid)
    decreases |ts| - i
  {
    if i < |ts| {
      SessionTftsPrefix(ts, i + 1, sid);
      assert ts[..i + 1][..i] == ts[..i];
    } else {
      assert ts[..i] == ts;
    }
  }

  /** The found slots are the session's, in slot order, as many as allowed
      and no gap before the last one. */
  lemma FindTftsExact(ts: seq<TftRule>, sid: string, max: int)
    ensures var r := FindTfts(ts, sid, max);
      (forall k :: 0 <= k < |r| ==> r[k] < |ts| && OfSession(ts[r[k]], sid))
      && (forall k, l :: 0 <= k < l < |r| ==> r[k] < r[l])
      && |r| == (if max <= 0 then 0 else if max < |SessionTfts(ts, sid)| then max else |SessionTfts(ts, sid)|)
      && (max >= |SessionTfts(ts, sid)| ==> forall i :: 0 <= i < |ts| && OfSession(ts[i], sid) ==> i in r)
  {
    SessionTftsExact(ts, sid);
  }

  /** The switch moves exactly the session's rules on another link whose
      mangle rule was replaced, onto the new link's fwmark; it succeeds iff
      it moved one. An unknown link is refused. */
  lemma SwitchTftOutcome(pl: Plane, sid: string, newLink: string, failed: set<nat>)
    requires pl.initialized
    ensures var (rc, p1) := SwitchTft(pl, sid, newLink, failed);
      (FindLink(pl.links, newLink).None? ==> rc == -1 && p1 == pl)
      && (FindLink(pl.links, newLink).Some? ==>
            (rc == 0 <==> exists i :: 0 <= i < |pl.tfts| && Movable(pl.tfts[i], sid, newLink) && i !in failed)
            && forall i :: 0 <= i < |pl.tfts| ==>
                 if Movable(pl.tfts[i], sid, newLink) && i !in failed
                 then p1.tfts[i].fwmark == FwmarkOf(pl, newLink) && p1.tfts[i].linkId == Bounded(newLink, LinkIdLen)
                      && p1.tfts[i].tuple == pl.tfts[i].tuple
                 else p1.tfts[i] == pl.tfts[i])
  {
    RelinkedExist(pl.tfts, sid, newLink, failed);
  }

  /** Switching a session whose rules already use the new link reports
      failure, and switching one with no TFT rule reports success even
      for an unknown link. */
  lemma SwitchClientEdgeCases(pl: Plane, sid: string, newLink: string, failed: set<nat>)
    requires pl.initialized
    ensures (forall i :: 0 <= i < |pl.tfts| && OfSession(pl.tfts[i], sid) ==> pl.tfts[i].linkId == newLink)
      ==> SwitchTft(pl, sid, newLink, failed).0 == -1
    ensures (forall i :: 0 <= i < |pl.tfts| ==> !OfSession(pl.tfts[i], sid))
      ==> SwitchClient(pl, sid, newLink, failed) == (0, pl)
  {
    RelinkedExist(pl.tfts, sid, newLink, failed);
    NoSessionTfts(pl.tfts, sid);
  }

  // ---------------------------------------------------------------------
  // The context as the C code keeps it: fixed arrays updated in place

  class Dataplane {
    const links: array<LinkRoute>
    const rules: array<RouteRule>
    const tfts: array<TftRule>
    var numLinks: nat
    var numRules: int
    var nextPriority: nat
    var numTft: int
    var initialized: bool
    var routing: bool

    /** The array sizes of `DataplaneContext`, and `num_links` within its
        array. */
    predicate Shaped()
      reads this
    {
      links.Length == MaxLinks && rules.Length == MaxRules && tfts.Length == MaxTftRules
      && numLinks <= MaxLinks
    }

    function State(): Plane
      requires Shaped()
      reads this, links, rules, tfts
    {
      Plane(links[..numLinks], rules[..], numRules, nextPriority, tfts[..], numTft, initialized, routing)
    }

    /** The zero-filled static context. */
    constructor ()
      ensures Shaped() && State() == Zeroed()
      ensures fresh(links) && fresh(rules) && fresh(tfts)
    {
      links := new LinkRoute[MaxLinks](_ => LinkRoute("", "", "", 0, 0, false));
      rules := new RouteRule[MaxRules](_ => FreeRule);
      tfts := new TftRule[MaxTftRules](_ => FreeTft);
      numLinks, numRules, nextPriority, numTft := 0, 0, 0, 0;
      initialized, routing := false, false;
      new;
      assert forall i :: 0 <= i < MaxRules ==> rules[i] == FreeRule;
      assert forall i :: 0 <= i < MaxTftRules ==> tfts[i] == FreeTft;
      assert rules[..] == seq(MaxRules, _ => FreeRule);
      assert tfts[..] == seq(MaxTftRules, _ => FreeTft);
    }

    /** `magic_dataplane_init`: clears every table and enables routing. */
    method Init()
      requires Shaped()
      modifies this, rules, tfts
      ensures Shaped() && State() == Initial()
    {
      var i := 0;
      while i < rules.Length
        modifies rules
        invariant i <= rules.Length
        invariant forall j :: 0 <= j < i ==> rules[j] == FreeRule
      {
        rules[i] := FreeRule;
        i := i + 1;
      }
      i := 0;
      while i < tfts.Length
        modifies tfts
        invariant i <= tfts.Length
        invariant forall j :: 0 <= j < i ==> tfts[j] == FreeTft
      {
        tfts[i] := FreeTft;
        i := i + 1;
      }
      numLinks, numRules, numTft := 0, 0, 0;
      nextPriority := PriorityBase;
      initialized, routing := true, true;
      assert rules[..] == seq(MaxRules, _ => FreeRule);
      assert tfts[..] == seq(MaxTftRules, _ => FreeTft);
    }

    /** `find_link_config`. */
    method FindLinkIndex(id: string) returns (r: Option<nat>)
      requires Shaped()
      ensures r == FindLink(links[..numLinks], id)
    {
      var i := 0;
      while i < numLinks
        invariant i <= numLinks
        invariant forall j :: 0 <= j < i ==> links[j].linkId != id
      {
        if links[i].linkId == id {
          assert links[..numLinks][i] == links[i];
          return Some(i);
        }
        i := i + 1;
      }
      return None;
    }

    /** `magic_dataplane_find_rule`. */
    method FindRuleIndex(sid: string) returns (r: Option<nat>)
      ensures r == FindRule(rules[..], sid)
    {
      var i := 0;
      while i < rules.Length
        invariant i <= rules.Length
        invariant forall j :: 0 <= j < i ==> !(rules[j].inUse && rules[j].sessionId == sid)
      {
        if rules[i].inUse && rules[i].sessionId == sid {
          return Some(i);
        }
        i := i + 1;
      }
      return None;
    }

    /** `find_free_rule_slot`. */
    method FreeRuleIndex() returns (r: Option<nat>)
      ensures r == FreeRuleSlot(rules[..])
    {
      var i := 0;
      while i < rules.Length
        invariant i <= rules.Length
        invariant forall j :: 0 <= j < i ==> rules[j].inUse
      {
        if !rules[i].inUse {
          return Some(i);
        }
        i := i + 1;
      }
      return None;
    }

    /** The free-slot search of `magic_dataplane_add_tft_rule`. */
    method FreeTftIndex() returns (r: Option<nat>)
      ensures r == FreeTftSlot(tfts[..])
    {
      var i := 0;
      while i < tfts.Length
        invariant i <= tfts.Length
        invariant forall j :: 0 <= j < i ==> tfts[j].inUse
      {
        if !tfts[i].inUse {
          return Some(i);
        }
        i := i + 1;
      }
      return None;
    }

    /** `count_client_ip_sessions`. */
    method CountClientIpSessions(ip: string, exclude: Option<string>) returns (n: nat)
      ensures n == IpSessions(rules[..], ip, exclude)
    {
      n := 0;
      var i := 0;
      while i < rules.Length
        invariant i <= rules.Length
        invariant n == IpSessions(rules[..i], ip, exclude)
      {
        assert rules[..i + 1][..i] == rules[..i];
        if rules[i].inUse && rules[i].clientIp == ip {
          if !(exclude.Some? && rules[i].sessionId == exclude.value) {
            n := n + 1;
          }
        }
        i := i + 1;
      }
      assert rules[..i] == rules[..];
    }

    /** `magic_dataplane_get_table_id`. */
    method GetTableId(id: string) returns (t: nat)
      requires Shaped()
      ensures t == TableIdOf(State(), id)
    {
      var k := FindLinkIndex(id);
      t := if k.Some? then links[k.value].tableId else 0;
    }

    /** `magic_dataplane_get_fwmark`. */
    method GetFwmark(id: string) returns (m: nat)
      requires Shaped()
      ensures m == FwmarkOf(State(), id)
    {
      var k := FindLinkIndex(id);
      m := if k.Some? then links[k.value].fwmark else 0;
    }

    /** `magic_dataplane_register_link`. */
    method RegisterLink(id: string, ifName: string, gw: string, routeOk: bool) returns (rc: int)
      requires Shaped()
      modifies this, links
      ensures Shaped() && (rc, State()) == Register(old(State()), id, ifName, gw, routeOk)
    {
      if !initialized {
        return -1;
      }
      var existing := FindLinkIndex(id);
      if existing.Some? {
        return links[existing.value].tableId;
      }
      if numLinks >= MaxLinks {
        return -1;
      }
      var t := TableBase + numLinks;
      var name := Bounded(ifName, IfNameLen);
      links[numLinks] := LinkRoute(Bounded(id, LinkIdLen), name, Bounded(gw, IpLen), t, t, false);
      numLinks := numLinks + 1;
      // create_route_table: refused for an empty interface name
      if name != "" && routeOk {
        links[numLinks - 1] := links[numLinks - 1].(configured := true);
      }
      rc := t;
      assert links[..numLinks] == old(links[..numLinks]) + [links[numLinks - 1]];
    }

    /** `magic_dataplane_unregister_link`. */
    method UnregisterLink(id: string) returns (rc: int)
      requires Shaped()
      modifies this, links, rules
      ensures Shaped() && (rc, State()) == Unregister(old(State()), id)
    {
      if !initialized {
        return -1;
      }
      var found := FindLinkIndex(id);
      if found.None? {
        return -1;
      }
      var k := found.value;
      ghost var p0 := State();
      var removed := DropTableRules(links[k].tableId);
      numRules := numRules - removed;
      // delete_route_table clears `is_configured` on the slot that the
      // move below overwrites or leaves behind, so it is not modelled
      assert FindLink(p0.links, id) == Some(k);
      SwapRemove(k, numLinks - 1);
      numLinks := numLinks - 1;
      rc := 0;
    }

    /** The swap-remove of `unregister_link`: the last live link `last`
        moves into slot `k`. */
    method SwapRemove(k: nat, last: nat)
      requires k <= last < links.Length
      modifies links
      ensures links[..last] == old(links[..last + 1])[k := old(links[last])][..last]
    {
      ghost var ls := links[..last + 1];
      if k < last {
        links[k] := links[last];
      }
      assert links[..last] == ls[k := ls[last]][..last];
    }

    /** The rule loop of `unregister_link`: frees the rules routed through
        table `t` and answers how many. */
    method DropTableRules(t: nat) returns (removed: nat)
      modifies rules
      ensures rules[..] == DropTable(old(rules[..]), t) && removed == TableRules(old(rules[..]), t)
    {
      ghost var rs := rules[..];
      removed := 0;
      var i := 0;
      while i < rules.Length
        invariant i <= rules.Length
        invariant removed == TableRules(rs[..i], t)
        invariant forall j :: 0 <= j < i ==> rules[j] == Unroute(rs[j], t)
        invariant forall j :: i <= j < rules.Length ==> rules[j] == rs[j]
      {
        assert rs[..i + 1][..i] == rs[..i];
        if rules[i].inUse && rules[i].tableId == t {
          rules[i] := rules[i].(inUse := false);
          removed := removed + 1;
        }
        i := i + 1;
      }
      assert rs[..i] == rs;
      assert rules[..] == DropTable(rs, t);
    }

    /** The first step of `add_client_route`: free the session's rule and
        answer how many were freed. */
    method VacateRule(sid: string) returns (held: nat)
      modifies rules
      ensures rules[..] == Vacate(old(rules[..]), sid) && held == Held(old(rules[..]), sid)
    {
      var existing := FindRuleIndex(sid);
      if existing.Some? {
        rules[existing.value] := rules[existing.value].(inUse := false);
        return 1;
      }
      return 0;
    }

    /** `magic_dataplane_add_client_route`: the return code and whether the
        iptables cleanup was skipped for a shared client IP. */
    method AddClientRoute(ip: string, sid: string, linkId: string, now: int, createOk: bool, ipRuleOk: bool)
      returns (rc: int, skipped: bool)
      requires Shaped()
      modifies this, links, rules
      ensures Shaped() && (rc, skipped, State()) == AddRoute(old(State()), ip, sid, linkId, now, createOk, ipRuleOk)
    {
      skipped := false;
      if !initialized {
        return -1, false;
      }
      if !routing {
        return 0, false;
      }
      var found := FindLinkIndex(linkId);
      if found.None? {
        return -1, false;
      }
      var k := found.value;
      ghost var p0 := State();
      var ok := ConfigureLink(k, createOk);
      if !ok {
        return -1, false;
      }
      var held := VacateRule(sid);
      numRules := numRules - held;
      assert State() == Prepared(p0, k, sid);
      rc, skipped := PlaceClientRule(ip, sid, linkId, links[k].tableId, now, ipRuleOk);
    }

    /** The retry of `create_route_table` for a link not yet configured;
        refused for an empty interface name. */
    method ConfigureLink(k: nat, createOk: bool) returns (ok: bool)
      requires Shaped() && k < numLinks
      modifies links
      ensures ok == (old(links[k]).configured || (old(links[k]).interfaceName != "" && createOk))
      ensures links[..numLinks] == if ok then old(links[..numLinks])[k := old(links[k]).(configured := true)]
                                   else old(links[..numLinks])
    {
      if links[k].configured {
        assert links[k].(configured := true) == links[k];
        return true;
      }
      if !(links[k].interfaceName != "" && createOk) {
        return false;
      }
      links[k] := links[k].(configured := true);
      return true;
    }

    /** The second half of `magic_dataplane_add_client_route`. */
    method PlaceClientRule(ip: string, sid: string, linkId: string, table: nat, now: int, ipRuleOk: bool)
      returns (rc: int, skipped: bool)
      requires Shaped()
      modifies this, rules
      ensures Shaped() && (rc, skipped, State()) == PlaceRule(old(State()), ip, sid, linkId, table, now, ipRuleOk)
    {
      var slot := FreeRuleIndex();
      if slot.None? {
        return -1, false;
      }
      var prio := nextPriority;
      nextPriority := NextPriority(nextPriority);
      var others := CountClientIpSessions(ip, Some(sid));
      skipped := others > 0;
      if !ipRuleOk {
        return -1, skipped;
      }
      rules[slot.value] := RouteRule(true, Bounded(ip, IpLen), Bounded(sid, SessionIdLen),
                                     Bounded(linkId, LinkIdLen), prio, table, now);
      numRules := numRules + 1;
      rc := 0;
    }

    /** `magic_dataplane_remove_client_route`: the return code and whether a
        blackhole rule is added for the client IP. */
    method RemoveClientRoute(sid: string) returns (rc: int, blackhole: bool)
      requires Shaped()
      modifies this, rules
      ensures Shaped() && (rc, blackhole, State()) == RemoveRoute(old(State()), sid)
    {
      if !initialized {
        return -1, false;
      }
      var found := FindRuleIndex(sid);
      if found.None? {
        return -1, false;
      }
      var j := found.value;
      var ip := rules[j].clientIp;
      rules[j] := rules[j].(inUse := false);
      numRules := numRules - 1;
      var others := CountClientIpSessions(ip, None);
      return 0, others == 0;
    }

    /** `magic_dataplane_add_tft_rule`. */
    method AddTftRule(tuple: Tuple, sid: string, linkId: string, now: int, mangleOk: bool) returns (rc: int)
      requires Shaped()
      modifies this, tfts
      ensures Shaped() && (rc, State()) == AddTft(old(State()), tuple, sid, linkId, now, mangleOk)
    {
      if !initialized {
        return -1;
      }
      var found := FindLinkIndex(linkId);
      if found.None? {
        return -1;
      }
      var slot := FreeTftIndex();
      if slot.None? {
        return -1;
      }
      tfts[slot.value] := TftRule(true, tuple, Bounded(sid, SessionIdLen), Bounded(linkId, LinkIdLen),
                                  links[found.value].fwmark, now);
      numTft := numTft + 1;
      rc := if mangleOk then 0 else -1;
    }

    /** `magic_dataplane_remove_tft_rules`: the number of rules freed. */
    method RemoveTftRules(sid: string) returns (removed: int)
      requires Shaped()
      modifies this, tfts
      ensures Shaped() && (removed, State()) == RemoveTfts(old(State()), sid)
    {
      if !initialized {
        return -1;
      }
      var n := DropSessionRules(sid);
      numTft := numTft - n;
      removed := n;
    }

    /** The rule loop of `remove_tft_rules`. */
    method DropSessionRules(sid: string) returns (removed: nat)
      modifies tfts
      ensures tfts[..] == DropSession(old(tfts[..]), sid) && removed == |SessionTfts(old(tfts[..]), sid)|
    {
      ghost var ts := tfts[..];
      removed := 0;
      var i := 0;
      while i < tfts.Length
        invariant i <= tfts.Length
        invariant removed == |SessionTfts(ts[..i], sid)|
        invariant forall j :: 0 <= j < i ==> tfts[j] == Unmark(ts[j], sid)
        invariant forall j :: i <= j < tfts.Length ==> tfts[j] == ts[j]
      {
        assert ts[..i + 1][..i] == ts[..i];
        if tfts[i].inUse && tfts[i].sessionId == sid {
          tfts[i] := tfts[i].(inUse := false);
          removed := removed + 1;
        }
        i := i + 1;
      }
      assert ts[..i] == ts;
      assert tfts[..] == DropSession(ts, sid);
    }

    /** `magic_dataplane_find_tft_rules`: the slots found. */
    method FindTftRules(sid: string, max: int) returns (found: seq<nat>)
      ensures found == FindTfts(tfts[..], sid, max)
    {
      found := [];
      if max <= 0 {
        return;
      }
      var i := 0;
      while i < tfts.Length && |found| < max
        invariant i <= tfts.Length
        invariant found == Take(SessionTfts(tfts[..i], sid), max)
        invariant |found| == |SessionTfts(tfts[..i], sid)|
      {
        assert tfts[..i + 1][..i] == tfts[..i];
        if tfts[i].inUse && tfts[i].sessionId == sid {
          found := found + [i];
        }
        i := i + 1;
      }
      if i < tfts.Length {
        SessionTftsPrefix(tfts[..], i, sid);
      } else {
        assert tfts[..i] == tfts[..];
      }
    }

    /** `magic_dataplane_switch_tft_link`; `failed` holds the slots whose
        new mangle rule could not be installed. */
    method SwitchTftLink(sid: string, newLink: string, failed: set<nat>) returns (rc: int)
      requires Shaped()
      modifies tfts
      ensures Shaped() && (rc, State()) == SwitchTft(old(State()), sid, newLink, failed)
    {
      if !initialized {
        return -1;
      }
      var found := FindLinkIndex(newLink);
      if found.None? {
        return -1;
      }
      var switched := RemarkRules(sid, newLink, links[found.value].fwmark, failed);
      rc := if switched > 0 then 0 else -1;
    }

    /** The rule loop of `switch_tft_link`: re-marks the session's rules on
        another link whose new mangle rule is installed, and answers how
        many moved. */
    method RemarkRules(sid: string, newLink: string, fw: nat, failed: set<nat>) returns (switched: nat)
      modifies tfts
      ensures tfts[..] == Relink(old(tfts[..]), sid, newLink, fw, failed)
      ensures switched == Relinked(old(tfts[..]), sid, newLink, failed)
    {
      ghost var ts := tfts[..];
      switched := 0;
      var i := 0;
      while i < tfts.Length
        invariant i <= tfts.Length
        invariant switched == Relinked(ts[..i], sid, newLink, failed)
        invariant forall j :: 0 <= j < i ==> tfts[j] == Remark(ts[j], j, sid, newLink, fw, failed)
        invariant forall j :: i <= j < tfts.Length ==> tfts[j] == ts[j]
      {
        assert ts[..i + 1][..i] == ts[..i];
        var e := tfts[i];
        if e.inUse && e.sessionId == sid && e.linkId != newLink {
          if i !in failed {
            tfts[i] := e.(linkId := Bounded(newLink, LinkIdLen), fwmark := fw);
            switched := switched + 1;
          }
        }
        i := i + 1;
      }
      assert ts[..i] == ts;
    }

    /** `magic_dataplane_switch_client_link`. */
    method SwitchClientLink(sid: string, newLink: string, failed: set<nat>) returns (rc: int)
      requires Shaped()
      modifies tfts
      ensures Shaped() && (rc, State()) == SwitchClient(old(State()), sid, newLink, failed)
    {
      if !initialized {
        return -1;
      }
      var own := FindTftRules(sid, MaxTftRules);
      if |own| > 0 {
        rc := SwitchTftLink(sid, newLink, failed);
      } else {
        rc := 0;
      }
    }
  }
}
