/** The files the provisioning tool derives from its configuration besides
    the certificates: the access-list merge, the per-client business
    profile record, the client and server peer-connection files and the
    client business-parameter file. Each is a value computed from the
    configuration tree; writing it is an effect of the generator. */
module CertArtifacts {
  import opened Wrappers
  import opened Text
  import opened XmlTree
  import opened Certificates

  /** How an f-string renders an element text that may be None. */
  function Show(t: Option<string>): (r: string)
    ensures t.Some? ==> r == t.value
    ensures t.None? ==> r == "None"
  {
    if t.Some? then t.value else "None"
  }

  /** `os.path.join(dir, name)` for a relative `name`. */
  function Join(dir: string, name: string): (r: string)
    ensures IsSuffix(name, r)
  {
    if |dir| == 0 || dir[|dir| - 1] == '/' then dir + name else dir + "/" + name
  }

  /** `parent.find(tag).text`: raises when the child is missing. */
  function ChildText(parent: Element, tag: string): (r: Result<Option<string>, Fault>)
    ensures r.Err? <==> Find(parent, tag).None?
    ensures r.Ok? ==> r.value == Find(parent, tag).value.text
  {
    match Find(parent, tag)
    case None => Err(MissingElement(tag))
    case Some(c) => Ok(c.text)
  }

  /** `ChildText` when the text is then used as a string and None raises. */
  function ChildString(parent: Element, tag: string): (r: Result<string, Fault>)
    ensures r.Ok? <==> Find(parent, tag).Some? && Find(parent, tag).value.text.Some?
    ensures r.Ok? ==> Some(r.value) == Find(parent, tag).value.text
  {
    match Find(parent, tag)
    case None => Err(MissingElement(tag))
    case Some(c) => if c.text.None? then Err(MissingText(tag)) else Ok(c.text.value)
  }

  /** The `Client` children of the `Clients` element, when it is truthy. */
  function ClientList(root: Element): (r: seq<Element>)
    ensures !TruthyOpt(Find(root, "Clients")) ==> r == []
    ensures forall c :: c in r ==> c.tag == "Client"
  {
    var cs := Find(root, "Clients");
    if TruthyOpt(cs) then FindAll(cs.value, "Client") else []
  }

  // ------------------------------------------------------- access list

  /** The comment line written before the appended identities. */
  const AclHeader := "# 自动添加的新客户端身份\n"

  /** Each client's `CommonName` text, in document order; a missing
      element or a None text raises (the latter at the `in` test). */
  function Identities(clients: seq<Element>): (r: Result<seq<string>, Fault>)
    ensures r.Ok? <==> forall i :: 0 <= i < |clients| ==> ChildString(clients[i], "CommonName").Ok?
    ensures r.Ok? ==> |r.value| == |clients|
    ensures r.Ok? ==> forall i :: 0 <= i < |clients| ==> r.value[i] == ChildString(clients[i], "CommonName").value
  {
    if |clients| == 0 then Ok([])
    else match ChildString(clients[0], "CommonName")
      case Err(e) => Err(e)
      case Ok(id) =>
        match Identities(clients[1..])
        case Err(e) => assert !ChildString(clients[1..][0], "CommonName").Ok? || exists i :: 0 <= i < |clients[1..]| && !ChildString(clients[1..][i], "CommonName").Ok?; Err(e)
        case Ok(rest) => Ok([id] + rest)
  }

  /** The identities not already a substring of the access-list text, in order. */
  function Unlisted(content: string, ids: seq<string>): (r: seq<string>)
    ensures forall x :: x in r <==> x in ids && !IsSubstring(x, content)
    ensures |r| <= |ids|
    ensures (forall i :: 0 <= i < |ids| ==> IsSubstring(ids[i], content)) ==> r == []
  {
    if |ids| == 0 then []
    else (if IsSubstring(ids[0], content) then [] else [ids[0]]) + Unlisted(content, ids[1..])
  }

  /** What `update_acl_whitelist` appends: a newline when the text does
      not end with one, the header, then one line per new identity. */
  function AclAppendix(content: string, added: seq<string>): string {
    (if IsSuffix("\n", content) then "" else "\n") + AclHeader + Lines(added)
  }

  /** The access-list text after the merge; untouched when nothing is new. */
  function AclMerged(content: string, ids: seq<string>): string {
    var added := Unlisted(content, ids);
    if |added| == 0 then content else content + AclAppendix(content, added)
  }

  lemma {:induction false} LineIsSubstring(ls: seq<string>, i: nat)
    requires i < |ls|
    ensures IsSubstring(ls[i], Lines(ls))
  {
    var n := |ls| - 1;
    if i == n {
      SubstringOfItself(ls[i]);
      SubstringOfPrefix(ls[i], ls[i], "\n");
      SubstringOfSuffix(ls[i], Lines(ls[..n]), ls[i] + "\n");
      assert Lines(ls) == Lines(ls[..n]) + (ls[i] + "\n");
    } else {
      LineIsSubstring(ls[..n], i);
      SubstringOfPrefix(ls[i], Lines(ls[..n]), ls[n] + "\n");
      assert Lines(ls) == Lines(ls[..n]) + (ls[n] + "\n");
    }
  }

  /** The merge only appends, and afterwards every identity is a substring
      of the text: the prior text is kept, and it ends with a newline
      whenever something was added. */
  lemma AclMergeCovers(content: string, ids: seq<string>)
    ensures IsPrefix(content, AclMerged(content, ids))
    ensures forall x :: x in ids ==> IsSubstring(x, AclMerged(content, ids))
    ensures Unlisted(content, ids) != [] ==> IsSuffix("\n", AclMerged(content, ids))
  {
    var added := Unlisted(content, ids);
    var merged := AclMerged(content, ids);
    if |added| > 0 {
      var pad := if IsSuffix("\n", content) then "" else "\n";
      assert merged == content + (pad + AclHeader + Lines(added));
      forall x | x in ids ensures IsSubstring(x, merged) {
        if IsSubstring(x, content) {
          SubstringOfPrefix(x, content, pad + AclHeader + Lines(added));
        } else {
          var i :| 0 <= i < |added| && added[i] == x;
          LineIsSubstring(added, i);
          SubstringOfSuffix(x, content + pad + AclHeader, Lines(added));
          assert merged == (content + pad + AclHeader) + Lines(added);
        }
      }
      assert Lines(added) == Lines(added[..|added| - 1]) + added[|added| - 1] + "\n";
    }
  }

  /** Running the merge a second time with the same clients adds nothing. */
  lemma AclMergeIdempotent(content: string, ids: seq<string>)
    ensures Unlisted(AclMerged(content, ids), ids) == []
    ensures AclMerged(AclMerged(content, ids), ids) == AclMerged(content, ids)
  {
    AclMergeCovers(content, ids);
  }

  // -------------------------------------------------- business profile

  const AllowedLevels: seq<string> := ["0", "1", "2"]
  const AllowedDlms: seq<string> := ["LINK_SATCOM", "LINK_WIFI", "LINK_CELLULAR"]
  const AllowedPhases: seq<string> := ["GATE", "TAXI", "TAKE_OFF", "CLIMB", "CRUISE", "DESCENT", "APPROACH", "LANDING"]

  /** The text the profile leaves where the client address belongs. */
  const ClientIpPlaceholder := "{client_ip}"

  const DescriptionPrefix := "自动生成的客户端策略: "

  /** A whitelist TFT of the profile: direction attribute and rule text. */
  datatype WhitelistTft = WhitelistTft(direction: string, rule: string)

  /** What varies between the generated `ClientProfile` records; every
      other field is the same constant for all clients. */
  datatype Profile = Profile(
    clientId: string,          // ClientID, and the Description suffix
    user: string,              // Username, and the ProfileName suffix
    sourceIp: Option<string>,  // SourceIP, present only with a non-empty SAN IP
    accounting: Option<string>,// Traffic/AccountingEnabled
    tfts: seq<WhitelistTft>)   // Traffic/TFTs

  /** The profile's `get_mcfg`: the child's text when `MagicConfig` has it. */
  function McfgText(mcfg: Option<Element>, tag: string, default: string): (r: Option<string>)
    ensures mcfg.None? || Find(mcfg.value, tag).None? ==> r == Some(default)
    ensures mcfg.Some? && Find(mcfg.value, tag).Some? ==> r == Find(mcfg.value, tag).value.text
  {
    if mcfg.Some? && Find(mcfg.value, tag).Some? then Find(mcfg.value, tag).value.text else Some(default)
  }

  /** The configured TFTs copied into the whitelist: direction (GROUND by
      default) and stripped text; a None text raises. */
  function WhitelistEntries(tfts: seq<Element>): (r: Result<seq<WhitelistTft>, Fault>)
    ensures r.Ok? <==> forall i :: 0 <= i < |tfts| ==> tfts[i].text.Some?
    ensures r.Ok? ==> |r.value| == |tfts|
    ensures r.Ok? ==> forall i :: 0 <= i < |tfts| ==>
      r.value[i] == WhitelistTft(Attr(tfts[i], "direction", "GROUND"), Strip(tfts[i].text.value))
  {
    if |tfts| == 0 then Ok([])
    else if tfts[0].text.None? then Err(MissingText("TFT"))
    else match WhitelistEntries(tfts[1..])
      case Err(e) => assert !tfts[1..][0].text.Some? || exists i :: 0 <= i < |tfts[1..]| && !tfts[1..][i].text.Some?; Err(e)
      case Ok(rest) => Ok([WhitelistTft(Attr(tfts[0], "direction", "GROUND"), Strip(tfts[0].text.value))] + rest)
  }

  /** The whitelist of a profile: empty without `MagicConfig`, the
      configured rules when it has `TFTs`, else the two default rules with
      the address placeholder left in. */
  function ProfileTfts(mcfg: Option<Element>): Result<seq<WhitelistTft>, Fault> {
    if mcfg.None? then Ok([])
    else match Find(mcfg.value, "TFTs")
      case Some(tn) => WhitelistEntries(FindAll(tn, "TFT"))
      case None => Ok([WhitelistTft("GROUND", GroundTft(ClientIpPlaceholder)), WhitelistTft("AIR", AirTft(ClientIpPlaceholder))])
  }

  /** `update_client_profile`'s record for one client, keyed by the CN. */
  function ProfileOf(client: Element): Result<Profile, Fault> {
    var idText :- ChildText(client, "CommonName");
    var ipNode := FindPath(client, "SubjectAltNames", "IP");
    var ipText := if ipNode.Some? then ipNode.value.text else Some("");
    if idText.None? then Err(MissingText("CommonName"))
    else
      var id := idText.value;
      var mcfg := Find(client, "MagicConfig");
      var tfts :- ProfileTfts(mcfg);
      Ok(Profile(id, BeforeFirst(id, '.'),
        if ipText.Some? && ipText.value != "" then ipText else None,
        McfgText(mcfg, "AccountingEnabled", "true"), tfts))
  }

  /** The record is keyed by the CN, and the user name is the CN before
      its first '.'. It fails exactly when the CN is missing or has no
      text, or a configured TFT has no text. */
  lemma ProfileIdentity(client: Element)
    ensures ProfileOf(client).Ok? <==>
      ChildString(client, "CommonName").Ok? && ProfileTfts(Find(client, "MagicConfig")).Ok?
    ensures ProfileOf(client).Ok? ==>
      var p := ProfileOf(client).value;
      var id := ChildString(client, "CommonName").value;
      && p.clientId == id
      && p.user == BeforeFirst(id, '.') && IsPrefix(p.user, id) && '.' !in p.user
  {
  }

  /** SourceIP is present exactly when the client has a SubjectAltNames/IP
      element with non-empty text, and then carries that text. */
  lemma ProfileSourceIp(client: Element)
    requires ProfileOf(client).Ok?
    ensures var ip := FindPath(client, "SubjectAltNames", "IP");
      && (ProfileOf(client).value.sourceIp.Some? <==> ip.Some? && ip.value.text.Some? && ip.value.text.value != "")
      && (ProfileOf(client).value.sourceIp.Some? ==> ProfileOf(client).value.sourceIp == ip.value.text)
  {
  }

  /** The whitelist: empty without `MagicConfig`; one entry per configured
      TFT with its direction and stripped text; otherwise the two defaults,
      whose text still holds the literal `{client_ip}`. */
  lemma ProfileWhitelist(client: Element)
    requires ProfileOf(client).Ok?
    ensures var m := Find(client, "MagicConfig");
      var ts := ProfileOf(client).value.tfts;
      && (m.None? ==> ts == [])
      && (m.Some? && Find(m.value, "TFTs").Some? ==>
            var cfg := FindAll(Find(m.value, "TFTs").value, "TFT");
            |ts| == |cfg| && forall i :: 0 <= i < |ts| ==> ts[i].rule == Strip(cfg[i].text.value))
      && (m.Some? && Find(m.value, "TFTs").None? ==>
            |ts| == 2 && ts[0].direction == "GROUND" && ts[1].direction == "AIR"
            && ts[0].rule == GroundTft(ClientIpPlaceholder) && ts[1].rule == AirTft(ClientIpPlaceholder))
  {
  }

  /** A child with a text that may be None (`SubElement(...).text = x`). */
  function TextLeaf(tag: string, text: Option<string>): Element {
    Element(tag, map[], text, [])
  }

  /** One `SubElement` per value, all with the same tag. */
  function Leaves(tag: string, values: seq<string>): (r: seq<Element>)
    ensures |r| == |values|
    ensures forall i :: 0 <= i < |r| ==> r[i] == Leaf(tag, values[i])
  {
    if |values| == 0 then [] else [Leaf(tag, values[0])] + Leaves(tag, values[1..])
  }

  function AuthNode(p: Profile): Element {
    Node("Auth", [Leaf("Username", p.user), Leaf("ClientPassword", "magic123"), Leaf("ServerPassword", "1111")]
      + (if p.sourceIp.Some? then [Leaf("SourceIP", p.sourceIp.value)] else []))
  }

  function BandwidthNode(): Element {
    Node("Bandwidth", [Leaf("MaxForward", "20000000"), Leaf("MaxReturn", "5000000"),
      Leaf("GuaranteedForward", "2000000"), Leaf("GuaranteedReturn", "1000000"), Leaf("DefaultRequest", "5000000")])
  }

  function QosNode(): Element {
    Node("QoS", [Leaf("PriorityType", "1"), Leaf("PriorityClass", "3"), Leaf("DefaultLevel", "2"),
      Node("AllowedLevels", Leaves("Level", AllowedLevels)), Leaf("AllowedQoSCount", "3")])
  }

  function LinkPolicyNode(): Element {
    Node("LinkPolicy", [Node("AllowedDLMs", Leaves("DLM", AllowedDlms)), Leaf("AllowedDLMCount", "3"),
      Leaf("PreferredDLM", "LINK_WIFI"), Leaf("AllowMultiLink", "false"), Leaf("MaxConcurrentLinks", "1")])
  }

  function SessionNode(): Element {
    Node("Session", [Leaf("Timeout", "3600"), Leaf("IdleTimeout", "600"), Leaf("MaxSessions", "5"),
      Leaf("AutoReconnect", "true"), Leaf("KeepRequestAllowed", "true"), Leaf("AllowRegisteredClients", "true")])
  }

  function TftNode(t: WhitelistTft): Element {
    Element("TFT", map["direction" := t.direction], Some(t.rule), [])
  }

  function TftNodes(ts: seq<WhitelistTft>): (r: seq<Element>)
    ensures |r| == |ts| && forall i :: 0 <= i < |ts| ==> r[i] == TftNode(ts[i])
  {
    if |ts| == 0 then [] else [TftNode(ts[0])] + TftNodes(ts[1..])
  }

  function TrafficNode(p: Profile): Element {
    Node("Traffic", [TextLeaf("AccountingEnabled", p.accounting), Leaf("MonthlyQuota", "0"), Leaf("DailyQuota", "0"),
      Node("TFTs", TftNodes(p.tfts))])
  }

  function LocationNode(): Element {
    Node("Location", [Leaf("Enabled", "true"), Node("AllowedFlightPhases", Leaves("Phase", AllowedPhases)),
      Leaf("FlightPhaseCount", "8"), Leaf("MinAltitude", "0"), Leaf("MaxAltitude", "60000"),
      Node("AllowedAirports", []), Leaf("AirportCount", "0")])
  }

  /** The `ClientProfile` element built for one record. */
  function ProfileElement(p: Profile): Element {
    Node("ClientProfile", [
      Leaf("ProfileName", "auto_profile_" + p.user),
      Leaf("ClientID", p.clientId),
      Leaf("Description", DescriptionPrefix + p.clientId),
      Leaf("Enabled", "true"),
      AuthNode(p), BandwidthNode(), QosNode(), LinkPolicyNode(), SessionNode(), TrafficNode(p), LocationNode()])
  }

  /** Every element of `es` carries tag `t`, so `findall(t)` returns them all. */
  lemma {:induction false} FilterAllTagged(es: seq<Element>, t: string)
    requires forall i :: 0 <= i < |es| ==> es[i].tag == t
    ensures Filter(es, t) == es
  {
    if |es| > 0 { FilterAllTagged(es[1..], t); }
  }

  /** The count fields agree with the lists beside them: three QoS levels,
      three DLMs and eight flight phases. */
  lemma ProfileCountsAgree()
    ensures QosNode().children[3].tag == "AllowedLevels" && QosNode().children[4].tag == "AllowedQoSCount"
    ensures |FindAll(QosNode().children[3], "Level")| == 3 && QosNode().children[4].text == Some(NatToString(3))
    ensures LinkPolicyNode().children[0].tag == "AllowedDLMs" && LinkPolicyNode().children[1].tag == "AllowedDLMCount"
    ensures |FindAll(LinkPolicyNode().children[0], "DLM")| == 3 && LinkPolicyNode().children[1].text == Some(NatToString(3))
    ensures LocationNode().children[1].tag == "AllowedFlightPhases" && LocationNode().children[2].tag == "FlightPhaseCount"
    ensures |FindAll(LocationNode().children[1], "Phase")| == 8 && LocationNode().children[2].text == Some(NatToString(8))
  {
    LevelCountAgrees();
    DlmCountAgrees();
    PhaseCountAgrees();
  }

  lemma LevelCountAgrees()
    ensures QosNode().children[3].tag == "AllowedLevels" && QosNode().children[4].tag == "AllowedQoSCount"
    ensures |FindAll(QosNode().children[3], "Level")| == 3 && QosNode().children[4].text == Some(NatToString(3))
  {
    FilterAllTagged(Leaves("Level", AllowedLevels), "Level");
  }

  lemma DlmCountAgrees()
    ensures LinkPolicyNode().children[0].tag == "AllowedDLMs" && LinkPolicyNode().children[1].tag == "AllowedDLMCount"
    ensures |FindAll(LinkPolicyNode().children[0], "DLM")| == 3 && LinkPolicyNode().children[1].text == Some(NatToString(3))
  {
    FilterAllTagged(Leaves("DLM", AllowedDlms), "DLM");
  }

  lemma PhaseCountAgrees()
    ensures LocationNode().children[1].tag == "AllowedFlightPhases" && LocationNode().children[2].tag == "FlightPhaseCount"
    ensures |FindAll(LocationNode().children[1], "Phase")| == 8 && LocationNode().children[2].text == Some(NatToString(8))
  {
    FilterAllTagged(Leaves("Phase", AllowedPhases), "Phase");
  }

  // ------------------------------------------------- peer configuration

  /** The server a client connects to: identity and address. */
  datatype ServerPeer = ServerPeer(identity: string, address: string)

  const DefaultPeer := ServerPeer("magic-server.example.com", "192.168.126.1")

  /** `generate_client_fd_configs`' server lookup: the defaults unless
      `Servers` is truthy, in which case its first `Server` must exist and
      have a `CommonName`; the address is its first SubjectAltNames/IP. */
  function FdServerPeer(root: Element): (r: Result<ServerPeer, Fault>)
    ensures !TruthyOpt(Find(root, "Servers")) ==> r == Ok(DefaultPeer)
    ensures TruthyOpt(Find(root, "Servers")) && Find(Find(root, "Servers").value, "Server").None? ==> r.Err?
  {
    var servers := Find(root, "Servers");
    if !TruthyOpt(servers) then Ok(DefaultPeer)
    else match Find(servers.value, "Server")
      case None => Err(MissingElement("Server"))
      case Some(s) =>
        match ChildText(s, "CommonName")
        case Err(e) => Err(e)
        case Ok(id) =>
          var ipNode := FindPath(s, "SubjectAltNames", "IP");
          Ok(ServerPeer(Show(id), if ipNode.Some? then Show(ipNode.value.text) else DefaultPeer.address))
  }

  /** An optional integer setting: used when the element has non-empty
      text, which must then be an integer literal. */
  function OptionalInt(mcfg: Element, tag: string, default: int): (r: Result<int, Fault>)
    ensures Find(mcfg, tag).None? ==> r == Ok(default)
    ensures r.Ok? && Find(mcfg, tag).Some? && Find(mcfg, tag).value.text.Some? && Find(mcfg, tag).value.text.value != "" ==>
      ParseInt(Find(mcfg, tag).value.text.value) == Some(r.value)
    ensures r.Err? <==>
      Find(mcfg, tag).Some? && Find(mcfg, tag).value.text.Some? && Find(mcfg, tag).value.text.value != ""
      && ParseInt(Find(mcfg, tag).value.text.value).None?
  {
    match Find(mcfg, tag)
    case None => Ok(default)
    case Some(n) =>
      if n.text.None? || n.text.value == "" then Ok(default)
      else match ParseInt(n.text.value)
        case None => Err(NotAnInteger(n.text.value))
        case Some(v) => Ok(v)
  }

  /** An optional text setting: used, stripped, when not blank. */
  function OptionalText(mcfg: Element, tag: string, default: string): (r: string)
    ensures Find(mcfg, tag).None? ==> r == default
    ensures Find(mcfg, tag).Some? && Find(mcfg, tag).value.text.Some? && Strip(Find(mcfg, tag).value.text.value) != "" ==>
      r == Strip(Find(mcfg, tag).value.text.value)
  {
    match Find(mcfg, tag)
    case None => default
    case Some(n) => if n.text.Some? && Strip(n.text.value) != "" then Strip(n.text.value) else default
  }

  /** What a freeDiameter peer-connection file says. Server and client
      files share these directives and differ in which are present. */
  datatype PeerConf = PeerConf(
    identity: string,
    port: int,
    secPort: int,
    listenOn: Option<string>,           // None: the commented-out placeholder line
    certFile: string, keyFile: string,  // TLS_Cred
    caFile: string,                     // TLS_CA
    extensions: seq<(string, Option<string>)>,  // LoadExtension path [: argument]
    connect: Option<(string, string, int)>)     // ConnectPeer identity, ConnectTo, Port

  const FdRealm := "example.com"
  const AnyAddress := "0.0.0.0"
  const DefaultServerPort := 5870
  const ServerPort := 3869
  const TlsPriorityString := "SECURE256:+SECURE128:-VERS-TLS1.0:-VERS-TLS1.1:-MD5:-SHA1:-3DES-CBC:-ARCFOUR-128:%SAFE_RENEGOTIATION"
  const ListenOnPlaceholder := "# ListenOn = \"0.0.0.0\";  # 未配置，监听所有接口"

  /** Where the access list lives, relative to the project root. */
  const AclFile := "conf/acl_wl.conf"

  function Q(s: string): string { "\"" + s + "\"" }

  function ListenLine(c: PeerConf): string {
    if c.listenOn.Some? then "ListenOn = " + Q(c.listenOn.value) + ";" else ListenOnPlaceholder
  }

  function TlsLines(c: PeerConf): seq<string> {
    [ "TLS_Cred = " + Q(c.certFile) + ", " + Q(c.keyFile) + ";",
      "TLS_CA = " + Q(c.caFile) + ";",
      "TLS_Prio = " + Q(TlsPriorityString) + ";",
      "TLS_DH_Bits = 2048;" ]
  }

  function ExtensionLines(es: seq<(string, Option<string>)>): (r: seq<string>)
    ensures |r| == |es|
  {
    if |es| == 0 then []
    else
      var arg := if es[0].1.Some? then " : " + Q(es[0].1.value) else "";
      ["LoadExtension = " + Q(es[0].0) + arg + ";"] + ExtensionLines(es[1..])
  }

  function ConnectLines(c: PeerConf): seq<string> {
    if c.connect.None? then []
    else
      var (peer, to, port) := c.connect.value;
      ["ConnectPeer = " + Q(peer) + " { ConnectTo = " + Q(to) + "; Port = " + IntToString(port) + "; };"]
  }

  /** The directive lines of a client file, in the order it writes them
      (comment and blank lines are not kept, the ListenOn placeholder is). */
  function ClientLines(c: PeerConf): seq<string> {
    [ "Identity = " + Q(c.identity) + ";", "Realm = " + Q(FdRealm) + ";", "No_SCTP;", "No_IPv6;",
      ListenLine(c), "Port = " + IntToString(c.port) + ";", "SecPort = " + IntToString(c.secPort) + ";" ]
    + TlsLines(c) + ExtensionLines(c.extensions) + ConnectLines(c)
  }

  /** The directive lines of the server file, in the order it writes them. */
  function ServerLines(c: PeerConf): seq<string> {
    [ "Identity = " + Q(c.identity) + ";", "Realm = " + Q(FdRealm) + ";",
      "Port = " + IntToString(c.port) + ";", "SecPort = " + IntToString(c.secPort) + ";",
      "No_SCTP;", "No_IPv6;", ListenLine(c) ]
    + TlsLines(c) + ExtensionLines(c.extensions) + ConnectLines(c)
  }

  /** A numeric directive's value reads back with Python's `int`. */
  lemma NumberReadsBack(key: string, v: int)
    ensures var l := key + " = " + IntToString(v) + ";";
      ParseInt(l[|key| + 3..|l| - 1]) == Some(v)
  {
    var l := key + " = " + IntToString(v) + ";";
    assert l[|key| + 3..|l| - 1] == IntToString(v);
    ParseIntOfIntToString(v);
  }

  /** A generated peer-connection file: its name and what it says. */
  datatype FdFile = FdFile(name: string, conf: PeerConf)

  /** One client's peer-connection file. `CommonName` and `OutputPrefix`
      must exist; the integer overrides must parse; a None prefix raises
      when the key path is built. */
  function ClientFdConf(client: Element, peer: ServerPeer, outDir: string, rootDir: string): Result<FdFile, Fault> {
    var id :- ChildText(client, "CommonName");
    var prefix :- ChildText(client, "OutputPrefix");
    var m := Find(client, "MagicConfig");
    var port :- if m.Some? then OptionalInt(m.value, "Port", 0) else Ok(0);
    var secPort :- if m.Some? then OptionalInt(m.value, "SecPort", 0) else Ok(0);
    var listen := if m.Some? then OptionalText(m.value, "ListenOn", "") else "";
    var connectTo := if m.Some? then OptionalText(m.value, "ServerConnectTo", peer.address) else peer.address;
    var serverPort :- if m.Some? then OptionalInt(m.value, "ServerPort", DefaultServerPort) else Ok(DefaultServerPort);
    if prefix.None? then Err(MissingText("OutputPrefix"))
    else
      Ok(FdFile("fd_" + prefix.value + ".conf",
        PeerConf(Show(id), port, secPort, if listen != "" then Some(listen) else None,
          Join(outDir, prefix.value + ".crt"), Join(outDir, prefix.value + ".key"), Join(outDir, "ca.crt"),
          [ (Join(rootDir, "build/extensions/dict_magic_839.fdx"), None),
            (Join(rootDir, "build/extensions/dbg_msg_dumps.fdx"), Some("0x0080")) ],
          Some((peer.identity, connectTo, serverPort)))))
  }

  /** The ListenOn directive is present exactly when a non-blank address is
      configured, and then holds it stripped. */
  lemma ClientFdListenOn(client: Element, peer: ServerPeer, outDir: string, rootDir: string)
    requires ClientFdConf(client, peer, outDir, rootDir).Ok?
    ensures var c := ClientFdConf(client, peer, outDir, rootDir).value.conf;
      var m := Find(client, "MagicConfig");
      var node := if m.Some? then Find(m.value, "ListenOn") else None;
      && (c.listenOn.Some? <==> node.Some? && node.value.text.Some? && Strip(node.value.text.value) != "")
      && (c.listenOn.Some? ==> c.listenOn.value == Strip(node.value.text.value))
  {
  }

  /** The ports are the configured integers, or 0; the client connects to
      the server's identity, at the configured address or the server's, on
      the configured port or 5870. */
  lemma ClientFdPortsAndPeer(client: Element, peer: ServerPeer, outDir: string, rootDir: string)
    requires ClientFdConf(client, peer, outDir, rootDir).Ok?
    ensures var c := ClientFdConf(client, peer, outDir, rootDir).value.conf;
      var m := Find(client, "MagicConfig");
      && c.connect.Some? && c.connect.value.0 == peer.identity
      && (m.None? ==> c.port == 0 && c.secPort == 0 && c.connect.value.1 == peer.address && c.connect.value.2 == DefaultServerPort)
      && (m.Some? && Find(m.value, "Port").Some? && Find(m.value, "Port").value.text.Some? && Find(m.value, "Port").value.text.value != ""
          ==> ParseInt(Find(m.value, "Port").value.text.value) == Some(c.port))
  {
  }

  /** The client's certificate and key are the ones the certificate stage
      wrote for its prefix, and it trusts `ca.crt` in the same directory. */
  lemma ClientFdUsesOwnCertificate(client: Element, peer: ServerPeer, outDir: string, rootDir: string)
    requires ClientFdConf(client, peer, outDir, rootDir).Ok?
    ensures var f := ClientFdConf(client, peer, outDir, rootDir).value;
      var prefix := ChildString(client, "OutputPrefix").value;
      && ChildString(client, "OutputPrefix").Ok?
      && f.name == "fd_" + prefix + ".conf"
      && f.conf.certFile == Join(outDir, prefix + ".crt") && f.conf.keyFile == Join(outDir, prefix + ".key")
      && f.conf.caFile == Join(outDir, "ca.crt")
  {
  }

  /** `generate_server_fd_config`'s identity and certificate prefix: the
      defaults unless `Servers` is truthy; then the first `Server` must
      exist with `CommonName` and `OutputPrefix`. */
  function ServerNaming(root: Element): (r: Result<(string, Option<string>), Fault>)
    ensures !TruthyOpt(Find(root, "Servers")) ==> r == Ok(("magic-server.example.com", Some("magic-server")))
  {
    var servers := Find(root, "Servers");
    if !TruthyOpt(servers) then Ok(("magic-server.example.com", Some("magic-server")))
    else match Find(servers.value, "Server")
      case None => Err(MissingElement("Server"))
      case Some(s) =>
        match (ChildText(s, "CommonName"), ChildText(s, "OutputPrefix"))
        case (Err(e), _) => Err(e)
        case (_, Err(e)) => Err(e)
        case (Ok(id), Ok(prefix)) => Ok((Show(id), prefix))
  }

  /** The server's peer-connection file; a None prefix raises when the
      certificate path is built. */
  function ServerFdConf(root: Element, outDir: string, rootDir: string): Result<PeerConf, Fault> {
    var named :- ServerNaming(root);
    var identity: string, prefix: Option<string> := named.0, named.1;
    if prefix.None? then Err(MissingText("OutputPrefix"))
    else
      Ok(PeerConf(identity, ServerPort, DefaultServerPort, Some(AnyAddress),
        Join(outDir, prefix.value + ".crt"), Join(outDir, prefix.value + ".key"), Join(outDir, "ca.crt"),
        [ (Join(rootDir, "build/extensions/dict_magic_839.fdx"), None),
          (Join(rootDir, "build/extensions/app_magic.fdx"), Some(Join(outDir, "server_profile"))),
          (Join(rootDir, "build/extensions/acl_wl.fdx"), Some(Join(rootDir, AclFile))) ],
        None))
  }

  /** The server listens on all interfaces, its secure port is the port
      clients connect to by default, its access-list extension reads the
      list the merge maintains, and its profile directory is where the
      profile stage writes. */
  lemma ServerFdShape(root: Element, outDir: string, rootDir: string)
    requires ServerFdConf(root, outDir, rootDir).Ok?
    ensures var c := ServerFdConf(root, outDir, rootDir).value;
      && c.listenOn == Some(AnyAddress) && c.port == ServerPort && c.secPort == DefaultServerPort
      && c.connect.None?
      && |c.extensions| == 3
      && c.extensions[1].1 == Some(Join(outDir, "server_profile"))
      && c.extensions[2].1 == Some(Join(rootDir, AclFile))
  {
  }

  // ------------------------------------------- business-parameter file

  /** One `KEY = value` line of `<prefix>_magic.conf`. */
  datatype Setting = Setting(key: string, value: string)

  const DefaultRealm := "example.com"
  const DefaultClientIp := "192.168.126.5"

  /** The Diameter realm: the server CN after its first '.', as
      `'.'.join(cn.split('.')[1:])`, or the default without a dot or a
      server. The server is the first `Server` under any `Servers`. */
  function ServerRealm(root: Element): Result<string, Fault> {
    match FindDeep(root, "Servers", "Server")
    case None => Ok(DefaultRealm)
    case Some(s) =>
      var cn :- ChildString(s, "CommonName");
      Ok(if '.' in cn then JoinWith(Split(cn, '.')[1..], '.') else DefaultRealm)
  }

  /** The realm is exactly the text after the server CN's first dot. */
  lemma RealmIsAfterFirstDot(root: Element)
    requires FindDeep(root, "Servers", "Server").Some?
    requires ServerRealm(root).Ok?
    ensures var cn := ChildString(FindDeep(root, "Servers", "Server").value, "CommonName").value;
      ServerRealm(root).value == if '.' in cn then AfterFirst(cn, '.') else DefaultRealm
  {
    var cn := ChildString(FindDeep(root, "Servers", "Server").value, "CommonName").value;
    if '.' in cn {
      var k := IndexOf(cn, '.').value;
      assert Split(cn, '.') == [cn[..k]] + Split(cn[k + 1..], '.');
      assert Split(cn, '.')[1..] == Split(cn[k + 1..], '.');
      JoinSplit(cn[k + 1..], '.');
    }
  }

  /** The configured TFTs split by direction: GROUND (the default) or any
      other direction, which counts as AIR; texts are stripped, None raises. */
  function SplitTfts(tfts: seq<Element>): (r: Result<(seq<string>, seq<string>), Fault>)
    ensures r.Ok? <==> forall i :: 0 <= i < |tfts| ==> tfts[i].text.Some?
    ensures r.Ok? ==> |r.value.0| + |r.value.1| == |tfts|
  {
    if |tfts| == 0 then Ok(([], []))
    else if tfts[0].text.None? then Err(MissingText("TFT"))
    else match SplitTfts(tfts[1..])
      case Err(e) => assert !tfts[1..][0].text.Some? || exists i :: 0 <= i < |tfts[1..]| && !tfts[1..][i].text.Some?; Err(e)
      case Ok((g, a)) =>
        var t := Strip(tfts[0].text.value);
        if Attr(tfts[0], "direction", "GROUND") == "GROUND" then Ok(([t] + g, a)) else Ok((g, [t] + a))
  }

  /** The stripped texts of the TFTs whose direction is (or is not) GROUND. */
  function DirectionTexts(tfts: seq<Element>, ground: bool): seq<string>
    requires forall i :: 0 <= i < |tfts| ==> tfts[i].text.Some?
  {
    if |tfts| == 0 then []
    else
      var here := if (Attr(tfts[0], "direction", "GROUND") == "GROUND") == ground then [Strip(tfts[0].text.value)] else [];
      here + DirectionTexts(tfts[1..], ground)
  }

  /** Splitting is a partition that keeps document order on both sides. */
  lemma {:induction false} SplitTftsPartition(tfts: seq<Element>)
    requires SplitTfts(tfts).Ok?
    ensures SplitTfts(tfts).value == (DirectionTexts(tfts, true), DirectionTexts(tfts, false))
  {
    if |tfts| > 0 {
      SplitTftsPartition(tfts[1..]);
      var t := Strip(tfts[0].text.value);
      var (g, a) := SplitTfts(tfts[1..]).value;
      if Attr(tfts[0], "direction", "GROUND") == "GROUND" {
        assert SplitTfts(tfts).value == ([t] + g, a);
        assert DirectionTexts(tfts, true) == [t] + DirectionTexts(tfts[1..], true);
        assert DirectionTexts(tfts, false) == DirectionTexts(tfts[1..], false);
      } else {
        assert SplitTfts(tfts).value == (g, [t] + a);
        assert DirectionTexts(tfts, true) == DirectionTexts(tfts[1..], true);
        assert DirectionTexts(tfts, false) == [t] + DirectionTexts(tfts[1..], false);
      }
    }
  }

  /** A host address written with the all-ones mask, as the default
      rules write their addresses. */
  function HostField(ip: string): string {
    ip + ".255.255.255.255"
  }

  /** The fields of the default ground rule: empty CID, filter 1,
      precedence 10, the client as source, the gateway 10.2.2.8 as
      destination, TCP, destination port 80, any source port. */
  function GroundFields(ip: string): seq<string> {
    ["", "1", "10", HostField(ip), HostField("10.2.2.8"), "6", "80.80", "0.65535"]
  }

  /** The default air rule: filter 2, from the gateway to the client, TCP,
      any destination port, source port 80. */
  function AirFields(ip: string): seq<string> {
    ["", "2", "10", HostField("10.2.2.8"), HostField(ip), "6", "0.65535", "80.80"]
  }

  /** The default rules, with the client address substituted: the text
      "_iTFT=,1,10,<ip>.255.255.255.255,10.2.2.8.255.255.255.255,6,80.80,0.65535"
      and its air counterpart, written as their comma-joined fields. */
  function GroundTft(ip: string): string {
    "_iTFT=" + JoinWith(GroundFields(ip), ',')
  }

  function AirTft(ip: string): string {
    "_iTFT=" + JoinWith(AirFields(ip), ',')
  }

  function NaptDefault(ip: string): string {
    "SNAT," + ip + ".255.255.255.255,0.0.0.0.0.0.0.0,6,80,0.65535,%LinkIp%,8080"
  }

  /** `get_config`: the child's text when `MagicConfig` has it, else the
      default; a None text is rendered "None". */
  function ConfigValue(mcfg: Option<Element>, tag: string, default: string): (r: string)
    ensures mcfg.None? ==> r == default
    ensures mcfg.Some? && Find(mcfg.value, tag).Some? ==> r == Show(Find(mcfg.value, tag).value.text)
  {
    Show(McfgText(mcfg, tag, default))
  }

  /** The NAPT texts as written, unstripped, None rendered "None". */
  function ShowAll(es: seq<Element>): (r: seq<string>)
    ensures |r| == |es| && forall i :: 0 <= i < |es| ==> r[i] == Show(es[i].text)
  {
    if |es| == 0 then [] else [Show(es[0].text)] + ShowAll(es[1..])
  }

  /** What a client's business-parameter file says. */
  datatype BusinessParams = BusinessParams(
    clientId: string, tailNumber: string, aircraftType: string, realm: string,
    profileName: string,
    requestedBw: string, requestedReturnBw: string, requiredBw: string, requiredReturnBw: string,
    qosLevel: string, priorityClass: string,
    maxBw: string, priority: string, costTolerance: string,
    username: string, clientPassword: string, serverPassword: string,
    timeout: string, keepRequest: string, autoDetect: string, accountingEnabled: string,
    groundTfts: seq<string>, airTfts: seq<string>, napts: seq<string>)

  /** A generated business-parameter file: its name and what it says. */
  datatype MagicFile = MagicFile(name: string, params: BusinessParams)

  /** One client's business-parameter file. `CommonName`, `Organization`
      and `OutputPrefix` must exist; the CN must have text (the default
      user name is computed from it eagerly); a TFT without text raises. */
  function MagicConf(client: Element, realm: string): Result<MagicFile, Fault> {
    var cnText :- ChildText(client, "CommonName");
    var _ :- ChildText(client, "Organization");
    var prefix :- ChildText(client, "OutputPrefix");
    var ip := ClientIp(client);
    var m := Find(client, "MagicConfig");
    if cnText.None? then Err(MissingText("CommonName"))
    else
      var cn := cnText.value;
      var tftNode := if m.Some? then Find(m.value, "TFTs") else None;
      var split :- if tftNode.Some? then SplitTfts(FindAll(tftNode.value, "TFT")) else Ok(([], []));
      var (ground, air) := split;
      var naptNode := if m.Some? then Find(m.value, "NAPTs") else None;
      var napts := if naptNode.Some? then ShowAll(FindAll(naptNode.value, "NAPT")) else [];
      Ok(MagicFile(Show(prefix) + "_magic.conf", BusinessParams(
        cn, ConfigValue(m, "TailNumber", "B-929A"), ConfigValue(m, "AircraftType", "C929"), realm,
        ConfigValue(m, "ProfileName", "IP_DATA"),
        ConfigValue(m, "RequestedBW", "12000000"), ConfigValue(m, "RequestedReturnBW", "3000000"),
        ConfigValue(m, "RequiredBW", "4000000"), ConfigValue(m, "RequiredReturnBW", "1000000"),
        ConfigValue(m, "QoSLevel", "2"), ConfigValue(m, "PriorityClass", "6"),
        ConfigValue(m, "MaxBW", "20000000"), ConfigValue(m, "Priority", "8"), ConfigValue(m, "CostTolerance", "2.0"),
        ConfigValue(m, "Username", BeforeFirst(cn, '.')),
        ConfigValue(m, "ClientPassword", "magic123"), ConfigValue(m, "ServerPassword", "1111"),
        ConfigValue(m, "Timeout", "900"), ConfigValue(m, "KeepRequest", "1"),
        ConfigValue(m, "AutoDetect", "1"), ConfigValue(m, "AccountingEnabled", "1"),
        if |ground| == 0 then [GroundTft(ip)] else ground,
        if |air| == 0 then [AirTft(ip)] else air,
        if |napts| == 0 then [NaptDefault(ip)] else napts)))
  }

  /** The client address: the first SubjectAltNames element's first IP
      text, else 192.168.126.5. */
  function ClientIp(client: Element): string {
    var san := Find(client, "SubjectAltNames");
    if san.Some? && Find(san.value, "IP").Some? then Show(Find(san.value, "IP").value.text) else DefaultClientIp
  }

  /** Numbered settings `KEY.1`, `KEY.2`, … for the given values. */
  function Numbered(key: string, values: seq<string>, from: nat): (r: seq<Setting>)
    ensures |r| == |values|
    ensures forall i :: 0 <= i < |r| ==> r[i] == Setting(key + "." + NatToString(from + i), values[i])
  {
    if |values| == 0 then []
    else [Setting(key + "." + NatToString(from), values[0])] + Numbered(key, values[1..], from + 1)
  }

  /** The settings lines, in file order (comments, column padding and
      blank lines are not kept). */
  function SettingLines(p: BusinessParams): seq<Setting> {
    [ Setting("CLIENT_ID", p.clientId), Setting("TAIL_NUMBER", p.tailNumber),
      Setting("AIRCRAFT_TYPE", p.aircraftType), Setting("DESTINATION_REALM", p.realm),
      Setting("PROFILE_NAME", p.profileName),
      Setting("REQUESTED_BW", p.requestedBw), Setting("REQUESTED_RETURN_BW", p.requestedReturnBw),
      Setting("REQUIRED_BW", p.requiredBw), Setting("REQUIRED_RETURN_BW", p.requiredReturnBw),
      Setting("QOS_LEVEL", p.qosLevel), Setting("PRIORITY_CLASS", p.priorityClass),
      Setting("MAX_BW", p.maxBw), Setting("PRIORITY", p.priority), Setting("COST_TOLERANCE", p.costTolerance),
      Setting("USERNAME", p.username), Setting("CLIENT_PASSWORD", p.clientPassword),
      Setting("SERVER_PASSWORD", p.serverPassword),
      Setting("TIMEOUT", p.timeout), Setting("KEEP_REQUEST", p.keepRequest),
      Setting("AUTO_DETECT", p.autoDetect), Setting("ACCOUNTING_ENABLED", p.accountingEnabled) ]
    + Numbered("TFT_GROUND", p.groundTfts, 1) + Numbered("TFT_AIR", p.airTfts, 1) + Numbered("NAPT", p.napts, 1)
  }

  /** Without custom rules the file holds exactly one GROUND and one AIR
      rule, each with the client address, and one default NAPT rule. */
  lemma MagicConfDefaults(client: Element, realm: string)
    requires Find(client, "MagicConfig").None?
    requires MagicConf(client, realm).Ok?
    ensures var p := MagicConf(client, realm).value.params;
      var ip := ClientIp(client);
      && p.groundTfts == [GroundTft(ip)] && p.airTfts == [AirTft(ip)] && p.napts == [NaptDefault(ip)]
      && p.realm == realm
      && p.username == BeforeFirst(ChildString(client, "CommonName").value, '.')
  {
    assert ChildText(client, "CommonName").Ok? && ChildText(client, "Organization").Ok?;
    assert ChildText(client, "OutputPrefix").Ok? && ChildText(client, "CommonName").value.Some?;
  }

  /** With custom rules, the GROUND ones and then all others appear in
      document order, stripped, and a direction with custom rules gets no
      default. */
  lemma MagicConfCustomTfts(client: Element, realm: string)
    requires MagicConf(client, realm).Ok?
    requires Find(client, "MagicConfig").Some? && Find(Find(client, "MagicConfig").value, "TFTs").Some?
    ensures var tfts := FindAll(Find(Find(client, "MagicConfig").value, "TFTs").value, "TFT");
      var p := MagicConf(client, realm).value.params;
      && (forall i :: 0 <= i < |tfts| ==> tfts[i].text.Some?)
      && (DirectionTexts(tfts, true) != [] ==> p.groundTfts == DirectionTexts(tfts, true))
      && (DirectionTexts(tfts, false) != [] ==> p.airTfts == DirectionTexts(tfts, false))
  {
    var tfts := FindAll(Find(Find(client, "MagicConfig").value, "TFTs").value, "TFT");
    SplitTftsPartition(tfts);
  }

  /** The file always has at least one rule per direction and one NAPT rule,
      numbered from 1. */
  lemma SettingLinesRules(p: BusinessParams)
    requires p.groundTfts != [] && p.airTfts != [] && p.napts != []
    ensures var ls := SettingLines(p);
      && |ls| == 21 + |p.groundTfts| + |p.airTfts| + |p.napts|
      && ls[21] == Setting("TFT_GROUND.1", p.groundTfts[0])
      && ls[21 + |p.groundTfts|] == Setting("TFT_AIR.1", p.airTfts[0])
      && ls[21 + |p.groundTfts| + |p.airTfts|] == Setting("NAPT.1", p.napts[0])
  {
    var fixed := SettingLines(p)[..21];
    var g := Numbered("TFT_GROUND", p.groundTfts, 1);
    var a := Numbered("TFT_AIR", p.airTfts, 1);
    var n := Numbered("NAPT", p.napts, 1);
    assert NatToString(1) == "1";
    assert SettingLines(p) == fixed + g + a + n;
  }
}
