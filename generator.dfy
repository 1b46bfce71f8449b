/** The provisioning run of `CertificateGenerator`: load the configuration,
    issue the root, server and client certificates, merge the access list,
    write the server's client-profile document, the client peer files, the
    client business-parameter files and the server peer file.

    The file system is an effect log: each write, append, permission change
    and copy is recorded in the order the tool performs it. What the tool
    reads from outside its configuration (the clock, the access-list file,
    which policy templates exist, what key sizes the key generator accepts,
    where the project root is) is an `Env`. Exceptions are `Fault`s: a stage
    that raises stops the run, and what it wrote before raising stays. */
module CertGenerator {
  import opened Wrappers
  import opened Text
  import opened XmlTree
  import opened Certificates
  import opened CertArtifacts

  /** What the tool takes from its surroundings. */
  datatype Env = Env(
    now: int,                 // datetime.utcnow(), in seconds
    minKeySize: int,          // the smallest RSA size the key generator accepts
    rootDir: string,          // the project root, two levels above the tool
    aclText: Option<string>,  // contents of conf/acl_wl.conf, None when the file is absent
    existing: set<string>)    // paths of the policy templates that exist

  /** What a written file holds. */
  datatype FileBody =
    | KeyFile(key: KeyPair)
    | CertFile(cert: Certificate)
    | ProfilesFile(document: Element)
    | ClientPeerFile(conf: PeerConf)
    | ServerPeerFile(conf: PeerConf)
    | ParamsFile(params: BusinessParams)

  datatype Effect =
    | MakeDir(path: string)
    | Write(path: string, body: FileBody)
    | Append(path: string, text: string)
    | Chmod(path: string, mode: nat)
    | Copy(src: string, dst: string)

  const PrivateMode: nat := 384  // 0o600
  const PublicMode: nat := 420   // 0o644

  /** The output directories `load_config` creates. */
  datatype Dirs = Dirs(output: string, clientFd: string, clientMagic: string, serverProfile: string)

  function DirsOf(output: string): Dirs {
    Dirs(output, Join(output, "client_fd_config"), Join(output, "client_magic_config"), Join(output, "server_profile"))
  }

  /** A run in progress: the effects so far, the next fresh key and serial
      identifier, and the fault that stopped it, if any. */
  datatype Progress = Progress(log: seq<Effect>, nextId: nat, fault: Option<Fault>)

  function Fail(p: Progress, f: Fault): Progress {
    Progress(p.log, p.nextId, Some(f))
  }

  // ------------------------------------------------------- load_config

  /** The output directory `load_config` accepts: a parsed document whose
      `OutputDirectory` has non-empty text (`os.makedirs` raises on None
      and on the empty path). */
  function OutputDirOf(document: Option<Element>): (r: Option<string>)
    ensures r.Some? ==> r.value != "" && document.Some?
    ensures r.Some? ==> ChildString(document.value, "OutputDirectory") == Ok(r.value)
  {
    if document.None? then None
    else match ChildString(document.value, "OutputDirectory")
      case Err(_) => None
      case Ok(d) => if d == "" then None else Some(d)
  }

  function MakeDirs(d: Dirs): seq<Effect> {
    [MakeDir(d.output), MakeDir(d.clientFd), MakeDir(d.clientMagic), MakeDir(d.serverProfile)]
  }

  // ---------------------------------------------------------- certificates

  /** `int(parent.find(tag).text)`. */
  function IntChild(parent: Element, tag: string): (r: Result<int, Fault>)
    ensures r.Ok? <==> ChildString(parent, tag).Ok? && ParseInt(ChildString(parent, tag).value).Some?
    ensures r.Ok? ==> ParseInt(ChildString(parent, tag).value) == Some(r.value)
  {
    var t :- ChildString(parent, tag);
    match ParseInt(t)
    case None => Err(NotAnInteger(t))
    case Some(v) => Ok(v)
  }

  /** `generate_private_key`: a fresh key, or the generator's refusal. */
  function NewKey(size: int, env: Env, id: nat): (r: Result<KeyPair, Fault>)
    ensures r.Ok? <==> size >= env.minKeySize
    ensures r.Ok? ==> r.value == KeyPair(id, size)
  {
    if size < env.minKeySize then Err(KeySizeRejected(size)) else Ok(KeyPair(id, size))
  }

  /** What one issuing step produced. */
  datatype Issued = Issued(key: KeyPair, cert: Certificate, prefix: Option<string>)

  /** `save_private_key` then `save_certificate`: `<prefix>.key` with mode
      600 and `<prefix>.crt` with mode 644 (a None prefix names them
      `None.key` and `None.crt`). */
  function Saved(outDir: string, x: Issued): seq<Effect> {
    KeySaved(outDir, Show(x.prefix) + ".key", x.key) + CertSaved(outDir, Show(x.prefix) + ".crt", x.cert)
  }

  function KeySaved(outDir: string, filename: string, key: KeyPair): seq<Effect> {
    var path := Join(outDir, filename);
    [Write(path, KeyFile(key)), Chmod(path, PrivateMode)]
  }

  function CertSaved(outDir: string, filename: string, cert: Certificate): seq<Effect> {
    var path := Join(outDir, filename);
    [Write(path, CertFile(cert)), Chmod(path, PublicMode)]
  }

  /** `generate_ca_certificate`, up to saving: the `CA` element must exist;
      KeySize, ValidityDays and OutputPrefix are read in that order. A
      negative ValidityDays puts the not-after date before the not-before
      date, which the certificate builder refuses. */
  function IssueRoot(root: Element, env: Env, id: nat): Result<Issued, Fault> {
    var cfg :- if Find(root, "CA").None? then Err(MissingElement("CA")) else Ok(Find(root, "CA").value);
    var size :- IntChild(cfg, "KeySize");
    var days :- IntChild(cfg, "ValidityDays");
    var prefix :- ChildText(cfg, "OutputPrefix");
    var key :- NewKey(size, env, id);
    var subject :- BuildSubjectName(cfg);
    if days < 0 then Err(ValidityBeforeStart(days))
    else Ok(Issued(key, RootCertificate(subject, key, id, env.now, days), prefix))
  }

  /** One iteration of `generate_server_certificates` or
      `generate_client_certificates`, up to saving; the validity is checked
      by the builder before the SubjectAltNames are built. */
  function IssueLeaf(role: Role, entry: Element, ca: Issued, env: Env, id: nat): Result<Issued, Fault> {
    var cn :- ChildText(entry, "CommonName");
    var size :- IntChild(entry, "KeySize");
    var days :- IntChild(entry, "ValidityDays");
    var prefix :- ChildText(entry, "OutputPrefix");
    var key :- NewKey(size, env, id);
    var subject :- BuildSubjectName(entry);
    var _ :- if days < 0 then Err(ValidityBeforeStart(days)) else Ok(days);
    var san :- BuildSan(Find(entry, "SubjectAltNames"));
    Ok(Issued(key, LeafCertificate(role, subject, key, ca.cert, ca.key, id, env.now, days, san), prefix))
  }

  function GroupTag(role: Role): string { if role.Server? then "Servers" else "Clients" }
  function EntryTag(role: Role): string { if role.Server? then "Server" else "Client" }

  /** The entries a leaf stage walks; none when the group is missing or empty. */
  function LeafEntries(root: Element, role: Role): seq<Element> {
    var group := Find(root, GroupTag(role));
    if TruthyOpt(group) then FindAll(group.value, EntryTag(role)) else []
  }

  /** The root stage: issue and save, consuming one identifier. */
  function RootStage(root: Element, env: Env, d: Dirs, p: Progress): Progress {
    if p.fault.Some? then p
    else match IssueRoot(root, env, p.nextId)
      case Err(f) => Fail(p, f)
      case Ok(ca) => Progress(p.log + Saved(d.output, ca), p.nextId + 1, None)
  }

  lemma RootStageOutcome(root: Element, env: Env, d: Dirs, p: Progress)
    requires p.fault.None?
    ensures IssueRoot(root, env, p.nextId).Err? ==> RootStage(root, env, d, p) == Fail(p, IssueRoot(root, env, p.nextId).error)
    ensures IssueRoot(root, env, p.nextId).Ok? ==>
      RootStage(root, env, d, p) == Progress(p.log + Saved(d.output, IssueRoot(root, env, p.nextId).value), p.nextId + 1, None)
  {
  }

  /** The leaf loop from the current entry on. */
  function LeafSteps(role: Role, entries: seq<Element>, ca: Issued, env: Env, d: Dirs, p: Progress): Progress
    decreases |entries|
  {
    if |entries| == 0 || p.fault.Some? then p
    else LeafSteps(role, entries[1..], ca, env, d, LeafStep(role, entries[0], ca, env, d, p))
  }

  /** After a fault the leaf loop does nothing more. */
  lemma FaultStops(role: Role, entries: seq<Element>, ca: Issued, env: Env, d: Dirs, p: Progress)
    requires p.fault.Some?
    ensures LeafSteps(role, entries, ca, env, d, p) == p
  {
  }

  /** One entry of the leaf loop: issue and save, consuming one identifier. */
  function LeafStep(role: Role, entry: Element, ca: Issued, env: Env, d: Dirs, p: Progress): Progress {
    match IssueLeaf(role, entry, ca, env, p.nextId)
    case Err(f) => Fail(p, f)
    case Ok(x) => Progress(p.log + Saved(d.output, x), p.nextId + 1, None)
  }

  lemma LeafStepOutcome(role: Role, entry: Element, ca: Issued, env: Env, d: Dirs, p: Progress)
    ensures IssueLeaf(role, entry, ca, env, p.nextId).Err? ==>
      LeafStep(role, entry, ca, env, d, p) == Fail(p, IssueLeaf(role, entry, ca, env, p.nextId).error)
    ensures IssueLeaf(role, entry, ca, env, p.nextId).Ok? ==>
      LeafStep(role, entry, ca, env, d, p) == Progress(p.log + Saved(d.output, IssueLeaf(role, entry, ca, env, p.nextId).value), p.nextId + 1, None)
  {
  }

  // ---------------------------------------------------------- access list

  /** The loop of `update_acl_whitelist`: each client's CN, kept when not
      a substring of the file's text. */
  function AclScan(content: string, clients: seq<Element>, added: seq<string>): Result<seq<string>, Fault>
    decreases |clients|
  {
    if |clients| == 0 then Ok(added)
    else match ChildString(clients[0], "CommonName")
      case Err(f) => Err(f)
      case Ok(id) => AclScan(content, clients[1..], added + (if IsSubstring(id, content) then [] else [id]))
  }

  function AclPath(env: Env): string { Join(env.rootDir, AclFile) }

  /** `update_acl_whitelist`: nothing without the file or without new
      identities, else one append. */
  function AclStage(root: Element, env: Env, p: Progress): Progress {
    if p.fault.Some? || env.aclText.None? then p
    else match AclScan(env.aclText.value, ClientList(root), [])
      case Err(f) => Fail(p, f)
      case Ok(added) =>
        if |added| == 0 then p
        else Progress(p.log + [Append(AclPath(env), AclAppendix(env.aclText.value, added))], p.nextId, None)
  }

  /** The scan computes exactly the merge's unlisted identities. */
  lemma {:induction false} AclScanIsUnlisted(content: string, clients: seq<Element>, added: seq<string>)
    requires Identities(clients).Ok?
    ensures AclScan(content, clients, added) == Ok(added + Unlisted(content, Identities(clients).value))
    decreases |clients|
  {
    if |clients| > 0 {
      var id := ChildString(clients[0], "CommonName").value;
      var more := if IsSubstring(id, content) then [] else [id];
      var ids := Identities(clients[1..]).value;
      IdentitiesCons(clients);
      UnlistedCons(content, id, ids);
      AclScanIsUnlisted(content, clients[1..], added + more);
      Regroup(added, more, Unlisted(content, ids));
    } else {
      assert added + [] == added;
    }
  }

  lemma IdentitiesCons(clients: seq<Element>)
    requires |clients| > 0 && Identities(clients).Ok?
    ensures Identities(clients[1..]).Ok?
    ensures Identities(clients).value == [ChildString(clients[0], "CommonName").value] + Identities(clients[1..]).value
  {
  }

  lemma UnlistedCons(content: string, id: string, ids: seq<string>)
    ensures Unlisted(content, [id] + ids) == (if IsSubstring(id, content) then [] else [id]) + Unlisted(content, ids)
  {
    assert ([id] + ids)[1..] == ids;
  }

  /** The scan raises exactly what reading the identities raises. */
  lemma {:induction false} AclScanFails(content: string, clients: seq<Element>, added: seq<string>)
    requires Identities(clients).Err?
    ensures AclScan(content, clients, added) == Err(Identities(clients).error)
    decreases |clients|
  {
    var first := ChildString(clients[0], "CommonName");
    if first.Ok? {
      var more := if IsSubstring(first.value, content) then [] else [first.value];
      AclScanFails(content, clients[1..], added + more);
    }
  }

  /** The stage appends the merge's appendix, so the file afterwards is
      `AclMerged` of its prior text. */
  lemma AclStageMerges(root: Element, env: Env, p: Progress)
    requires p.fault.None? && env.aclText.Some? && Identities(ClientList(root)).Ok?
    ensures var q := AclStage(root, env, p);
      var content := env.aclText.value;
      var ids := Identities(ClientList(root)).value;
      && q.fault.None?
      && (AclMerged(content, ids) == content ==> q.log == p.log)
      && (AclMerged(content, ids) != content ==>
            q.log == p.log + [Append(AclPath(env), AclMerged(content, ids)[|content|..])])
  {
    AclScanIsUnlisted(env.aclText.value, ClientList(root), []);
    var content := env.aclText.value;
    var ids := Identities(ClientList(root)).value;
    assert [] + Unlisted(content, ids) == Unlisted(content, ids);
  }

  /** Running the stage again on the file it produced appends nothing. */
  lemma AclStageSecondRunAppendsNothing(root: Element, env: Env, p: Progress)
    requires p.fault.None? && env.aclText.Some? && Identities(ClientList(root)).Ok?
    ensures var merged := AclMerged(env.aclText.value, Identities(ClientList(root)).value);
      AclStage(root, env.(aclText := Some(merged)), p) == p
  {
    var ids := Identities(ClientList(root)).value;
    var merged := AclMerged(env.aclText.value, ids);
    AclMergeIdempotent(env.aclText.value, ids);
    AclScanIsUnlisted(merged, ClientList(root), []);
    assert [] + Unlisted(merged, ids) == [];
  }

  // -------------------------------------------------------------- profile

  /** Each client's `update_client_profile` record, or what it raised. */
  function Records(clients: seq<Element>): (r: seq<Result<Profile, Fault>>)
    ensures |r| == |clients| && forall i :: 0 <= i < |clients| ==> r[i] == ProfileOf(clients[i])
  {
    if |clients| == 0 then [] else [ProfileOf(clients[0])] + Records(clients[1..])
  }

  /** The loop of `update_client_profile`: collect the records in order,
      stopping at the first that raised. */
  function ProfileScan(rs: seq<Result<Profile, Fault>>, acc: seq<Profile>): Result<seq<Profile>, Fault>
    decreases |rs|
  {
    if |rs| == 0 then Ok(acc)
    else match rs[0]
      case Err(f) => Err(f)
      case Ok(prof) => ProfileScan(rs[1..], acc + [prof])
  }

  function ProfileElements(ps: seq<Profile>): (r: seq<Element>)
    ensures |r| == |ps| && forall i :: 0 <= i < |ps| ==> r[i] == ProfileElement(ps[i])
  {
    if |ps| == 0 then [] else [ProfileElement(ps[0])] + ProfileElements(ps[1..])
  }

  /** The `ClientProfiles` document. */
  function ProfilesDocument(ps: seq<Profile>): Element {
    Node("ClientProfiles", ProfileElements(ps))
  }

  const Templates: seq<string> := ["Datalink_Profile.xml", "Central_Policy_Profile.xml"]

  /** `shutil.copy2` of each policy template that exists. */
  function TemplateCopies(env: Env, dir: string, names: seq<string>): (r: seq<Effect>)
    ensures forall i :: 0 <= i < |r| ==> r[i].Copy?
  {
    if |names| == 0 then []
    else
      var src := Join(Join(env.rootDir, "extensions/app_magic/config"), names[0]);
      (if src in env.existing then [Copy(src, Join(dir, names[0]))] else []) + TemplateCopies(env, dir, names[1..])
  }

  /** `update_client_profile`: its exceptions are caught, so it never
      stops the run, and a client that raises means nothing is written. */
  function ProfileStage(root: Element, env: Env, d: Dirs, p: Progress): Progress {
    if p.fault.Some? then p
    else match ProfileScan(Records(ClientList(root)), [])
      case Err(_) => p
      case Ok(ps) =>
        Progress(p.log + [Write(Join(d.serverProfile, "Client_Profile.xml"), ProfilesFile(ProfilesDocument(ps)))]
          + TemplateCopies(env, d.serverProfile, Templates), p.nextId, None)
  }

  /** The scan succeeds exactly when every client's record does, and then
      lists them in document order. */
  lemma {:induction false} ProfileScanEach(rs: seq<Result<Profile, Fault>>, acc: seq<Profile>)
    ensures ProfileScan(rs, acc).Ok? <==> forall i :: 0 <= i < |rs| ==> rs[i].Ok?
    decreases |rs|
  {
    if |rs| > 0 && rs[0].Ok? {
      ProfileScanEach(rs[1..], acc + [rs[0].value]);
      if !ProfileScan(rs, acc).Ok? {
        var j :| 0 <= j < |rs[1..]| && !rs[1..][j].Ok?;
        assert rs[1..][j] == rs[j + 1];
      } else {
        forall i | 1 <= i < |rs| ensures rs[i].Ok? {
          assert rs[1..][i - 1] == rs[i];
        }
      }
    }
  }

  /** In order: the scan's records are those of `rs`, after `acc`. */
  lemma {:induction false} ProfileScanValues(rs: seq<Result<Profile, Fault>>, acc: seq<Profile>)
    requires ProfileScan(rs, acc).Ok?
    ensures var r := ProfileScan(rs, acc).value;
      |r| == |acc| + |rs| && r[..|acc|] == acc
      && forall i :: 0 <= i < |rs| ==> rs[i].Ok? && r[|acc| + i] == rs[i].value
    decreases |rs|
  {
    if |rs| > 0 {
      var acc' := acc + [rs[0].value];
      ProfileScanValues(rs[1..], acc');
      var r := ProfileScan(rs, acc).value;
      assert r[..|acc|] == r[..|acc'|][..|acc|];
      forall i | 0 <= i < |rs| ensures rs[i].Ok? && r[|acc| + i] == rs[i].value {
        if i > 0 { assert rs[1..][i - 1] == rs[i]; }
        else { assert r[|acc|] == r[..|acc'|][|acc|]; }
      }
    }
  }

  /** The document holds one `ClientProfile` per client, in document
      order, each built from that client's record. */
  lemma ProfileDocumentLists(root: Element, env: Env, d: Dirs, p: Progress)
    requires p.fault.None?
    requires forall i :: 0 <= i < |ClientList(root)| ==> ProfileOf(ClientList(root)[i]).Ok?
    ensures var q := ProfileStage(root, env, d, p);
      var cs := ClientList(root);
      && q.fault.None? && |q.log| > |p.log|
      && q.log[|p.log|].Write? && q.log[|p.log|].path == Join(d.serverProfile, "Client_Profile.xml")
      && q.log[|p.log|].body.ProfilesFile?
      && var doc := q.log[|p.log|].body.document;
      && |doc.children| == |cs|
      && forall i :: 0 <= i < |cs| ==> doc.children[i] == ProfileElement(ProfileOf(cs[i]).value)
  {
    var cs := ClientList(root);
    var rs := Records(cs);
    ProfileScanEach(rs, []);
    ProfileScanAll(rs);
    var ps := ProfileScan(rs, []).value;
    ProfileStageWrites(root, env, d, p, ps);
    DocumentChildren(ps, cs);
  }

  lemma ProfileStageSkips(root: Element, env: Env, d: Dirs, p: Progress)
    requires ProfileScan(Records(ClientList(root)), []).Err?
    ensures ProfileStage(root, env, d, p) == p
  {
  }

  lemma ProfileStageOk(root: Element, env: Env, d: Dirs, p: Progress, ps: seq<Profile>)
    requires p.fault.None? && ProfileScan(Records(ClientList(root)), []) == Ok(ps)
    ensures ProfileStage(root, env, d, p) ==
      Progress(p.log + [Write(Join(d.serverProfile, "Client_Profile.xml"), ProfilesFile(ProfilesDocument(ps)))]
        + TemplateCopies(env, d.serverProfile, Templates), p.nextId, None)
  {
  }

  /** One client of the profile loop: its record either stops the scan or
      is appended. */
  lemma ProfileScanStep(clients: seq<Element>, acc: seq<Profile>)
    requires |clients| > 0
    ensures ProfileOf(clients[0]).Err? ==> ProfileScan(Records(clients), acc) == Err(ProfileOf(clients[0]).error)
    ensures ProfileOf(clients[0]).Ok? ==>
      ProfileScan(Records(clients), acc) == ProfileScan(Records(clients[1..]), acc + [ProfileOf(clients[0]).value])
  {
    var rs := Records(clients);
    assert rs[1..] == Records(clients[1..]);
  }

  /** From an empty accumulator the scan lists exactly the records' values. */
  lemma ProfileScanAll(rs: seq<Result<Profile, Fault>>)
    requires ProfileScan(rs, []).Ok?
    ensures var r := ProfileScan(rs, []).value;
      |r| == |rs| && forall i :: 0 <= i < |rs| ==> rs[i].Ok? && r[i] == rs[i].value
  {
    ProfileScanValues(rs, []);
  }

  lemma DocumentChildren(ps: seq<Profile>, cs: seq<Element>)
    requires |ps| == |cs| && forall i :: 0 <= i < |cs| ==> ProfileOf(cs[i]).Ok? && ps[i] == ProfileOf(cs[i]).value
    ensures var doc := ProfilesDocument(ps);
      |doc.children| == |cs| && forall i :: 0 <= i < |cs| ==> doc.children[i] == ProfileElement(ProfileOf(cs[i]).value)
  {
  }

  /** When every record is read, the stage's first effect writes the
      document of those records. */
  lemma ProfileStageWrites(root: Element, env: Env, d: Dirs, p: Progress, ps: seq<Profile>)
    requires p.fault.None? && ProfileScan(Records(ClientList(root)), []) == Ok(ps)
    ensures var q := ProfileStage(root, env, d, p);
      && q.fault.None? && |q.log| > |p.log|
      && q.log[|p.log|] == Write(Join(d.serverProfile, "Client_Profile.xml"), ProfilesFile(ProfilesDocument(ps)))
  {
  }

  /** A client whose record raises leaves the stage without any effect and
      without stopping the run. */
  lemma ProfileFaultSwallowed(root: Element, env: Env, d: Dirs, p: Progress, k: nat)
    requires p.fault.None?
    requires k < |ClientList(root)| && ProfileOf(ClientList(root)[k]).Err?
    ensures ProfileStage(root, env, d, p) == p
  {
    ProfileScanEach(Records(ClientList(root)), []);
  }

  // ----------------------------------------------------- client peer files

  /** The loop of `generate_client_fd_configs` from the current client on. */
  function ClientFdSteps(clients: seq<Element>, peer: ServerPeer, env: Env, d: Dirs, p: Progress): Progress
    decreases |clients|
  {
    if |clients| == 0 || p.fault.Some? then p
    else ClientFdSteps(clients[1..], peer, env, d, ClientFdStep(clients[0], peer, env, d, p))
  }

  /** One client of that loop: build its file and write it. */
  function ClientFdStep(client: Element, peer: ServerPeer, env: Env, d: Dirs, p: Progress): Progress {
    match ClientFdConf(client, peer, d.output, env.rootDir)
    case Err(f) => Fail(p, f)
    case Ok(file) => Progress(p.log + [Write(Join(d.clientFd, file.name), ClientPeerFile(file.conf))], p.nextId, None)
  }

  lemma FdFaultStops(clients: seq<Element>, peer: ServerPeer, env: Env, d: Dirs, p: Progress)
    requires p.fault.Some?
    ensures ClientFdSteps(clients, peer, env, d, p) == p
  {
  }

  /** `generate_client_fd_configs`: nothing unless `Clients` is truthy;
      the server lookup may raise before any file is written. */
  function ClientFdStage(root: Element, env: Env, d: Dirs, p: Progress): Progress {
    if p.fault.Some? || !TruthyOpt(Find(root, "Clients")) then p
    else match FdServerPeer(root)
      case Err(f) => Fail(p, f)
      case Ok(peer) => ClientFdSteps(ClientList(root), peer, env, d, p)
  }

  // ------------------------------------------ business-parameter files

  /** The loop of `generate_client_magic_configs` from the current client on. */
  function MagicSteps(clients: seq<Element>, realm: string, d: Dirs, p: Progress): Progress
    decreases |clients|
  {
    if |clients| == 0 || p.fault.Some? then p
    else MagicSteps(clients[1..], realm, d, MagicStep(clients[0], realm, d, p))
  }

  /** One client of that loop: build its file, write it, restrict it to mode 600. */
  function MagicStep(client: Element, realm: string, d: Dirs, p: Progress): Progress {
    match MagicConf(client, realm)
    case Err(f) => Fail(p, f)
    case Ok(file) =>
      var path := Join(d.clientMagic, file.name);
      Progress(p.log + [Write(path, ParamsFile(file.params)), Chmod(path, PrivateMode)], p.nextId, None)
  }

  lemma MagicFaultStops(clients: seq<Element>, realm: string, d: Dirs, p: Progress)
    requires p.fault.Some?
    ensures MagicSteps(clients, realm, d, p) == p
  {
  }

  /** `generate_client_magic_configs`: skipped only when `Clients` is
      missing (an empty one still computes the realm, which may raise). */
  function MagicStage(root: Element, d: Dirs, p: Progress): Progress {
    if p.fault.Some? || Find(root, "Clients").None? then p
    else match ServerRealm(root)
      case Err(f) => Fail(p, f)
      case Ok(realm) => MagicSteps(FindAll(Find(root, "Clients").value, "Client"), realm, d, p)
  }

  // ------------------------------------------------------ server peer file

  function ServerFdPath(d: Dirs): string { Join(d.serverProfile, "fd_server.conf") }

  /** `generate_server_fd_config`. */
  function ServerFdStage(root: Element, env: Env, d: Dirs, p: Progress): Progress {
    if p.fault.Some? then p
    else match ServerFdConf(root, d.output, env.rootDir)
      case Err(f) => Fail(p, f)
      case Ok(conf) => Progress(p.log + [Write(ServerFdPath(d), ServerPeerFile(conf))], p.nextId, None)
  }

  // ------------------------------------------------------------------ run

  /** The stages after `load_config`, in `run`'s order up to the client
      business-parameter files. */
  function UpToMagic(root: Element, env: Env, d: Dirs, p: Progress): Progress {
    var p1 := RootStage(root, env, d, p);
    var ca := IssueRoot(root, env, p.nextId);
    var p2 := if ca.Ok? then LeafSteps(Server, LeafEntries(root, Server), ca.value, env, d, p1) else p1;
    var p3 := if ca.Ok? then LeafSteps(Client, LeafEntries(root, Client), ca.value, env, d, p2) else p2;
    var p4 := AclStage(root, env, p3);
    var p5 := ProfileStage(root, env, d, p4);
    var p6 := ClientFdStage(root, env, d, p5);
    MagicStage(root, d, p6)
  }

  /** `run`: False when the configuration does not load or a stage raises;
      the effects are what happened before that. */
  function RunSpec(document: Option<Element>, env: Env, log: seq<Effect>, id: nat): (bool, Progress) {
    match OutputDirOf(document)
    case None => (false, Progress(log, id, None))
    case Some(out) =>
      var d := DirsOf(out);
      var p := ServerFdStage(document.value, env, d, UpToMagic(document.value, env, d, Progress(log + MakeDirs(d), id, None)));
      (p.fault.None?, p)
  }

  /** The process exit status of `main`. */
  function ExitCode(ok: bool): (code: int)
    ensures code == 0 <==> ok
  {
    if ok then 0 else 1
  }

  // ------------------------------------------------------ run-level facts

  /** A stopped run stays stopped: every stage after a fault changes nothing. */
  lemma StagesAfterFault(root: Element, env: Env, d: Dirs, p: Progress)
    requires p.fault.Some?
    ensures UpToMagic(root, env, d, p) == p && ServerFdStage(root, env, d, p) == p
  {
  }

  /** `generate_ca_certificate` issues a trust anchor for its own key, valid
      from now for ValidityDays days, of the configured size. */
  lemma IssuedRootIsTrustAnchor(root: Element, env: Env, id: nat)
    requires IssueRoot(root, env, id).Ok?
    ensures var x := IssueRoot(root, env, id).value;
      var cfg := Find(root, "CA").value;
      && IsTrustAnchor(x.cert) && x.cert.publicKey == x.key.Public()
      && x.key.size == IntChild(cfg, "KeySize").value >= env.minKeySize
      && x.cert.notBefore == env.now
      && x.cert.notAfter == env.now + IntChild(cfg, "ValidityDays").value * SecondsPerDay
      && x.cert.notBefore <= x.cert.notAfter
      && x.prefix == ChildText(cfg, "OutputPrefix").value
  {
    var cfg := Find(root, "CA").value;
    var x := IssueRoot(root, env, id).value;
    var days := IntChild(cfg, "ValidityDays").value;
    var subject := BuildSubjectName(cfg).value;
    assert x.cert == RootCertificate(subject, x.key, id, env.now, days);
    RootIsTrustAnchor(subject, x.key, id, env.now, days);
  }

  /** `leaf` chains to `root` for `purpose` at every instant of its validity. */
  ghost predicate ChainsFor(leaf: Certificate, root: Certificate, purpose: Purpose) {
    forall t :: leaf.notBefore <= t <= leaf.notAfter ==> ChainsTo(leaf, root, purpose, t)
  }

  /** A leaf issued under a root issued by the tool chains to it for its
      role's purpose throughout its validity, which starts now and is not
      empty. */
  lemma IssuedLeafChains(role: Role, entry: Element, ca: Issued, env: Env, id: nat)
    requires ca.cert.publicKey == ca.key.Public()
    requires IssueLeaf(role, entry, ca, env, id).Ok?
    ensures ChainsFor(IssueLeaf(role, entry, ca, env, id).value.cert, ca.cert, role.Purpose())
    ensures var c := IssueLeaf(role, entry, ca, env, id).value.cert;
      c.notBefore == env.now <= c.notAfter
  {
    var c := IssueLeaf(role, entry, ca, env, id).value.cert;
    var key := KeyPair(id, IntChild(entry, "KeySize").value);
    var days := IntChild(entry, "ValidityDays").value;
    var subject := BuildSubjectName(entry).value;
    var san := BuildSan(Find(entry, "SubjectAltNames")).value;
    assert c == LeafCertificate(role, subject, key, ca.cert, ca.key, id, env.now, days, san);
    forall t | c.notBefore <= t <= c.notAfter ensures ChainsTo(c, ca.cert, role.Purpose(), t) {
      LeafChainsToRoot(role, subject, key, ca.cert, ca.key, id, env.now, days, san, t);
    }
  }

  /** A key file or a business-parameter file. */
  predicate Secret(e: Effect) {
    e.Write? && (e.body.KeyFile? || e.body.ParamsFile?)
  }

  /** Every secret file is restricted to mode 600 by the very next effect. */
  predicate Protected(log: seq<Effect>) {
    forall i :: 0 <= i < |log| && Secret(log[i]) ==> i + 1 < |log| && log[i + 1] == Chmod(log[i].path, PrivateMode)
  }

  /** `c` is the root or a certificate that chains to it. */
  ghost predicate Trusted(c: Certificate, root: Certificate) {
    c == root || ChainsFor(c, root, ServerAuth) || ChainsFor(c, root, ClientAuth)
  }

  /** Every certificate file holds a trusted certificate. */
  ghost predicate CertsTrusted(log: seq<Effect>, root: Certificate) {
    forall i :: 0 <= i < |log| && log[i].Write? && log[i].body.CertFile? ==> Trusted(log[i].body.cert, root)
  }

  ghost predicate Sound(log: seq<Effect>, root: Certificate) {
    Protected(log) && CertsTrusted(log, root)
  }

  /** Effects that write neither a secret nor a certificate. */
  predicate Plain(es: seq<Effect>) {
    forall i :: 0 <= i < |es| ==> !Secret(es[i]) && !(es[i].Write? && es[i].body.CertFile?)
  }

  lemma SoundAppend(a: seq<Effect>, b: seq<Effect>, root: Certificate)
    requires Sound(a, root) && Sound(b, root)
    ensures Sound(a + b, root)
  {
    var ab := a + b;
    forall i | 0 <= i < |ab| && Secret(ab[i]) ensures i + 1 < |ab| && ab[i + 1] == Chmod(ab[i].path, PrivateMode) {
      if i < |a| {
        assert ab[i] == a[i] && ab[i + 1] == a[i + 1];
      } else {
        assert ab[i] == b[i - |a|];
        assert ab[i + 1] == b[i - |a| + 1];
      }
    }
    forall i | 0 <= i < |ab| && ab[i].Write? && ab[i].body.CertFile? ensures Trusted(ab[i].body.cert, root) {
      if i < |a| { assert ab[i] == a[i]; } else { assert ab[i] == b[i - |a|]; }
    }
  }

  lemma PlainAppend(a: seq<Effect>, b: seq<Effect>, root: Certificate)
    requires Sound(a, root) && Plain(b)
    ensures Sound(a + b, root)
  {
    SoundAppend(a, b, root);
  }

  lemma SavedSound(outDir: string, x: Issued, root: Certificate)
    requires Trusted(x.cert, root)
    ensures Sound(Saved(outDir, x), root)
  {
    var s := Saved(outDir, x);
    assert s[0] == Write(Join(outDir, Show(x.prefix) + ".key"), KeyFile(x.key));
    assert s[1] == Chmod(Join(outDir, Show(x.prefix) + ".key"), PrivateMode);
    assert s[2] == Write(Join(outDir, Show(x.prefix) + ".crt"), CertFile(x.cert));
    assert s[3].Chmod? && |s| == 4;
  }

  lemma {:induction false} LeafStepsSound(role: Role, entries: seq<Element>, ca: Issued, env: Env, d: Dirs, p: Progress)
    requires ca.cert.publicKey == ca.key.Public() && Sound(p.log, ca.cert)
    ensures Sound(LeafSteps(role, entries, ca, env, d, p).log, ca.cert)
    decreases |entries|
  {
    if |entries| > 0 && p.fault.None? {
      var r := IssueLeaf(role, entries[0], ca, env, p.nextId);
      if r.Ok? {
        IssuedLeafChains(role, entries[0], ca, env, p.nextId);
        SavedSound(d.output, r.value, ca.cert);
        SoundAppend(p.log, Saved(d.output, r.value), ca.cert);
      }
      LeafStepsSound(role, entries[1..], ca, env, d, LeafStep(role, entries[0], ca, env, d, p));
    }
  }

  lemma {:induction false} ClientFdStepsSound(clients: seq<Element>, peer: ServerPeer, env: Env, d: Dirs, p: Progress, root: Certificate)
    requires Sound(p.log, root)
    ensures Sound(ClientFdSteps(clients, peer, env, d, p).log, root)
    decreases |clients|
  {
    if |clients| > 0 && p.fault.None? {
      var q := ClientFdStep(clients[0], peer, env, d, p);
      if q.fault.None? {
        PlainAppend(p.log, q.log[|p.log|..], root);
        assert q.log == p.log + q.log[|p.log|..];
      }
      ClientFdStepsSound(clients[1..], peer, env, d, q, root);
    }
  }

  lemma {:induction false} MagicStepsSound(clients: seq<Element>, realm: string, d: Dirs, p: Progress, root: Certificate)
    requires Sound(p.log, root)
    ensures Sound(MagicSteps(clients, realm, d, p).log, root)
    decreases |clients|
  {
    if |clients| > 0 && p.fault.None? {
      var q := MagicStep(clients[0], realm, d, p);
      if q.fault.None? {
        var extra := q.log[|p.log|..];
        assert q.log == p.log + extra;
        assert |extra| == 2 && extra[0].Write? && extra[0].body.ParamsFile? && extra[1] == Chmod(extra[0].path, PrivateMode);
        SoundAppend(p.log, extra, root);
      }
      MagicStepsSound(clients[1..], realm, d, q, root);
    }
  }

  lemma AclStageSound(root: Element, env: Env, p: Progress, rc: Certificate)
    requires Sound(p.log, rc)
    ensures Sound(AclStage(root, env, p).log, rc)
  {
    var q := AclStage(root, env, p);
    if q.log != p.log {
      PlainAppend(p.log, q.log[|p.log|..], rc);
      assert q.log == p.log + q.log[|p.log|..];
    }
  }

  lemma ProfileStageSound(root: Element, env: Env, d: Dirs, p: Progress, rc: Certificate)
    requires Sound(p.log, rc)
    ensures Sound(ProfileStage(root, env, d, p).log, rc)
  {
    if p.fault.None? && ProfileScan(Records(ClientList(root)), []).Ok? {
      var ps := ProfileScan(Records(ClientList(root)), []).value;
      var w := Write(Join(d.serverProfile, "Client_Profile.xml"), ProfilesFile(ProfilesDocument(ps)));
      var copies := TemplateCopies(env, d.serverProfile, Templates);
      Regroup(p.log, [w], copies);
      WriteThenCopiesPlain(w, copies);
      PlainAppend(p.log, [w] + copies, rc);
    }
  }

  lemma WriteThenCopiesPlain(w: Effect, copies: seq<Effect>)
    requires w.Write? && w.body.ProfilesFile? && forall i :: 0 <= i < |copies| ==> copies[i].Copy?
    ensures Plain([w] + copies)
  {
    var es := [w] + copies;
    forall i | 0 <= i < |es| ensures !Secret(es[i]) && !(es[i].Write? && es[i].body.CertFile?) {
      if i > 0 { assert es[i] == copies[i - 1]; }
    }
  }

  lemma ServerFdStageSound(root: Element, env: Env, d: Dirs, p: Progress, rc: Certificate)
    requires Sound(p.log, rc)
    ensures Sound(ServerFdStage(root, env, d, p).log, rc)
  {
    var q := ServerFdStage(root, env, d, p);
    if q.log != p.log {
      PlainAppend(p.log, q.log[|p.log|..], rc);
      assert q.log == p.log + q.log[|p.log|..];
    }
  }

  lemma ClientFdStageSound(root: Element, env: Env, d: Dirs, p: Progress, rc: Certificate)
    requires Sound(p.log, rc)
    ensures Sound(ClientFdStage(root, env, d, p).log, rc)
  {
    if p.fault.None? && TruthyOpt(Find(root, "Clients")) && FdServerPeer(root).Ok? {
      ClientFdStepsSound(ClientList(root), FdServerPeer(root).value, env, d, p, rc);
    }
  }

  lemma MagicStageSound(root: Element, d: Dirs, p: Progress, rc: Certificate)
    requires Sound(p.log, rc)
    ensures Sound(MagicStage(root, d, p).log, rc)
  {
    if p.fault.None? && Find(root, "Clients").Some? && ServerRealm(root).Ok? {
      MagicStepsSound(FindAll(Find(root, "Clients").value, "Client"), ServerRealm(root).value, d, p, rc);
    }
  }

  /** The certificate stages: the root, then the server and client leaves. */
  lemma CertStagesSound(root: Element, env: Env, d: Dirs, p: Progress, ca: Issued)
    requires p.fault.None? && IssueRoot(root, env, p.nextId) == Ok(ca)
    requires Sound(p.log, ca.cert)
    ensures var p1 := RootStage(root, env, d, p);
      var p2 := LeafSteps(Server, LeafEntries(root, Server), ca, env, d, p1);
      Sound(LeafSteps(Client, LeafEntries(root, Client), ca, env, d, p2).log, ca.cert)
  {
    IssuedRootIsTrustAnchor(root, env, p.nextId);
    var p1 := RootStage(root, env, d, p);
    assert p1.log == p.log + Saved(d.output, ca);
    SavedSound(d.output, ca, ca.cert);
    SoundAppend(p.log, Saved(d.output, ca), ca.cert);
    var p2 := LeafSteps(Server, LeafEntries(root, Server), ca, env, d, p1);
    LeafStepsSound(Server, LeafEntries(root, Server), ca, env, d, p1);
    LeafStepsSound(Client, LeafEntries(root, Client), ca, env, d, p2);
  }

  lemma UpToMagicSound(root: Element, env: Env, d: Dirs, p: Progress)
    requires p.fault.None? && IssueRoot(root, env, p.nextId).Ok?
    requires Sound(p.log, IssueRoot(root, env, p.nextId).value.cert)
    ensures Sound(UpToMagic(root, env, d, p).log, IssueRoot(root, env, p.nextId).value.cert)
  {
    var ca := IssueRoot(root, env, p.nextId).value;
    var rc := ca.cert;
    CertStagesSound(root, env, d, p, ca);
    var p1 := RootStage(root, env, d, p);
    var p2 := LeafSteps(Server, LeafEntries(root, Server), ca, env, d, p1);
    var p3 := LeafSteps(Client, LeafEntries(root, Client), ca, env, d, p2);
    var p4 := AclStage(root, env, p3);
    AclStageSound(root, env, p3, rc);
    var p5 := ProfileStage(root, env, d, p4);
    ProfileStageSound(root, env, d, p4, rc);
    var p6 := ClientFdStage(root, env, d, p5);
    ClientFdStageSound(root, env, d, p5, rc);
    MagicStageSound(root, d, p6, rc);
  }

  /** Whatever the configuration, a run that issued its root leaves every
      key and business-parameter file at mode 600 from the moment it is
      written, and every certificate it writes is the root or chains to it. */
  lemma RunSound(document: Option<Element>, env: Env, log: seq<Effect>, id: nat)
    requires OutputDirOf(document).Some? && IssueRoot(document.value, env, id).Ok?
    requires Sound(log, IssueRoot(document.value, env, id).value.cert)
    ensures Sound(RunSpec(document, env, log, id).1.log, IssueRoot(document.value, env, id).value.cert)
  {
    var d := DirsOf(OutputDirOf(document).value);
    var rc := IssueRoot(document.value, env, id).value.cert;
    MakeDirsPlain(d);
    PlainAppend(log, MakeDirs(d), rc);
    var p := Progress(log + MakeDirs(d), id, None);
    StagesSound(document.value, env, d, p);
    RunLog(document, env, log, id);
    SoundVia(RunSpec(document, env, log, id).1, ServerFdStage(document.value, env, d, UpToMagic(document.value, env, d, p)), rc);
  }

  lemma MakeDirsPlain(d: Dirs)
    ensures Plain(MakeDirs(d))
  {
  }

  lemma SoundVia(q: Progress, r: Progress, rc: Certificate)
    requires q == r && Sound(r.log, rc)
    ensures Sound(q.log, rc)
  {
  }

  /** The effects of a run whose configuration loads: the directories, then
      the stages. */
  lemma RunLog(document: Option<Element>, env: Env, log: seq<Effect>, id: nat)
    requires OutputDirOf(document).Some?
    ensures var d := DirsOf(OutputDirOf(document).value);
      RunSpec(document, env, log, id).1 == ServerFdStage(document.value, env, d, UpToMagic(document.value, env, d, Progress(log + MakeDirs(d), id, None)))
  {
  }

  lemma StagesSound(root: Element, env: Env, d: Dirs, p: Progress)
    requires p.fault.None? && IssueRoot(root, env, p.nextId).Ok?
    requires Sound(p.log, IssueRoot(root, env, p.nextId).value.cert)
    ensures Sound(ServerFdStage(root, env, d, UpToMagic(root, env, d, p)).log, IssueRoot(root, env, p.nextId).value.cert)
  {
    UpToMagicSound(root, env, d, p);
    ServerFdStageSound(root, env, d, UpToMagic(root, env, d, p), IssueRoot(root, env, p.nextId).value.cert);
  }

  /** Without a root certificate nothing but the directories is created,
      and the run answers False. */
  lemma RootFailureStopsRun(document: Option<Element>, env: Env, log: seq<Effect>, id: nat)
    requires OutputDirOf(document).Some? && IssueRoot(document.value, env, id).Err?
    ensures var (ok, p) := RunSpec(document, env, log, id);
      !ok && p.log == log + MakeDirs(DirsOf(OutputDirOf(document).value)) && ExitCode(ok) == 1
  {
    var d := DirsOf(OutputDirOf(document).value);
    var p1 := RootStage(document.value, env, d, Progress(log + MakeDirs(d), id, None));
    StagesAfterFault(document.value, env, d, p1);
  }

  /** An entry whose subject name or SubjectAltNames the builders refuse. */
  predicate Unbuildable(entry: Element) {
    BuildSubjectName(entry).Err? || BuildSan(Find(entry, "SubjectAltNames")).Err?
  }

  /** An entry that cannot be issued stops the leaf loop, whatever came before it. */
  lemma {:induction false} LeafStepsStop(role: Role, entries: seq<Element>, k: nat, ca: Issued, env: Env, d: Dirs, p: Progress)
    requires k < |entries| && Unbuildable(entries[k])
    ensures LeafSteps(role, entries, ca, env, d, p).fault.Some?
    decreases |entries|
  {
    if p.fault.None? {
      var q := LeafStep(role, entries[0], ca, env, d, p);
      assert LeafSteps(role, entries, ca, env, d, p) == LeafSteps(role, entries[1..], ca, env, d, q);
      if k == 0 {
        LeafStepFails(role, entries[0], ca, env, d, p);
        FaultStops(role, entries[1..], ca, env, d, q);
      } else {
        assert entries[1..][k - 1] == entries[k];
        LeafStepsStop(role, entries[1..], k - 1, ca, env, d, q);
      }
    } else {
      FaultStops(role, entries, ca, env, d, p);
    }
  }

  /** An issued leaf's entry has every field `generate_server_certificates`
      and `generate_client_certificates` read; its subject is the entry's
      name and its prefix the entry's OutputPrefix text. */
  lemma IssuedLeafParts(role: Role, entry: Element, ca: Issued, env: Env, id: nat)
    requires IssueLeaf(role, entry, ca, env, id).Ok?
    ensures ChildText(entry, "CommonName").Ok? && ChildText(entry, "OutputPrefix").Ok?
    ensures BuildSubjectName(entry).Ok? && BuildSan(Find(entry, "SubjectAltNames")).Ok?
    ensures var x := IssueLeaf(role, entry, ca, env, id).value;
      x.cert.subject == BuildSubjectName(entry).value && x.prefix == ChildText(entry, "OutputPrefix").value
  {
    assert ChildText(entry, "CommonName").Ok?;
    assert IntChild(entry, "KeySize").Ok?;
    assert IntChild(entry, "ValidityDays").Ok?;
    assert ChildText(entry, "OutputPrefix").Ok?;
    assert NewKey(IntChild(entry, "KeySize").value, env, id).Ok?;
    assert BuildSubjectName(entry).Ok?;
  }

  /** An entry whose subject name or SubjectAltNames cannot be built is
      not issued. */
  lemma IssueLeafNeedsSan(role: Role, entry: Element, ca: Issued, env: Env, id: nat)
    requires Unbuildable(entry)
    ensures IssueLeaf(role, entry, ca, env, id).Err?
  {
    if IssueLeaf(role, entry, ca, env, id).Ok? {
      IssuedLeafParts(role, entry, ca, env, id);
      assert false;
    }
  }

  /** The leaf step on such an entry stops the run. */
  lemma LeafStepFails(role: Role, entry: Element, ca: Issued, env: Env, d: Dirs, p: Progress)
    requires Unbuildable(entry)
    ensures LeafStep(role, entry, ca, env, d, p).fault.Some?
  {
    IssueLeafNeedsSan(role, entry, ca, env, p.nextId);
    LeafStepOutcome(role, entry, ca, env, d, p);
  }

  /** A SubjectAltNames IP entry that is not a dotted IPv4 literal, on any
      server or client entry, makes the modelled `run` answer False and the
      process exit with status 1. The tool also accepts IPv6 literals there,
      which this model does not: for those the lemma speaks of the model
      only. */
  lemma BadSanIpFailsRun(document: Option<Element>, env: Env, log: seq<Effect>, id: nat, role: Role, k: nat)
    requires OutputDirOf(document).Some?
    requires k < |LeafEntries(document.value, role)|
    requires var e := LeafEntries(document.value, role)[k];
      var san := Find(e, "SubjectAltNames");
      san.Some? && exists i :: 0 <= i < |FindAll(san.value, "IP")| && !IpParses(FindAll(san.value, "IP")[i])
    ensures !RunSpec(document, env, log, id).0 && ExitCode(RunSpec(document, env, log, id).0) == 1
  {
    SanBadIpFails(Find(LeafEntries(document.value, role)[k], "SubjectAltNames").value);
    UnbuildableFailsRun(document, env, log, id, role, k);
  }

  /** A SubjectAltNames DNS entry with a non-ASCII character, on any server
      or client entry, makes `run` answer False and the process exit with
      status 1: `x509.DNSName` raises. */
  lemma NonAsciiDnsFailsRun(document: Option<Element>, env: Env, log: seq<Effect>, id: nat, role: Role, k: nat)
    requires OutputDirOf(document).Some?
    requires k < |LeafEntries(document.value, role)|
    requires var e := LeafEntries(document.value, role)[k];
      var san := Find(e, "SubjectAltNames");
      san.Some? && exists i :: 0 <= i < |FindAll(san.value, "DNS")| && !DnsAccepted(FindAll(san.value, "DNS")[i])
    ensures !RunSpec(document, env, log, id).0 && ExitCode(RunSpec(document, env, log, id).0) == 1
  {
    SanNonAsciiDnsFails(Find(LeafEntries(document.value, role)[k], "SubjectAltNames").value);
    UnbuildableFailsRun(document, env, log, id, role, k);
  }

  /** A Country that is not a two-byte code, on the CA or on any server or
      client entry, makes `run` answer False and the process exit with
      status 1: `x509.NameAttribute` raises. */
  lemma BadCountryFailsRun(document: Option<Element>, env: Env, log: seq<Effect>, id: nat, entry: Element)
    requires OutputDirOf(document).Some?
    requires Find(document.value, "CA") == Some(entry)
      || exists role: Role :: entry in LeafEntries(document.value, role)
    requires Find(entry, "Country").Some? && Find(entry, "Country").value.text.Some?
    requires !AttributeAccepts(CountryName, Find(entry, "Country").value.text.value)
    ensures !RunSpec(document, env, log, id).0 && ExitCode(RunSpec(document, env, log, id).0) == 1
  {
    CountryCodeRefused(entry);
    if Find(document.value, "CA") == Some(entry) {
      assert IssueRoot(document.value, env, id).Err?;
      RootFailureStopsRun(document, env, log, id);
    } else {
      var role: Role :| entry in LeafEntries(document.value, role);
      var k :| 0 <= k < |LeafEntries(document.value, role)| && LeafEntries(document.value, role)[k] == entry;
      UnbuildableFailsRun(document, env, log, id, role, k);
    }
  }

  /** A server or client entry whose subject name or SubjectAltNames the
      builders refuse makes `run` answer False with exit status 1. */
  lemma UnbuildableFailsRun(document: Option<Element>, env: Env, log: seq<Effect>, id: nat, role: Role, k: nat)
    requires OutputDirOf(document).Some?
    requires k < |LeafEntries(document.value, role)| && Unbuildable(LeafEntries(document.value, role)[k])
    ensures !RunSpec(document, env, log, id).0 && ExitCode(RunSpec(document, env, log, id).0) == 1
  {
    var root := document.value;
    var d := DirsOf(OutputDirOf(document).value);
    var entries := LeafEntries(root, role);
    var p := Progress(log + MakeDirs(d), id, None);
    var p1 := RootStage(root, env, d, p);
    var ca := IssueRoot(root, env, id);
    if ca.Err? {
      RootFailureStopsRun(document, env, log, id);
    } else {
      var p2 := LeafSteps(Server, LeafEntries(root, Server), ca.value, env, d, p1);
      var p3 := LeafSteps(Client, LeafEntries(root, Client), ca.value, env, d, p2);
      if role.Server? {
        LeafStepsStop(Server, entries, k, ca.value, env, d, p1);
      } else {
        LeafStepsStop(Client, entries, k, ca.value, env, d, p2);
      }
      assert p3.fault.Some?;
      StagesAfterFault(root, env, d, p3);
      assert UpToMagic(root, env, d, p) == p3;
    }
  }

  /** In a run that answers True the server peer file is the last thing
      written, after every client business-parameter file. */
  lemma ServerFileWrittenLast(document: Option<Element>, env: Env, log: seq<Effect>, id: nat)
    requires RunSpec(document, env, log, id).0
    ensures var p := RunSpec(document, env, log, id).1;
      var d := DirsOf(OutputDirOf(document).value);
      var before := UpToMagic(document.value, env, d, Progress(log + MakeDirs(d), id, None));
      && before.fault.None?
      && p.log == before.log + [Write(ServerFdPath(d), ServerPeerFile(ServerFdConf(document.value, d.output, env.rootDir).value))]
  {
  }

  // ------------------------------------------------------------ the class

  class Generator {
    const document: Option<Element>
    const env: Env
    var dirs: Dirs
    var ca: Option<Issued>
    var nextId: nat
    var log: seq<Effect>

    constructor (document: Option<Element>, env: Env)
      ensures this.document == document && this.env == env
      ensures ca.None? && nextId == 0 && log == []
    {
      this.document := document;
      this.env := env;
      dirs := Dirs("", "", "", "");
      ca := None;
      nextId := 0;
      log := [];
    }

    /** `load_config`. */
    method LoadConfig() returns (ok: bool)
      modifies this`dirs, this`log
      ensures ok <==> OutputDirOf(document).Some?
      ensures ok ==> dirs == DirsOf(OutputDirOf(document).value) && log == old(log) + MakeDirs(dirs)
      ensures !ok ==> log == old(log) && dirs == old(dirs)
    {
      var out := OutputDirOf(document);
      if out.None? {
        return false;
      }
      dirs := DirsOf(out.value);
      log := log + MakeDirs(dirs);
      return true;
    }

    /** `save_private_key`: the key file, then its mode. */
    method SavePrivateKey(key: KeyPair, filename: string)
      modifies this`log
      ensures log == old(log) + KeySaved(dirs.output, filename, key)
    {
      var path := Join(dirs.output, filename);
      log := log + [Write(path, KeyFile(key))];
      log := log + [Chmod(path, PrivateMode)];
    }

    /** `save_certificate`: the certificate file, then its mode. */
    method SaveCertificate(cert: Certificate, filename: string)
      modifies this`log
      ensures log == old(log) + CertSaved(dirs.output, filename, cert)
    {
      var path := Join(dirs.output, filename);
      log := log + [Write(path, CertFile(cert))];
      log := log + [Chmod(path, PublicMode)];
    }

    /** `generate_ca_certificate`. */
    method GenerateCaCertificate() returns (fault: Option<Fault>)
      requires document.Some?
      modifies this`ca, this`nextId, this`log
      ensures Progress(log, nextId, fault) == RootStage(document.value, env, dirs, Progress(old(log), old(nextId), None))
      ensures fault.None? ==> ca == Some(IssueRoot(document.value, env, old(nextId)).value)
      ensures fault.Some? ==> ca == old(ca)
    {
      var issued := IssueRoot(document.value, env, nextId);
      RootStageOutcome(document.value, env, dirs, Progress(log, nextId, None));
      if issued.Err? {
        return Some(issued.error);
      }
      var x := issued.value;
      ghost var before := log;
      ca := Some(x);
      nextId := nextId + 1;
      SavePrivateKey(x.key, Show(x.prefix) + ".key");
      SaveCertificate(x.cert, Show(x.prefix) + ".crt");
      Regroup(before, KeySaved(dirs.output, Show(x.prefix) + ".key", x.key), CertSaved(dirs.output, Show(x.prefix) + ".crt", x.cert));
      return None;
    }

    /** One iteration of the leaf loops: issue, then save key and certificate. */
    method IssueAndSave(role: Role, entry: Element) returns (fault: Option<Fault>)
      requires ca.Some?
      modifies this`nextId, this`log
      ensures Progress(log, nextId, fault) == LeafStep(role, entry, ca.value, env, dirs, Progress(old(log), old(nextId), None))
    {
      var issued := IssueLeaf(role, entry, ca.value, env, nextId);
      LeafStepOutcome(role, entry, ca.value, env, dirs, Progress(log, nextId, None));
      if issued.Err? {
        return Some(issued.error);
      }
      var x := issued.value;
      ghost var before := log;
      nextId := nextId + 1;
      SavePrivateKey(x.key, Show(x.prefix) + ".key");
      SaveCertificate(x.cert, Show(x.prefix) + ".crt");
      Regroup(before, KeySaved(dirs.output, Show(x.prefix) + ".key", x.key), CertSaved(dirs.output, Show(x.prefix) + ".crt", x.cert));
      return None;
    }

    /** `generate_server_certificates` and `generate_client_certificates`. */
    method GenerateLeafCertificates(role: Role) returns (fault: Option<Fault>)
      requires document.Some? && ca.Some?
      modifies this`nextId, this`log
      ensures Progress(log, nextId, fault) ==
        LeafSteps(role, LeafEntries(document.value, role), ca.value, env, dirs, Progress(old(log), old(nextId), None))
    {
      var entries := LeafEntries(document.value, role);
      var rest := entries;
      while |rest| > 0
        invariant LeafSteps(role, rest, ca.value, env, dirs, Progress(log, nextId, None))
               == LeafSteps(role, entries, ca.value, env, dirs, Progress(old(log), old(nextId), None))
      {
        fault := IssueAndSave(role, rest[0]);
        if fault.Some? {
          FaultStops(role, rest[1..], ca.value, env, dirs, Progress(log, nextId, fault));
          return;
        }
        rest := rest[1..];
      }
      return None;
    }

    /** `update_acl_whitelist`. */
    method UpdateAclWhitelist() returns (fault: Option<Fault>)
      requires document.Some?
      modifies this`log
      ensures Progress(log, nextId, fault) == AclStage(document.value, env, Progress(old(log), nextId, None))
    {
      if env.aclText.None? {
        return None;
      }
      var content := env.aclText.value;
      var clients := ClientList(document.value);
      var added: seq<string> := [];
      var i := 0;
      while i < |clients|
        invariant 0 <= i <= |clients|
        invariant AclScan(content, clients[i..], added) == AclScan(content, clients, [])
      {
        assert clients[i..][0] == clients[i] && clients[i..][1..] == clients[i + 1..];
        var id := ChildString(clients[i], "CommonName");
        if id.Err? {
          return Some(id.error);
        }
        if !IsSubstring(id.value, content) {
          added := added + [id.value];
        } else {
          assert added + [] == added;
        }
        i := i + 1;
      }
      if |added| > 0 {
        log := log + [Append(AclPath(env), AclAppendix(content, added))];
      }
      return None;
    }

    /** `update_client_profile`. */
    method UpdateClientProfile()
      requires document.Some?
      modifies this`log
      ensures Progress(log, nextId, None) == ProfileStage(document.value, env, dirs, Progress(old(log), nextId, None))
    {
      var clients := ClientList(document.value);
      var rest := clients;
      var profiles: seq<Profile> := [];
      while |rest| > 0
        invariant ProfileScan(Records(rest), profiles) == ProfileScan(Records(clients), [])
        invariant log == old(log)
      {
        ProfileScanStep(rest, profiles);
        var prof := ProfileOf(rest[0]);
        if prof.Err? {
          ProfileStageSkips(document.value, env, dirs, Progress(log, nextId, None));
          return;
        }
        profiles := profiles + [prof.value];
        rest := rest[1..];
      }
      ProfileStageOk(document.value, env, dirs, Progress(log, nextId, None), profiles);
      log := log + [Write(Join(dirs.serverProfile, "Client_Profile.xml"), ProfilesFile(ProfilesDocument(profiles)))]
        + TemplateCopies(env, dirs.serverProfile, Templates);
    }

    /** `generate_client_fd_configs`. */
    method GenerateClientFdConfigs() returns (fault: Option<Fault>)
      requires document.Some?
      modifies this`log
      ensures Progress(log, nextId, fault) == ClientFdStage(document.value, env, dirs, Progress(old(log), nextId, None))
    {
      if !TruthyOpt(Find(document.value, "Clients")) {
        return None;
      }
      var peer := FdServerPeer(document.value);
      if peer.Err? {
        return Some(peer.error);
      }
      var clients := ClientList(document.value);
      var rest := clients;
      while |rest| > 0
        invariant ClientFdSteps(rest, peer.value, env, dirs, Progress(log, nextId, None))
               == ClientFdSteps(clients, peer.value, env, dirs, Progress(old(log), nextId, None))
      {
        var file := ClientFdConf(rest[0], peer.value, dirs.output, env.rootDir);
        if file.Err? {
          FdFaultStops(rest[1..], peer.value, env, dirs, Progress(log, nextId, Some(file.error)));
          return Some(file.error);
        }
        log := log + [Write(Join(dirs.clientFd, file.value.name), ClientPeerFile(file.value.conf))];
        rest := rest[1..];
      }
      return None;
    }

    method GenerateClientMagicConfigs() returns (fault: Option<Fault>)
      requires document.Some?
      modifies this`log
      ensures Progress(log, nextId, fault) == MagicStage(document.value, dirs, Progress(old(log), nextId, None))
    {
      var group := Find(document.value, "Clients");
      if group.None? {
        return None;
      }
      var realm := ServerRealm(document.value);
      if realm.Err? {
        return Some(realm.error);
      }
      var clients := FindAll(group.value, "Client");
      var rest := clients;
      while |rest| > 0
        invariant MagicSteps(rest, realm.value, dirs, Progress(log, nextId, None))
               == MagicSteps(clients, realm.value, dirs, Progress(old(log), nextId, None))
      {
        var file := MagicConf(rest[0], realm.value);
        if file.Err? {
          MagicFaultStops(rest[1..], realm.value, dirs, Progress(log, nextId, Some(file.error)));
          return Some(file.error);
        }
        var path := Join(dirs.clientMagic, file.value.name);
        log := log + [Write(path, ParamsFile(file.value.params)), Chmod(path, PrivateMode)];
        rest := rest[1..];
      }
      return None;
    }

    method GenerateServerFdConfig() returns (fault: Option<Fault>)
      requires document.Some?
      modifies this`log
      ensures Progress(log, nextId, fault) == ServerFdStage(document.value, env, dirs, Progress(old(log), nextId, None))
    {
      var conf := ServerFdConf(document.value, dirs.output, env.rootDir);
      if conf.Err? {
        return Some(conf.error);
      }
      log := log + [Write(ServerFdPath(dirs), ServerPeerFile(conf.value))];
      return None;
    }

    /** `run`. */
    method Run() returns (ok: bool)
      modifies this
      ensures var (spec, p) := RunSpec(document, env, old(log), old(nextId));
        ok == spec && log == p.log && nextId == p.nextId
    {
      ok := LoadConfig();
      if !ok {
        return;
      }
      var root := document.value;
      var p0 := Progress(log, nextId, None);
      var f := GenerateCaCertificate();
      if f.Some? { return false; }
      assert ca == Some(IssueRoot(root, env, p0.nextId).value);
      f := GenerateLeafCertificates(Server);
      if f.Some? { return false; }
      f := GenerateLeafCertificates(Client);
      if f.Some? { return false; }
      f := UpdateAclWhitelist();
      if f.Some? { return false; }
      UpdateClientProfile();
      f := GenerateClientFdConfigs();
      if f.Some? { return false; }
      f := GenerateClientMagicConfigs();
      if f.Some? { return false; }
      f := GenerateServerFdConfig();
      return f.None?;
    }
  }
}
