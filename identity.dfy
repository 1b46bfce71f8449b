/** The identity a provisioning run gives each client, followed through
    the artifacts it writes: the certificate's CommonName, the access-list
    entry, the business profile's ClientID and the peer file's Identity are
    one and the same string, the `CommonName` text of the client's
    configuration entry. */
module ClientIdentity {
  import opened Wrappers
  import opened Text
  import opened XmlTree
  import opened Certificates
  import opened CertArtifacts
  import opened CertGenerator

  /** `a` is an initial part of `b`: what a stage logged stays logged. */
  predicate Before(a: seq<Effect>, b: seq<Effect>) {
    |a| <= |b| && b[..|a|] == a
  }

  lemma StaysLogged(e: Effect, a: seq<Effect>, b: seq<Effect>)
    requires e in a && Before(a, b)
    ensures e in b
  {
    var i :| 0 <= i < |a| && a[i] == e;
    assert b[i] == b[..|a|][i];
  }

  lemma BeforeTrans(a: seq<Effect>, b: seq<Effect>, c: seq<Effect>)
    requires Before(a, b) && Before(b, c)
    ensures Before(a, c)
  {
    assert c[..|a|] == c[..|b|][..|a|];
  }

  lemma BeforeAppend(a: seq<Effect>, b: seq<Effect>)
    ensures Before(a, a + b)
  {
    assert (a + b)[..|a|] == a;
  }

  // ------------------------------------------------- stages only append

  /** The leaf loop only appends, and ends without a fault only when it
      started without one. */
  lemma {:induction false} LeafStepsAppend(role: Role, entries: seq<Element>, ca: Issued, env: Env, d: Dirs, p: Progress)
    ensures Before(p.log, LeafSteps(role, entries, ca, env, d, p).log)
    ensures LeafSteps(role, entries, ca, env, d, p).fault.None? ==> p.fault.None?
    decreases |entries|
  {
    if |entries| == 0 || p.fault.Some? {
      BeforeAppend(p.log, []);
      assert p.log + [] == p.log;
    } else {
      var q := LeafStep(role, entries[0], ca, env, d, p);
      match IssueLeaf(role, entries[0], ca, env, p.nextId)
      case Err(_) => BeforeAppend(p.log, []); assert p.log + [] == q.log;
      case Ok(x) => BeforeAppend(p.log, Saved(d.output, x));
      LeafStepsAppend(role, entries[1..], ca, env, d, q);
      BeforeTrans(p.log, q.log, LeafSteps(role, entries, ca, env, d, p).log);
    }
  }

  /** The client peer-file loop only appends, and ends without a fault
      only when it started without one. */
  lemma {:induction false} ClientFdStepsAppend(clients: seq<Element>, peer: ServerPeer, env: Env, d: Dirs, p: Progress)
    ensures Before(p.log, ClientFdSteps(clients, peer, env, d, p).log)
    ensures ClientFdSteps(clients, peer, env, d, p).fault.None? ==> p.fault.None?
    decreases |clients|
  {
    if |clients| == 0 || p.fault.Some? {
      BeforeAppend(p.log, []);
      assert p.log + [] == p.log;
    } else {
      var q := ClientFdStep(clients[0], peer, env, d, p);
      match ClientFdConf(clients[0], peer, d.output, env.rootDir)
      case Err(_) => BeforeAppend(p.log, []); assert p.log + [] == q.log;
      case Ok(f) => BeforeAppend(p.log, [Write(Join(d.clientFd, f.name), ClientPeerFile(f.conf))]);
      ClientFdStepsAppend(clients[1..], peer, env, d, q);
      BeforeTrans(p.log, q.log, ClientFdSteps(clients, peer, env, d, p).log);
    }
  }

  /** The business-parameter loop only appends, and ends without a fault
      only when it started without one. */
  lemma {:induction false} MagicStepsAppend(clients: seq<Element>, realm: string, d: Dirs, p: Progress)
    ensures Before(p.log, MagicSteps(clients, realm, d, p).log)
    ensures MagicSteps(clients, realm, d, p).fault.None? ==> p.fault.None?
    decreases |clients|
  {
    if |clients| == 0 || p.fault.Some? {
      BeforeAppend(p.log, []);
      assert p.log + [] == p.log;
    } else {
      var q := MagicStep(clients[0], realm, d, p);
      match MagicConf(clients[0], realm)
      case Err(_) => BeforeAppend(p.log, []); assert p.log + [] == q.log;
      case Ok(file) =>
        var path := Join(d.clientMagic, file.name);
        BeforeAppend(p.log, [Write(path, ParamsFile(file.params)), Chmod(path, PrivateMode)]);
      MagicStepsAppend(clients[1..], realm, d, q);
      BeforeTrans(p.log, q.log, MagicSteps(clients, realm, d, p).log);
    }
  }

  /** The access-list stage only appends, and ends without a fault only
      when it started without one. */
  lemma AclStageAppends(root: Element, env: Env, p: Progress)
    ensures Before(p.log, AclStage(root, env, p).log) && (AclStage(root, env, p).fault.None? ==> p.fault.None?)
  {
    var a := AclStage(root, env, p).log;
    BeforeAppend(p.log, a[|p.log|..]);
    assert |p.log| <= |a| && a == p.log + a[|p.log|..];
  }

  /** The server-profile stage only appends, and ends without a fault only
      when it started without one. */
  lemma ProfileStageAppends(root: Element, env: Env, d: Dirs, p: Progress)
    ensures Before(p.log, ProfileStage(root, env, d, p).log) && (ProfileStage(root, env, d, p).fault.None? ==> p.fault.None?)
  {
    var b := ProfileStage(root, env, d, p).log;
    BeforeAppend(p.log, b[|p.log|..]);
    assert |p.log| <= |b| && b == p.log + b[|p.log|..];
  }

  /** The server peer-file stage only appends, and ends without a fault
      only when it started without one. */
  lemma ServerFdStageAppends(root: Element, env: Env, d: Dirs, p: Progress)
    ensures Before(p.log, ServerFdStage(root, env, d, p).log) && (ServerFdStage(root, env, d, p).fault.None? ==> p.fault.None?)
  {
    var c := ServerFdStage(root, env, d, p).log;
    BeforeAppend(p.log, c[|p.log|..]);
    assert |p.log| <= |c| && c == p.log + c[|p.log|..];
  }

  /** The client peer-file and business-parameter stages only append, and
      end without a fault only when they started without one. */
  lemma ClientStagesAppend(root: Element, env: Env, d: Dirs, p: Progress)
    ensures Before(p.log, ClientFdStage(root, env, d, p).log) && (ClientFdStage(root, env, d, p).fault.None? ==> p.fault.None?)
    ensures Before(p.log, MagicStage(root, d, p).log) && (MagicStage(root, d, p).fault.None? ==> p.fault.None?)
  {
    BeforeAppend(p.log, []);
    assert p.log + [] == p.log;
    if p.fault.None? && TruthyOpt(Find(root, "Clients")) && FdServerPeer(root).Ok? {
      ClientFdStepsAppend(ClientList(root), FdServerPeer(root).value, env, d, p);
    }
    if p.fault.None? && Find(root, "Clients").Some? && ServerRealm(root).Ok? {
      MagicStepsAppend(FindAll(Find(root, "Clients").value, "Client"), ServerRealm(root).value, d, p);
    }
  }

  // ------------------------------------------------ what the loops wrote

  /** One leaf step ends without a fault exactly when the entry is
      issued, and then it consumes one identifier and logs the
      certificate under `<prefix>.crt`. */
  lemma LeafStepLogsCert(role: Role, entry: Element, ca: Issued, env: Env, d: Dirs, p: Progress)
    ensures var q := LeafStep(role, entry, ca, env, d, p);
      q.fault.None? <==> IssueLeaf(role, entry, ca, env, p.nextId).Ok?
    ensures var q := LeafStep(role, entry, ca, env, d, p);
      IssueLeaf(role, entry, ca, env, p.nextId).Ok? ==>
        var x := IssueLeaf(role, entry, ca, env, p.nextId).value;
        && q.nextId == p.nextId + 1
        && Write(Join(d.output, Show(x.prefix) + ".crt"), CertFile(x.cert)) in q.log
  {
    LeafStepOutcome(role, entry, ca, env, d, p);
    var r := IssueLeaf(role, entry, ca, env, p.nextId);
    if r.Ok? {
      var x := r.value;
      var q := LeafStep(role, entry, ca, env, d, p);
      assert q.log[|p.log| + 2] == Write(Join(d.output, Show(x.prefix) + ".crt"), CertFile(x.cert));
    }
  }

  /** A leaf loop that ends without a fault issued every entry, the k-th
      with the k-th identifier after the first, and logged its
      certificate. */
  lemma {:induction false} LeafStepsIssue(role: Role, entries: seq<Element>, ca: Issued, env: Env, d: Dirs, p: Progress, k: nat, nid: nat)
    requires k < |entries| && LeafSteps(role, entries, ca, env, d, p).fault.None? && nid == p.nextId + k
    ensures IssueLeaf(role, entries[k], ca, env, nid).Ok?
    ensures var x := IssueLeaf(role, entries[k], ca, env, nid).value;
      Write(Join(d.output, Show(x.prefix) + ".crt"), CertFile(x.cert)) in LeafSteps(role, entries, ca, env, d, p).log
    decreases |entries|
  {
    LeafStepsAppend(role, entries, ca, env, d, p);
    var q := LeafStep(role, entries[0], ca, env, d, p);
    var last := LeafSteps(role, entries, ca, env, d, p);
    assert last == LeafSteps(role, entries[1..], ca, env, d, q);
    LeafStepsAppend(role, entries[1..], ca, env, d, q);
    LeafStepLogsCert(role, entries[0], ca, env, d, p);
    if k == 0 {
      assert entries[k] == entries[0] && nid == p.nextId;
      var x := IssueLeaf(role, entries[0], ca, env, p.nextId).value;
      StaysLogged(Write(Join(d.output, Show(x.prefix) + ".crt"), CertFile(x.cert)), q.log, last.log);
    } else {
      assert entries[1..][k - 1] == entries[k];
      LeafStepsIssue(role, entries[1..], ca, env, d, q, k - 1, nid);
    }
  }

  /** A client peer-file loop that ends without a fault built and logged
      every client's file. */
  lemma {:induction false} ClientFdStepsWrite(clients: seq<Element>, peer: ServerPeer, env: Env, d: Dirs, p: Progress, k: nat)
    requires k < |clients| && ClientFdSteps(clients, peer, env, d, p).fault.None?
    ensures ClientFdConf(clients[k], peer, d.output, env.rootDir).Ok?
    ensures var f := ClientFdConf(clients[k], peer, d.output, env.rootDir).value;
      Write(Join(d.clientFd, f.name), ClientPeerFile(f.conf)) in ClientFdSteps(clients, peer, env, d, p).log
    decreases |clients|
  {
    ClientFdStepsAppend(clients, peer, env, d, p);
    var q := ClientFdStep(clients[0], peer, env, d, p);
    var last := ClientFdSteps(clients, peer, env, d, p);
    assert last == ClientFdSteps(clients[1..], peer, env, d, q);
    ClientFdStepsAppend(clients[1..], peer, env, d, q);
    if k == 0 {
      var f := ClientFdConf(clients[0], peer, d.output, env.rootDir).value;
      assert q.log[|p.log|] == Write(Join(d.clientFd, f.name), ClientPeerFile(f.conf));
      StaysLogged(Write(Join(d.clientFd, f.name), ClientPeerFile(f.conf)), q.log, last.log);
    } else {
      assert clients[1..][k - 1] == clients[k];
      ClientFdStepsWrite(clients[1..], peer, env, d, q, k - 1);
    }
  }

  /** A name built from an entry with a CommonName element holds that
      element's text as its CommonName attribute. */
  lemma SubjectHasCommonName(entry: Element)
    requires BuildSubjectName(entry).Ok? && Find(entry, "CommonName").Some?
    ensures ChildString(entry, "CommonName").Ok?
    ensures NameAttribute(CommonName, ChildString(entry, "CommonName").value) in BuildSubjectName(entry).value
  {
    var subject := BuildSubjectName(entry).value;
    SubjectNameShape(entry);
    assert Present(entry, CommonName);
    var i :| 0 <= i < |subject| && subject[i].attr == CommonName;
    assert subject[i] == NameAttribute(CommonName, ChildString(entry, "CommonName").value);
  }

  /** An issued leaf carries its entry's CommonName text as the subject's
      CommonName attribute. */
  lemma IssuedLeafNamed(role: Role, entry: Element, ca: Issued, env: Env, nid: nat)
    requires IssueLeaf(role, entry, ca, env, nid).Ok?
    ensures ChildString(entry, "CommonName").Ok?
    ensures NameAttribute(CommonName, ChildString(entry, "CommonName").value) in IssueLeaf(role, entry, ca, env, nid).value.cert.subject
  {
    IssuedLeafParts(role, entry, ca, env, nid);
    SubjectHasCommonName(entry);
  }

  // ------------------------------------------------------ the invariant

  /** The progress of a run after each of its stages. */
  datatype Trace = Trace(p: Progress, p1: Progress, ca: Result<Issued, Fault>, p2: Progress, p3: Progress,
                         p4: Progress, p5: Progress, p6: Progress, p7: Progress, q: Progress)

  function TraceOf(root: Element, env: Env, d: Dirs, log: seq<Effect>, id: nat): (t: Trace)
    ensures t.q == ServerFdStage(root, env, d, UpToMagic(root, env, d, Progress(log + MakeDirs(d), id, None)))
  {
    var p := Progress(log + MakeDirs(d), id, None);
    var p1 := RootStage(root, env, d, p);
    var ca := IssueRoot(root, env, p.nextId);
    var p2 := if ca.Ok? then LeafSteps(Server, LeafEntries(root, Server), ca.value, env, d, p1) else p1;
    var p3 := if ca.Ok? then LeafSteps(Client, LeafEntries(root, Client), ca.value, env, d, p2) else p2;
    var p4 := AclStage(root, env, p3);
    var p5 := ProfileStage(root, env, d, p4);
    var p6 := ClientFdStage(root, env, d, p5);
    var p7 := MagicStage(root, d, p6);
    Trace(p, p1, ca, p2, p3, p4, p5, p6, p7, ServerFdStage(root, env, d, p7))
  }

  /** In a run that ends without a fault every stage did, the root was
      issued, and the log after the client certificates stays in the final
      log. */
  lemma TraceClean(root: Element, env: Env, d: Dirs, log: seq<Effect>, id: nat)
    requires TraceOf(root, env, d, log, id).q.fault.None?
    ensures var t := TraceOf(root, env, d, log, id);
      && t.ca.Ok? && t.p2.fault.None? && t.p3.fault.None? && t.p4.fault.None?
      && t.p5.fault.None? && t.p6.fault.None?
      && Before(t.p3.log, t.p4.log) && Before(t.p4.log, t.q.log) && Before(t.p6.log, t.q.log)
  {
    var t := TraceOf(root, env, d, log, id);
    ServerFdStageAppends(root, env, d, t.p7);
    ClientStagesAppend(root, env, d, t.p6);
    ClientStagesAppend(root, env, d, t.p5);
    ProfileStageAppends(root, env, d, t.p4);
    AclStageAppends(root, env, t.p3);
    BeforeTrans(t.p6.log, t.p7.log, t.q.log);
    BeforeTrans(t.p5.log, t.p6.log, t.q.log);
    BeforeTrans(t.p4.log, t.p5.log, t.q.log);
    if t.ca.Ok? {
      LeafStepsAppend(Client, LeafEntries(root, Client), t.ca.value, env, d, t.p2);
    }
  }

  /** A client certificate loop under the run's root that ends without a
      fault logged, for the k-th client, a certificate under `<prefix>.crt`
      that names the client's CommonName and chains to that root for client
      authentication. */
  lemma ClientCertificateLogged(root: Element, env: Env, d: Dirs, id: nat, p: Progress, k: nat)
    requires IssueRoot(root, env, id).Ok? && k < |ClientList(root)|
    requires LeafSteps(Client, ClientList(root), IssueRoot(root, env, id).value, env, d, p).fault.None?
    ensures ChildString(ClientList(root)[k], "CommonName").Ok? && ChildText(ClientList(root)[k], "OutputPrefix").Ok?
    ensures var c := ClientList(root)[k];
      exists cert ::
        && Write(Join(d.output, Show(ChildText(c, "OutputPrefix").value) + ".crt"), CertFile(cert))
             in LeafSteps(Client, ClientList(root), IssueRoot(root, env, id).value, env, d, p).log
        && NameAttribute(CommonName, ChildString(c, "CommonName").value) in cert.subject
        && ChainsFor(cert, IssueRoot(root, env, id).value.cert, ClientAuth)
  {
    var ca := IssueRoot(root, env, id).value;
    var cs := ClientList(root);
    var nid := p.nextId + k;
    LeafStepsIssue(Client, cs, ca, env, d, p, k, nid);
    IssuedLeafParts(Client, cs[k], ca, env, nid);
    IssuedLeafNamed(Client, cs[k], ca, env, nid);
    IssuedRootIsTrustAnchor(root, env, id);
    IssuedLeafChains(Client, cs[k], ca, env, nid);
  }

  /** The k-th client of a successful run: its certificate was logged under
      `<prefix>.crt`, names the client's CommonName, and chains to the
      run's root for client authentication. */
  lemma RunClientCertificate(root: Element, env: Env, d: Dirs, log: seq<Effect>, id: nat, k: nat)
    requires TraceOf(root, env, d, log, id).q.fault.None? && k < |ClientList(root)|
    ensures IssueRoot(root, env, id).Ok? && ChildString(ClientList(root)[k], "CommonName").Ok?
    ensures ChildText(ClientList(root)[k], "OutputPrefix").Ok?
    ensures var c := ClientList(root)[k];
      exists cert ::
        && Write(Join(d.output, Show(ChildText(c, "OutputPrefix").value) + ".crt"), CertFile(cert)) in TraceOf(root, env, d, log, id).q.log
        && NameAttribute(CommonName, ChildString(c, "CommonName").value) in cert.subject
        && ChainsFor(cert, IssueRoot(root, env, id).value.cert, ClientAuth)
  {
    var t := TraceOf(root, env, d, log, id);
    TraceClean(root, env, d, log, id);
    assert t.ca == IssueRoot(root, env, id);
    var c := ClientList(root)[k];
    assert LeafEntries(root, Client) == ClientList(root);
    assert t.p3 == LeafSteps(Client, ClientList(root), IssueRoot(root, env, id).value, env, d, t.p2);
    ClientCertificateLogged(root, env, d, id, t.p2, k);
    var path := Join(d.output, Show(ChildText(c, "OutputPrefix").value) + ".crt");
    var cert :| && Write(path, CertFile(cert)) in t.p3.log
                && NameAttribute(CommonName, ChildString(c, "CommonName").value) in cert.subject
                && ChainsFor(cert, IssueRoot(root, env, id).value.cert, ClientAuth);
    BeforeTrans(t.p3.log, t.p4.log, t.q.log);
    StaysLogged(Write(path, CertFile(cert)), t.p3.log, t.q.log);
  }

  /** A client peer-file stage that runs and ends without a fault found the
      server peer and walked the client list. */
  lemma ClientFdStageRuns(root: Element, env: Env, d: Dirs, p: Progress)
    requires p.fault.None? && TruthyOpt(Find(root, "Clients")) && ClientFdStage(root, env, d, p).fault.None?
    ensures FdServerPeer(root).Ok?
    ensures ClientFdStage(root, env, d, p) == ClientFdSteps(ClientList(root), FdServerPeer(root).value, env, d, p)
  {
  }

  /** A client peer-file stage that ends without a fault on a non-empty
      client list wrote the k-th client's file, whose Identity is the
      client's CommonName text and whose certificate is its own. */
  lemma ClientFdWritten(root: Element, env: Env, d: Dirs, p: Progress, k: nat)
    requires ClientFdStage(root, env, d, p).fault.None? && p.fault.None? && k < |ClientList(root)|
    ensures FdServerPeer(root).Ok? && ClientFdConf(ClientList(root)[k], FdServerPeer(root).value, d.output, env.rootDir).Ok?
    ensures var c := ClientList(root)[k];
      var f := ClientFdConf(c, FdServerPeer(root).value, d.output, env.rootDir).value;
      var prefix := ChildString(c, "OutputPrefix").value;
      && ChildString(c, "OutputPrefix").Ok?
      && f.conf.identity == Show(ChildText(c, "CommonName").value)
      && f.name == "fd_" + prefix + ".conf" && f.conf.certFile == Join(d.output, prefix + ".crt")
      && Write(Join(d.clientFd, f.name), ClientPeerFile(f.conf)) in ClientFdStage(root, env, d, p).log
  {
    assert TruthyOpt(Find(root, "Clients"));
    ClientFdStageRuns(root, env, d, p);
    var peer := FdServerPeer(root).value;
    ClientFdStepsWrite(ClientList(root), peer, env, d, p, k);
    ClientFdUsesOwnCertificate(ClientList(root)[k], peer, d.output, env.rootDir);
  }

  /** The k-th client of a successful run got a peer file under
      `fd_<prefix>.conf` whose Identity is its CommonName and whose
      certificate is the one logged under `<prefix>.crt`. */
  lemma RunClientPeerFile(root: Element, env: Env, d: Dirs, log: seq<Effect>, id: nat, k: nat)
    requires TraceOf(root, env, d, log, id).q.fault.None? && k < |ClientList(root)|
    ensures ChildString(ClientList(root)[k], "CommonName").Ok? && ChildString(ClientList(root)[k], "OutputPrefix").Ok?
    ensures var c := ClientList(root)[k];
      var prefix := ChildString(c, "OutputPrefix").value;
      exists conf ::
        && Write(Join(d.clientFd, "fd_" + prefix + ".conf"), ClientPeerFile(conf)) in TraceOf(root, env, d, log, id).q.log
        && conf.identity == ChildString(c, "CommonName").value && conf.certFile == Join(d.output, prefix + ".crt")
  {
    var t := TraceOf(root, env, d, log, id);
    TraceClean(root, env, d, log, id);
    RunClientCertificate(root, env, d, log, id, k);
    var c := ClientList(root)[k];
    ClientFdWritten(root, env, d, t.p5, k);
    var f := ClientFdConf(c, FdServerPeer(root).value, d.output, env.rootDir).value;
    StaysLogged(Write(Join(d.clientFd, f.name), ClientPeerFile(f.conf)), t.p6.log, t.q.log);
  }

  /** With every CommonName readable, the access-list stage appends exactly
      what the merge adds, and the merged list names every client. */
  lemma AclAppended(root: Element, env: Env, p: Progress)
    requires p.fault.None? && env.aclText.Some? && Identities(ClientList(root)).Ok?
    ensures var content := env.aclText.value;
      var ids := Identities(ClientList(root)).value;
      var merged := AclMerged(content, ids);
      && IsPrefix(content, merged)
      && (forall x :: x in ids ==> IsSubstring(x, merged))
      && (merged == content || Append(AclPath(env), merged[|content|..]) in AclStage(root, env, p).log)
  {
    var content := env.aclText.value;
    var ids := Identities(ClientList(root)).value;
    AclScanIsUnlisted(content, ClientList(root), []);
    assert [] + Unlisted(content, ids) == Unlisted(content, ids);
    AclMergeCovers(content, ids);
    var merged := AclMerged(content, ids);
    if Unlisted(content, ids) != [] {
      assert merged[|content|..] == AclAppendix(content, Unlisted(content, ids));
      assert AclStage(root, env, p).log == p.log + [Append(AclPath(env), merged[|content|..])];
    }
  }

  /** In a successful run every client's CommonName is readable, and when
      an access list was present the merged list names every client and
      the run appended exactly what the merge adds. */
  lemma RunAcl(root: Element, env: Env, d: Dirs, log: seq<Effect>, id: nat)
    requires TraceOf(root, env, d, log, id).q.fault.None?
    ensures Identities(ClientList(root)).Ok?
    ensures env.aclText.Some? ==>
      var content := env.aclText.value;
      var ids := Identities(ClientList(root)).value;
      var merged := AclMerged(content, ids);
      && IsPrefix(content, merged)
      && (forall x :: x in ids ==> IsSubstring(x, merged))
      && (merged == content || Append(AclPath(env), merged[|content|..]) in TraceOf(root, env, d, log, id).q.log)
  {
    var t := TraceOf(root, env, d, log, id);
    TraceClean(root, env, d, log, id);
    var cs := ClientList(root);
    forall j | 0 <= j < |cs| ensures ChildString(cs[j], "CommonName").Ok? {
      RunClientCertificate(root, env, d, log, id, j);
    }
    if env.aclText.Some? {
      var content := env.aclText.value;
      var merged := AclMerged(content, Identities(cs).value);
      AclAppended(root, env, t.p3);
      if merged != content {
        StaysLogged(Append(AclPath(env), merged[|content|..]), t.p4.log, t.q.log);
      }
    }
  }

  /** A run that succeeds on a document is the trace of its stages over the
      document's output directories. */
  lemma RunIsTrace(document: Option<Element>, env: Env, log: seq<Effect>, id: nat)
    requires RunSpec(document, env, log, id).0
    ensures document.Some? && OutputDirOf(document).Some?
    ensures var d := DirsOf(OutputDirOf(document).value);
      && RunSpec(document, env, log, id).1 == TraceOf(document.value, env, d, log, id).q
      && TraceOf(document.value, env, d, log, id).q.fault.None?
  {
  }

  /** The identity a successful run gives the k-th client, in every
      artifact: its certificate names the client's CommonName and chains to
      the run's root; its peer file carries that name as its Identity and
      points at that certificate; its business profile, when it has one, is
      keyed by that name; and after the access-list merge the list contains
      it, the run having appended exactly what the merge adds. */
  lemma ClientIdentityAgrees(document: Option<Element>, env: Env, log: seq<Effect>, id: nat, k: nat)
    requires RunSpec(document, env, log, id).0
    requires document.Some? && k < |ClientList(document.value)|
    ensures var root := document.value;
      var c := ClientList(root)[k];
      var q := RunSpec(document, env, log, id).1;
      var d := DirsOf(OutputDirOf(document).value);
      && IssueRoot(root, env, id).Ok?
      && ChildString(c, "CommonName").Ok? && ChildString(c, "OutputPrefix").Ok?
      && var cn := ChildString(c, "CommonName").value;
         var prefix := ChildString(c, "OutputPrefix").value;
      && (exists cert ::
            && Write(Join(d.output, prefix + ".crt"), CertFile(cert)) in q.log
            && NameAttribute(CommonName, cn) in cert.subject
            && ChainsFor(cert, IssueRoot(root, env, id).value.cert, ClientAuth))
      && (exists conf ::
            && Write(Join(d.clientFd, "fd_" + prefix + ".conf"), ClientPeerFile(conf)) in q.log
            && conf.identity == cn && conf.certFile == Join(d.output, prefix + ".crt"))
      && (ProfileOf(c).Ok? ==> ProfileOf(c).value.clientId == cn)
      && Identities(ClientList(root)).Ok?
      && (env.aclText.Some? ==>
            var content := env.aclText.value;
            var merged := AclMerged(content, Identities(ClientList(root)).value);
            && IsSubstring(cn, merged) && IsPrefix(content, merged)
            && (merged == content || Append(AclPath(env), merged[|content|..]) in q.log))
  {
    RunIsTrace(document, env, log, id);
    var root := document.value;
    var d := DirsOf(OutputDirOf(document).value);
    var c := ClientList(root)[k];
    RunClientCertificate(root, env, d, log, id, k);
    RunClientPeerFile(root, env, d, log, id, k);
    ProfileIdentity(c);
    RunAcl(root, env, d, log, id);
    var prefix := ChildString(c, "OutputPrefix").value;
    assert Show(ChildText(c, "OutputPrefix").value) == prefix;
    assert Identities(ClientList(root)).value[k] == ChildString(c, "CommonName").value;
  }
}
