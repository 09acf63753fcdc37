/** What one successful fork update achieves: the desired objects and nothing else of theirs are there,
    a second one changes nothing, and when a selector starts to select copies. */
module ForkSettling {
  import opened Kube
  import opened Text
  import opened ResourceName
  import opened Refresh
  import opened RefreshTheorems
  import opened RefreshRetry
  import opened ForkApp
  import opened Microservice

  // ---------------------------------------------------------------- names

  function CopyKey(service: string, f: ForkResource): Key {
    Key(Kind.Service, f.namespace, Shorten(CopyName(service, f)))
  }

  function CanonicalCopyName(f: ForkResource): string -> string {
    n => Shorten(CopyName(n, f))
  }

  /** The names of the copied services stay apart when they are shortened. */
  ghost predicate DistinctServiceNames(app: App) {
    forall i, j :: 0 <= i < j < |app.services| ==>
      Shorten(CopyName(app.services[i].name, app.fork)) != Shorten(CopyName(app.services[j].name, app.fork))
  }

  /** The names of the fork's DeploymentCopies stay apart when they are shortened. */
  ghost predicate DistinctCopyNames(app: App) {
    forall i, j :: 0 <= i < j < |app.deployments| ==>
      Shorten(CopyName(app.deployments[i].name, app.fork)) != Shorten(CopyName(app.deployments[j].name, app.fork))
  }

  /** The DeploymentCopies a fork owns have names that fit a label, as all names the refresher gives do. */
  ghost predicate CopiesNamed(s: Store, f: ForkResource) {
    ShortOwnedNames(s, ForkParent(f), ObjectList([], Kind.DeploymentCopy, NameIdentity))
  }

  /** The services a fork owns are named after the service they were copied from, whatever else became of them. */
  ghost predicate ServicesNamed(s: Store, f: ForkResource) {
    forall k :: OwnedAt(s, k, ForkParent(f), ObjectList([], Kind.Service, OriginalService)) ==>
      k.name == Shorten(CopyName(OriginalService(s[k]).value, f))
  }

  // ---------------------------------------------------------------- the three lists are in order

  /** The items of the three lists have no owners yet and lie in the fork's namespace. */
  lemma ListsWritable(app: App)
    ensures ListsAreWritable(app)
  {
    var p := ForkParent(app.fork);
    forall i | 0 <= i < |app.deployments| ensures SetController(p, CopiesList(app).items[i].namespace, CopiesList(app).items[i].owners).Ok? {}
    forall i | 0 <= i < |app.services|
      ensures SetController(p, ServicesList(app).items[i].namespace, ServicesList(app).items[i].owners).Ok?
      ensures SetController(p, ConfigsList(app).items[i].namespace, ConfigsList(app).items[i].owners).Ok?
    {}
  }

  lemma CopyIdentity(app: App, i: nat)
    requires i < |app.services|
    ensures OriginalService(ServicesList(app).items[i]) == Ok(app.services[i].name)
    ensures ServicesList(app).items[i].name == CopyName(app.services[i].name, app.fork) != ""
    ensures ServicesList(app).items[i].namespace == app.fork.namespace && ServicesList(app).items[i].owners == []
  {}

  lemma ServicesCanonicalList(app: App)
    requires DistinctServiceNames(app)
    ensures CanonicalList(ForkParent(app.fork), ServicesList(app), CanonicalCopyName(app.fork))
  {
    var p, list, canon := ForkParent(app.fork), ServicesList(app), CanonicalCopyName(app.fork);
    forall i | 0 <= i < |list.items|
      ensures OriginalService(list.items[i]) == Ok(app.services[i].name) && SetController(p, list.items[i].namespace, list.items[i].owners).Ok?
      ensures KindOf(list.items[i].body) == Kind.Service
      ensures FreshName(list.items[i], app.services[i].name, p) == canon(app.services[i].name)
    {
      CopyIdentity(app, i);
    }
  }

  lemma ServicesCanonicalStore(s: Store, app: App)
    requires ServicesNamed(s, app.fork)
    ensures Canonical(s, ForkParent(app.fork), ServicesList(app), CanonicalCopyName(app.fork))
  {
    var p, list := ForkParent(app.fork), ServicesList(app);
    forall k | OwnedAt(s, k, p, list) ensures k.name == Shorten(CopyName(OriginalService(s[k]).value, app.fork)) {
      assert OwnedAt(s, k, p, ObjectList([], Kind.Service, OriginalService));
    }
  }

  lemma ServicesAreOrderly(s: Store, app: App)
    requires WellKeyed(s) && ServicesNamed(s, app.fork) && DistinctServiceNames(app)
    ensures Orderly(s, ForkParent(app.fork), ServicesList(app), CanonicalCopyName(app.fork))
  {
    ServicesCanonicalList(app);
    ServicesCanonicalStore(s, app);
    CanonicalIsOrderly(s, ForkParent(app.fork), ServicesList(app), CanonicalCopyName(app.fork));
  }

  lemma CopiesAreOrderly(s: Store, app: App)
    requires WellKeyed(s) && CopiesNamed(s, app.fork) && DistinctCopyNames(app)
    ensures NamedList(ForkParent(app.fork), CopiesList(app))
    ensures Orderly(s, ForkParent(app.fork), CopiesList(app), Shortened())
  {
    ListsWritable(app);
    var p, list := ForkParent(app.fork), CopiesList(app);
    forall i | 0 <= i < |list.items| ensures list.items[i].name == CopyName(app.deployments[i].name, app.fork) != "" {}
    forall k | OwnedAt(s, k, p, list) ensures |k.name| <= LABEL_LIMIT {
      assert OwnedAt(s, k, p, ObjectList([], Kind.DeploymentCopy, NameIdentity));
    }
    NamedIsOrderly(s, p, list);
  }

  /** The VSConfigs a fork owns are named after the service they are for. */
  ghost predicate ConfigsNamed(s: Store, f: ForkResource) {
    forall k :: OwnedAt(s, k, ForkParent(f), ObjectList([], Kind.VSConfig, ConfigHost)) ==>
      s[k].body.VSConfigBody? && k.name == Shorten(CopyName(s[k].body.config.host, f))
  }

  lemma ConfigIdentity(app: App, i: nat)
    requires i < |app.services|
    ensures ConfigHost(ConfigsList(app).items[i]) == Ok(app.services[i].name)
    ensures ConfigsList(app).items[i].name == CopyName(app.services[i].name, app.fork) != ""
    ensures ConfigsList(app).items[i].namespace == app.fork.namespace && ConfigsList(app).items[i].owners == []
  {}

  lemma ConfigsCanonicalList(app: App)
    requires DistinctServiceNames(app)
    ensures CanonicalList(ForkParent(app.fork), ConfigsList(app), CanonicalCopyName(app.fork))
  {
    var p, list, canon := ForkParent(app.fork), ConfigsList(app), CanonicalCopyName(app.fork);
    forall i | 0 <= i < |list.items|
      ensures ConfigHost(list.items[i]) == Ok(app.services[i].name) && SetController(p, list.items[i].namespace, list.items[i].owners).Ok?
      ensures KindOf(list.items[i].body) == Kind.VSConfig
      ensures FreshName(list.items[i], app.services[i].name, p) == canon(app.services[i].name)
    {
      ConfigIdentity(app, i);
    }
  }

  lemma ConfigsCanonicalStore(s: Store, app: App)
    requires ConfigsNamed(s, app.fork)
    ensures Canonical(s, ForkParent(app.fork), ConfigsList(app), CanonicalCopyName(app.fork))
  {
    var p, list, canon := ForkParent(app.fork), ConfigsList(app), CanonicalCopyName(app.fork);
    forall k | OwnedAt(s, k, p, list) ensures list.identity(s[k]).Ok? && k.name == canon(list.identity(s[k]).value) {
      assert OwnedAt(s, k, p, ObjectList([], Kind.VSConfig, ConfigHost));
    }
  }

  lemma ConfigsAreOrderly(s: Store, app: App)
    requires WellKeyed(s) && ConfigsNamed(s, app.fork) && DistinctServiceNames(app)
    ensures Orderly(s, ForkParent(app.fork), ConfigsList(app), CanonicalCopyName(app.fork))
  {
    ConfigsCanonicalList(app);
    ConfigsCanonicalStore(s, app);
    CanonicalIsOrderly(s, ForkParent(app.fork), ConfigsList(app), CanonicalCopyName(app.fork));
  }

  // ---------------------------------------------------------------- what a successful update leaves

  /** What an update needs for its services: an expansion read from the store, owned services that carry the names
      of copies, however much they lag behind otherwise, and names of copies that stay apart. */
  ghost predicate ServicesReady(s: Store, f: ForkResource, app: App) {
    WellKeyed(s) && Expanded(s, f, app) && ServicesNamed(s, f) && DistinctServiceNames(app)
  }

  /** The same for all three kinds. */
  ghost predicate Ready(s: Store, f: ForkResource, app: App) {
    ServicesReady(s, f, app) && ConfigsNamed(s, f) && CopiesNamed(s, f) && DistinctCopyNames(app)
  }

  /** Runs over the three lists have one outcome each. */
  ghost predicate AllOrderly(s: Store, app: App) {
    && Orderly(s, ForkParent(app.fork), CopiesList(app), Shortened())
    && Orderly(s, ForkParent(app.fork), ServicesList(app), CanonicalCopyName(app.fork))
    && Orderly(s, ForkParent(app.fork), ConfigsList(app), CanonicalCopyName(app.fork))
  }

  lemma ReadyIsOrderly(s: Store, f: ForkResource, app: App)
    requires Ready(s, f, app)
    ensures app.fork == f && AllOrderly(s, app)
  {
    CopiesAreOrderly(s, app);
    ServicesAreOrderly(s, app);
    ConfigsAreOrderly(s, app);
  }

  /** The desired objects of all three lists are stored, and the fork owns no others. */
  ghost predicate Delivers(t: Store, app: App) {
    && ListsAreWritable(app)
    && Holds(t, ForkParent(app.fork), CopiesList(app), Shortened())
    && Holds(t, ForkParent(app.fork), ServicesList(app), CanonicalCopyName(app.fork))
    && Holds(t, ForkParent(app.fork), ConfigsList(app), CanonicalCopyName(app.fork))
  }

  /** Of its three kinds, what the fork did not own and does not desire is as it was, and what it
      owned and does not desire is gone. */
  ghost predicate Framed(s: Store, t: Store, app: App) {
    && ListsAreWritable(app)
    && Frames(s, t, ForkParent(app.fork), CopiesList(app), Shortened())
    && Frames(s, t, ForkParent(app.fork), ServicesList(app), CanonicalCopyName(app.fork))
    && Frames(s, t, ForkParent(app.fork), ConfigsList(app), CanonicalCopyName(app.fork))
  }

  /** The outcome of an update, from the outcomes of its three runs. */
  lemma UpdateSettles(s: Store, t: Store, app: App)
    requires AllOrderly(s, app) && Refreshed(s, t, ForkParent(app.fork), Lists(app))
    ensures WellKeyed(t) && Delivers(t, app) && Framed(s, t, app) && OtherKindsSame(s, t)
  {
    var p, canon := ForkParent(app.fork), CanonicalCopyName(app.fork);
    var m, m' := StagesOf(s, t, app);
    KindsOfStages(s, m, m', t, app);
    SettledAcross(s, s, m, t, p, CopiesList(app), Shortened());
    OrderlyElsewhere(s, m, p, ServicesList(app), canon);
    SettledAcross(s, m, m', t, p, ServicesList(app), canon);
    OrderlyElsewhere(s, m', p, ConfigsList(app), canon);
    SettledAcross(s, m', t, t, p, ConfigsList(app), canon);
  }

  /** What a fork's update delivered is named as its next update expects. */
  lemma DeliveredNames(t: Store, app: App)
    requires Delivers(t, app)
    ensures ConfigsNamed(t, app.fork) && CopiesNamed(t, app.fork) && ServicesNamed(t, app.fork)
  {
    var p, f := ForkParent(app.fork), app.fork;
    forall k | OwnedAt(t, k, p, ObjectList([], Kind.VSConfig, ConfigHost))
      ensures t[k].body.VSConfigBody? && k.name == Shorten(CopyName(t[k].body.config.host, f))
    {
      assert OwnedAt(t, k, p, ConfigsList(app));
      var i :| 0 <= i < |app.services| && k == FinalKey(ConfigsList(app), i, p, CanonicalCopyName(f));
      assert t[k] == Final(ConfigsList(app), i, p, CanonicalCopyName(f));
    }
    forall k | OwnedAt(t, k, p, ObjectList([], Kind.DeploymentCopy, NameIdentity)) ensures |k.name| <= LABEL_LIMIT {
      assert OwnedAt(t, k, p, CopiesList(app));
    }
    DeliveredServiceNames(t, app);
  }

  lemma DeliveredServiceNames(t: Store, app: App)
    requires Delivers(t, app)
    ensures ServicesNamed(t, app.fork)
  {
    HoldsMeansInPlace(t, app);
    forall k | OwnedAt(t, k, ForkParent(app.fork), ObjectList([], Kind.Service, OriginalService))
      ensures k.name == Shorten(CopyName(OriginalService(t[k]).value, app.fork))
    {
      assert OwnedAt(t, k, ForkParent(app.fork), ServicesList(app));
      var svc :| svc in app.services && k == CopyKey(svc.name, app.fork);
      assert CopyInPlace(t, app, svc);
    }
  }

  /** A successful update stores exactly the desired objects of its three kinds and touches no other kind,
      however far what the fork owned had drifted from what it desires. */
  lemma UpdateDelivers(s: Store, t: Store, f: ForkResource, app: App)
    requires Ready(s, f, app) && Refreshed(s, t, ForkParent(f), Lists(app))
    ensures WellKeyed(t) && Delivers(t, app)
    ensures OtherKindsSame(s, t)
    ensures ServicesNamed(t, f) && ConfigsNamed(t, f) && CopiesNamed(t, f)
  {
    ReadyIsOrderly(s, f, app);
    UpdateSettles(s, t, app);
    DeliveredNames(t, app);
  }

  /** The name an object of the fork is stored under: the original's and the fork's, cut to 63 bytes. */
  ghost predicate LabelName(name: string, original: string, f: ForkResource) {
    var full := original + "-" + f.name;
    name <= full && |name| == if |full| <= 63 then |full| else 63
  }

  /** An object of the fork for an original, owned by the fork alone. */
  ghost predicate StoredFor(t: Store, k: Key, kind: Kind, original: string, f: ForkResource) {
    && k.kind == kind && k.namespace == f.namespace && LabelName(k.name, original, f)
    && k in t && t[k].name == k.name && t[k].namespace == f.namespace
    && t[k].owners == [OwnerRef("fork.k8s.wantedly.com/v1beta1", "Fork", f.name, true)]
  }

  ghost predicate CopyStoredFor(t: Store, k: Key, f: ForkResource, app: App, d: Object) {
    StoredFor(t, k, Kind.DeploymentCopy, d.name, f) && IsDeploymentCopy(t[k], d, f, RoutedFrom(app.services, d))
  }

  /** The cluster IP an expansion knows is that of the service it found under the copy's full name, if any. */
  ghost predicate KnowsIP(app: App, svc: Object, ip: string) {
    var name := svc.name + "-" + app.fork.name;
    ip == if name in app.existing && app.existing[name].body.ServiceBody? then app.existing[name].body.service.clusterIP else ""
  }

  ghost predicate ServiceStoredFor(t: Store, k: Key, f: ForkResource, app: App, svc: Object) {
    StoredFor(t, k, Kind.Service, svc.name, f) && exists ip :: KnowsIP(app, svc, ip) && IsServiceCopy(t[k], svc, f, ip)
  }

  ghost predicate ConfigStoredFor(t: Store, k: Key, f: ForkResource, app: App, svc: Object) {
    StoredFor(t, k, Kind.VSConfig, svc.name, f) && IsConfigFor(t[k], svc, f, app.header)
  }

  lemma StoredByFinal(t: Store, list: ObjectList, i: nat, f: ForkResource, canon: string -> string, original: string)
    requires Writable(ForkParent(f), list) && i < |list.items| && Holds(t, ForkParent(f), list, canon)
    requires NewFor(list.items[i], original, f)
    requires LabelName(canon(Id(list, i)), original, f)
    ensures var k := FinalKey(list, i, ForkParent(f), canon);
      StoredFor(t, k, list.kind, original, f) && t[k].body == list.items[i].body && t[k].labels == list.items[i].labels
  {
    FinalMeaning(list, i, ForkParent(f), canon);
  }

  lemma CopyIsStored(t: Store, f: ForkResource, app: App, i: nat)
    requires app.fork == f && Delivers(t, app) && i < |app.deployments|
    requires RoutesOf(app, app.deployments[i].name) == RoutedFrom(app.services, app.deployments[i])
    ensures CopyStoredFor(t, FinalKey(CopiesList(app), i, ForkParent(f), Shortened()), f, app, app.deployments[i])
  {
    DeploymentCopyMeaning(app.deployments[i], f, RoutesOf(app, app.deployments[i].name));
    StoredByFinal(t, CopiesList(app), i, f, Shortened(), app.deployments[i].name);
  }

  lemma ServiceIsStored(t: Store, f: ForkResource, app: App, i: nat)
    requires app.fork == f && Delivers(t, app) && i < |app.services| && app.services[i].body.ServiceBody?
    ensures ServiceStoredFor(t, FinalKey(ServicesList(app), i, ForkParent(f), CanonicalCopyName(f)), f, app, app.services[i])
  {
    var svc := app.services[i];
    var name := svc.name + "-" + f.name;
    var ip := if name in app.existing && app.existing[name].body.ServiceBody? then app.existing[name].body.service.clusterIP else "";
    ServiceCopyMeaning(svc, f, app.existing, ip);
    CopyIdentity(app, i);
    StoredByFinal(t, ServicesList(app), i, f, CanonicalCopyName(f), svc.name);
    assert KnowsIP(app, svc, ip);
  }

  lemma ConfigIsStored(t: Store, f: ForkResource, app: App, i: nat)
    requires app.fork == f && Delivers(t, app) && i < |app.services|
    ensures ConfigStoredFor(t, FinalKey(ConfigsList(app), i, ForkParent(f), CanonicalCopyName(f)), f, app, app.services[i])
  {
    ConfigCopyMeaning(app.services[i], f, app.header);
    ConfigIdentity(app, i);
    StoredByFinal(t, ConfigsList(app), i, f, CanonicalCopyName(f), app.services[i].name);
  }

  ghost predicate Owned(t: Store, k: Key, kind: Kind, f: ForkResource) {
    k.kind == kind && k.namespace == f.namespace && k in t && OwnedByParent(t[k], ForkParent(f))
  }

  /** Each copied deployment has its DeploymentCopy, and the fork owns no others. */
  ghost predicate CopiesStored(t: Store, f: ForkResource, app: App) {
    && (forall d :: d in app.deployments ==> exists k :: CopyStoredFor(t, k, f, app, d))
    && (forall k :: Owned(t, k, Kind.DeploymentCopy, f) ==> exists d :: d in app.deployments && CopyStoredFor(t, k, f, app, d))
  }

  /** Each selected service has its copy, and the fork owns no other services. */
  ghost predicate ServicesStored(t: Store, f: ForkResource, app: App) {
    && (forall svc :: svc in app.services ==> exists k :: ServiceStoredFor(t, k, f, app, svc))
    && (forall k :: Owned(t, k, Kind.Service, f) ==> exists svc :: svc in app.services && ServiceStoredFor(t, k, f, app, svc))
  }

  /** Each selected service has its config, and the fork owns no others. */
  ghost predicate ConfigsStored(t: Store, f: ForkResource, app: App) {
    && (forall svc :: svc in app.services ==> exists k :: ConfigStoredFor(t, k, f, app, svc))
    && (forall k :: Owned(t, k, Kind.VSConfig, f) ==> exists svc :: svc in app.services && ConfigStoredFor(t, k, f, app, svc))
  }

  /** What a successful update leaves of the fork's objects, field by field: for each copied deployment the
      DeploymentCopy that targets it, for each selected service its copy and its config, and nothing else of these kinds. */
  lemma UpdateContents(s: Store, t: Store, f: ForkResource, app: App)
    requires Ready(s, f, app) && Refreshed(s, t, ForkParent(f), Lists(app))
    ensures CopiesStored(t, f, app) && ServicesStored(t, f, app) && ConfigsStored(t, f, app)
  {
    UpdateDelivers(s, t, f, app);
    CopiesContents(s, t, f, app);
    ServicesContents(s, t, f, app);
    ConfigsContents(t, f, app);
  }

  lemma CopiesContents(s: Store, t: Store, f: ForkResource, app: App)
    requires Reads(s, f, app) && Delivers(t, app)
    ensures CopiesStored(t, f, app)
  {
    forall i | 0 <= i < |app.deployments|
      ensures CopyStoredFor(t, FinalKey(CopiesList(app), i, ForkParent(f), Shortened()), f, app, app.deployments[i])
    {
      assert app.deployments[i] in app.deployments;
      CopyIsStored(t, f, app, i);
    }
    forall k | Owned(t, k, Kind.DeploymentCopy, f) ensures exists d :: d in app.deployments && CopyStoredFor(t, k, f, app, d) {
      assert OwnedAt(t, k, ForkParent(f), CopiesList(app));
      var i :| 0 <= i < |app.deployments| && k == FinalKey(CopiesList(app), i, ForkParent(f), Shortened());
      assert app.deployments[i] in app.deployments;
    }
  }

  lemma ServicesContents(s: Store, t: Store, f: ForkResource, app: App)
    requires Reads(s, f, app) && Delivers(t, app)
    ensures ServicesStored(t, f, app)
  {
    forall svc | svc in app.services ensures exists k :: ServiceStoredFor(t, k, f, app, svc) {
      var i :| 0 <= i < |app.services| && app.services[i] == svc;
      SelectedIsService(s, f, app, i);
      ServiceIsStored(t, f, app, i);
    }
    forall k | Owned(t, k, Kind.Service, f) ensures exists svc :: svc in app.services && ServiceStoredFor(t, k, f, app, svc) {
      var i := OwnedIsFinal(t, k, f, app);
      SelectedIsService(s, f, app, i);
      ServiceIsStored(t, f, app, i);
    }
  }

  lemma SelectedIsService(s: Store, f: ForkResource, app: App, i: nat)
    requires Reads(s, f, app) && i < |app.services|
    ensures app.services[i] in app.services && app.services[i].body.ServiceBody?
  {
    assert Selected(s, f, app.services[i]);
  }

  lemma OwnedIsFinal(t: Store, k: Key, f: ForkResource, app: App) returns (i: nat)
    requires app.fork == f && Delivers(t, app) && Owned(t, k, Kind.Service, f)
    ensures i < |app.services| && k == FinalKey(ServicesList(app), i, ForkParent(f), CanonicalCopyName(f))
  {
    assert OwnedAt(t, k, ForkParent(f), ServicesList(app));
    i :| 0 <= i < |app.services| && k == FinalKey(ServicesList(app), i, ForkParent(f), CanonicalCopyName(f));
  }

  lemma ConfigsContents(t: Store, f: ForkResource, app: App)
    requires app.fork == f && Delivers(t, app)
    ensures ConfigsStored(t, f, app)
  {
    forall i | 0 <= i < |app.services|
      ensures ConfigStoredFor(t, FinalKey(ConfigsList(app), i, ForkParent(f), CanonicalCopyName(f)), f, app, app.services[i])
    {
      ConfigIsStored(t, f, app, i);
    }
    forall k | Owned(t, k, Kind.VSConfig, f) ensures exists svc :: svc in app.services && ConfigStoredFor(t, k, f, app, svc) {
      assert OwnedAt(t, k, ForkParent(f), ConfigsList(app));
      var i :| 0 <= i < |app.services| && k == FinalKey(ConfigsList(app), i, ForkParent(f), CanonicalCopyName(f));
      assert app.services[i] in app.services;
    }
  }

  /** How far an update over three lists got: into the first, into the second after all of the first, or into the third
      after all of both. */
  lemma HowFar(s: Store, t: Store, p: Parent, a: ObjectList, b: ObjectList, c: ObjectList) returns (m: Store, m': Store, stage: nat)
    requires PartlyRefreshed(s, t, p, [a, b, c])
    ensures stage == 0 ==> PartialRun(s, t, p, a)
    ensures stage == 1 ==> CompleteRun(s, m, p, a) && PartialRun(m, t, p, b)
    ensures stage == 2 ==> CompleteRun(s, m, p, a) && CompleteRun(m, m', p, b) && (t == m' || PartialRun(m', t, p, c))
    ensures stage <= 2
  {
    m, m', stage := s, s, 0;
    var all := [a, b, c];
    assert all[0] == a && all[1..] == [b, c] && all[1..][0] == b && all[1..][1..] == [c] && [c][0] == c && [c][1..] == [];
    if !PartialRun(s, t, p, all[0]) {
      m :| CompleteRun(s, m, p, all[0]) && PartlyRefreshed(m, t, p, all[1..]);
      stage := 1;
      if !PartialRun(m, t, p, all[1..][0]) {
        m' :| CompleteRun(m, m', p, all[1..][0]) && PartlyRefreshed(m', t, p, all[1..][1..]);
        LastOfThree(m', t, p, c);
        stage := 2;
      }
    }
  }

  lemma LastOfThree(s: Store, t: Store, p: Parent, c: ObjectList)
    requires PartlyRefreshed(s, t, p, [c])
    ensures PartialRun(s, t, p, c)
  {
    assert [c][0] == c && [c][1..] == [];
    if !PartialRun(s, t, p, [c][0]) {
      var m :| CompleteRun(s, m, p, [c][0]) && PartlyRefreshed(m, t, p, [c][1..]);
      CompleteIsPartial(s, m, p, c);
    }
  }

  ghost predicate SomeChanged(s: Store, t: Store, kind: Kind) {
    exists k: Key :: k.kind == kind && !Same(s, t, k)
  }

  ghost predicate CopiesDelivered(t: Store, app: App) {
    Writable(ForkParent(app.fork), CopiesList(app)) && Holds(t, ForkParent(app.fork), CopiesList(app), Shortened())
  }

  ghost predicate ServicesDelivered(t: Store, app: App) {
    Writable(ForkParent(app.fork), ServicesList(app)) && Holds(t, ForkParent(app.fork), ServicesList(app), CanonicalCopyName(app.fork))
  }

  /** Where a VSConfig has changed all copied services and DeploymentCopies are in place, and where a service has all
      DeploymentCopies are. */
  ghost predicate NothingEarly(s: Store, t: Store, app: App) {
    && (SomeChanged(s, t, Kind.Service) || SomeChanged(s, t, Kind.VSConfig) ==> CopiesDelivered(t, app))
    && (SomeChanged(s, t, Kind.VSConfig) ==> ServicesDelivered(t, app))
  }

  /** No traffic before there is somewhere to send it: at whatever point an update stopped, it has changed no VSConfig
      before the copied services and DeploymentCopies were all in place, and no service before the DeploymentCopies. */
  lemma ConfigsComeLast(s: Store, t: Store, f: ForkResource, app: App)
    requires Ready(s, f, app) && PartlyRefreshed(s, t, ForkParent(f), Lists(app))
    ensures NothingEarly(s, t, app)
  {
    ReadyIsOrderly(s, f, app);
    StoppedAnywhere(s, t, app);
  }

  lemma StoppedAnywhere(s: Store, t: Store, app: App)
    requires AllOrderly(s, app) && PartlyRefreshed(s, t, ForkParent(app.fork), Lists(app))
    ensures NothingEarly(s, t, app)
  {
    var m, m', stage := HowFar(s, t, ForkParent(app.fork), CopiesList(app), ServicesList(app), ConfigsList(app));
    if stage == 0 {
      StoppedInCopies(s, t, app);
    } else if stage == 1 {
      StoppedInServices(s, m, t, app);
    } else {
      StoppedInConfigs(s, m, m', t, app);
    }
  }

  lemma StoppedInCopies(s: Store, t: Store, app: App)
    requires WellKeyed(s) && Writable(ForkParent(app.fork), CopiesList(app)) && PartialRun(s, t, ForkParent(app.fork), CopiesList(app))
    ensures NothingEarly(s, t, app)
  {
    OneKindTouched(s, t, ForkParent(app.fork), CopiesList(app));
    NoneChanged(s, t, Kind.Service);
    NoneChanged(s, t, Kind.VSConfig);
  }

  lemma NoneChanged(s: Store, t: Store, kind: Kind)
    requires SameKind(s, t, kind)
    ensures !SomeChanged(s, t, kind)
  {}

  lemma StoppedInServices(s: Store, m: Store, t: Store, app: App)
    requires AllOrderly(s, app) && CompleteRun(s, m, ForkParent(app.fork), CopiesList(app))
    requires PartialRun(m, t, ForkParent(app.fork), ServicesList(app))
    ensures NothingEarly(s, t, app)
  {
    CompleteIsPartial(s, m, ForkParent(app.fork), CopiesList(app));
    OneKindTouched(s, m, ForkParent(app.fork), CopiesList(app));
    OneKindTouched(m, t, ForkParent(app.fork), ServicesList(app));
    SettledAcross(s, s, m, t, ForkParent(app.fork), CopiesList(app), Shortened());
    SameKindChain(s, m, t, Kind.VSConfig);
  }

  lemma StoppedInConfigs(s: Store, m: Store, m': Store, t: Store, app: App)
    requires AllOrderly(s, app) && CompleteRun(s, m, ForkParent(app.fork), CopiesList(app))
    requires CompleteRun(m, m', ForkParent(app.fork), ServicesList(app))
    requires t == m' || PartialRun(m', t, ForkParent(app.fork), ConfigsList(app))
    ensures NothingEarly(s, t, app)
  {
    CompleteIsPartial(s, m, ForkParent(app.fork), CopiesList(app));
    OneKindTouched(s, m, ForkParent(app.fork), CopiesList(app));
    OrderlyElsewhere(s, m, ForkParent(app.fork), ServicesList(app), CanonicalCopyName(app.fork));
    CompleteIsPartial(m, m', ForkParent(app.fork), ServicesList(app));
    OneKindTouched(m, m', ForkParent(app.fork), ServicesList(app));
    AtMostTouches(m', t, ForkParent(app.fork), ConfigsList(app));
    SameKindChain(m, m', t, Kind.DeploymentCopy);
    SettledAcross(s, s, m, t, ForkParent(app.fork), CopiesList(app), Shortened());
    SettledAcross(s, m, m', t, ForkParent(app.fork), ServicesList(app), CanonicalCopyName(app.fork));
  }

  /** The frame of a successful update. */
  lemma UpdateFrames(s: Store, t: Store, f: ForkResource, app: App)
    requires Ready(s, f, app) && Refreshed(s, t, ForkParent(f), Lists(app))
    ensures Framed(s, t, app) && OtherKindsSame(s, t)
  {
    ReadyIsOrderly(s, f, app);
    UpdateSettles(s, t, app);
  }

  /** Whatever the parent owns tells its identity. */
  ghost predicate AlwaysReadable(p: Parent, list: ObjectList) {
    Writable(p, list) && forall s :: WellKeyed(s) ==> Readable(s, p, list)
  }

  lemma {:induction false} RefreshesExist(s: Store, p: Parent, lists: seq<ObjectList>) returns (t: Store)
    requires WellKeyed(s) && forall i :: 0 <= i < |lists| ==> AlwaysReadable(p, lists[i])
    ensures WellKeyed(t) && Refreshed(s, t, p, lists)
    decreases |lists|
  {
    if lists == [] {
      t := s;
    } else {
      assert AlwaysReadable(p, lists[0]);
      var m := CompleteRunExists(s, p, lists[0]);
      t := RefreshesExist(m, p, lists[1..]);
    }
  }

  lemma ConfigsAreReadable(p: Parent, app: App)
    ensures forall s :: WellKeyed(s) ==> Readable(s, p, ConfigsList(app))
  {
    forall s | WellKeyed(s) ensures Readable(s, p, ConfigsList(app)) {
      forall k | OwnedAt(s, k, p, ConfigsList(app)) ensures ConfigHost(s[k]).Ok? {
        assert KeyOf(s[k]) == k;
      }
    }
  }

  /** Only failing calls can keep an update from succeeding: no branch of it gives up on its own. */
  lemma UpdateCanSucceed(s: Store, f: ForkResource, app: App) returns (t: Store)
    requires WellKeyed(s) && Expanded(s, f, app)
    ensures WellKeyed(t) && Refreshed(s, t, ForkParent(f), Lists(app))
  {
    ListsWritable(app);
    ConfigsAreReadable(ForkParent(f), app);
    AllListsReadable(ForkParent(f), app);
    t := RefreshesExist(s, ForkParent(f), Lists(app));
  }

  lemma AllListsReadable(p: Parent, app: App)
    requires Writable(p, CopiesList(app)) && Writable(p, ServicesList(app)) && Writable(p, ConfigsList(app))
    requires forall s :: WellKeyed(s) ==> Readable(s, p, ConfigsList(app))
    ensures forall i :: 0 <= i < |Lists(app)| ==> AlwaysReadable(p, Lists(app)[i])
  {
    assert Lists(app)[0] == CopiesList(app) && Lists(app)[1] == ServicesList(app) && Lists(app)[2] == ConfigsList(app);
  }

  // ---------------------------------------------------------------- the copied services

  /** The service is the copy of `n` for the fork by name, labels and owner. */
  ghost predicate Marked(o: Object, n: string, f: ForkResource) {
    KeyOf(o) == CopyKey(n, f) && o.labels == CopyLabels(n, f) && o.owners == [ControllerRef(ForkParent(f))] && o.body.ServiceBody?
  }

  /** `o` is the copy made of this service, with some cluster IP. */
  ghost predicate IsCopy(o: Object, svc: Object, f: ForkResource) {
    Marked(o, svc.name, f) && o.body.service == CopyService(svc, f, map[]).body.service.(clusterIP := o.body.service.clusterIP)
  }

  ghost predicate CopyMade(t: Store, svc: Object, f: ForkResource) {
    CopyKey(svc.name, f) in t && IsCopy(t[CopyKey(svc.name, f)], svc, f)
  }

  /** The cluster IP of a copy, if there is one. */
  ghost function CopyIP(s: Store, n: string, f: ForkResource): string {
    var k := CopyKey(n, f);
    if k in s && s[k].body.ServiceBody? then s[k].body.service.clusterIP else ""
  }

  lemma CopiesWithIPEqual(a: Object, b: Object, svc: Object, f: ForkResource)
    requires IsCopy(a, svc, f) && IsCopy(b, svc, f) && a.body.service.clusterIP == b.body.service.clusterIP
    ensures a == b
  {}

  /** The object a run writes for a service is its copy, with the cluster IP known before. */
  lemma FinalIsCopy(app: App, i: nat)
    requires i < |app.services| && Writable(ForkParent(app.fork), ServicesList(app))
    ensures var n := app.services[i].name; var o := Final(ServicesList(app), i, ForkParent(app.fork), CanonicalCopyName(app.fork));
      && IsCopy(o, app.services[i], app.fork) && o.body.service.clusterIP == KnownClusterIP(CopyName(n, app.fork), app.existing)
      && FinalKey(ServicesList(app), i, ForkParent(app.fork), CanonicalCopyName(app.fork)) == CopyKey(n, app.fork)
  {}

  lemma FinalIsCopyKey(app: App, k: Key) returns (i: nat)
    requires Writable(ForkParent(app.fork), ServicesList(app))
    requires IsFinalKey(k, ServicesList(app), ForkParent(app.fork), CanonicalCopyName(app.fork))
    ensures i < |app.services| && app.services[i] in app.services && k == CopyKey(app.services[i].name, app.fork)
    ensures k == FinalKey(ServicesList(app), i, ForkParent(app.fork), CanonicalCopyName(app.fork))
  {
    i :| 0 <= i < |app.services| && k == FinalKey(ServicesList(app), i, ForkParent(app.fork), CanonicalCopyName(app.fork));
    FinalIsCopy(app, i);
  }

  /** An expansion finds the cluster IP of a copy by the name of the copy, if that fits a label. */
  lemma KnownIP(s: Store, n: string, f: ForkResource, app: App)
    requires Expanded(s, f, app) && |CopyName(n, f)| <= LABEL_LIMIT
    requires CopyKey(n, f) in s && Marked(s[CopyKey(n, f)], n, f)
    ensures KnownClusterIP(CopyName(n, f), app.existing) == CopyIP(s, n, f)
  {
    var k := CopyKey(n, f);
    assert k == Key(Kind.Service, f.namespace, CopyName(n, f));
    assert s[k].labels == CopyLabels(n, f);
    assert Forked(s, f, CopyName(n, f));
  }

  // ---------------------------------------------------------------- updating twice

  /** Two expansions of the same fork over the same selection differ in the order of services only. */
  ghost predicate SameSelection(app: App, again: App) {
    && again.fork == app.fork && again.header == app.header
    && again.deployments == app.deployments
    && (forall svc :: svc in again.services <==> svc in app.services)
  }

  lemma ExpandedAgain(s: Store, t: Store, f: ForkResource, app: App, again: App)
    requires Expanded(s, f, app) && Expanded(t, f, again) && OtherKindsSame(s, t)
    requires forall svc :: Selected(t, f, svc) <==> Selected(s, f, svc)
    ensures SameSelection(app, again)
  {
    forall svc ensures svc in again.services <==> svc in app.services {
      assert svc in app.services <==> Selected(s, f, svc);
      assert svc in again.services <==> Selected(t, f, svc);
    }
    HeaderAgain(s, t, f, app, again);
    DeploymentsAgain(s, t, f, app, again);
  }

  lemma DeploymentsAgain(s: Store, t: Store, f: ForkResource, app: App, again: App)
    requires Reads(s, f, app) && Reads(t, f, again) && OtherKindsSame(s, t)
    requires forall svc :: svc in again.services <==> svc in app.services
    ensures again.deployments == app.deployments
  {
    forall d ensures d in again.deployments <==> d in app.deployments {
      CandidateAgain(s, t, f, d);
    }
    SortedUnique(app.deployments, again.deployments, ObjectName);
  }

  lemma CandidateAgain(s: Store, t: Store, f: ForkResource, d: Object)
    requires OtherKindsSame(s, t)
    ensures Candidate(t, f, d) <==> Candidate(s, f, d)
  {
    if KindOf(d.body) == Kind.Deployment { assert Same(s, t, KeyOf(d)); }
  }

  lemma HeaderAgain(s: Store, t: Store, f: ForkResource, app: App, again: App)
    requires HeaderOf(s, f, app.header) && HeaderOf(t, f, again.header) && OtherKindsSame(s, t)
    ensures again.header == app.header
  {
    assert Same(s, t, ManagerKey(f.spec.manager).value);
  }

  lemma SameRoutes(s: Store, t: Store, f: ForkResource, app: App, again: App)
    requires Reads(s, f, app) && Reads(t, f, again) && SameSelection(app, again)
    ensures CopiesList(again) == CopiesList(app)
  {
    forall i | 0 <= i < |app.deployments|
      ensures RoutesOf(again, app.deployments[i].name) == RoutesOf(app, app.deployments[i].name)
    {
      var d := app.deployments[i];
      assert d in app.deployments && d in again.deployments;
      assert RoutedFrom(again.services, d) == RoutedFrom(app.services, d);
    }
    assert CopiesList(again).items == CopiesList(app).items;
  }

  /** The copy of the service is there, with the cluster IP the app knows. */
  ghost predicate CopyInPlace(t: Store, app: App, svc: Object) {
    CopyMade(t, svc, app.fork) && CopyIP(t, svc.name, app.fork) == KnownClusterIP(CopyName(svc.name, app.fork), app.existing)
  }

  /** All services the fork owns are copies of selected ones. */
  ghost predicate OwnedAreSelected(t: Store, app: App) {
    forall k :: OwnedAt(t, k, ForkParent(app.fork), ServicesList(app)) ==> exists svc :: svc in app.services && k == CopyKey(svc.name, app.fork)
  }

  /** The copies of the selected services are there, and the fork owns no other services. */
  ghost predicate InPlace(t: Store, app: App) {
    (forall svc :: svc in app.services ==> CopyInPlace(t, app, svc)) && OwnedAreSelected(t, app)
  }

  lemma HoldsMeansInPlace(t: Store, app: App)
    requires Writable(ForkParent(app.fork), ServicesList(app))
    requires Holds(t, ForkParent(app.fork), ServicesList(app), CanonicalCopyName(app.fork))
    ensures InPlace(t, app)
  {
    forall svc | svc in app.services ensures CopyInPlace(t, app, svc) {
      var i :| 0 <= i < |app.services| && app.services[i] == svc;
      FinalIsCopy(app, i);
    }
    forall k | OwnedAt(t, k, ForkParent(app.fork), ServicesList(app)) ensures exists svc :: svc in app.services && k == CopyKey(svc.name, app.fork) {
      var i := FinalIsCopyKey(app, k);
    }
  }

  lemma InPlaceIsFinal(t: Store, app: App, i: nat)
    requires Writable(ForkParent(app.fork), ServicesList(app)) && i < |app.services| && CopyInPlace(t, app, app.services[i])
    ensures var k := FinalKey(ServicesList(app), i, ForkParent(app.fork), CanonicalCopyName(app.fork));
      && k == CopyKey(app.services[i].name, app.fork)
      && k in t && t[k] == Final(ServicesList(app), i, ForkParent(app.fork), CanonicalCopyName(app.fork))
  {
    FinalIsCopy(app, i);
    CopiesWithIPEqual(t[CopyKey(app.services[i].name, app.fork)],
                      Final(ServicesList(app), i, ForkParent(app.fork), CanonicalCopyName(app.fork)), app.services[i], app.fork);
  }

  lemma SelectedIsFinal(app: App, svc: Object)
    requires Writable(ForkParent(app.fork), ServicesList(app)) && svc in app.services
    ensures IsFinalKey(CopyKey(svc.name, app.fork), ServicesList(app), ForkParent(app.fork), CanonicalCopyName(app.fork))
  {
    var i :| 0 <= i < |app.services| && app.services[i] == svc;
    FinalIsCopy(app, i);
  }

  lemma InPlaceMeansHolds(t: Store, app: App)
    requires Writable(ForkParent(app.fork), ServicesList(app)) && InPlace(t, app)
    ensures Holds(t, ForkParent(app.fork), ServicesList(app), CanonicalCopyName(app.fork))
  {
    var p, list, canon := ForkParent(app.fork), ServicesList(app), CanonicalCopyName(app.fork);
    forall i | 0 <= i < |list.items| ensures FinalKey(list, i, p, canon) in t && t[FinalKey(list, i, p, canon)] == Final(list, i, p, canon) {
      assert app.services[i] in app.services;
      InPlaceIsFinal(t, app, i);
    }
    forall k | OwnedAt(t, k, p, list) ensures IsFinalKey(k, list, p, canon) {
      var svc :| svc in app.services && k == CopyKey(svc.name, app.fork);
      SelectedIsFinal(app, svc);
    }
  }

  /** An update leaves names alone that are too long for a copy, and what their services tell the next expansion. */
  lemma LongNameKnown(s: Store, t: Store, f: ForkResource, app: App, again: App, c: string)
    requires ServicesNamed(s, f) && app.fork == f && Writable(ForkParent(f), ServicesList(app)) && |c| > LABEL_LIMIT
    requires Frames(s, t, ForkParent(f), ServicesList(app), CanonicalCopyName(f))
    requires HoldsForked(s, f, app.existing) && HoldsForked(t, f, again.existing)
    ensures KnownClusterIP(c, again.existing) == KnownClusterIP(c, app.existing)
  {
    var k := Key(Kind.Service, f.namespace, c);
    LongNameKept(s, t, f, app, k);
    assert Forked(t, f, c) <==> Forked(s, f, c);
  }

  lemma LongNameKept(s: Store, t: Store, f: ForkResource, app: App, k: Key)
    requires ServicesNamed(s, f) && app.fork == f && Writable(ForkParent(f), ServicesList(app))
    requires Frames(s, t, ForkParent(f), ServicesList(app), CanonicalCopyName(f))
    requires k.kind == Kind.Service && |k.name| > LABEL_LIMIT
    ensures Same(s, t, k)
  {
    if IsFinalKey(k, ServicesList(app), ForkParent(f), CanonicalCopyName(f)) {
      var i := FinalIsCopyKey(app, k);
      assert false;
    }
    if OwnedAt(s, k, ForkParent(f), ServicesList(app)) {
      assert OwnedAt(s, k, ForkParent(f), ObjectList([], Kind.Service, OriginalService));
      assert false;
    }
  }

  /** A second expansion asks for the copies, and the IPs, that are there. */
  lemma InPlaceAgain(s: Store, t: Store, f: ForkResource, app: App, again: App)
    requires ServicesNamed(s, f) && Writable(ForkParent(f), ServicesList(app))
    requires Frames(s, t, ForkParent(f), ServicesList(app), CanonicalCopyName(f))
    requires Expanded(s, f, app) && Expanded(t, f, again) && SameSelection(app, again) && InPlace(t, app)
    ensures InPlace(t, again)
  {
    forall svc | svc in again.services ensures CopyInPlace(t, again, svc) {
      assert CopyInPlace(t, app, svc);
      if |CopyName(svc.name, f)| <= LABEL_LIMIT {
        KnownIP(t, svc.name, f, again);
      } else {
        LongNameKnown(s, t, f, app, again, CopyName(svc.name, f));
      }
    }
    OwnedAgain(t, app, again);
  }

  lemma OwnedAgain(t: Store, app: App, again: App)
    requires SameSelection(app, again) && OwnedAreSelected(t, app)
    ensures OwnedAreSelected(t, again)
  {
    forall k | OwnedAt(t, k, ForkParent(again.fork), ServicesList(again)) ensures exists svc :: svc in again.services && k == CopyKey(svc.name, again.fork) {
      assert OwnedAt(t, k, ForkParent(app.fork), ServicesList(app));
      var svc :| svc in app.services && k == CopyKey(svc.name, app.fork);
      assert svc in again.services;
    }
  }

  lemma IndexOfService(app: App, again: App, i: nat) returns (j: nat)
    requires SameSelection(app, again) || SameSelection(again, app)
    requires i < |again.services|
    ensures j < |app.services| && app.services[j] == again.services[i]
  {
    assert again.services[i] in app.services;
    j :| 0 <= j < |app.services| && app.services[j] == again.services[i];
  }

  lemma ConfigsHoldAgain(t: Store, f: ForkResource, app: App, again: App)
    requires SameSelection(app, again) && app.fork == f
    requires Writable(ForkParent(f), ConfigsList(app)) && Writable(ForkParent(f), ConfigsList(again))
    requires Holds(t, ForkParent(f), ConfigsList(app), CanonicalCopyName(f))
    ensures Holds(t, ForkParent(f), ConfigsList(again), CanonicalCopyName(f))
  {
    var p, canon := ForkParent(f), CanonicalCopyName(f);
    forall i | 0 <= i < |again.services|
      ensures FinalKey(ConfigsList(again), i, p, canon) in t
      ensures t[FinalKey(ConfigsList(again), i, p, canon)] == Final(ConfigsList(again), i, p, canon)
    {
      var j := IndexOfService(app, again, i);
      SameConfig(app, again, j, i);
    }
    forall k | OwnedAt(t, k, p, ConfigsList(again)) ensures IsFinalKey(k, ConfigsList(again), p, canon) {
      assert OwnedAt(t, k, p, ConfigsList(app));
      var j :| 0 <= j < |app.services| && k == FinalKey(ConfigsList(app), j, p, canon);
      var i := IndexOfService(again, app, j);
      SameConfig(app, again, j, i);
    }
  }

  lemma SameConfig(app: App, again: App, j: nat, i: nat)
    requires again.fork == app.fork && again.header == app.header
    requires j < |app.services| && i < |again.services| && app.services[j] == again.services[i]
    requires Writable(ForkParent(app.fork), ConfigsList(app)) && Writable(ForkParent(app.fork), ConfigsList(again))
    ensures var p, canon := ForkParent(app.fork), CanonicalCopyName(app.fork);
      && FinalKey(ConfigsList(again), i, p, canon) == FinalKey(ConfigsList(app), j, p, canon)
      && Final(ConfigsList(again), i, p, canon) == Final(ConfigsList(app), j, p, canon)
  {
    assert ConfigsList(again).items[i] == ConfigsList(app).items[j];
  }

  /** What the first update delivered is what the second one asks for. */
  lemma DeliveredAgain(s: Store, t: Store, f: ForkResource, app: App, again: App)
    requires ServicesNamed(s, f) && Expanded(s, f, app) && Expanded(t, f, again) && SameSelection(app, again)
    requires CopiesList(again) == CopiesList(app) && Delivers(t, app)
    requires Frames(s, t, ForkParent(f), ServicesList(app), CanonicalCopyName(f))
    ensures Delivers(t, again)
  {
    ListsWritable(again);
    HoldsMeansInPlace(t, app);
    InPlaceAgain(s, t, f, app, again);
    InPlaceMeansHolds(t, again);
    ConfigsHoldAgain(t, f, app, again);
  }

  lemma DeliveredStays(t: Store, u: Store, app: App)
    requires AllOrderly(t, app) && Delivers(t, app) && Refreshed(t, u, ForkParent(app.fork), Lists(app))
    ensures u == t
  {
    var m, m' := StagesOf(t, u, app);
    HeldRunSettles(t, m, ForkParent(app.fork), CopiesList(app), Shortened());
    HeldRunSettles(t, m', ForkParent(app.fork), ServicesList(app), CanonicalCopyName(app.fork));
    HeldRunSettles(t, u, ForkParent(app.fork), ConfigsList(app), CanonicalCopyName(app.fork));
  }

  /** Two services in a list of distinct ones have distinct names of copies, in whatever order they come. */
  lemma NamesAgain(t: Store, f: ForkResource, app: App, again: App)
    requires WellKeyed(t) && Reads(t, f, again) && app.fork == f && SameSelection(app, again) && DistinctServiceNames(app)
    ensures DistinctServiceNames(again)
  {
    forall i, j | 0 <= i < j < |again.services|
      ensures Shorten(CopyName(again.services[i].name, f)) != Shorten(CopyName(again.services[j].name, f))
    {
      var a := IndexOfService(app, again, i);
      var b := IndexOfService(app, again, j);
      assert again.services[i] != again.services[j];
    }
  }

  lemma ReadyAgain(t: Store, f: ForkResource, app: App, again: App)
    requires WellKeyed(t) && ServicesNamed(t, f) && ConfigsNamed(t, f) && CopiesNamed(t, f)
    requires app.fork == f && DistinctServiceNames(app) && DistinctCopyNames(app)
    requires Expanded(t, f, again) && SameSelection(app, again)
    ensures Ready(t, f, again)
  {
    NamesAgain(t, f, app, again);
  }

  /** A second successful update, right after the first and from its own expansion, leaves the whole
      store as it is, whatever the lengths of the names and whatever the first one had to repair. */
  lemma UpdateTwice(s: Store, t: Store, u: Store, f: ForkResource, app: App, again: App)
    requires Ready(s, f, app) && SelectsOthers(app) && RejectsCopies(app)
    requires Refreshed(s, t, ForkParent(f), Lists(app))
    requires Expanded(t, f, again) && Refreshed(t, u, ForkParent(f), Lists(again))
    ensures u == t
  {
    UpdateDelivers(s, t, f, app);
    UpdateFrames(s, t, f, app);
    SelectionStable(s, t, f, app);
    ExpandedAgain(s, t, f, app, again);
    SameRoutes(s, t, f, app, again);
    ReadyAgain(t, f, app, again);
    ReadyIsOrderly(t, f, again);
    DeliveredAgain(s, t, f, app, again);
    DeliveredStays(t, u, again);
  }

  // ---------------------------------------------------------------- selectors that accept copies

  /** The fork selects nothing of its own making: no selected service belongs to it or has the name of one of
      the copies it makes. */
  ghost predicate SelectsOthers(app: App) {
    forall svc, o :: svc in app.services && o in app.services ==>
      !OwnedByParent(svc, ForkParent(app.fork)) && svc.name != Shorten(CopyName(o.name, app.fork))
  }

  /** The fork's selector accepts the labels of none of the copies it makes. */
  ghost predicate RejectsCopies(app: App) {
    forall svc :: svc in app.services ==> !Matches(ServiceQuery(app.fork), CopyLabels(svc.name, app.fork))
  }

  /** The services after a successful update, whatever the other two lists did. */
  lemma ServicesOutcome(s: Store, t: Store, app: App)
    requires ServicesReady(s, app.fork, app) && Refreshed(s, t, ForkParent(app.fork), Lists(app))
    ensures Writable(ForkParent(app.fork), ServicesList(app))
    ensures Holds(t, ForkParent(app.fork), ServicesList(app), CanonicalCopyName(app.fork))
    ensures Frames(s, t, ForkParent(app.fork), ServicesList(app), CanonicalCopyName(app.fork))
  {
    ListsWritable(app);
    var m, m' := StagesOf(s, t, app);
    ServicesAreOrderly(s, app);
    OrderlyElsewhere(s, m, ForkParent(app.fork), ServicesList(app), CanonicalCopyName(app.fork));
    SettledAcross(s, m, m', t, ForkParent(app.fork), ServicesList(app), CanonicalCopyName(app.fork));
  }

  /** An update makes a copy of everything selected, selects it still, and what is newly selected is a copy. */
  lemma SelectedAfter(s: Store, t: Store, f: ForkResource, app: App)
    requires ServicesReady(s, f, app) && SelectsOthers(app) && Refreshed(s, t, ForkParent(f), Lists(app))
    ensures forall svc :: Selected(s, f, svc) ==> CopyMade(t, svc, f) && Selected(t, f, svc)
    ensures forall svc :: Selected(t, f, svc) && !Selected(s, f, svc) ==>
      exists o :: Selected(s, f, o) && svc.labels == CopyLabels(o.name, f)
  {
    ServicesOutcome(s, t, app);
    HoldsMeansInPlace(t, app);
    forall svc | Selected(s, f, svc) ensures CopyMade(t, svc, f) && Selected(t, f, svc) {
      assert svc in app.services && CopyInPlace(t, app, svc);
      StillSelected(s, t, app, svc);
    }
    forall svc | Selected(t, f, svc) && !Selected(s, f, svc)
      ensures exists o :: Selected(s, f, o) && svc.labels == CopyLabels(o.name, f)
    {
      NewIsCopy(s, t, app, svc);
    }
  }

  lemma StillSelected(s: Store, t: Store, app: App, svc: Object)
    requires SelectsOthers(app) && svc in app.services && Selected(s, app.fork, svc)
    requires Writable(ForkParent(app.fork), ServicesList(app))
    requires Frames(s, t, ForkParent(app.fork), ServicesList(app), CanonicalCopyName(app.fork))
    ensures Selected(t, app.fork, svc)
  {
    var k := KeyOf(svc);
    if IsFinalKey(k, ServicesList(app), ForkParent(app.fork), CanonicalCopyName(app.fork)) {
      var i := FinalIsCopyKey(app, k);
      assert false;
    }
    assert !OwnedAt(s, k, ForkParent(app.fork), ServicesList(app));
  }

  lemma NewIsCopy(s: Store, t: Store, app: App, svc: Object)
    requires Expanded(s, app.fork, app) && Writable(ForkParent(app.fork), ServicesList(app)) && InPlace(t, app)
    requires Frames(s, t, ForkParent(app.fork), ServicesList(app), CanonicalCopyName(app.fork))
    requires Selected(t, app.fork, svc) && !Selected(s, app.fork, svc)
    ensures exists o :: Selected(s, app.fork, o) && svc.labels == CopyLabels(o.name, app.fork)
  {
    assert !Same(s, t, KeyOf(svc));
    var i := FinalIsCopyKey(app, KeyOf(svc));
    assert CopyInPlace(t, app, app.services[i]);
    assert Selected(s, app.fork, app.services[i]);
  }

  /** Why selectors must reject the labels of copies: the fork's selection is the same after a successful
      update exactly when its selector accepts the labels of none of the copies it makes. */
  lemma SelectionStable(s: Store, t: Store, f: ForkResource, app: App)
    requires ServicesReady(s, f, app) && SelectsOthers(app) && Refreshed(s, t, ForkParent(f), Lists(app))
    ensures (forall svc :: Selected(t, f, svc) <==> Selected(s, f, svc)) <==> RejectsCopies(app)
  {
    SelectedAfter(s, t, f, app);
    if svc :| svc in app.services && Matches(ServiceQuery(f), CopyLabels(svc.name, f)) {
      assert Selected(s, f, svc);
      CopySelectedToo(s, t, f, app, svc);
    }
  }

  lemma CopySelectedToo(s: Store, t: Store, f: ForkResource, app: App, svc: Object)
    requires ServicesReady(s, f, app) && SelectsOthers(app) && svc in app.services && CopyMade(t, svc, f)
    requires Matches(ServiceQuery(f), CopyLabels(svc.name, f))
    ensures exists o :: Selected(t, f, o) && !Selected(s, f, o)
  {
    var o := t[CopyKey(svc.name, f)];
    assert o.name == Shorten(CopyName(svc.name, f));
    assert Selected(s, f, o) <==> o in app.services;
    assert Selected(t, f, o);
  }
}
