/** The lists generated for a fork, the updater that applies them, and what forking preserves. */
module Microservice {
  import opened Kube
  import opened Refresh
  import opened RefreshTheorems
  import opened RefreshRetry
  import opened ForkApp

  // ---------------------------------------------------------------- the three lists

  function CopiesList(app: App): ObjectList {
    ObjectList(seq(|app.deployments|, i requires 0 <= i < |app.deployments| =>
                     CopyDeployment(app.deployments[i], app.fork, RoutesOf(app, app.deployments[i].name))),
               Kind.DeploymentCopy, NameIdentity)
  }

  function ServicesList(app: App): ObjectList {
    ObjectList(seq(|app.services|, i requires 0 <= i < |app.services| => CopyService(app.services[i], app.fork, app.existing)),
               Kind.Service, OriginalService)
  }

  function ConfigsList(app: App): ObjectList {
    ObjectList(seq(|app.services|, i requires 0 <= i < |app.services| => CopyConfig(app.services[i], app.fork, app.header)),
               Kind.VSConfig, ConfigHost)
  }

  function Lists(app: App): seq<ObjectList> {
    [CopiesList(app), ServicesList(app), ConfigsList(app)]
  }

  method GenerateDeploymentCopies(app: App) returns (items: seq<Object>)
    requires app.deployments != [] ==> app.fork.spec.deployments.Some?
    ensures items == CopiesList(app).items
  {
    items := [];
    for i := 0 to |app.deployments|
      invariant items == CopiesList(app).items[..i]
    {
      var d := app.deployments[i];
      var o := BuildDeploymentCopy(d, app.fork, if d.name in app.routes then app.routes[d.name] else []);
      items := items + [o];
    }
  }

  method GenerateServices(app: App) returns (items: seq<Object>)
    requires forall svc :: svc in app.services ==> svc.body.ServiceBody?
    ensures items == ServicesList(app).items
  {
    items := [];
    for i := 0 to |app.services|
      invariant items == ServicesList(app).items[..i]
    {
      var o := BuildServiceCopy(app.services[i], app.fork, app.existing);
      items := items + [o];
    }
  }

  method GenerateVSConfigs(app: App) returns (items: seq<Object>)
    ensures items == ConfigsList(app).items
  {
    items := [];
    for i := 0 to |app.services|
      invariant items == ConfigsList(app).items[..i]
    {
      items := items + [CopyConfig(app.services[i], app.fork, app.header)];
    }
  }

  lemma ExpandedShapes(s: Store, f: ForkResource, app: App)
    requires Expanded(s, f, app)
    ensures forall svc :: svc in app.services ==> svc.body.ServiceBody? && Selected(s, f, svc)
    ensures forall d :: d in app.deployments ==> d.body.DeploymentBody? && Candidate(s, f, d)
    ensures app.deployments != [] ==> f.spec.deployments.Some?
  {
    if app.deployments != [] {
      assert app.deployments[0] in app.deployments;
    }
  }

  // ---------------------------------------------------------------- the updater

  function ForkParent(f: ForkResource): Parent {
    Parent(SchemeGVK(Kind.Fork), Kind.Fork, f.namespace, f.name)
  }

  /** The lists were refreshed one after the other, each to the end. */
  ghost predicate Refreshed(s: Store, t: Store, p: Parent, lists: seq<ObjectList>)
    decreases |lists|
  {
    if lists == [] then t == s
    else exists m :: CompleteRun(s, m, p, lists[0]) && Refreshed(m, t, p, lists[1..])
  }

  /** The same, but the last list that was begun may be unfinished. */
  ghost predicate PartlyRefreshed(s: Store, t: Store, p: Parent, lists: seq<ObjectList>)
    decreases |lists|
  {
    if lists == [] then t == s
    else PartialRun(s, t, p, lists[0]) || exists m :: CompleteRun(s, m, p, lists[0]) && PartlyRefreshed(m, t, p, lists[1..])
  }

  lemma {:induction false} RefreshedIsPartly(s: Store, t: Store, p: Parent, lists: seq<ObjectList>)
    requires Refreshed(s, t, p, lists)
    ensures PartlyRefreshed(s, t, p, lists)
    decreases |lists|
  {
    if lists != [] {
      var m :| CompleteRun(s, m, p, lists[0]) && Refreshed(m, t, p, lists[1..]);
      RefreshedIsPartly(m, t, p, lists[1..]);
    }
  }

  // ---------------------------------------------------------------- kind by kind

  lemma OneKindTouched(s: Store, t: Store, p: Parent, list: ObjectList)
    requires WellKeyed(s) && Writable(p, list) && PartialRun(s, t, p, list)
    ensures WellKeyed(t) && forall kind :: kind != list.kind ==> SameKind(s, t, kind)
  {
    var listing, n: nat :| Answers(listing, s, p, list) && n <= |Plan(listing, p, list)| && t == Run(s, Plan(listing, p, list)[..n]);
    RunKeepsKeys(s, Plan(listing, p, list)[..n]);
    forall k: Key | k.kind != list.kind ensures Same(s, t, k) {
      PrefixOutcome(s, listing, p, list, n, k);
    }
  }

  lemma SameKindChain(s: Store, m: Store, t: Store, kind: Kind)
    requires SameKind(s, m, kind) && SameKind(m, t, kind)
    ensures SameKind(s, t, kind)
  {
    forall k: Key | k.kind == kind ensures Same(s, t, k) {
      assert Same(s, m, k) && Same(m, t, k);
    }
  }

  ghost predicate TouchesOnly(s: Store, t: Store, touched: Kind) {
    WellKeyed(t) && forall kind :: kind != touched ==> SameKind(s, t, kind)
  }

  /** At most one run over the list. */
  ghost predicate AtMostRun(s: Store, t: Store, p: Parent, list: ObjectList) {
    t == s || PartialRun(s, t, p, list)
  }

  lemma AtMostTouches(s: Store, t: Store, p: Parent, list: ObjectList)
    requires WellKeyed(s) && Writable(p, list) && AtMostRun(s, t, p, list)
    ensures TouchesOnly(s, t, list.kind)
  {
    if t != s { OneKindTouched(s, t, p, list); }
  }

  /** The first list of an update, and what is left of it. */
  lemma FirstOfPart(s: Store, t: Store, p: Parent, list: ObjectList, rest: seq<ObjectList>) returns (m: Store)
    requires PartlyRefreshed(s, t, p, [list] + rest)
    ensures AtMostRun(s, m, p, list) && (m == t || PartlyRefreshed(m, t, p, rest))
  {
    var all := [list] + rest;
    assert all[0] == list && all[1..] == rest;
    if PartialRun(s, t, p, all[0]) {
      m := t;
    } else {
      m :| CompleteRun(s, m, p, all[0]) && PartlyRefreshed(m, t, p, all[1..]);
      CompleteIsPartial(s, m, p, list);
    }
  }

  lemma FirstOfWhole(s: Store, t: Store, p: Parent, list: ObjectList, rest: seq<ObjectList>) returns (m: Store)
    requires Refreshed(s, t, p, [list] + rest)
    ensures CompleteRun(s, m, p, list) && Refreshed(m, t, p, rest)
  {
    var all := [list] + rest;
    assert all[0] == list && all[1..] == rest;
    m :| CompleteRun(s, m, p, all[0]) && Refreshed(m, t, p, all[1..]);
  }

  /** The stages of an update over three lists, finished or not. */
  lemma ThreeParts(s: Store, t: Store, p: Parent, a: ObjectList, b: ObjectList, c: ObjectList) returns (m: Store, m': Store)
    requires PartlyRefreshed(s, t, p, [a, b, c])
    ensures AtMostRun(s, m, p, a) && AtMostRun(m, m', p, b) && AtMostRun(m', t, p, c)
  {
    assert [a, b, c] == [a] + [b, c] && [b, c] == [b] + [c] && [c] == [c] + [];
    m := FirstOfPart(s, t, p, a, [b, c]);
    m' := m;
    if m != t {
      m' := FirstOfPart(m, t, p, b, [c]);
      if m' != t {
        var t' := FirstOfPart(m', t, p, c, []);
      }
    }
  }

  lemma ThreeWholes(s: Store, t: Store, p: Parent, a: ObjectList, b: ObjectList, c: ObjectList) returns (m: Store, m': Store)
    requires Refreshed(s, t, p, [a, b, c])
    ensures CompleteRun(s, m, p, a) && CompleteRun(m, m', p, b) && CompleteRun(m', t, p, c)
  {
    assert [a, b, c] == [a] + [b, c] && [b, c] == [b] + [c] && [c] == [c] + [];
    m := FirstOfWhole(s, t, p, a, [b, c]);
    m' := FirstOfWhole(m, t, p, b, [c]);
    var t' := FirstOfWhole(m', t, p, c, []);
  }

  /** What each stage of an update leaves alone. */
  ghost predicate StageKinds(s: Store, m: Store, m': Store, t: Store, app: App) {
    TouchesOnly(s, m, Kind.DeploymentCopy) && TouchesOnly(m, m', Kind.Service) && TouchesOnly(m', t, Kind.VSConfig)
  }

  ghost predicate ListsAreWritable(app: App) {
    && Writable(ForkParent(app.fork), CopiesList(app)) && Writable(ForkParent(app.fork), ServicesList(app))
    && Writable(ForkParent(app.fork), ConfigsList(app))
  }

  /** The stages of a fork's update, finished or not. */
  ghost predicate PartStages(s: Store, m: Store, m': Store, t: Store, app: App) {
    && AtMostRun(s, m, ForkParent(app.fork), CopiesList(app))
    && AtMostRun(m, m', ForkParent(app.fork), ServicesList(app))
    && AtMostRun(m', t, ForkParent(app.fork), ConfigsList(app))
  }

  lemma StagesOfPart(s: Store, t: Store, app: App) returns (m: Store, m': Store)
    requires WellKeyed(s) && ListsAreWritable(app) && PartlyRefreshed(s, t, ForkParent(app.fork), Lists(app))
    ensures PartStages(s, m, m', t, app) && StageKinds(s, m, m', t, app)
  {
    m, m' := ThreeParts(s, t, ForkParent(app.fork), CopiesList(app), ServicesList(app), ConfigsList(app));
    PartsTouch(s, m, m', t, app);
  }

  lemma PartsTouch(s: Store, m: Store, m': Store, t: Store, app: App)
    requires WellKeyed(s) && ListsAreWritable(app) && PartStages(s, m, m', t, app)
    ensures StageKinds(s, m, m', t, app)
  {
    AtMostTouches(s, m, ForkParent(app.fork), CopiesList(app));
    AtMostTouches(m, m', ForkParent(app.fork), ServicesList(app));
    AtMostTouches(m', t, ForkParent(app.fork), ConfigsList(app));
  }

  /** The stages of a fork's update that succeeded. */
  ghost predicate Stages(s: Store, m: Store, m': Store, t: Store, app: App) {
    && CompleteRun(s, m, ForkParent(app.fork), CopiesList(app))
    && CompleteRun(m, m', ForkParent(app.fork), ServicesList(app))
    && CompleteRun(m', t, ForkParent(app.fork), ConfigsList(app))
  }

  lemma StagesOf(s: Store, t: Store, app: App) returns (m: Store, m': Store)
    requires WellKeyed(s) && ListsAreWritable(app) && Refreshed(s, t, ForkParent(app.fork), Lists(app))
    ensures Stages(s, m, m', t, app) && StageKinds(s, m, m', t, app)
  {
    m, m' := ThreeWholes(s, t, ForkParent(app.fork), CopiesList(app), ServicesList(app), ConfigsList(app));
    WholesTouch(s, m, m', t, app);
  }

  lemma WholesTouch(s: Store, m: Store, m': Store, t: Store, app: App)
    requires WellKeyed(s) && ListsAreWritable(app) && Stages(s, m, m', t, app)
    ensures StageKinds(s, m, m', t, app)
  {
    CompleteIsPartial(s, m, ForkParent(app.fork), CopiesList(app));
    CompleteIsPartial(m, m', ForkParent(app.fork), ServicesList(app));
    CompleteIsPartial(m', t, ForkParent(app.fork), ConfigsList(app));
    PartsTouch(s, m, m', t, app);
  }

  /** What the stages together leave alone. */
  lemma KindsOfStages(s: Store, m: Store, m': Store, t: Store, app: App)
    requires StageKinds(s, m, m', t, app)
    ensures SameKind(m, t, Kind.DeploymentCopy) && SameKind(s, m', Kind.VSConfig) && OtherKindsSame(s, t)
  {
    SameKindChain(m, m', t, Kind.DeploymentCopy);
    SameKindChain(s, m, m', Kind.VSConfig);
    forall kind | kind != Kind.DeploymentCopy && kind != Kind.Service && kind != Kind.VSConfig ensures SameKind(s, t, kind) {
      SameKindChain(s, m, m', kind);
      SameKindChain(s, m', t, kind);
    }
    forall k: Key | k.kind != Kind.DeploymentCopy && k.kind != Kind.Service && k.kind != Kind.VSConfig ensures Same(s, t, k) {
      assert SameKind(s, t, k.kind);
    }
  }

  ghost predicate OtherKindsSame(s: Store, t: Store) {
    forall k: Key :: k.kind != Kind.DeploymentCopy && k.kind != Kind.Service && k.kind != Kind.VSConfig ==> Same(s, t, k)
  }

  method RefreshOne(c: Cluster, p: Parent, list: ObjectList) returns (r: Result<()>)
    requires c.Valid()
    modifies c
    ensures c.Valid()
    ensures PartialRun(old(c.store), c.store, p, list)
    ensures r.Ok? ==> CompleteRun(old(c.store), c.store, p, list)
  {
    ghost var listing, done;
    r, listing, done := Refresh.Refresh(c, p, list);
    if r.Ok? {
      assert Plan(listing, p, list)[..done] == Plan(listing, p, list);
    }
  }

  method RefreshAll(c: Cluster, p: Parent, lists: seq<ObjectList>) returns (r: Result<()>)
    requires c.Valid()
    modifies c
    ensures c.Valid()
    ensures if r.Ok? then Refreshed(old(c.store), c.store, p, lists) else PartlyRefreshed(old(c.store), c.store, p, lists)
    decreases |lists|
  {
    if lists == [] { return Ok(()); }
    r := RefreshOne(c, p, lists[0]);
    if r.Err? { return; }
    r := RefreshAll(c, p, lists[1..]);
  }

  ghost predicate IsFork(s: Store, f: ForkResource) {
    var k := Key(Kind.Fork, f.namespace, f.name);
    k in s && s[k].body == ForkBody(f.spec)
  }

  /** `microserviceUpdater.Update`.  A fork that is gone is no error: owner references clean up. */
  method Update(c: Cluster, namespace: string, name: string) returns (r: Result<()>, ghost app: Option<App>)
    requires c.Valid()
    modifies c
    ensures c.Valid()
    ensures app.None? ==> c.store == old(c.store)
    ensures app.None? && r.Ok? ==> Key(Kind.Fork, namespace, name) !in old(c.store)
    ensures app.Some? ==>
      && app.value.fork.namespace == namespace && app.value.fork.name == name && IsFork(old(c.store), app.value.fork)
      && Expanded(old(c.store), app.value.fork, app.value)
      && if r.Ok? then Refreshed(old(c.store), c.store, ForkParent(app.value.fork), Lists(app.value))
         else PartlyRefreshed(old(c.store), c.store, ForkParent(app.value.fork), Lists(app.value))
  {
    app := None;
    var found := c.Get(Key(Kind.Fork, namespace, name));
    if found.Err? { return Err(found.error), app; }
    if found.value.None? { return Ok(()), app; }
    assert KeyOf(found.value.value) == Key(Kind.Fork, namespace, name);
    var f := ForkResource(name, namespace, found.value.value.body.fork);
    var built := Build(c, f);
    if built.Err? { return Err(built.error), app; }
    app := Some(built.value);
    ExpandedShapes(c.store, f, built.value);
    var copies := GenerateDeploymentCopies(built.value);
    var services := GenerateServices(built.value);
    var configs := GenerateVSConfigs(built.value);
    var lists := [ObjectList(copies, Kind.DeploymentCopy, NameIdentity),
                  ObjectList(services, Kind.Service, OriginalService),
                  ObjectList(configs, Kind.VSConfig, ConfigHost)];
    r := RefreshAll(c, ForkParent(f), lists);
  }

  // ---------------------------------------------------------------- forking preserves routability

  function TemplateLabels(f: ForkResource): Labels {
    if f.spec.deployments.None? || f.spec.deployments.value.template.None? then map[]
    else f.spec.deployments.value.template.value.labels
  }

  /** The copied service picks the copied deployment. */
  predicate CopyRoutes(app: App, svc: Object, d: Object) {
    HasAll(CopySelector(svc.name, app.fork), CustomLabels(app.fork, RoutesOf(app, d.name)))
  }

  /** Forking keeps who routes to whom. */
  ghost predicate RoutabilityPreserved(app: App) {
    forall svc, d :: svc in app.services && d in app.deployments ==> (CopyRoutes(app, svc, d) <==> Routable(d, svc))
  }

  /** The pod template does not interfere: its labels leave the fork's identifier alone, and where
      they set a routing label they say what is the case anyway. */
  ghost predicate TemplateHarmless(app: App) {
    var t := TemplateLabels(app.fork);
    app.deployments == [] ||
    ((IDENTIFIER in t ==> t[IDENTIFIER] == app.fork.spec.identifier)
     && forall svc, d :: svc in app.services && d in app.deployments && RoutingLabel(svc.name) in t ==>
          (t[RoutingLabel(svc.name)] == "true" <==> Routable(d, svc)))
  }

  lemma SelectedByName(s: Store, f: ForkResource, app: App, svc: Object, d: Object)
    requires Reads(s, f, app) && svc in app.services
    ensures svc.name in RoutedFrom(app.services, d) <==> Routable(d, svc)
  {
    if svc.name in RoutedFrom(app.services, d) {
      var other :| other in app.services && Routable(d, other) && other.name == svc.name;
      assert KeyOf(other) == KeyOf(svc);
    }
  }

  lemma OwnLabelAt(f: ForkResource, services: set<string>, service: string)
    ensures IDENTIFIER in OwnLabels(f, services) && OwnLabels(f, services)[IDENTIFIER] == f.spec.identifier
    ensures RoutingLabel(service) in OwnLabels(f, services) <==> service in services
    ensures service in services ==> OwnLabels(f, services)[RoutingLabel(service)] == "true"
  {
    RoutingLabelsDistinct(service, service);
    var keys := set s | s in services :: RoutingLabel(s);
    if RoutingLabel(service) in keys {
      var s :| s in services && RoutingLabel(s) == RoutingLabel(service);
      RoutingLabelsDistinct(s, service);
    }
    forall s ensures RoutingLabel(s) != IDENTIFIER {
      RoutingLabelsDistinct(s, s);
    }
  }

  lemma SelectsWhen(f: ForkResource, service: string, labels: Labels)
    ensures HasAll(CopySelector(service, f), labels) <==>
      && IDENTIFIER in labels && labels[IDENTIFIER] == f.spec.identifier
      && RoutingLabel(service) in labels && labels[RoutingLabel(service)] == "true"
  {
    RoutingLabelsDistinct(service, service);
    var sel := CopySelector(service, f);
    assert sel.Keys == {RoutingLabel(service), IDENTIFIER};
    assert sel[RoutingLabel(service)] == "true" && sel[IDENTIFIER] == f.spec.identifier;
  }

  lemma CustomLabelsLayered(f: ForkResource, services: set<string>)
    ensures CustomLabels(f, services) == OwnLabels(f, services) + TemplateLabels(f)
  {
    assert OwnLabels(f, services) + map[] == OwnLabels(f, services);
  }

  /** When a copied service picks a copy, label by label. */
  lemma CopyRoutesWhen(s: Store, f: ForkResource, app: App, svc: Object, d: Object)
    requires Reads(s, f, app) && svc in app.services && d in app.deployments
    ensures var t, tag := TemplateLabels(f), RoutingLabel(svc.name);
      CopyRoutes(app, svc, d) <==>
        && (IDENTIFIER in t ==> t[IDENTIFIER] == f.spec.identifier)
        && if tag in t then t[tag] == "true" else Routable(d, svc)
  {
    OwnLabelAt(f, RoutesOf(app, d.name), svc.name);
    SelectedByName(s, f, app, svc, d);
    CustomLabelsLayered(f, RoutesOf(app, d.name));
    SelectsWhen(f, svc.name, CustomLabels(f, RoutesOf(app, d.name)));
  }

  /** Forking preserves routability, for all selected services and copied deployments,
      exactly when the pod template does not interfere. */
  lemma ForkingPreservesRoutability(s: Store, f: ForkResource, app: App)
    requires Reads(s, f, app)
    ensures RoutabilityPreserved(app) <==> TemplateHarmless(app)
  {
    forall svc, d | svc in app.services && d in app.deployments
      ensures CopyRoutes(app, svc, d) <==>
        && (IDENTIFIER in TemplateLabels(f) ==> TemplateLabels(f)[IDENTIFIER] == f.spec.identifier)
        && if RoutingLabel(svc.name) in TemplateLabels(f) then TemplateLabels(f)[RoutingLabel(svc.name)] == "true" else Routable(d, svc)
    {
      CopyRoutesWhen(s, f, app, svc, d);
    }
    if RoutabilityPreserved(app) && app.deployments != [] {
      var d := app.deployments[0];
      assert d in app.deployments;
      var svc :| svc in app.services && Routable(d, svc);
      assert CopyRoutes(app, svc, d);
    }
  }
}
