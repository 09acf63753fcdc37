/** The containers `kubeforkctl` switches the image of, found by its own selection of deployments,
    and how that selection compares with the controller's. */
module Preview {
  import opened Text
  import opened Kube
  import opened ForkApp
  import Microservice

  // ---------------------------------------------------------------- selecting

  /** `lib.Merge`. */
  method Merge(m1: Labels, m2: Labels) returns (ans: Labels)
    ensures ans == m1 + m2
  {
    ans := map[];
    var todo := m1.Keys;
    while todo != {}
      invariant todo <= m1.Keys && ans == m1 - todo
    {
      var k :| k in todo;
      ans := ans[k := m1[k]];
      todo := todo - {k};
    }
    todo := m2.Keys;
    assert ans == m1 && m2 - m2.Keys == map[];
    while todo != {}
      invariant todo <= m2.Keys && ans == m1 + (m2 - todo)
    {
      var k :| k in todo;
      OneMoreKey(m1, m2, todo, k);
      ans := ans[k := m2[k]];
      todo := todo - {k};
    }
    assert m2 - todo == m2;
  }

  lemma OneMoreKey(m1: Labels, m2: Labels, todo: set<string>, k: string)
    requires k in todo && todo <= m2.Keys
    ensures (m1 + (m2 - todo))[k := m2[k]] == m1 + (m2 - (todo - {k}))
  {}

  predicate Empty(s: LabelSelector) {
    s.matchLabels == map[] && s.matchExpressions == []
  }

  /** An empty namespace stands for all of them. */
  function Scope(namespace: string): Option<string> {
    if namespace == "" then None else Some(namespace)
  }

  /** The selector used for the deployments of one service. */
  function MergedSelector(svc: Object, sel: LabelSelector): LabelSelector
    requires svc.body.ServiceBody?
  {
    LabelSelector(svc.body.service.selector + sel.matchLabels, sel.matchExpressions)
  }

  /** A list call that sends its selector as text; an empty selector prints as `<none>`, which the
      server cannot read. */
  method ListByText(c: Cluster, kind: Kind, namespace: string, sel: LabelSelector) returns (r: Result<seq<Object>>)
    requires c.Valid()
    ensures r.Ok? ==> !Empty(sel) && Enumerates(r.value, c.store, kind, Scope(namespace), By(sel))
    ensures r == Err(InvalidSelector) ==> Empty(sel)
  {
    if Empty(sel) { return Err(InvalidSelector); }
    r := c.List(kind, Scope(namespace), By(sel));
    if r.Err? { return Err(ApiFailure); }
  }

  predicate PreviewSelects(s: Store, namespace: string, serviceSelector: LabelSelector, svc: Object) {
    Listed(s, Kind.Service, Scope(namespace), By(serviceSelector), svc)
  }

  /** The deployment is found on account of this service. */
  predicate FoundFor(s: Store, namespace: string, sel: LabelSelector, svc: Object, d: Object)
    requires svc.body.ServiceBody?
  {
    Listed(s, Kind.Deployment, Scope(namespace), By(MergedSelector(svc, sel)), d)
  }

  ghost predicate Previewed(s: Store, namespace: string, serviceSelector: LabelSelector, sel: LabelSelector, d: Object) {
    exists svc :: PreviewSelects(s, namespace, serviceSelector, svc) && FoundFor(s, namespace, sel, svc, d)
  }

  function ImageName(image: string): string {
    Split(image, ":")[0]
  }

  /** The deployment has a container of this name whose image is to be switched. */
  predicate Switches(d: Object, image: string, name: string) {
    d.body.DeploymentBody? && exists c :: c in d.body.deployment.containers && ImageName(c.image) == ImageName(image) && c.name == name
  }

  /** `part` is all of `s` that stands before the first colon. */
  ghost predicate BeforeColon(part: string, s: string) {
    part <= s && Lacks(part, ':') && (part == s || s[|part|] == ':')
  }

  lemma ImageNameMeaning(image: string, part: string)
    ensures part == ImageName(image) <==> BeforeColon(part, image)
  {
    SplitMeaning(image, ":");
    FirstIndex(image, ":");
    SepAtIndex(image, ":");
    forall j | 0 <= j < |ImageName(image)| ensures ImageName(image)[j] != ':' { assert !(":" <= ImageName(image)[j..]); }
    if BeforeColon(part, image) { OneBeforeColon(part, ImageName(image), image); }
  }

  lemma OneBeforeColon(a: string, b: string, s: string)
    requires BeforeColon(a, s) && BeforeColon(b, s)
    ensures a == b
  {
    NotLonger(a, b, s);
    NotLonger(b, a, s);
    assert a == s[..|a|] && b == s[..|b|];
  }

  lemma NotLonger(a: string, b: string, s: string)
    requires BeforeColon(a, s) && BeforeColon(b, s)
    ensures |b| <= |a|
  {
    assert forall i :: 0 <= i < |b| ==> b[i] == s[i];
  }

  /** Which containers are switched: those whose image and the one asked for agree on all that stands before the first
      colon of each. */
  lemma SwitchesMeaning(d: Object, image: string, name: string)
    requires d.body.DeploymentBody?
    ensures Switches(d, image, name) <==>
      exists c, part :: c in d.body.deployment.containers && c.name == name && BeforeColon(part, c.image) && BeforeColon(part, image)
  {
    ImageNameMeaning(image, ImageName(image));
    forall part ensures BeforeColon(part, image) <==> part == ImageName(image) { ImageNameMeaning(image, part); }
    forall c: Container, part ensures BeforeColon(part, c.image) <==> part == ImageName(c.image) { ImageNameMeaning(c.image, part); }
  }

  /** What the preview finds for a service: deployments of the namespace, or of any if none is given, that have all labels
      of the selector given, and all of the service's selector but where the given one says otherwise. */
  lemma FoundForMeaning(s: Store, namespace: string, sel: LabelSelector, svc: Object, d: Object)
    requires svc.body.ServiceBody?
    ensures FoundFor(s, namespace, sel, svc, d) <==>
      && KeyOf(d) in s && s[KeyOf(d)] == d && d.body.DeploymentBody? && (namespace == "" || d.namespace == namespace)
      && (forall k, v :: (k, v) in sel.matchLabels.Items ==> (k, v) in d.labels.Items)
      && (forall k, v :: (k, v) in svc.body.service.selector.Items && k !in sel.matchLabels ==> (k, v) in d.labels.Items)
      && forall i :: 0 <= i < |sel.matchExpressions| ==> Meets(sel.matchExpressions[i], d.labels)
  {
    AcceptsMeaning(Some(MergedSelector(svc, sel)), d.labels);
    var own, given := svc.body.service.selector, sel.matchLabels;
    forall k, v ensures (k, v) in (own + given).Items <==> (k, v) in given.Items || ((k, v) in own.Items && k !in given) {
      assert k in own + given <==> k in own || k in given;
    }
  }

  /** A selector is empty if it asks for nothing, and then it selects everything. */
  lemma EmptyMeaning(s: LabelSelector, labels: Labels)
    ensures Empty(s) <==> |s.matchLabels| + |s.matchExpressions| == 0
    ensures Empty(s) ==> Selects(s, labels)
  {}

  method MatchingContainers(d: Object, image: string, found: map<string, Container>) returns (more: map<string, Container>)
    requires d.body.DeploymentBody?
    ensures forall n :: n in more <==> n in found || Switches(d, image, n)
  {
    more := found;
    var cs := d.body.deployment.containers;
    for i := 0 to |cs|
      invariant forall n :: n in more <==> n in found || exists j :: 0 <= j < i && ImageName(cs[j].image) == ImageName(image) && cs[j].name == n
    {
      if ImageName(cs[i].image) == ImageName(image) {
        more := more[cs[i].name := cs[i]];
      }
    }
    forall n ensures n in more <==> n in found || Switches(d, image, n) {
      if Switches(d, image, n) {
        var c :| c in cs && ImageName(c.image) == ImageName(image) && c.name == n;
        var j :| 0 <= j < |cs| && cs[j] == c;
      }
    }
  }

  /** The containers of the deployments found for one service. */
  method ContainersOf(c: Cluster, namespace: string, image: string, svc: Object, sel: LabelSelector, found: map<string, Container>)
    returns (r: Result<map<string, Container>>)
    requires c.Valid() && svc.body.ServiceBody?
    ensures r.Ok? ==> !Empty(MergedSelector(svc, sel))
    ensures r.Ok? ==> forall n :: n in r.value <==> n in found || exists d :: FoundFor(c.store, namespace, sel, svc, d) && Switches(d, image, n)
    ensures r == Err(InvalidSelector) ==> Empty(MergedSelector(svc, sel))
  {
    var merged := Merge(svc.body.service.selector, sel.matchLabels);
    var ds := ListByText(c, Kind.Deployment, namespace, LabelSelector(merged, sel.matchExpressions));
    if ds.Err? { return Err(ds.error); }
    var more := found;
    for i := 0 to |ds.value|
      invariant forall n :: n in more <==> n in found || exists j :: 0 <= j < i && Switches(ds.value[j], image, n)
    {
      assert ds.value[i] in ds.value;
      more := MatchingContainers(ds.value[i], image, more);
    }
    forall n ensures n in more <==> n in found || exists d :: FoundFor(c.store, namespace, sel, svc, d) && Switches(d, image, n) {
      if d :| FoundFor(c.store, namespace, sel, svc, d) && Switches(d, image, n) {
        assert d in ds.value;
        var j :| 0 <= j < |ds.value| && ds.value[j] == d;
      }
      if j :| 0 <= j < |ds.value| && Switches(ds.value[j], image, n) {
        assert ds.value[j] in ds.value;
      }
    }
    r := Ok(more);
  }

  method ListKeys(m: map<string, Container>) returns (names: seq<string>)
    ensures forall n :: n in names <==> n in m
    ensures forall i, j :: 0 <= i < j < |names| ==> names[i] != names[j]
  {
    names := [];
    var todo := m.Keys;
    while todo != {}
      invariant todo <= m.Keys && forall n :: n in names <==> n in m && n !in todo
      invariant forall i, j :: 0 <= i < j < |names| ==> names[i] != names[j]
    {
      var k :| k in todo;
      names := names + [k];
      todo := todo - {k};
    }
  }

  /** Some list call has an empty selector. */
  ghost predicate Unlistable(s: Store, namespace: string, serviceSelector: LabelSelector, sel: LabelSelector) {
    Empty(serviceSelector) || exists svc :: PreviewSelects(s, namespace, serviceSelector, svc) && Empty(MergedSelector(svc, sel))
  }

  /** `GetAllContainersByImageNameAndServiceAndDeploymentSelector`. */
  method SelectContainers(c: Cluster, namespace: string, image: string, serviceSelector: LabelSelector, sel: LabelSelector)
    returns (r: Result<seq<string>>)
    requires c.Valid()
    ensures r.Ok? ==> forall n :: n in r.value <==>
      exists d :: Previewed(c.store, namespace, serviceSelector, sel, d) && Switches(d, image, n)
    ensures r.Ok? ==> forall i, j :: 0 <= i < j < |r.value| ==> r.value[i] != r.value[j]
    ensures r.Ok? ==> !Unlistable(c.store, namespace, serviceSelector, sel)
    ensures r == Err(InvalidSelector) ==> Unlistable(c.store, namespace, serviceSelector, sel)
  {
    var ss := ListByText(c, Kind.Service, namespace, serviceSelector);
    if ss.Err? { return Err(ss.error); }
    var containers: map<string, Container> := map[];
    for i := 0 to |ss.value|
      invariant forall j :: 0 <= j < i ==> ss.value[j].body.ServiceBody? && !Empty(MergedSelector(ss.value[j], sel))
      invariant forall n :: n in containers <==>
        exists j, d :: 0 <= j < i && FoundFor(c.store, namespace, sel, ss.value[j], d) && Switches(d, image, n)
    {
      assert ss.value[i] in ss.value;
      var more := ContainersOf(c, namespace, image, ss.value[i], sel, containers);
      if more.Err? { return Err(more.error); }
      containers := more.value;
    }
    forall n ensures n in containers <==> exists d :: Previewed(c.store, namespace, serviceSelector, sel, d) && Switches(d, image, n) {
      FoundIsPreviewed(c.store, namespace, serviceSelector, sel, ss.value, image, n);
    }
    forall svc | PreviewSelects(c.store, namespace, serviceSelector, svc) ensures !Empty(MergedSelector(svc, sel)) {
      var j :| 0 <= j < |ss.value| && ss.value[j] == svc;
    }
    var names := ListKeys(containers);
    r := Ok(names);
  }

  lemma FoundIsPreviewed(s: Store, namespace: string, serviceSelector: LabelSelector, sel: LabelSelector,
                         services: seq<Object>, image: string, n: string)
    requires Enumerates(services, s, Kind.Service, Scope(namespace), By(serviceSelector))
    requires forall j :: 0 <= j < |services| ==> services[j].body.ServiceBody?
    ensures (exists j, d :: 0 <= j < |services| && FoundFor(s, namespace, sel, services[j], d) && Switches(d, image, n)) <==>
      exists d :: Previewed(s, namespace, serviceSelector, sel, d) && Switches(d, image, n)
  {
    if j, d :| 0 <= j < |services| && FoundFor(s, namespace, sel, services[j], d) && Switches(d, image, n) {
      assert services[j] in services;
      assert Previewed(s, namespace, serviceSelector, sel, d);
    }
    if d :| Previewed(s, namespace, serviceSelector, sel, d) && Switches(d, image, n) {
      var svc :| PreviewSelects(s, namespace, serviceSelector, svc) && FoundFor(s, namespace, sel, svc, d);
      assert svc in services;
      var j :| 0 <= j < |services| && services[j] == svc;
    }
  }

  // ---------------------------------------------------------------- the preview and the controller

  /** The fork that is generated asks for the same selectors. */
  predicate AsksFor(f: ForkResource, serviceSelector: LabelSelector, sel: LabelSelector) {
    && f.namespace != ""
    && f.spec.services == Some(ForkService(Some(serviceSelector)))
    && f.spec.deployments.Some? && f.spec.deployments.value.selector == Some(sel)
  }

  /** On the keys of the service's selector a deployment is labelled as its pods are. */
  predicate LabelledAlike(svc: Object, d: Object)
    requires svc.body.ServiceBody? && d.body.DeploymentBody?
  {
    forall k :: k in svc.body.service.selector ==>
      (k in d.labels <==> k in d.body.deployment.podLabels)
      && (k in d.labels ==> d.labels[k] == d.body.deployment.podLabels[k])
  }

  ghost predicate AllLabelledAlike(s: Store, f: ForkResource) {
    forall svc, d :: Selected(s, f, svc) && Candidate(s, f, d) ==> LabelledAlike(svc, d)
  }

  /** The two selectors want different values for a key. */
  predicate Conflict(svc: Object, sel: LabelSelector)
    requires svc.body.ServiceBody?
  {
    exists k :: k in svc.body.service.selector && k in sel.matchLabels && svc.body.service.selector[k] != sel.matchLabels[k]
  }

  /** One service and one deployment: the preview finds it unless the controller would not copy it,
      but for services whose selector conflicts with the one given. */
  lemma FoundForWhen(s: Store, f: ForkResource, serviceSelector: LabelSelector, sel: LabelSelector, svc: Object, d: Object)
    requires AsksFor(f, serviceSelector, sel) && AllLabelledAlike(s, f) && Selected(s, f, svc)
    ensures FoundFor(s, f.namespace, sel, svc, d) && !Conflict(svc, sel) <==> Candidate(s, f, d) && Routable(d, svc)
  {
    var own, given := svc.body.service.selector, sel.matchLabels;
    if FoundFor(s, f.namespace, sel, svc, d) {
      assert HasAll(given, d.labels) by { assert forall k :: k in given ==> k in own + given; }
      assert Candidate(s, f, d) && LabelledAlike(svc, d);
      assert forall k :: k in own ==> k in own + given;
    }
  }

  /** The deployments found by the preview on account of services without a conflict are exactly those
      the controller copies. */
  lemma PreviewMatchesController(s: Store, f: ForkResource, app: App, serviceSelector: LabelSelector, sel: LabelSelector, d: Object)
    requires Expanded(s, f, app) && AsksFor(f, serviceSelector, sel) && AllLabelledAlike(s, f)
    ensures d in app.deployments <==>
      exists svc :: PreviewSelects(s, f.namespace, serviceSelector, svc) && FoundFor(s, f.namespace, sel, svc, d) && !Conflict(svc, sel)
  {
    forall svc | svc in app.services
      ensures FoundFor(s, f.namespace, sel, svc, d) && !Conflict(svc, sel) <==> Candidate(s, f, d) && Routable(d, svc)
    {
      FoundForWhen(s, f, serviceSelector, sel, svc, d);
    }
    assert forall svc :: svc in app.services <==> PreviewSelects(s, f.namespace, serviceSelector, svc);
  }

  /** Without conflicts the preview and the controller agree on every deployment. */
  lemma PreviewAgrees(s: Store, f: ForkResource, app: App, serviceSelector: LabelSelector, sel: LabelSelector)
    requires Expanded(s, f, app) && AsksFor(f, serviceSelector, sel) && AllLabelledAlike(s, f)
    ensures forall d :: d in app.deployments ==> Previewed(s, f.namespace, serviceSelector, sel, d)
    ensures (forall svc :: svc in app.services ==> !Conflict(svc, sel)) ==>
      forall d :: d in app.deployments <==> Previewed(s, f.namespace, serviceSelector, sel, d)
  {
    forall d ensures d in app.deployments <==>
        exists svc :: PreviewSelects(s, f.namespace, serviceSelector, svc) && FoundFor(s, f.namespace, sel, svc, d) && !Conflict(svc, sel)
    {
      PreviewMatchesController(s, f, app, serviceSelector, sel, d);
    }
    assert forall svc :: svc in app.services <==> PreviewSelects(s, f.namespace, serviceSelector, svc);
  }

  // ---------------------------------------------------------------- the generated fork

  /** `NewFork`, with the deadline worked out by the caller's clock. */
  function NewFork(identifier: string, namespace: string, manager: string, replicas: int, deadline: int,
                   serviceSelector: LabelSelector, sel: LabelSelector, containers: seq<Container>, annotations: Labels): ForkResource {
    ForkResource("kubefork-" + identifier, namespace,
      ForkSpec(manager, identifier, Some(deadline), None, Some(ForkService(Some(serviceSelector))),
               Some(ForkDeployment(Some(sel), Some(PodTemplate(map["app" := identifier, "role" := "fork"], annotations, containers)),
                                   Some(replicas)))))
  }

  /** A DeploymentCopy as the command asks for it. */
  ghost predicate Generated(o: Object, identifier: string, replicas: int, containers: seq<Container>, annotations: Labels) {
    && o.body.DeploymentCopyBody? && o.body.copy.replicas == replicas && o.body.copy.customAnnotations == annotations
    && o.body.copy.targetContainers == containers
    && ("app", identifier) in o.body.copy.customLabels.Items && ("role", "fork") in o.body.copy.customLabels.Items
  }

  lemma GeneratedCopies(f: ForkResource, app: App, identifier: string, replicas: int, containers: seq<Container>, annotations: Labels)
    requires f.spec.deployments.Some? && f.spec.deployments.value.replicas == Some(replicas)
    requires f.spec.deployments.value.template == Some(PodTemplate(map["app" := identifier, "role" := "fork"], annotations, containers))
    ensures forall d, o :: IsDeploymentCopy(o, d, f, RoutedFrom(app.services, d)) ==> Generated(o, identifier, replicas, containers, annotations)
  {
    var t := map["app" := identifier, "role" := "fork"];
    assert "app" in t && "role" in t && t["role"] == "fork" && "app"[0] != "role"[0] && t["app"] == identifier;
    forall d, o | IsDeploymentCopy(o, d, f, RoutedFrom(app.services, d))
      ensures Generated(o, identifier, replicas, containers, annotations)
    {
      var copies := o.body.copy.targetContainers;
      forall i | 0 <= i < |containers| ensures copies[i] == containers[i] {}
    }
  }

  /** A generated fork is named after its identifier, selects what the selectors given accept, and asks for copies with
      the replicas, annotations and containers given. */
  lemma GeneratedForkMeaning(s: Store, app: App, identifier: string, namespace: string, manager: string, replicas: int, deadline: int,
                             serviceSelector: LabelSelector, sel: LabelSelector, containers: seq<Container>, annotations: Labels)
    requires Reads(s, NewFork(identifier, namespace, manager, replicas, deadline, serviceSelector, sel, containers, annotations), app)
    ensures app.fork.name == "kubefork-" + identifier && app.fork.namespace == namespace
    ensures app.fork.spec.identifier == identifier && app.fork.spec.manager == manager && app.fork.spec.deadline == Some(deadline)
    ensures forall svc :: svc in app.services ==> Accepts(Some(serviceSelector), svc.labels)
    ensures forall d :: d in app.deployments ==> Accepts(Some(sel), d.labels)
    ensures forall d, o :: IsDeploymentCopy(o, d, app.fork, RoutedFrom(app.services, d)) ==> Generated(o, identifier, replicas, containers, annotations)
  {
    SelectionMeaning(s, app.fork, app);
    GeneratedCopies(app.fork, app, identifier, replicas, containers, annotations);
  }

  /** A generated fork never upsets who routes to whom, and its preview is of the deployments it copies
      wherever deployments are labelled as their pods and the selectors do not conflict. */
  lemma GeneratedFork(s: Store, f: ForkResource, app: App, identifier: string, namespace: string, manager: string,
                      replicas: int, deadline: int, serviceSelector: LabelSelector, sel: LabelSelector,
                      containers: seq<Container>, annotations: Labels)
    requires f == NewFork(identifier, namespace, manager, replicas, deadline, serviceSelector, sel, containers, annotations)
    requires Expanded(s, f, app)
    ensures Microservice.RoutabilityPreserved(app)
    ensures namespace != "" && AllLabelledAlike(s, f) && (forall svc :: svc in app.services ==> !Conflict(svc, sel)) ==>
      forall d :: d in app.deployments <==> Previewed(s, namespace, serviceSelector, sel, d)
  {
    var t := Microservice.TemplateLabels(f);
    assert t.Keys == {"app", "role"};
    assert IDENTIFIER !in t && forall svc :: RoutingLabel(svc) !in t by {
      assert |IDENTIFIER| > 4;
      forall svc ensures RoutingLabel(svc) !in t { assert |RoutingLabel(svc)| > 4; }
    }
    Microservice.ForkingPreservesRoutability(s, f, app);
    if namespace != "" && AllLabelledAlike(s, f) {
      PreviewAgrees(s, f, app, serviceSelector, sel);
    }
  }
}
