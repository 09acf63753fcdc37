/** Expanding a fork: the selected services and the deployments they route to become copied services,
    DeploymentCopies and VSConfigs. */
module ForkApp {
  import opened Kube
  import opened Text
  import opened Refresh
  import opened RefreshRetry

  const ROUTED_FROM: string := "fork.k8s.wantedly.com/routed-from"
  const IDENTIFIER: string := "fork.k8s.wantedly.com/identifier"
  const ORIGINAL: string := "fork.k8s.wantedly.com/original-service-name"

  datatype ForkResource = ForkResource(name: string, namespace: string, spec: ForkSpec)

  /** What `Build` collects about a fork. */
  datatype App = App(services: seq<Object>, deployments: seq<Object>, existing: map<string, Object>,
                     routes: map<string, seq<string>>, header: string, fork: ForkResource)

  // ---------------------------------------------------------------- what is selected

  function ServiceQuery(f: ForkResource): Query {
    if f.spec.services.None? then Nothing else AsQuery(f.spec.services.value.selector)
  }

  function DeploymentQuery(f: ForkResource): Query {
    if f.spec.deployments.None? then Nothing else AsQuery(f.spec.deployments.value.selector)
  }

  predicate Selected(s: Store, f: ForkResource, svc: Object) {
    Listed(s, Kind.Service, Some(f.namespace), ServiceQuery(f), svc)
  }

  predicate Candidate(s: Store, f: ForkResource, d: Object) {
    Listed(s, Kind.Deployment, Some(f.namespace), DeploymentQuery(f), d)
  }

  /** `routableFrom`: the service's selector picks the pods of the deployment. */
  predicate Routable(d: Object, svc: Object) {
    d.body.DeploymentBody? && svc.body.ServiceBody? && HasAll(svc.body.service.selector, d.body.deployment.podLabels)
  }

  // ---------------------------------------------------------------- names and labels

  function RoutingLabel(service: string): string {
    ROUTED_FROM + "-" + service
  }

  lemma RoutingLabelsDistinct(a: string, b: string)
    ensures RoutingLabel(a) == RoutingLabel(b) <==> a == b
    ensures RoutingLabel(a) != IDENTIFIER
  {
    var n := |ROUTED_FROM| + 1;
    assert RoutingLabel(a)[n..] == a && RoutingLabel(b)[n..] == b;
    assert RoutingLabel(a)[22] == 'r' && IDENTIFIER[22] == 'i';
  }

  function CopyName(original: string, f: ForkResource): string {
    original + "-" + f.name
  }

  function CopySelector(service: string, f: ForkResource): Labels {
    map[RoutingLabel(service) := "true", IDENTIFIER := f.spec.identifier]
  }

  function CopyLabels(service: string, f: ForkResource): Labels {
    map[ORIGINAL := service, IDENTIFIER := f.spec.identifier]
  }

  // ---------------------------------------------------------------- copies

  function CopyPort(p: Port): Port {
    Port(p.name, p.protocol, p.appProtocol, p.port, p.targetPort, 0)
  }

  function CopyPorts(ports: seq<Port>): seq<Port> {
    seq(|ports|, i requires 0 <= i < |ports| => CopyPort(ports[i]))
  }

  function KnownClusterIP(name: string, existing: map<string, Object>): string {
    if name in existing && existing[name].body.ServiceBody? then existing[name].body.service.clusterIP else ""
  }

  function PortsOf(svc: Object): seq<Port> {
    if svc.body.ServiceBody? then svc.body.service.ports else []
  }

  /** The copied service with its labels. */
  function CopyService(svc: Object, f: ForkResource, existing: map<string, Object>): Object {
    Object(CopyName(svc.name, f), f.namespace, CopyLabels(svc.name, f), [],
           ServiceBody(ServiceSpec(KnownClusterIP(CopyName(svc.name, f), existing), "ClusterIP",
                                   CopyPorts(PortsOf(svc)), CopySelector(svc.name, f))))
  }

  /** `mergeMap` of two maps: the second wins. */
  function Merged(a: Labels, b: Labels): Labels {
    a + b
  }

  function RoutedLabels(services: set<string>): Labels {
    var keys := set s | s in services :: RoutingLabel(s);
    map k | k in keys :: "true"
  }

  function OwnLabels(f: ForkResource, services: set<string>): Labels {
    map[IDENTIFIER := f.spec.identifier] + RoutedLabels(services)
  }

  /** The labels of a copy's pods: the fork's own, the template's on top. */
  function CustomLabels(f: ForkResource, services: set<string>): Labels {
    var own := OwnLabels(f, services);
    if f.spec.deployments.None? || f.spec.deployments.value.template.None? then own
    else Merged(own, f.spec.deployments.value.template.value.labels)
  }

  function CopySpec(d: Object, f: ForkResource, services: set<string>): DeploymentCopySpec {
    var deployments := if f.spec.deployments.None? then ForkDeployment(None, None, None) else f.spec.deployments.value;
    var replicas := if deployments.replicas.None? then 1 else deployments.replicas.value;
    match deployments.template
    case None => DeploymentCopySpec(replicas, d.name, f.name, CustomLabels(f, services), map[], [])
    case Some(t) => DeploymentCopySpec(replicas, d.name, f.name, CustomLabels(f, services), t.annotations, CopyContainers(t.containers))
  }

  function CopyContainers(containers: seq<Container>): seq<Container> {
    seq(|containers|, i requires 0 <= i < |containers| => Container(containers[i].name, containers[i].image, containers[i].env))
  }

  function CopyDeployment(d: Object, f: ForkResource, services: set<string>): Object {
    Object(CopyName(d.name, f), f.namespace, map[], [], DeploymentCopyBody(CopySpec(d, f, services)))
  }

  function CopyConfig(svc: Object, f: ForkResource, header: string): Object {
    Object(CopyName(svc.name, f), f.namespace, map[], [],
           VSConfigBody(VSConfigSpec(svc.name, CopyName(svc.name, f), header, f.spec.identifier)))
  }

  // ---------------------------------------------------------------- identities

  function OriginalService(o: Object): Result<string> {
    Ok(if ORIGINAL in o.labels then o.labels[ORIGINAL] else "")
  }

  function ConfigHost(o: Object): Result<string> {
    if o.body.VSConfigBody? then Ok(o.body.config.host) else Err(IdentityUnknown)
  }

  // ---------------------------------------------------------------- what copies are, field by field

  /** The labels of the pods of a copy: the template's, and where it sets none the fork's identifier and a routing
      label for each service. */
  ghost predicate PodLabels(labels: Labels, f: ForkResource, services: set<string>) {
    var template := if f.spec.deployments.Some? && f.spec.deployments.value.template.Some? then f.spec.deployments.value.template.value.labels else map[];
    && (forall k :: k in labels <==>
          k in template || k == "fork.k8s.wantedly.com/identifier" || exists s :: s in services && k == "fork.k8s.wantedly.com/routed-from" + "-" + s)
    && (forall k :: k in template ==> k in labels && labels[k] == template[k])
    && ("fork.k8s.wantedly.com/identifier" in labels && "fork.k8s.wantedly.com/identifier" !in template ==>
          labels["fork.k8s.wantedly.com/identifier"] == f.spec.identifier)
    && (forall k :: k in labels && k !in template && k != "fork.k8s.wantedly.com/identifier" ==> labels[k] == "true")
  }

  /** What the template says goes into the copy: annotations, and name, image and environment of each container. */
  ghost predicate FollowsTemplate(c: DeploymentCopySpec, template: Option<PodTemplate>) {
    match template
    case None => c.customAnnotations == map[] && c.targetContainers == []
    case Some(t) =>
      && c.customAnnotations == t.annotations && |c.targetContainers| == |t.containers|
      && forall i :: 0 <= i < |t.containers| ==>
           && c.targetContainers[i].name == t.containers[i].name && c.targetContainers[i].image == t.containers[i].image
           && c.targetContainers[i].env == t.containers[i].env
  }

  /** The object asks for a copy of this deployment on behalf of the fork. */
  ghost predicate IsDeploymentCopy(o: Object, d: Object, f: ForkResource, services: set<string>) {
    && o.labels == map[] && o.body.DeploymentCopyBody?
    && o.body.copy.targetDeploymentName == d.name && o.body.copy.nameSuffix == f.name
    && PodLabels(o.body.copy.customLabels, f, services)
    && match f.spec.deployments
       case None => o.body.copy.replicas == 1 && FollowsTemplate(o.body.copy, None)
       case Some(fd) =>
         && (fd.replicas.Some? ==> o.body.copy.replicas == fd.replicas.value) && (fd.replicas.None? ==> o.body.copy.replicas == 1)
         && FollowsTemplate(o.body.copy, fd.template)
  }

  /** The ports of the copy are those of the service, without node ports. */
  ghost predicate SamePorts(copies: seq<Port>, ports: seq<Port>) {
    && |copies| == |ports|
    && forall i :: 0 <= i < |ports| ==>
         && copies[i].name == ports[i].name && copies[i].protocol == ports[i].protocol && copies[i].appProtocol == ports[i].appProtocol
         && copies[i].port == ports[i].port && copies[i].targetPort == ports[i].targetPort && copies[i].nodePort == 0
  }

  /** The object is a copy of this service with this cluster IP. */
  ghost predicate IsServiceCopy(o: Object, svc: Object, f: ForkResource, ip: string) {
    && o.labels == map["fork.k8s.wantedly.com/original-service-name" := svc.name, "fork.k8s.wantedly.com/identifier" := f.spec.identifier]
    && o.body.ServiceBody? && svc.body.ServiceBody?
    && o.body.service.clusterIP == ip && o.body.service.serviceType == "ClusterIP"
    && SamePorts(o.body.service.ports, svc.body.service.ports)
    && o.body.service.selector ==
         map["fork.k8s.wantedly.com/routed-from" + "-" + svc.name := "true", "fork.k8s.wantedly.com/identifier" := f.spec.identifier]
  }

  /** The object sends requests for the service that carry the fork's identifier in this header to the copy. */
  ghost predicate IsConfigFor(o: Object, svc: Object, f: ForkResource, header: string) {
    && o.labels == map[] && o.body.VSConfigBody?
    && o.body.config.host == svc.name && o.body.config.service == svc.name + "-" + f.name
    && o.body.config.headerName == header && o.body.config.headerValue == f.spec.identifier
  }

  /** A new object of the fork: in its namespace, under the name of the original and the fork's, owned by nobody yet. */
  ghost predicate NewFor(o: Object, original: string, f: ForkResource) {
    o.name == original + "-" + f.name && o.namespace == f.namespace && o.owners == []
  }

  lemma DeploymentCopyMeaning(d: Object, f: ForkResource, services: set<string>)
    ensures IsDeploymentCopy(CopyDeployment(d, f, services), d, f, services) && NewFor(CopyDeployment(d, f, services), d.name, f)
  {
    PodLabelsMeaning(f, services);
  }

  lemma PodLabelsMeaning(f: ForkResource, services: set<string>)
    ensures PodLabels(CustomLabels(f, services), f, services)
  {
    forall s ensures RoutingLabel(s) == "fork.k8s.wantedly.com/routed-from" + "-" + s != IDENTIFIER { RoutingLabelsDistinct(s, s); }
    assert "fork.k8s.wantedly.com/identifier" == IDENTIFIER;
  }

  lemma ServiceCopyMeaning(svc: Object, f: ForkResource, existing: map<string, Object>, ip: string)
    requires svc.body.ServiceBody?
    requires if svc.name + "-" + f.name in existing && existing[svc.name + "-" + f.name].body.ServiceBody?
             then ip == existing[svc.name + "-" + f.name].body.service.clusterIP else ip == ""
    ensures IsServiceCopy(CopyService(svc, f, existing), svc, f, ip) && NewFor(CopyService(svc, f, existing), svc.name, f)
  {}

  lemma ConfigCopyMeaning(svc: Object, f: ForkResource, header: string)
    ensures IsConfigFor(CopyConfig(svc, f, header), svc, f, header) && NewFor(CopyConfig(svc, f, header), svc.name, f)
  {}

  /** What tells copies apart: services by the original's name in their label, configs by their host. */
  lemma IdentityMeaning(o: Object, svc: Object, f: ForkResource, ip: string, header: string)
    ensures IsServiceCopy(o, svc, f, ip) ==> OriginalService(o) == Ok(svc.name)
    ensures "fork.k8s.wantedly.com/original-service-name" !in o.labels ==> OriginalService(o) == Ok("")
    ensures IsConfigFor(o, svc, f, header) ==> ConfigHost(o) == Ok(svc.name)
    ensures !o.body.VSConfigBody? ==> ConfigHost(o).Err?
  {}

  // ---------------------------------------------------------------- copying, in place

  method MergeMap(a: Labels, b: Labels) returns (merged: Labels)
    ensures merged == Merged(a, b)
  {
    merged := map[];
    merged := PutAll(merged, a);
    assert merged == a;
    merged := PutAll(merged, b);
  }

  /** One of the loops of `mergeMap`, in any key order. */
  method PutAll(m: Labels, extra: Labels) returns (merged: Labels)
    ensures merged == m + extra
  {
    merged := m;
    var todo := extra.Keys;
    while todo != {}
      invariant todo <= extra.Keys
      invariant merged == m + (extra - todo)
    {
      var k :| k in todo;
      merged := merged[k := extra[k]];
      todo := todo - {k};
    }
  }

  /** `copyableService.buildCopy`, with the labels `generateServices` adds. */
  method BuildServiceCopy(svc: Object, f: ForkResource, existing: map<string, Object>) returns (o: Object)
    requires svc.body.ServiceBody?
    ensures o == CopyService(svc, f, existing)
  {
    var clusterIP := "";
    var name := CopyName(svc.name, f);
    if name in existing && existing[name].body.ServiceBody? {
      clusterIP := existing[name].body.service.clusterIP;
    }
    var ports: seq<Port> := [];
    for i := 0 to |svc.body.service.ports|
      invariant ports == CopyPorts(svc.body.service.ports)[..i]
    {
      var port := svc.body.service.ports[i];
      ports := ports + [Port(port.name, port.protocol, port.appProtocol, port.port, port.targetPort, 0)];
    }
    var selector := map[RoutingLabel(svc.name) := "true", IDENTIFIER := f.spec.identifier];
    var labels := MergeMap(map[], map[ORIGINAL := svc.name, IDENTIFIER := f.spec.identifier]);
    assert ports == CopyPorts(svc.body.service.ports);
    assert labels == CopyLabels(svc.name, f);
    o := Object(name, f.namespace, labels, [], ServiceBody(ServiceSpec(clusterIP, "ClusterIP", ports, selector)));
  }

  method BuildOwnLabels(f: ForkResource, services: seq<string>) returns (labels: Labels)
    ensures labels == OwnLabels(f, Elements(services))
  {
    labels := map[IDENTIFIER := f.spec.identifier];
    for i := 0 to |services|
      invariant labels == OwnLabels(f, Elements(services[..i]))
    {
      assert Elements(services[..i + 1]) == Elements(services[..i]) + {services[i]};
      OneMoreRoute(f, Elements(services[..i]), services[i]);
      labels := labels[RoutingLabel(services[i]) := "true"];
    }
    assert services[..|services|] == services;
  }

  lemma OneMoreRoute(f: ForkResource, done: set<string>, service: string)
    ensures OwnLabels(f, done + {service}) == OwnLabels(f, done)[RoutingLabel(service) := "true"]
  {
    assert RoutedLabels(done + {service}) == RoutedLabels(done)[RoutingLabel(service) := "true"];
  }

  method BuildContainers(containers: seq<Container>) returns (copies: seq<Container>)
    ensures copies == CopyContainers(containers)
  {
    copies := [];
    for i := 0 to |containers|
      invariant copies == CopyContainers(containers)[..i]
    {
      var ctr := containers[i];
      copies := copies + [Container(ctr.name, ctr.image, ctr.env)];
    }
  }

  /** `copyableDeployment.buildCopy`. */
  method BuildDeploymentCopy(d: Object, f: ForkResource, services: seq<string>) returns (o: Object)
    requires f.spec.deployments.Some?
    ensures o == CopyDeployment(d, f, Elements(services))
  {
    var labels := BuildOwnLabels(f, services);
    var replicas := if f.spec.deployments.value.replicas.None? then 1 else f.spec.deployments.value.replicas.value;
    var spec := DeploymentCopySpec(replicas, d.name, f.name, labels, map[], []);
    if f.spec.deployments.value.template.Some? {
      var template := f.spec.deployments.value.template.value;
      var customLabels := MergeMap(spec.customLabels, template.labels);
      var customAnnotations := MergeMap(spec.customAnnotations, template.annotations);
      var containers := BuildContainers(template.containers);
      assert Merged(map[], template.annotations) == template.annotations;
      spec := spec.(customLabels := customLabels, customAnnotations := customAnnotations, targetContainers := containers);
    }
    o := Object(CopyName(d.name, f), f.namespace, map[], [], DeploymentCopyBody(spec));
  }

  // ---------------------------------------------------------------- the inverse relation

  /** How often `x` is listed under `k`. */
  ghost function Times(m: map<string, seq<string>>, k: string, x: string): nat {
    if k in m then multiset(m[k])[x] else 0
  }

  /** `out` lists x under y exactly as often as `src` lists y under x, and has no empty lists. */
  ghost predicate Inverse(src: map<string, seq<string>>, out: map<string, seq<string>>) {
    && (forall k, x :: Times(out, x, k) == Times(src, k, x))
    && (forall x :: x in out ==> out[x] != [])
  }

  /** `inverseMap`, for any iteration order over the map. */
  method InverseMap(src: map<string, seq<string>>) returns (out: map<string, seq<string>>)
    ensures Inverse(src, out)
  {
    out := map[];
    var todo := src.Keys;
    while todo != {}
      invariant todo <= src.Keys
      invariant Inverse(src - todo, out)
    {
      var oldKey :| oldKey in todo;
      var items := src[oldKey];
      for i := 0 to |items|
        invariant Inverse((src - todo)[oldKey := items[..i]], out)
      {
        out := AppendTo(out, items[i], oldKey);
        OneMoreItem(src - todo, oldKey, items, i);
      }
      assert items[..|items|] == items;
      assert src - (todo - {oldKey}) == (src - todo)[oldKey := items];
      todo := todo - {oldKey};
    }
    assert src - todo == src;
  }

  method AppendTo(m: map<string, seq<string>>, k: string, x: string) returns (r: map<string, seq<string>>)
    ensures ListsOnceMore(m, r, k, x)
    ensures forall l :: l in r <==> l in m || l == k
    ensures forall l :: l in r && (l in m ==> m[l] != []) ==> r[l] != []
  {
    if k !in m {
      r := m[k := [x]];
    } else {
      r := m[k := m[k] + [x]];
    }
  }

  /** `b` lists `x` under `k` once more than `a` does, and is the same otherwise. */
  ghost predicate ListsOnceMore(a: map<string, seq<string>>, b: map<string, seq<string>>, k: string, x: string) {
    forall l, y :: Times(b, l, y) == Times(a, l, y) + (if l == k && y == x then 1 else 0)
  }

  lemma OneMoreItem(done: map<string, seq<string>>, oldKey: string, items: seq<string>, i: nat)
    requires i < |items|
    ensures ListsOnceMore(done[oldKey := items[..i]], done[oldKey := items[..i + 1]], oldKey, items[i])
  {
    assert items[..i + 1] == items[..i] + [items[i]];
  }

  // ---------------------------------------------------------------- the builder

  function ObjectName(o: Object): string {
    o.name
  }

  /** The manager a fork names as `namespace/name`. */
  function ManagerKey(manager: string): Result<Key> {
    var parts := Split(manager, "/");
    if |parts| != 2 then Err(MalformedManager) else Ok(Key(Kind.ForkManager, parts[0], parts[1]))
  }

  function IdentifierQuery(f: ForkResource): Query {
    By(LabelSelector(map[IDENTIFIER := f.spec.identifier], []))
  }

  /** The services a deployment is routed to from. */
  ghost function RoutedFrom(services: seq<Object>, d: Object): set<string> {
    set svc | svc in services && Routable(d, svc) :: svc.name
  }

  function RoutesOf(app: App, deployment: string): set<string> {
    if deployment in app.routes then Elements(app.routes[deployment]) else {}
  }

  /** The header key of the fork's manager. */
  ghost predicate HeaderOf(s: Store, f: ForkResource, header: string) {
    var key := ManagerKey(f.spec.manager);
    key.Ok? && key.value in s && s[key.value].body.ForkManagerBody? && s[key.value].body.manager.headerKey == header
  }

  /** The service under this name carries the fork's identifier. */
  ghost predicate Forked(s: Store, f: ForkResource, n: string) {
    Key(Kind.Service, f.namespace, n) in s && Matches(IdentifierQuery(f), s[Key(Kind.Service, f.namespace, n)].labels)
  }

  /** The services that carry the fork's identifier, by name. */
  ghost predicate HoldsForked(s: Store, f: ForkResource, existing: map<string, Object>) {
    forall n :: (n in existing <==> Forked(s, f, n)) && (Forked(s, f, n) ==> existing[n] == s[Key(Kind.Service, f.namespace, n)])
  }

  /** `app` is what building from this store yields, up to the order of the services. */
  ghost predicate Expanded(s: Store, f: ForkResource, app: App) {
    Reads(s, f, app) && HoldsForked(s, f, app.existing)
  }

  /** All that building reads but the services that were forked before. */
  ghost predicate Reads(s: Store, f: ForkResource, app: App) {
    && app.fork == f
    && HeaderOf(s, f, app.header)
    && Enumerates(app.services, s, Kind.Service, Some(f.namespace), ServiceQuery(f))
    && SortedBy(app.deployments, ObjectName) && DistinctKeys(app.deployments, ObjectName)
    && (forall d :: d in app.deployments <==> Candidate(s, f, d) && exists svc :: svc in app.services && Routable(d, svc))
    && (forall d :: d in app.deployments ==> RoutesOf(app, d.name) == RoutedFrom(app.services, d))
  }

  /** How a manager is named: exactly one slash, between namespace and name. */
  lemma ManagerKeyMeaning(manager: string, namespace: string, name: string)
    ensures ManagerKey(manager) == Ok(Key(Kind.ForkManager, namespace, name)) <==>
      manager == namespace + "/" + name && Lacks(namespace, '/') && Lacks(name, '/')
    ensures ManagerKey(manager).Err? <==> forall a, b :: manager == a + "/" + b ==> !(Lacks(a, '/') && Lacks(b, '/'))
  {
    forall a, b | manager == a + "/" + b && Lacks(a, '/') && Lacks(b, '/') ensures Split(manager, "/") == [a, b] { SplitOnce(a, b, "/"); }
    if |Split(manager, "/")| == 2 { TwoNames(manager); }
  }

  lemma TwoNames(manager: string)
    requires |Split(manager, "/")| == 2
    ensures var parts := Split(manager, "/"); manager == parts[0] + "/" + parts[1] && Lacks(parts[0], '/') && Lacks(parts[1], '/')
  {
    var parts := Split(manager, "/");
    SplitMeaning(manager, "/");
    assert Joined(parts, "/") == parts[0] + "/" + Joined(parts[1..], "/") && Joined(parts[1..], "/") == parts[1];
    WithoutSlash(parts[0]);
    WithoutSlash(parts[1]);
  }

  lemma WithoutSlash(s: string)
    requires Without(s, "/")
    ensures Lacks(s, '/')
  {
    forall i | 0 <= i < |s| ensures s[i] != '/' { assert !("/" <= s[i..]); }
  }

  /** The selector accepts the labels: it has all of them, and each requirement is met. */
  ghost predicate Accepts(selector: Option<LabelSelector>, labels: Labels) {
    && selector.Some?
    && (forall k, v :: (k, v) in selector.value.matchLabels.Items ==> (k, v) in labels.Items)
    && forall i :: 0 <= i < |selector.value.matchExpressions| ==> Meets(selector.value.matchExpressions[i], labels)
  }

  lemma AcceptsMeaning(selector: Option<LabelSelector>, labels: Labels)
    ensures Matches(AsQuery(selector), labels) <==> Accepts(selector, labels)
  {
    if selector.Some? {
      var wanted := selector.value.matchLabels;
      if HasAll(wanted, labels) {
        forall k, v | (k, v) in wanted.Items ensures (k, v) in labels.Items {}
      }
      if forall k, v :: (k, v) in wanted.Items ==> (k, v) in labels.Items {
        forall k | k in wanted ensures k in labels && labels[k] == wanted[k] { assert (k, wanted[k]) in wanted.Items; }
      }
    }
  }

  /** What a fork selects, told of the store: services of its namespace its selector accepts, and deployments of its
      namespace its other selector accepts and one of those services routes to; nothing without the selectors. */
  lemma SelectionMeaning(s: Store, f: ForkResource, app: App)
    requires Reads(s, f, app)
    ensures forall svc :: svc in app.services <==>
      && KeyOf(svc) in s && s[KeyOf(svc)] == svc && svc.body.ServiceBody? && svc.namespace == f.namespace
      && f.spec.services.Some? && Accepts(f.spec.services.value.selector, svc.labels)
    ensures forall d :: d in app.deployments <==>
      && KeyOf(d) in s && s[KeyOf(d)] == d && d.body.DeploymentBody? && d.namespace == f.namespace
      && f.spec.deployments.Some? && Accepts(f.spec.deployments.value.selector, d.labels)
      && exists svc :: svc in app.services && svc.body.ServiceBody?
           && forall k, v :: (k, v) in svc.body.service.selector.Items ==> (k, v) in d.body.deployment.podLabels.Items
  {
    forall svc ensures Selected(s, f, svc) <==>
      && KeyOf(svc) in s && s[KeyOf(svc)] == svc && svc.body.ServiceBody? && svc.namespace == f.namespace
      && f.spec.services.Some? && Accepts(f.spec.services.value.selector, svc.labels)
    {
      if f.spec.services.Some? { AcceptsMeaning(f.spec.services.value.selector, svc.labels); }
    }
    forall d ensures Candidate(s, f, d) <==>
      && KeyOf(d) in s && s[KeyOf(d)] == d && d.body.DeploymentBody? && d.namespace == f.namespace
      && f.spec.deployments.Some? && Accepts(f.spec.deployments.value.selector, d.labels)
    {
      if f.spec.deployments.Some? { AcceptsMeaning(f.spec.deployments.value.selector, d.labels); }
    }
    forall svc: Object, d: Object | d.body.DeploymentBody? && svc.body.ServiceBody?
      ensures Routable(d, svc) <==> forall k, v :: (k, v) in svc.body.service.selector.Items ==> (k, v) in d.body.deployment.podLabels.Items
    {
      RoutableMeaning(svc, d);
    }
  }

  lemma RoutableMeaning(svc: Object, d: Object)
    requires d.body.DeploymentBody? && svc.body.ServiceBody?
    ensures Routable(d, svc) <==> forall k, v :: (k, v) in svc.body.service.selector.Items ==> (k, v) in d.body.deployment.podLabels.Items
  {
    AcceptsMeaning(Some(LabelSelector(svc.body.service.selector, [])), d.body.deployment.podLabels);
  }

  /** The header comes from the manager the fork names. */
  lemma HeaderMeaning(s: Store, f: ForkResource, header: string)
    ensures HeaderOf(s, f, header) <==> exists namespace, name ::
      f.spec.manager == namespace + "/" + name && Lacks(namespace, '/') && Lacks(name, '/')
      && Key(Kind.ForkManager, namespace, name) in s && s[Key(Kind.ForkManager, namespace, name)].body.ForkManagerBody?
      && s[Key(Kind.ForkManager, namespace, name)].body.manager.headerKey == header
  {
    forall namespace, name
      ensures ManagerKey(f.spec.manager) == Ok(Key(Kind.ForkManager, namespace, name)) <==>
        f.spec.manager == namespace + "/" + name && Lacks(namespace, '/') && Lacks(name, '/')
    {
      ManagerKeyMeaning(f.spec.manager, namespace, name);
    }
  }

  /** The services found as forked before: those of the namespace that carry the fork's identifier. */
  lemma ForkedMeaning(s: Store, f: ForkResource, existing: map<string, Object>, n: string)
    requires HoldsForked(s, f, existing)
    ensures var k := Key(Kind.Service, f.namespace, n);
      && (n in existing <==> k in s && ("fork.k8s.wantedly.com/identifier", f.spec.identifier) in s[k].labels.Items)
      && (n in existing ==> existing[n] == s[k])
  {
    var wanted := map[IDENTIFIER := f.spec.identifier];
    assert IDENTIFIER in wanted;
  }

  method GetForkHeaderKey(c: Cluster, f: ForkResource) returns (r: Result<string>)
    requires c.Valid()
    ensures r.Ok? ==> HeaderOf(c.store, f, r.value)
  {
    var key := ManagerKey(f.spec.manager);
    if key.Err? { return Err(key.error); }
    var found := c.Get(key.value);
    if found.Err? { return Err(found.error); }
    if found.value.None? { return Err(NotFound); }
    r := Ok(found.value.value.body.manager.headerKey);
  }

  method ForkTargetServices(c: Cluster, f: ForkResource) returns (r: Result<seq<Object>>)
    requires c.Valid()
    ensures r.Ok? ==> Enumerates(r.value, c.store, Kind.Service, Some(f.namespace), ServiceQuery(f))
  {
    if f.spec.services.None? { return Ok([]); }
    r := c.List(Kind.Service, Some(f.namespace), AsQuery(f.spec.services.value.selector));
  }

  method ExistingForkedServices(c: Cluster, f: ForkResource) returns (r: Result<map<string, Object>>)
    requires c.Valid()
    ensures r.Ok? ==> HoldsForked(c.store, f, r.value)
  {
    var listed := c.List(Kind.Service, Some(f.namespace), IdentifierQuery(f));
    if listed.Err? { return Err(listed.error); }
    var ret: map<string, Object> := map[];
    for i := 0 to |listed.value|
      invariant forall n :: n in ret ==> exists j :: 0 <= j < i && listed.value[j].name == n && ret[n] == listed.value[j]
      invariant forall j :: 0 <= j < i ==> listed.value[j].name in ret
    {
      ret := ret[listed.value[i].name := listed.value[i]];
    }
    forall n ensures n in ret <==> Forked(c.store, f, n)
      ensures Forked(c.store, f, n) ==> ret[n] == c.store[Key(Kind.Service, f.namespace, n)]
    {
      if Forked(c.store, f, n) { ListedUnderName(c.store, listed.value, f, n); }
      if n in ret {
        var j :| 0 <= j < |listed.value| && listed.value[j].name == n && ret[n] == listed.value[j];
        assert listed.value[j] in listed.value;
      }
    }
    r := Ok(ret);
  }

  lemma ListedUnderName(s: Store, items: seq<Object>, f: ForkResource, n: string)
    requires WellKeyed(s) && Enumerates(items, s, Kind.Service, Some(f.namespace), IdentifierQuery(f))
    requires Forked(s, f, n)
    ensures exists j :: 0 <= j < |items| && items[j].name == n
  {
    var o := s[Key(Kind.Service, f.namespace, n)];
    assert Listed(s, Kind.Service, Some(f.namespace), IdentifierQuery(f), o);
    var j :| 0 <= j < |items| && items[j] == o;
  }

  method ListDeploymentsRoutableFrom(c: Cluster, f: ForkResource, svc: Object) returns (r: Result<seq<Object>>)
    requires c.Valid()
    ensures r.Ok? ==> forall d :: d in r.value <==> Candidate(c.store, f, d) && Routable(d, svc)
  {
    if f.spec.deployments.None? || f.spec.deployments.value.selector.None? { return Ok([]); }
    var listed := c.List(Kind.Deployment, Some(f.namespace), AsQuery(f.spec.deployments.value.selector));
    if listed.Err? { return Err(listed.error); }
    var routable: seq<Object> := [];
    for i := 0 to |listed.value|
      invariant forall d :: d in routable <==> d in listed.value[..i] && Routable(d, svc)
    {
      assert listed.value[..i + 1] == listed.value[..i] + [listed.value[i]];
      if !Routable(listed.value[i], svc) { continue; }
      routable := routable + [listed.value[i]];
    }
    assert listed.value[..|listed.value|] == listed.value;
    r := Ok(routable);
  }

  /** Deployment `n` is a candidate and routable from the service. */
  ghost predicate RoutableName(s: Store, f: ForkResource, svc: Object, n: string) {
    Key(Kind.Deployment, f.namespace, n) in s
    && Candidate(s, f, s[Key(Kind.Deployment, f.namespace, n)]) && Routable(s[Key(Kind.Deployment, f.namespace, n)], svc)
  }

  ghost predicate Named(found: seq<Object>, n: string) {
    exists d :: d in found && d.name == n
  }

  ghost predicate Reached(s: Store, f: ForkResource, services: seq<Object>, n: string) {
    exists svc :: svc in services && RoutableName(s, f, svc, n)
  }

  ghost predicate Linked(s: Store, f: ForkResource, services: seq<Object>, x: string, n: string) {
    exists svc :: svc in services && svc.name == x && RoutableName(s, f, svc, n)
  }

  /** What the loop over the services has collected. */
  ghost predicate Gathered(s: Store, f: ForkResource, services: seq<Object>,
                           deploySet: map<string, Object>, names: map<string, seq<string>>) {
    && (forall n :: n in deploySet <==> Reached(s, f, services, n))
    && (forall n :: n in deploySet ==> Key(Kind.Deployment, f.namespace, n) in s && deploySet[n] == s[Key(Kind.Deployment, f.namespace, n)])
    && (forall x, n :: Times(names, x, n) > 0 <==> Linked(s, f, services, x, n))
  }

  /** One turn of that loop: what was found is added under the service's name. */
  ghost predicate Added(deploySet: map<string, Object>, names: map<string, seq<string>>, service: string, found: seq<Object>,
                        deploySet': map<string, Object>, names': map<string, seq<string>>) {
    && (forall n :: n in deploySet' <==> n in deploySet || Named(found, n))
    && (forall n :: n in deploySet' ==> (deploySet'[n] in found && deploySet'[n].name == n) || (n in deploySet && deploySet'[n] == deploySet[n]))
    && (forall x, n :: Times(names', x, n) > 0 <==> Times(names, x, n) > 0 || (x == service && Named(found, n)))
  }

  method AddDeployments(deploySet: map<string, Object>, names: map<string, seq<string>>, service: string, found: seq<Object>)
    returns (deploySet': map<string, Object>, names': map<string, seq<string>>)
    ensures Added(deploySet, names, service, found, deploySet', names')
  {
    deploySet', names' := deploySet, names;
    for i := 0 to |found|
      invariant Added(deploySet, names, service, found[..i], deploySet', names')
    {
      NamedMore(found, i);
      deploySet' := deploySet'[found[i].name := found[i]];
      names' := AppendTo(names', service, found[i].name);
    }
    assert found[..|found|] == found;
  }

  lemma NamedMore(found: seq<Object>, i: nat)
    requires i < |found|
    ensures forall n :: Named(found[..i + 1], n) <==> Named(found[..i], n) || n == found[i].name
    ensures forall d :: d in found[..i + 1] <==> d in found[..i] || d == found[i]
  {
    var before, after := found[..i], found[..i + 1];
    assert after == before + [found[i]];
    forall n ensures Named(after, n) <==> Named(before, n) || n == found[i].name {
      if Named(before, n) {
        var d :| d in before && d.name == n;
        assert d in after;
      }
      assert found[i] in after;
    }
  }

  lemma FoundNames(s: Store, f: ForkResource, svc: Object, found: seq<Object>, n: string)
    requires WellKeyed(s) && forall d :: d in found <==> Candidate(s, f, d) && Routable(d, svc)
    ensures Named(found, n) <==> RoutableName(s, f, svc, n)
  {
    if RoutableName(s, f, svc, n) {
      assert s[Key(Kind.Deployment, f.namespace, n)] in found;
    }
  }

  lemma GatheredMore(s: Store, f: ForkResource, services: seq<Object>, i: nat, found: seq<Object>,
                     deploySet: map<string, Object>, names: map<string, seq<string>>,
                     deploySet': map<string, Object>, names': map<string, seq<string>>)
    requires WellKeyed(s) && i < |services| && Gathered(s, f, services[..i], deploySet, names)
    requires forall d :: d in found <==> Candidate(s, f, d) && Routable(d, services[i])
    requires Added(deploySet, names, services[i].name, found, deploySet', names')
    ensures Gathered(s, f, services[..i + 1], deploySet', names')
  {
    var before, after := services[..i], services[..i + 1];
    assert after == before + [services[i]];
    forall n
      ensures n in deploySet' <==> Reached(s, f, after, n)
      ensures n in deploySet' ==> Key(Kind.Deployment, f.namespace, n) in s && deploySet'[n] == s[Key(Kind.Deployment, f.namespace, n)]
    {
      FoundNames(s, f, services[i], found, n);
      ReachedMore(s, f, before, services[i], n);
    }
    forall x, n ensures Times(names', x, n) > 0 <==> Linked(s, f, after, x, n) {
      FoundNames(s, f, services[i], found, n);
      LinkedMore(s, f, before, services[i], x, n);
    }
  }

  lemma ReachedMore(s: Store, f: ForkResource, services: seq<Object>, svc: Object, n: string)
    ensures Reached(s, f, services + [svc], n) <==> Reached(s, f, services, n) || RoutableName(s, f, svc, n)
  {
    if Reached(s, f, services, n) {
      var o :| o in services && RoutableName(s, f, o, n);
      assert o in services + [svc];
    }
    if RoutableName(s, f, svc, n) { assert svc in services + [svc]; }
  }

  lemma LinkedMore(s: Store, f: ForkResource, services: seq<Object>, svc: Object, x: string, n: string)
    ensures Linked(s, f, services + [svc], x, n) <==> Linked(s, f, services, x, n) || (svc.name == x && RoutableName(s, f, svc, n))
  {
    if Linked(s, f, services, x, n) {
      var o :| o in services && o.name == x && RoutableName(s, f, o, n);
      assert o in services + [svc];
    }
    if svc.name == x && RoutableName(s, f, svc, n) { assert svc in services + [svc]; }
  }

  /** The deployments collected, sorted by name for less flaky behaviour. */
  method SortedDeployments(deploySet: map<string, Object>) returns (deploys: seq<Object>)
    requires forall n :: n in deploySet ==> deploySet[n].name == n
    ensures SortedBy(deploys, ObjectName) && DistinctKeys(deploys, ObjectName)
    ensures forall d :: d in deploys <==> d.name in deploySet && deploySet[d.name] == d
  {
    var values: seq<Object> := [];
    var todo := deploySet.Keys;
    while todo != {}
      invariant todo <= deploySet.Keys
      invariant forall d :: d in values <==> d.name in deploySet.Keys - todo && deploySet[d.name] == d
      invariant DistinctKeys(values, ObjectName)
    {
      var n :| n in todo;
      assert forall j :: 0 <= j < |values| ==> values[j] in values;
      values := values + [deploySet[n]];
      todo := todo - {n};
    }
    deploys := Sort(values, ObjectName);
    MultisetKeepsDistinct(values, deploys, ObjectName);
    forall d ensures d in deploys <==> d in values {
      assert d in multiset(deploys) <==> d in multiset(values);
    }
  }

  /** `builder.Build`. */
  method Build(c: Cluster, f: ForkResource) returns (r: Result<App>)
    requires c.Valid()
    ensures r.Ok? ==> Expanded(c.store, f, r.value)
  {
    var header := GetForkHeaderKey(c, f);
    if header.Err? { return Err(header.error); }
    var services := ForkTargetServices(c, f);
    if services.Err? { return Err(services.error); }
    var existing := ExistingForkedServices(c, f);
    if existing.Err? { return Err(existing.error); }
    var svcs := services.value;
    var deploySet: map<string, Object>, names: map<string, seq<string>> := map[], map[];
    for i := 0 to |svcs|
      invariant Gathered(c.store, f, svcs[..i], deploySet, names)
    {
      var found := ListDeploymentsRoutableFrom(c, f, svcs[i]);
      if found.Err? { return Err(found.error); }
      var deploySet', names' := AddDeployments(deploySet, names, svcs[i].name, found.value);
      GatheredMore(c.store, f, svcs, i, found.value, deploySet, names, deploySet', names');
      deploySet, names := deploySet', names';
    }
    assert svcs[..|svcs|] == svcs;
    var deploys := SortedDeployments(deploySet);
    var routes := InverseMap(names);
    r := Ok(App(svcs, deploys, existing.value, routes, header.value, f));
    BuiltAsExpanded(c.store, f, r.value, deploySet, names);
  }

  lemma BuiltAsExpanded(s: Store, f: ForkResource, app: App, deploySet: map<string, Object>, names: map<string, seq<string>>)
    requires WellKeyed(s) && app.fork == f && HeaderOf(s, f, app.header)
    requires Enumerates(app.services, s, Kind.Service, Some(f.namespace), ServiceQuery(f))
    requires HoldsForked(s, f, app.existing)
    requires Gathered(s, f, app.services, deploySet, names) && Inverse(names, app.routes)
    requires SortedBy(app.deployments, ObjectName) && DistinctKeys(app.deployments, ObjectName)
    requires forall d :: d in app.deployments <==> d.name in deploySet && deploySet[d.name] == d
    ensures Expanded(s, f, app)
  {
    forall d ensures d in app.deployments <==> Candidate(s, f, d) && exists svc :: svc in app.services && Routable(d, svc) {
      if d in app.deployments {
        var svc :| svc in app.services && RoutableName(s, f, svc, d.name);
        assert Candidate(s, f, d);
      }
      if Candidate(s, f, d) && exists svc :: svc in app.services && Routable(d, svc) {
        var svc :| svc in app.services && Routable(d, svc);
        assert RoutableName(s, f, svc, d.name);
        assert Reached(s, f, app.services, d.name);
      }
    }
    forall d | d in app.deployments ensures RoutesOf(app, d.name) == RoutedFrom(app.services, d) {
      RoutesAreInverse(s, f, app, names, d);
    }
  }

  lemma RoutesAreInverse(s: Store, f: ForkResource, app: App, names: map<string, seq<string>>, d: Object)
    requires WellKeyed(s) && Candidate(s, f, d)
    requires forall x, n :: Times(names, x, n) > 0 <==> Linked(s, f, app.services, x, n)
    requires Inverse(names, app.routes)
    ensures RoutesOf(app, d.name) == RoutedFrom(app.services, d)
  {
    forall x ensures x in RoutesOf(app, d.name) <==> x in RoutedFrom(app.services, d) {
      assert x in RoutesOf(app, d.name) <==> Times(app.routes, d.name, x) > 0;
      assert Times(app.routes, d.name, x) == Times(names, x, d.name);
      if x in RoutedFrom(app.services, d) {
        var svc :| svc in app.services && Routable(d, svc) && svc.name == x;
        assert RoutableName(s, f, svc, d.name);
      }
    }
  }
}
