/** A request to a forked service, from the fork to the pods: what the fork updater and the
    VirtualService updater achieve together. */
module EndToEnd {
  import opened Kube
  import opened ResourceName
  import opened Refresh
  import opened RefreshTheorems
  import opened RefreshRetry
  import opened Routing
  import opened ForkApp
  import opened Microservice
  import opened ForkSettling
  import VS = VirtualServices

  /** The VirtualService is for requests to this host, by its name or by a wildcard. */
  predicate Names(o: Object, host: string) {
    o.body.VirtualServiceBody? && (host in o.body.virtualService.hosts || "*" in o.body.virtualService.hosts)
  }

  /** Where the service's own VirtualService sends a request, if it has one that names it; the service itself otherwise. */
  ghost function Destination(s: Store, namespace: string, service: string, headers: map<string, string>): seq<string> {
    match VS.Held(s, namespace, service)
    case None => [service]
    case Some(o) => if Names(o, service) then FirstMatch(o.body.virtualService.http, headers) else [service]
  }

  /** Where any VirtualService of the namespace that names the service may send a request; the service itself if none does. */
  ghost function Destinations(s: Store, namespace: string, service: string, headers: map<string, string>): set<seq<string>> {
    var sent := set k | k in s && k.kind == Kind.VirtualService && k.namespace == namespace && Names(s[k], service)
                  :: FirstMatch(s[k].body.virtualService.http, headers);
    if sent == {} then {[service]} else sent
  }

  /** No VirtualService of the namespace names the service but its own. */
  ghost predicate NoStrays(s: Store, namespace: string, service: string) {
    forall k :: k in s && k.kind == Kind.VirtualService && k.namespace == namespace && Names(s[k], service) ==> VS.Owns(s, namespace, service, k)
  }

  /** Without strays a request goes where the service's own VirtualService sends it. */
  lemma OneDestination(s: Store, namespace: string, service: string, headers: map<string, string>)
    requires NoStrays(s, namespace, service) && VS.OwnsByName(s, namespace, service)
    ensures Destinations(s, namespace, service, headers) == {Destination(s, namespace, service, headers)}
  {
    var sent := set k | k in s && k.kind == Kind.VirtualService && k.namespace == namespace && Names(s[k], service)
                  :: FirstMatch(s[k].body.virtualService.http, headers);
    var own := VS.VSKey(namespace, service);
    forall k | k in s && k.kind == Kind.VirtualService && k.namespace == namespace && Names(s[k], service)
      ensures k == own && VS.Held(s, namespace, service) == Some(s[k]) {}
    if VS.Held(s, namespace, service).Some? && Names(s[own], service) {
      assert FirstMatch(s[own].body.virtualService.http, headers) in sent;
    }
  }

  /** In agreement no service's VirtualService names another service, so where each VirtualService belongs to a
      service in agreement there are no strays. */
  lemma AgreementLeavesNoStrays(s: Store, namespace: string, service: string)
    requires service != "*" && forall k :: k in s && k.kind == Kind.VirtualService && k.namespace == namespace ==>
      exists other :: other != "*" && VS.Agrees(s, namespace, other) && VS.Owns(s, namespace, other, k)
    ensures NoStrays(s, namespace, service)
  {
    forall k | k in s && k.kind == Kind.VirtualService && k.namespace == namespace && Names(s[k], service)
      ensures VS.Owns(s, namespace, service, k)
    {
      var other :| other != "*" && VS.Agrees(s, namespace, other) && VS.Owns(s, namespace, other, k);
      NamesItself(s, namespace, other, k, service);
    }
  }

  lemma NamesItself(s: Store, namespace: string, owner: string, k: Key, service: string)
    requires owner != "*" && VS.Agrees(s, namespace, owner) && VS.Owns(s, namespace, owner, k) && Names(s[k], service)
    ensures service == owner
  {
    VS.AgreedMeaning(s, namespace, owner, k, map[]);
  }

  /** The store after a successful update of the fork, then of the VirtualService of one service. */
  ghost predicate BothUpdated(s: Store, t: Store, u: Store, f: ForkResource, app: App, service: string) {
    Refreshed(s, t, ForkParent(f), Lists(app)) && VS.Updated(t, u, f.namespace, service, true)
  }

  /** The fork selects the service, which owns at most the VirtualService of its own name. */
  ghost predicate Routed(s: Store, f: ForkResource, app: App, svc: Object) {
    svc in app.services && 0 < |svc.name| <= LABEL_LIMIT && VS.OwnsByName(s, f.namespace, svc.name)
  }

  // ---------------------------------------------------------------- the configs and the VirtualService

  lemma OwnsByNameKept(s: Store, t: Store, namespace: string, n: string)
    requires OtherKindsSame(s, t) && VS.OwnsByName(s, namespace, n)
    ensures VS.OwnsByName(t, namespace, n)
  {
    forall k | VS.Owns(t, namespace, n, k) ensures VS.Owns(s, namespace, n, k) && s[k] == t[k] {
      assert Same(s, t, k);
    }
  }

  ghost predicate OnlyVirtualServicesDiffer(t: Store, u: Store) {
    forall k: Key :: k.kind != Kind.VirtualService ==> Same(t, u, k)
  }

  /** After the VirtualService update the service holds what the configs call for,
      and nothing but VirtualServices changed. */
  lemma RoutesInstalled(t: Store, u: Store, namespace: string, n: string)
    requires WellKeyed(t) && 0 < |n| <= LABEL_LIMIT && VS.OwnsByName(t, namespace, n)
    requires VS.Updated(t, u, namespace, n, true)
    ensures VS.Held(u, namespace, n) == VS.Called(VS.ConfigsIn(t, namespace), namespace, n)
    ensures OnlyVirtualServicesDiffer(t, u)
    ensures VS.OwnsByName(u, namespace, n) && (NoStrays(t, namespace, n) ==> NoStrays(u, namespace, n))
  {
    var table := Table(Sorted(VS.ConfigsIn(t, namespace)), n);
    CompleteIsPartial(t, u, VS.ServiceParent(namespace, n), VS.VirtualServiceList(namespace, n, table));
    VS.RefreshWritesOneKey(t, u, namespace, n, table);
    VS.CompleteRefreshDelivers(t, u, namespace, n, table);
    VS.OthersKept(t, u, namespace, n, table, n);
    OwnRouteOnly(t, u, namespace, n, n, table);
  }

  /** What is written for a service that is not a wildcard names no other one. */
  lemma OwnRouteOnly(t: Store, u: Store, namespace: string, written: string, n: string, table: seq<HTTPRoute>)
    requires VS.WritesAtMost(t, u, namespace, written, table) && (n == written || written != "*")
    ensures NoStrays(t, namespace, n) ==> NoStrays(u, namespace, n)
  {
    forall k | NoStrays(t, namespace, n) && k in u && k.kind == Kind.VirtualService && k.namespace == namespace && Names(u[k], n)
      ensures VS.Owns(u, namespace, n, k)
    {
      if !Same(t, u, k) {
        assert k == VS.VSKey(namespace, written) && n == written;
        assert u[k].owners[0] == ControllerRef(VS.ServiceParent(namespace, written));
      } else {
        assert VS.Owns(t, namespace, n, k);
      }
    }
  }

  /** Some config sends a request with these headers away from the service. */
  ghost predicate Diverted(configs: Configs, n: string, headers: map<string, string>) {
    exists c :: c in configs && Hits(Config(c, configs[c]), n, headers)
  }

  /** The routes follow the one config that hits, if there is one, and lead home otherwise. */
  lemma RoutesFollow(configs: Configs, namespace: string, n: string, headers: map<string, string>, c: string)
    requires forall d :: d in configs && Hits(Config(d, configs[d]), n, headers) ==> d == c
    ensures var held := VS.Called(configs, namespace, n);
      var routes := if held.Some? then FirstMatch(held.value.body.virtualService.http, headers) else [n];
      routes == if Diverted(configs, n, headers) then [configs[c].service] else [n]
  {
    var sorted := Sorted(configs);
    TableMeaning(sorted, n, headers);
    TableHasRoutes(sorted, n);
    if Diverted(configs, n, headers) {
      var d :| d in configs && Hits(Config(d, configs[d]), n, headers);
      assert Config(c, configs[c]) in sorted;
      assert Winner(Config(c, configs[c]), sorted, n, headers) by {
        forall x | x in sorted && Hits(x, n, headers) ensures x == Config(c, configs[c]) {
          assert x == Config(x.name, configs[x.name]);
        }
      }
    } else {
      forall x | x in sorted ensures !Hits(x, n, headers) {
        assert x == Config(x.name, configs[x.name]);
      }
    }
  }

  /** The fork's config for the service is in the store. */
  lemma ConfigDelivered(t: Store, f: ForkResource, app: App, svc: Object)
    requires app.fork == f && svc in app.services
    requires Writable(ForkParent(f), ConfigsList(app)) && Holds(t, ForkParent(f), ConfigsList(app), CanonicalCopyName(f))
    ensures Shorten(CopyName(svc.name, f)) in VS.ConfigsIn(t, f.namespace)
    ensures VS.ConfigsIn(t, f.namespace)[Shorten(CopyName(svc.name, f))] == VSConfigSpec(svc.name, CopyName(svc.name, f), app.header, f.spec.identifier)
  {
    var i :| 0 <= i < |app.services| && app.services[i] == svc;
    var k := FinalKey(ConfigsList(app), i, ForkParent(f), CanonicalCopyName(f));
    assert k == Key(Kind.VSConfig, f.namespace, Shorten(CopyName(svc.name, f)));
    assert t[k] == Final(ConfigsList(app), i, ForkParent(f), CanonicalCopyName(f));
  }

  // ---------------------------------------------------------------- the pods

  /** DeploymentCopies of others do not carry this fork's identifier. */
  ghost predicate ForeignCopiesApart(t: Store, f: ForkResource, app: App) {
    forall k :: k in t && k.kind == Kind.DeploymentCopy && k.namespace == f.namespace && !OwnedAt(t, k, ForkParent(f), CopiesList(app)) ==>
      t[k].body.DeploymentCopyBody? && !(IDENTIFIER in t[k].body.copy.customLabels && t[k].body.copy.customLabels[IDENTIFIER] == f.spec.identifier)
  }

  /** `k` holds the fork's copy of this deployment: under its name, and with the deployment as target. */
  ghost predicate CopyFor(t: Store, k: Key, f: ForkResource, d: Object) {
    && k == Key(Kind.DeploymentCopy, f.namespace, Shorten(CopyName(d.name, f)))
    && k in t && t[k].body.DeploymentCopyBody? && t[k].body.copy.targetDeploymentName == d.name && t[k].body.copy.nameSuffix == f.name
  }

  /** `k` holds the copy of a deployment the original service routes to. */
  ghost predicate CopyOfRoutable(t: Store, k: Key, f: ForkResource, app: App, svc: Object) {
    exists d :: d in app.deployments && Routable(d, svc) && CopyFor(t, k, f, d)
  }

  /** The selector picks the copies of the deployments the original routes to, of each of them, and no others. */
  ghost predicate PicksAll(t: Store, selector: Labels, f: ForkResource, app: App, svc: Object) {
    && (forall c: Key :: c.kind == Kind.DeploymentCopy && c.namespace == f.namespace ==>
          (Picks(t, selector, c) <==> CopyOfRoutable(t, c, f, app, svc)))
    && forall d :: d in app.deployments && Routable(d, svc) ==> exists c :: CopyFor(t, c, f, d)
  }

  /** The pods behind a selector: the DeploymentCopies whose custom labels it matches. */
  ghost predicate Picks(t: Store, selector: Labels, k: Key) {
    k in t && t[k].body.DeploymentCopyBody? && HasAll(selector, t[k].body.copy.customLabels)
  }

  lemma CopyAt(t: Store, f: ForkResource, app: App, i: nat)
    requires app.fork == f && i < |app.deployments| && Writable(ForkParent(f), CopiesList(app))
    requires Holds(t, ForkParent(f), CopiesList(app), Shortened())
    ensures var k := Key(Kind.DeploymentCopy, f.namespace, Shorten(CopyName(app.deployments[i].name, f)));
      CopyFor(t, k, f, app.deployments[i])
      && t[k].body.copy.customLabels == CustomLabels(f, RoutesOf(app, app.deployments[i].name))
  {
    DeploymentCopyMeaning(app.deployments[i], f, RoutesOf(app, app.deployments[i].name));
    assert FinalKey(CopiesList(app), i, ForkParent(f), Shortened()) == Key(Kind.DeploymentCopy, f.namespace, Shorten(CopyName(app.deployments[i].name, f)));
    assert t[FinalKey(CopiesList(app), i, ForkParent(f), Shortened())] == Final(CopiesList(app), i, ForkParent(f), Shortened());
  }

  lemma RoutableIsPicked(t: Store, f: ForkResource, app: App, svc: Object, k: Key)
    requires app.fork == f && RoutabilityPreserved(app) && svc in app.services
    requires Writable(ForkParent(f), CopiesList(app)) && Holds(t, ForkParent(f), CopiesList(app), Shortened())
    requires CopyOfRoutable(t, k, f, app, svc)
    ensures Picks(t, CopySelector(svc.name, f), k)
  {
    var d :| d in app.deployments && Routable(d, svc) && CopyFor(t, k, f, d);
    var i :| 0 <= i < |app.deployments| && app.deployments[i] == d;
    CopyAt(t, f, app, i);
    assert CopyRoutes(app, svc, d);
  }

  lemma PickedIsOwned(t: Store, f: ForkResource, app: App, n: string, k: Key)
    requires ForeignCopiesApart(t, f, app) && Picks(t, CopySelector(n, f), k)
    requires k.kind == Kind.DeploymentCopy && k.namespace == f.namespace
    ensures OwnedAt(t, k, ForkParent(f), CopiesList(app))
  {
    RoutingLabelsDistinct(n, n);
    assert IDENTIFIER in CopySelector(n, f) && CopySelector(n, f)[IDENTIFIER] == f.spec.identifier;
  }

  lemma PickedIsRoutable(t: Store, f: ForkResource, app: App, svc: Object, k: Key)
    requires app.fork == f && RoutabilityPreserved(app) && svc in app.services
    requires Writable(ForkParent(f), CopiesList(app)) && Holds(t, ForkParent(f), CopiesList(app), Shortened())
    requires OwnedAt(t, k, ForkParent(f), CopiesList(app)) && Picks(t, CopySelector(svc.name, f), k)
    ensures CopyOfRoutable(t, k, f, app, svc)
  {
    var i :| 0 <= i < |app.deployments| && k == FinalKey(CopiesList(app), i, ForkParent(f), Shortened());
    CopyAt(t, f, app, i);
    var d := app.deployments[i];
    assert d in app.deployments;
    assert k == Key(Kind.DeploymentCopy, f.namespace, Shorten(CopyName(d.name, f)));
    assert CopyRoutes(app, svc, d);
  }

  /** The selector of the copied service picks exactly the copies of the deployments routable from
      the original. */
  lemma CopiesPicked(s: Store, t: Store, f: ForkResource, app: App, svc: Object, k: Key)
    requires Reads(s, f, app) && TemplateHarmless(app) && ForeignCopiesApart(t, f, app) && svc in app.services
    requires Writable(ForkParent(f), CopiesList(app)) && Holds(t, ForkParent(f), CopiesList(app), Shortened())
    requires k.kind == Kind.DeploymentCopy && k.namespace == f.namespace
    ensures Picks(t, CopySelector(svc.name, f), k) <==> CopyOfRoutable(t, k, f, app, svc)
  {
    ForkingPreservesRoutability(s, f, app);
    if CopyOfRoutable(t, k, f, app, svc) { RoutableIsPicked(t, f, app, svc, k); }
    if Picks(t, CopySelector(svc.name, f), k) {
      PickedIsOwned(t, f, app, svc.name, k);
      PickedIsRoutable(t, f, app, svc, k);
    }
  }

  /** The copied service is stored under the name the config sends requests to. */
  lemma CopyStored(t: Store, f: ForkResource, app: App, svc: Object)
    requires app.fork == f && svc in app.services && |CopyName(svc.name, f)| <= LABEL_LIMIT
    requires Writable(ForkParent(f), ServicesList(app)) && Holds(t, ForkParent(f), ServicesList(app), CanonicalCopyName(f))
    ensures CopyIsNamed(t, f, svc.name)
  {
    HoldsMeansInPlace(t, app);
    assert CopyInPlace(t, app, svc);
  }

  // ---------------------------------------------------------------- end to end

  /** The config that serves the fork is the only one that hits the request. */
  ghost predicate NoRival(t: Store, f: ForkResource, n: string, headers: map<string, string>) {
    forall c :: c in VS.ConfigsIn(t, f.namespace) && Hits(Config(c, VS.ConfigsIn(t, f.namespace)[c]), n, headers) ==> c == Shorten(CopyName(n, f))
  }

  /** No config but the fork's own hits the request. */
  ghost predicate NoForeignHit(s: Store, f: ForkResource, app: App, n: string, headers: map<string, string>) {
    forall c :: c in VS.ConfigsIn(s, f.namespace) && Hits(Config(c, VS.ConfigsIn(s, f.namespace)[c]), n, headers) ==>
      OwnedAt(s, Key(Kind.VSConfig, f.namespace, c), ForkParent(f), ConfigsList(app))
  }

  /** After the update the fork has one config for the service, and it is as unrivalled as before. */
  lemma RivalsStayAway(s: Store, t: Store, f: ForkResource, app: App, n: string, headers: map<string, string>)
    requires app.fork == f && Writable(ForkParent(f), ConfigsList(app))
    requires Holds(t, ForkParent(f), ConfigsList(app), CanonicalCopyName(f))
    requires Frames(s, t, ForkParent(f), ConfigsList(app), CanonicalCopyName(f))
    requires NoForeignHit(s, f, app, n, headers)
    ensures NoRival(t, f, n, headers)
  {
    var p, list, canon := ForkParent(f), ConfigsList(app), CanonicalCopyName(f);
    forall c | c in VS.ConfigsIn(t, f.namespace) && Hits(Config(c, VS.ConfigsIn(t, f.namespace)[c]), n, headers)
      ensures c == Shorten(CopyName(n, f))
    {
      var k := Key(Kind.VSConfig, f.namespace, c);
      if IsFinalKey(k, list, p, canon) {
        var i :| 0 <= i < |list.items| && k == FinalKey(list, i, p, canon);
        assert t[k] == Final(list, i, p, canon);
      } else {
        HitFromBefore(s, t, f, app, n, headers, c);
      }
    }
  }

  lemma HitFromBefore(s: Store, t: Store, f: ForkResource, app: App, n: string, headers: map<string, string>, c: string)
    requires Writable(ForkParent(f), ConfigsList(app)) && NoForeignHit(s, f, app, n, headers)
    requires Frames(s, t, ForkParent(f), ConfigsList(app), CanonicalCopyName(f))
    requires c in VS.ConfigsIn(t, f.namespace) && Hits(Config(c, VS.ConfigsIn(t, f.namespace)[c]), n, headers)
    ensures IsFinalKey(Key(Kind.VSConfig, f.namespace, c), ConfigsList(app), ForkParent(f), CanonicalCopyName(f))
  {
    var k := Key(Kind.VSConfig, f.namespace, c);
    assert Same(s, t, k) ==> c in VS.ConfigsIn(s, f.namespace) && VS.ConfigsIn(s, f.namespace)[c] == VS.ConfigsIn(t, f.namespace)[c];
  }

  lemma ForeignCopiesStayApart(s: Store, t: Store, f: ForkResource, app: App)
    requires app.fork == f && Writable(ForkParent(f), CopiesList(app)) && ForeignCopiesApart(s, f, app)
    requires Holds(t, ForkParent(f), CopiesList(app), Shortened()) && Frames(s, t, ForkParent(f), CopiesList(app), Shortened())
    ensures ForeignCopiesApart(t, f, app)
  {
    var p, list := ForkParent(f), CopiesList(app);
    forall k | k in t && k.kind == Kind.DeploymentCopy && k.namespace == f.namespace && !OwnedAt(t, k, p, list)
      ensures Same(s, t, k) && !OwnedAt(s, k, p, list)
    {
      if IsFinalKey(k, list, p, Shortened()) {
        var i :| 0 <= i < |list.items| && k == FinalKey(list, i, p, Shortened());
        FinalIsOwned(list, i, p);
      }
    }
  }

  lemma FinalIsOwned(list: ObjectList, i: nat, p: Parent)
    requires Writable(p, list) && i < |list.items| && Typed(p)
    ensures OwnedByParent(Final(list, i, p, Shortened()), p)
  {
    UpsertHolds(list.items[i].owners, ControllerRef(p));
    var owners := SetController(p, list.items[i].namespace, list.items[i].owners).value;
    var j :| 0 <= j < |owners| && owners[j] == ControllerRef(p);
    assert Final(list, i, p, Shortened()).owners[j] == ControllerRef(p);
  }

  /** The copy's selector picks exactly the copies of the deployments the original routes to. */
  ghost predicate PicksCopies(u: Store, f: ForkResource, app: App, svc: Object) {
    PicksAll(u, CopySelector(svc.name, f), f, app, svc)
  }

  /** The service of the copy's full name exists and has the copy's selector. */
  ghost predicate CopyIsNamed(u: Store, f: ForkResource, n: string) {
    var k := Key(Kind.Service, f.namespace, CopyName(n, f));
    k in u && u[k].body.ServiceBody? && u[k].body.service.selector == CopySelector(n, f)
  }

  /** The service of the copy's name exists, and its selector picks exactly the copies of the
      deployments the original routes to. */
  ghost predicate ServedByCopies(u: Store, f: ForkResource, app: App, svc: Object) {
    CopyIsNamed(u, f, svc.name) && PicksCopies(u, f, app, svc)
  }

  /** A request with the fork's identifier to a selected service, and a store in which only the fork's
      own configs hit it. */
  ghost predicate Asks(s: Store, f: ForkResource, app: App, n: string, headers: map<string, string>) {
    && f.spec.identifier != "" && app.header in headers && headers[app.header] == f.spec.identifier
    && NoForeignHit(s, f, app, n, headers)
  }

  /** End-to-end fork routing: after a fork update and a VirtualService update that succeed, a request
      to a selected service that carries the fork's identifier in the manager's header reaches a
      service whose selector picks exactly the copies of the deployments routable from it, whatever
      state the fork's copies were in before. */
  lemma ForkedRequestsReachTheFork(s: Store, t: Store, u: Store, f: ForkResource, app: App,
                                   svc: Object, headers: map<string, string>)
    requires Ready(s, f, app) && Routed(s, f, app, svc) && BothUpdated(s, t, u, f, app, svc.name)
    requires TemplateHarmless(app) && ForeignCopiesApart(s, f, app) && Asks(s, f, app, svc.name, headers)
    requires |CopyName(svc.name, f)| <= LABEL_LIMIT
    ensures Destination(u, f.namespace, svc.name, headers) == [CopyName(svc.name, f)]
    ensures NoStrays(s, f.namespace, svc.name) ==> Destinations(u, f.namespace, svc.name, headers) == {[CopyName(svc.name, f)]}
    ensures ServedByCopies(u, f, app, svc)
  {
    RequestsForked(s, t, u, f, app, svc, headers);
    OneDestinationAfter(s, t, u, f, app, svc, headers);
    PodsForked(s, t, u, f, app, svc);
    NameServed(s, t, u, f, app, svc);
  }

  /** The request is sent to the copy's name, whatever its length. */
  lemma RequestsForked(s: Store, t: Store, u: Store, f: ForkResource, app: App, svc: Object, headers: map<string, string>)
    requires Ready(s, f, app) && Routed(s, f, app, svc) && BothUpdated(s, t, u, f, app, svc.name) && Asks(s, f, app, svc.name, headers)
    ensures Destination(u, f.namespace, svc.name, headers) == [CopyName(svc.name, f)]
  {
    UpdateDelivers(s, t, f, app);
    UpdateFrames(s, t, f, app);
    OwnsByNameKept(s, t, f.namespace, svc.name);
    RivalsStayAway(s, t, f, app, svc.name, headers);
    RoutesInstalled(t, u, f.namespace, svc.name);
    ForkedDestination(t, u, f, app, svc, headers);
  }

  /** Without strays before the updates there is one destination after them. */
  lemma OneDestinationAfter(s: Store, t: Store, u: Store, f: ForkResource, app: App, svc: Object, headers: map<string, string>)
    requires Ready(s, f, app) && Routed(s, f, app, svc) && BothUpdated(s, t, u, f, app, svc.name)
    ensures NoStrays(s, f.namespace, svc.name) ==>
      Destinations(u, f.namespace, svc.name, headers) == {Destination(u, f.namespace, svc.name, headers)}
  {
    if NoStrays(s, f.namespace, svc.name) {
      UpdateDelivers(s, t, f, app);
      OwnsByNameKept(s, t, f.namespace, svc.name);
      NoStraysKept(s, t, f.namespace, svc.name);
      OneDestinationInstalled(t, u, f.namespace, svc.name, headers);
    }
  }

  lemma NoStraysKept(s: Store, t: Store, namespace: string, n: string)
    requires OtherKindsSame(s, t) && NoStrays(s, namespace, n)
    ensures NoStrays(t, namespace, n)
  {
    forall k: Key | k.kind == Kind.VirtualService ensures Same(s, t, k) {}
  }

  lemma OneDestinationInstalled(t: Store, u: Store, namespace: string, n: string, headers: map<string, string>)
    requires WellKeyed(t) && 0 < |n| <= LABEL_LIMIT && VS.OwnsByName(t, namespace, n) && NoStrays(t, namespace, n)
    requires VS.Updated(t, u, namespace, n, true)
    ensures Destinations(u, namespace, n, headers) == {Destination(u, namespace, n, headers)}
  {
    RoutesInstalled(t, u, namespace, n);
    OneDestination(u, namespace, n, headers);
  }

  /** A service that holds what its configs call for sends requests along those routes. */
  lemma CalledRoutes(u: Store, configs: Configs, namespace: string, n: string, headers: map<string, string>)
    requires VS.Held(u, namespace, n) == VS.Called(configs, namespace, n)
    ensures var held := VS.Called(configs, namespace, n);
      && (held.Some? ==> held.value.body.VirtualServiceBody?)
      && Destination(u, namespace, n, headers) == if held.Some? then FirstMatch(held.value.body.virtualService.http, headers) else [n]
  {}

  /** The selector of copies picks the copies of the routable deployments, whatever the lengths of the names. */
  lemma PodsForked(s: Store, t: Store, u: Store, f: ForkResource, app: App, svc: Object)
    requires Ready(s, f, app) && Routed(s, f, app, svc) && BothUpdated(s, t, u, f, app, svc.name)
    requires TemplateHarmless(app) && ForeignCopiesApart(s, f, app)
    ensures PicksCopies(u, f, app, svc)
  {
    UpdateDelivers(s, t, f, app);
    UpdateFrames(s, t, f, app);
    ForeignCopiesStayApart(s, t, f, app);
    OnlyRoutesChanged(s, t, u, f, svc.name);
    CopyPods(s, t, u, f, app, svc);
  }

  lemma OnlyRoutesChanged(s: Store, t: Store, u: Store, f: ForkResource, n: string)
    requires 0 < |n| <= LABEL_LIMIT && VS.OwnsByName(s, f.namespace, n) && WellKeyed(t) && OtherKindsSame(s, t)
    requires VS.Updated(t, u, f.namespace, n, true)
    ensures OnlyVirtualServicesDiffer(t, u)
  {
    OwnsByNameKept(s, t, f.namespace, n);
    RoutesInstalled(t, u, f.namespace, n);
  }

  lemma NameServed(s: Store, t: Store, u: Store, f: ForkResource, app: App, svc: Object)
    requires Ready(s, f, app) && Routed(s, f, app, svc) && BothUpdated(s, t, u, f, app, svc.name)
    requires |CopyName(svc.name, f)| <= LABEL_LIMIT
    ensures CopyIsNamed(u, f, svc.name)
  {
    UpdateDelivers(s, t, f, app);
    OnlyRoutesChanged(s, t, u, f, svc.name);
    CopyStored(t, f, app, svc);
    assert Same(t, u, Key(Kind.Service, f.namespace, CopyName(svc.name, f)));
  }

  lemma CopyPods(s: Store, t: Store, u: Store, f: ForkResource, app: App, svc: Object)
    requires Reads(s, f, app) && TemplateHarmless(app) && ForeignCopiesApart(t, f, app) && svc in app.services
    requires Writable(ForkParent(f), CopiesList(app)) && Holds(t, ForkParent(f), CopiesList(app), Shortened())
    requires OnlyVirtualServicesDiffer(t, u)
    ensures PicksCopies(u, f, app, svc)
  {
    forall c: Key | c.kind == Kind.DeploymentCopy && c.namespace == f.namespace
      ensures Picks(u, CopySelector(svc.name, f), c) <==> CopyOfRoutable(u, c, f, app, svc)
    {
      CopiesPicked(s, t, f, app, svc, c);
      RoutableElsewhere(t, u, c, f, app, svc);
    }
    forall d | d in app.deployments && Routable(d, svc) ensures exists c :: CopyFor(u, c, f, d) {
      var i :| 0 <= i < |app.deployments| && app.deployments[i] == d;
      CopyAt(t, f, app, i);
      var c := Key(Kind.DeploymentCopy, f.namespace, Shorten(CopyName(d.name, f)));
      assert Same(t, u, c) && CopyFor(u, c, f, d);
    }
  }

  lemma RoutableElsewhere(t: Store, u: Store, c: Key, f: ForkResource, app: App, svc: Object)
    requires OnlyVirtualServicesDiffer(t, u) && c.kind == Kind.DeploymentCopy
    ensures CopyOfRoutable(t, c, f, app, svc) <==> CopyOfRoutable(u, c, f, app, svc)
    ensures Picks(t, CopySelector(svc.name, f), c) <==> Picks(u, CopySelector(svc.name, f), c)
  {
    assert Same(t, u, c);
    forall d ensures CopyFor(t, c, f, d) <==> CopyFor(u, c, f, d) {}
  }

  /** Where requests with the fork's identifier go in a store whose VirtualService is what the configs of `t` call for. */
  lemma ForkedDestination(t: Store, u: Store, f: ForkResource, app: App, svc: Object, headers: map<string, string>)
    requires app.fork == f && svc in app.services
    requires VS.Held(u, f.namespace, svc.name) == VS.Called(VS.ConfigsIn(t, f.namespace), f.namespace, svc.name)
    requires Writable(ForkParent(f), ConfigsList(app)) && Holds(t, ForkParent(f), ConfigsList(app), CanonicalCopyName(f))
    requires f.spec.identifier != "" && NoRival(t, f, svc.name, headers)
    requires app.header in headers && headers[app.header] == f.spec.identifier
    ensures Destination(u, f.namespace, svc.name, headers) == [CopyName(svc.name, f)]
  {
    ConfigDelivered(t, f, app, svc);
    var configs, c := VS.ConfigsIn(t, f.namespace), Shorten(CopyName(svc.name, f));
    assert Hits(Config(c, configs[c]), svc.name, headers);
    RoutesFollow(configs, f.namespace, svc.name, headers, c);
    CalledRoutes(u, configs, f.namespace, svc.name, headers);
  }

  /** A request no config hits still reaches the service itself. */
  lemma OtherRequestsReachTheService(t: Store, u: Store, namespace: string, n: string, headers: map<string, string>)
    requires WellKeyed(t) && 0 < |n| <= LABEL_LIMIT && VS.OwnsByName(t, namespace, n)
    requires VS.Updated(t, u, namespace, n, true) && !Diverted(VS.ConfigsIn(t, namespace), n, headers)
    ensures Destination(u, namespace, n, headers) == [n]
    ensures NoStrays(t, namespace, n) ==> Destinations(u, namespace, n, headers) == {[n]}
  {
    RoutesInstalled(t, u, namespace, n);
    RoutesFollow(VS.ConfigsIn(t, namespace), namespace, n, headers, n);
    CalledRoutes(u, VS.ConfigsIn(t, namespace), namespace, n, headers);
    if NoStrays(t, namespace, n) { OneDestinationInstalled(t, u, namespace, n, headers); }
  }

  // ---------------------------------------------------------------- names that are too long

  /** The request is sent to a service that exists and picks exactly the copies. */
  ghost predicate ReachesCopies(u: Store, f: ForkResource, app: App, svc: Object, headers: map<string, string>) {
    var d := Destination(u, f.namespace, svc.name, headers);
    |d| == 1
    && var k := Key(Kind.Service, f.namespace, d[0]);
       k in u && u[k].body.ServiceBody? && PicksAll(u, u[k].body.service.selector, f, app, svc)
  }

  lemma ServedMeansReached(u: Store, f: ForkResource, app: App, svc: Object, headers: map<string, string>)
    requires Destination(u, f.namespace, svc.name, headers) == [CopyName(svc.name, f)] && ServedByCopies(u, f, app, svc)
    ensures ReachesCopies(u, f, app, svc, headers)
  {}

  lemma AbsentMeansNotReached(u: Store, f: ForkResource, app: App, svc: Object, headers: map<string, string>)
    requires Destination(u, f.namespace, svc.name, headers) == [CopyName(svc.name, f)]
    requires Key(Kind.Service, f.namespace, CopyName(svc.name, f)) !in u
    ensures !ReachesCopies(u, f, app, svc, headers)
  {}

  /** The names services are stored under fit a label. */
  ghost predicate NamesFitLabels(s: Store, namespace: string) {
    forall k: Key :: k in s && k.kind == Kind.Service && k.namespace == namespace ==> |k.name| <= LABEL_LIMIT
  }

  /** The forked request reaches the copies if and only if the name of the copied service fits a label:
      the config keeps the whole name and the service is stored under a shortened one. */
  lemma CopyNameServed(s: Store, t: Store, u: Store, f: ForkResource, app: App, svc: Object, headers: map<string, string>)
    requires Ready(s, f, app) && Routed(s, f, app, svc) && BothUpdated(s, t, u, f, app, svc.name)
    requires TemplateHarmless(app) && ForeignCopiesApart(s, f, app) && Asks(s, f, app, svc.name, headers)
    requires NamesFitLabels(s, f.namespace)
    ensures ReachesCopies(u, f, app, svc, headers) <==> |CopyName(svc.name, f)| <= LABEL_LIMIT
  {
    if |CopyName(svc.name, f)| <= LABEL_LIMIT {
      ForkedRequestsReachTheFork(s, t, u, f, app, svc, headers);
      ServedMeansReached(u, f, app, svc, headers);
    } else {
      RequestsForked(s, t, u, f, app, svc, headers);
      LongNameNotServed(s, t, u, f, app, svc);
      AbsentMeansNotReached(u, f, app, svc, headers);
    }
  }

  lemma LongNameNotServed(s: Store, t: Store, u: Store, f: ForkResource, app: App, svc: Object)
    requires Ready(s, f, app) && Routed(s, f, app, svc) && BothUpdated(s, t, u, f, app, svc.name)
    requires |CopyName(svc.name, f)| > LABEL_LIMIT && NamesFitLabels(s, f.namespace)
    ensures Key(Kind.Service, f.namespace, CopyName(svc.name, f)) !in u
  {
    var k := Key(Kind.Service, f.namespace, CopyName(svc.name, f));
    UpdateDelivers(s, t, f, app);
    UpdateFrames(s, t, f, app);
    OnlyRoutesChanged(s, t, u, f, svc.name);
    LongNameKept(s, t, f, app, k);
    assert Same(t, u, k) && k !in s;
  }

  // ---------------------------------------------------------------- both updates can succeed

  /** Nothing but failing calls stands between a fork and its traffic: from any store the theorem
      above speaks of, both updates can succeed, unless the selected service belongs to the fork itself. */
  lemma ForkingCanSucceed(s: Store, f: ForkResource, app: App, svc: Object) returns (t: Store, u: Store)
    requires Ready(s, f, app) && Routed(s, f, app, svc) && !OwnedByParent(svc, ForkParent(f))
    ensures BothUpdated(s, t, u, f, app, svc.name)
  {
    t := UpdateCanSucceed(s, f, app);
    ServiceStays(s, t, f, app, svc);
    u := VS.UpdateCanSucceed(t, f.namespace, svc.name);
  }

  lemma ServiceStays(s: Store, t: Store, f: ForkResource, app: App, svc: Object)
    requires Ready(s, f, app) && Routed(s, f, app, svc) && !OwnedByParent(svc, ForkParent(f))
    requires Refreshed(s, t, ForkParent(f), Lists(app))
    ensures WellKeyed(t) && Key(Kind.Service, f.namespace, svc.name) in t && VS.OwnsByName(t, f.namespace, svc.name)
  {
    UpdateDelivers(s, t, f, app);
    UpdateFrames(s, t, f, app);
    OwnsByNameKept(s, t, f.namespace, svc.name);
    StaysOrReplaced(s, t, f, app, svc);
  }

  lemma StaysOrReplaced(s: Store, t: Store, f: ForkResource, app: App, svc: Object)
    requires app.fork == f && Selected(s, f, svc) && !OwnedByParent(svc, ForkParent(f)) && Writable(ForkParent(f), ServicesList(app))
    requires Holds(t, ForkParent(f), ServicesList(app), CanonicalCopyName(f)) && Frames(s, t, ForkParent(f), ServicesList(app), CanonicalCopyName(f))
    ensures KeyOf(svc) in t
  {
    var k := KeyOf(svc);
    assert !OwnedAt(s, k, ForkParent(f), ServicesList(app));
    if IsFinalKey(k, ServicesList(app), ForkParent(f), CanonicalCopyName(f)) {
      var i := FinalIsCopyKey(app, k);
    } else {
      assert Same(s, t, k);
    }
  }

  /** From any such store there are updates after which the fork's requests reach its copies. */
  lemma ForkCanBeReached(s: Store, f: ForkResource, app: App, svc: Object, headers: map<string, string>)
    returns (t: Store, u: Store)
    requires Ready(s, f, app) && Routed(s, f, app, svc) && !OwnedByParent(svc, ForkParent(f))
    requires TemplateHarmless(app) && ForeignCopiesApart(s, f, app) && Asks(s, f, app, svc.name, headers)
    requires |CopyName(svc.name, f)| <= LABEL_LIMIT
    ensures BothUpdated(s, t, u, f, app, svc.name)
    ensures Destination(u, f.namespace, svc.name, headers) == [CopyName(svc.name, f)] && ServedByCopies(u, f, app, svc)
    ensures ReachesCopies(u, f, app, svc, headers)
  {
    t, u := ForkingCanSucceed(s, f, app, svc);
    ForkedRequestsReachTheFork(s, t, u, f, app, svc, headers);
    ServedMeansReached(u, f, app, svc, headers);
  }
}
