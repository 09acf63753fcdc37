/** The VirtualService updater: it reads a service and the VSConfigs of its namespace, compiles them
    and hands the result to the refresher with the service as parent. */
module VirtualServices {
  import opened Kube
  import opened Text
  import opened ResourceName
  import opened Refresh
  import opened RefreshTheorems
  import opened RefreshRetry
  import opened Routing
  import Runs

  const SERVICE_LABEL: string := "fork.k8s.wantedly.com/service"

  // ---------------------------------------------------------------- what is emitted

  /** The identity of a VirtualService: its last host. */
  function LastHost(o: Object): Result<string> {
    if !o.body.VirtualServiceBody? then Err(IdentityUnknown)
    else
      var hosts := o.body.virtualService.hosts;
      if hosts == [] then Ok("") else Ok(hosts[|hosts| - 1])
  }

  function VirtualServiceFor(namespace: string, service: string, table: seq<HTTPRoute>): Object {
    Object(service, namespace, map[SERVICE_LABEL := service], [],
           VirtualServiceBody(VirtualServiceSpec([service], table)))
  }

  /** `vsLister.buildVirtualService`. */
  function VirtualServiceList(namespace: string, service: string, table: seq<HTTPRoute>): ObjectList {
    ObjectList(if |table| > 1 then [VirtualServiceFor(namespace, service, table)] else [],
               Kind.VirtualService, LastHost)
  }

  function ServiceParent(namespace: string, service: string): Parent {
    Parent(SchemeGVK(Kind.Service), Kind.Service, namespace, service)
  }

  function VSKey(namespace: string, service: string): Key {
    Key(Kind.VirtualService, namespace, service)
  }

  // ---------------------------------------------------------------- the store, read

  ghost function ConfigsIn(s: Store, namespace: string): Configs {
    var names := set k | k in s && k.kind == Kind.VSConfig && k.namespace == namespace :: k.name;
    map n | n in names && s[Key(Kind.VSConfig, namespace, n)].body.VSConfigBody? :: s[Key(Kind.VSConfig, namespace, n)].body.config
  }

  /** The VirtualService the configs call for, owner included. */
  ghost function Called(configs: Configs, namespace: string, service: string): Option<Object> {
    Asked(namespace, service, Table(Sorted(configs), service))
  }

  ghost predicate Owns(s: Store, namespace: string, service: string, k: Key) {
    OwnedAt(s, k, ServiceParent(namespace, service), VirtualServiceList(namespace, service, []))
  }

  /** The VirtualService the service owns. */
  ghost function Held(s: Store, namespace: string, service: string): Option<Object> {
    var k := VSKey(namespace, service);
    if Owns(s, namespace, service, k) then Some(s[k]) else None
  }

  /** The service owns at most one VirtualService, under its own name and for its own host. */
  ghost predicate OwnsByName(s: Store, namespace: string, service: string) {
    forall k :: Owns(s, namespace, service, k) ==> k.name == service && LastHost(s[k]) == Ok(service)
  }

  /** The service owns exactly the VirtualService its VSConfigs call for. */
  ghost predicate Agrees(s: Store, namespace: string, service: string) {
    OwnsByName(s, namespace, service)
    && Held(s, namespace, service) == Called(ConfigsIn(s, namespace), namespace, service)
  }

  /** Service names are DNS labels, and nobody but the controller gave services VirtualServices. */
  ghost predicate Tidy(s: Store, namespace: string) {
    forall n {:trigger Key(Kind.Service, namespace, n) in s} {:trigger OwnsByName(s, namespace, n)} ::
      Key(Kind.Service, namespace, n) in s ==> 0 < |n| <= LABEL_LIMIT && OwnsByName(s, namespace, n)
  }

  // ---------------------------------------------------------------- what a service in agreement holds

  /** The identity of a VirtualService is its last host, whatever stands before it. */
  lemma LastHostMeaning(o: Object, before: seq<string>, last: string)
    requires o.body.VirtualServiceBody?
    ensures o.body.virtualService.hosts == before + [last] ==> LastHost(o) == Ok(last)
    ensures o.body.virtualService.hosts == [] ==> LastHost(o) == Ok("")
  {}

  /** A VirtualService of the service and of nothing else, field by field. */
  ghost predicate IsVirtualServiceOf(o: Object, namespace: string, service: string) {
    && o.name == service && o.namespace == namespace && o.labels == map["fork.k8s.wantedly.com/service" := service]
    && o.owners == [OwnerRef("v1", "Service", service, true)]
    && o.body.VirtualServiceBody? && o.body.virtualService.hosts == [service]
  }

  /** Some config of the namespace is for the service and has a value. */
  ghost predicate SomeConfigFor(s: Store, namespace: string, service: string) {
    exists k :: k in s && k.kind == Kind.VSConfig && k.namespace == namespace && s[k].body.VSConfigBody?
      && s[k].body.config.host == service && s[k].body.config.headerValue != ""
  }

  /** What agreement means: the service owns a VirtualService if and only if some config is for it, and what it owns
      is stored under its name, has it for its only host, and leads each request to the service of the smallest-named
      config that sends it away, else home. */
  lemma AgreedMeaning(s: Store, namespace: string, service: string, k: Key, headers: map<string, string>)
    requires Agrees(s, namespace, service)
    ensures (exists l :: Owns(s, namespace, service, l)) <==> SomeConfigFor(s, namespace, service)
    ensures Owns(s, namespace, service, k) ==>
      && k == Key(Kind.VirtualService, namespace, service) && IsVirtualServiceOf(s[k], namespace, service)
      && var configs, d := ConfigsIn(s, namespace), FirstMatch(s[k].body.virtualService.http, headers);
         if n :| SendsFirst(configs, n, service, headers) then d == [configs[n].service] else d == [service]
  {
    var configs := ConfigsIn(s, namespace);
    LookupMeaning(configs, service, headers);
    ConfigsMeaning(s, namespace, service);
    if l :| Owns(s, namespace, service, l) { assert l == VSKey(namespace, service); }
    assert Called(configs, namespace, service).Some? ==> Owns(s, namespace, service, VSKey(namespace, service));
  }

  lemma ConfigsMeaning(s: Store, namespace: string, service: string)
    ensures SomeConfigFor(s, namespace, service) <==>
      exists n :: n in ConfigsIn(s, namespace) && ConfigsIn(s, namespace)[n].host == service && ConfigsIn(s, namespace)[n].headerValue != ""
    ensures forall n, c :: n in ConfigsIn(s, namespace) && ConfigsIn(s, namespace)[n] == c <==>
      Key(Kind.VSConfig, namespace, n) in s && s[Key(Kind.VSConfig, namespace, n)].body == VSConfigBody(c)
  {
    var configs := ConfigsIn(s, namespace);
    forall n ensures n in configs <==> Key(Kind.VSConfig, namespace, n) in s && s[Key(Kind.VSConfig, namespace, n)].body.VSConfigBody? {
      assert Key(Kind.VSConfig, namespace, n).name == n;
    }
    if k :| k in s && k.kind == Kind.VSConfig && k.namespace == namespace && s[k].body.VSConfigBody?
            && s[k].body.config.host == service && s[k].body.config.headerValue != "" {
      assert k == Key(Kind.VSConfig, namespace, k.name);
      assert k.name in configs;
    }
  }

  // ---------------------------------------------------------------- one refresh

  lemma CanonicalHosts(namespace: string, service: string, table: seq<HTTPRoute>)
    requires 0 < |service| <= LABEL_LIMIT
    ensures CanonicalList(ServiceParent(namespace, service), VirtualServiceList(namespace, service, table), n => n)
  {}

  lemma ByNameIsCanonical(s: Store, namespace: string, service: string, table: seq<HTTPRoute>)
    requires OwnsByName(s, namespace, service)
    ensures Canonical(s, ServiceParent(namespace, service), VirtualServiceList(namespace, service, table), n => n)
  {
    var p, list := ServiceParent(namespace, service), VirtualServiceList(namespace, service, table);
    forall k | OwnedAt(s, k, p, list) ensures LastHost(s[k]) == Ok(k.name) {
      assert Owns(s, namespace, service, k);
    }
  }

  ghost function Asked(namespace: string, service: string, table: seq<HTTPRoute>): Option<Object> {
    if |table| > 1 then Some(VirtualServiceFor(namespace, service, table).(owners := [ControllerRef(ServiceParent(namespace, service))]))
    else None
  }

  /** The effect of a refresh on the store: none, or one write under the service's name. */
  ghost predicate WritesAtMost(s: Store, t: Store, namespace: string, service: string, table: seq<HTTPRoute>) {
    var k := VSKey(namespace, service);
    && (forall l :: l != k ==> Same(s, t, l))
    && (Same(s, t, k)
        || match Asked(namespace, service, table)
           case None => k !in t
           case Some(o) => k in t && t[k] == o)
  }

  /** However far a refresh of one service got, only the VirtualService under the service's name
      changed, and it is as it was or as the table asks for. */
  lemma RefreshWritesOneKey(s: Store, t: Store, namespace: string, service: string, table: seq<HTTPRoute>)
    requires WellKeyed(s) && 0 < |service| <= LABEL_LIMIT && OwnsByName(s, namespace, service)
    requires PartialRun(s, t, ServiceParent(namespace, service), VirtualServiceList(namespace, service, table))
    ensures WellKeyed(t) && WritesAtMost(s, t, namespace, service, table)
  {
    var p, list := ServiceParent(namespace, service), VirtualServiceList(namespace, service, table);
    var canon := (n: string) => n;
    CanonicalHosts(namespace, service, table);
    ByNameIsCanonical(s, namespace, service, table);
    CanonicalPreserved(s, t, p, list, canon);
    var listing, n: nat :| Answers(listing, s, p, list) && n <= |Plan(listing, p, list)| && t == Run(s, Plan(listing, p, list)[..n]);
    forall k | !Same(s, t, k)
      ensures k == VSKey(namespace, service)
      ensures match Asked(namespace, service, table) case None => k !in t case Some(o) => k in t && t[k] == o
    {
      ChangedKey(s, listing, n, namespace, service, table, k);
    }
  }

  lemma ChangedKey(s: Store, listing: seq<Object>, n: nat, namespace: string, service: string, table: seq<HTTPRoute>, k: Key)
    requires WellKeyed(s) && 0 < |service| <= LABEL_LIMIT && OwnsByName(s, namespace, service)
    requires Answers(listing, s, ServiceParent(namespace, service), VirtualServiceList(namespace, service, table))
    requires n <= |Plan(listing, ServiceParent(namespace, service), VirtualServiceList(namespace, service, table))|
    requires !Same(s, Run(s, Plan(listing, ServiceParent(namespace, service), VirtualServiceList(namespace, service, table))[..n]), k)
    ensures k == VSKey(namespace, service)
    ensures var t := Run(s, Plan(listing, ServiceParent(namespace, service), VirtualServiceList(namespace, service, table))[..n]);
      match Asked(namespace, service, table) case None => k !in t case Some(o) => k in t && t[k] == o
  {
    var p, list := ServiceParent(namespace, service), VirtualServiceList(namespace, service, table);
    var canon := (m: string) => m;
    CanonicalHosts(namespace, service, table);
    ByNameIsCanonical(s, namespace, service, table);
    var t, existing := Run(s, Plan(listing, p, list)[..n]), Existing(listing, p, list);
    PrefixOutcome(s, listing, p, list, n, k);
    if i :| 0 <= i < |list.items| && k == Slot(list, i, p, existing) && k in t && t[k] == Delivered(list, i, p, existing) {
      CanonicalSlots(s, listing, p, list, canon, i);
    } else {
      assert Owns(s, namespace, service, k);
      StaleMeansUnasked(s, namespace, service, table);
    }
  }

  lemma StaleMeansUnasked(s: Store, namespace: string, service: string, table: seq<HTTPRoute>)
    requires OwnsByName(s, namespace, service)
    requires Stale(s, VSKey(namespace, service), ServiceParent(namespace, service), VirtualServiceList(namespace, service, table))
    ensures |table| <= 1
  {
    assert Owns(s, namespace, service, VSKey(namespace, service));
    if |table| > 1 {
      AskedIsWanted(namespace, service, table);
    }
  }

  lemma AskedIsWanted(namespace: string, service: string, table: seq<HTTPRoute>)
    requires |table| > 1
    ensures Wanted(service, VirtualServiceList(namespace, service, table))
  {
    assert LastHost(VirtualServiceList(namespace, service, table).items[0]) == Ok(service);
  }

  /** A refresh that ends without an error leaves what the table asks for. */
  lemma CompleteRefreshDelivers(s: Store, t: Store, namespace: string, service: string, table: seq<HTTPRoute>)
    requires WellKeyed(s) && 0 < |service| <= LABEL_LIMIT && OwnsByName(s, namespace, service)
    requires CompleteRun(s, t, ServiceParent(namespace, service), VirtualServiceList(namespace, service, table))
    ensures Held(t, namespace, service) == Asked(namespace, service, table)
  {
    var p, list := ServiceParent(namespace, service), VirtualServiceList(namespace, service, table);
    var canon := (n: string) => n;
    CanonicalHosts(namespace, service, table);
    ByNameIsCanonical(s, namespace, service, table);
    CompleteRunSettles(s, t, p, list, canon);
    SettledIsAsked(s, t, namespace, service, table, canon);
  }

  lemma SettledIsAsked(s: Store, t: Store, namespace: string, service: string, table: seq<HTTPRoute>, canon: string -> string)
    requires WellKeyed(s) && 0 < |service| <= LABEL_LIMIT && OwnsByName(s, namespace, service) && canon(service) == service
    requires Writable(ServiceParent(namespace, service), VirtualServiceList(namespace, service, table))
    requires Settled(s, t, ServiceParent(namespace, service), VirtualServiceList(namespace, service, table), canon)
    ensures Held(t, namespace, service) == Asked(namespace, service, table)
  {
    var p, list := ServiceParent(namespace, service), VirtualServiceList(namespace, service, table);
    var k := VSKey(namespace, service);
    if |table| > 1 {
      assert k == FinalKey(list, 0, p, canon) && t[k] == Final(list, 0, p, canon);
      assert t[k].owners[0] == ControllerRef(p);
    } else {
      assert !IsFinalKey(k, list, p, canon);
      assert OwnedAt(s, k, p, list) <==> Owns(s, namespace, service, k);
      assert Owns(t, namespace, service, k) ==> Same(s, t, k);
    }
  }

  /** What such a write cannot change: the configs and what other services own. */
  lemma OthersKept(s: Store, t: Store, namespace: string, service: string, table: seq<HTTPRoute>, other: string)
    requires WritesAtMost(s, t, namespace, service, table)
    requires OwnsByName(s, namespace, other)
    ensures ConfigsIn(t, namespace) == ConfigsIn(s, namespace)
    ensures OwnsByName(t, namespace, other)
    ensures other != service ==> Held(t, namespace, other) == Held(s, namespace, other)
  {
    ConfigsKept(s, t, namespace, service);
    var k := VSKey(namespace, service);
    forall l | Owns(t, namespace, other, l) ensures l.name == other && LastHost(t[l]) == Ok(other) {
      assert Same(s, t, l) ==> Owns(s, namespace, other, l);
      if !Same(s, t, l) {
        assert l == k && t[k].owners == [ControllerRef(ServiceParent(namespace, service))];
        assert t[k].owners[0].name == service;
      }
    }
    if other != service {
      assert Same(s, t, VSKey(namespace, other));
    }
  }

  lemma ConfigsKept(s: Store, t: Store, namespace: string, service: string)
    requires forall k :: k != VSKey(namespace, service) ==> Same(s, t, k)
    ensures ConfigsIn(t, namespace) == ConfigsIn(s, namespace)
  {
    var a, b := ConfigsIn(s, namespace), ConfigsIn(t, namespace);
    forall n ensures n in a <==> n in b ensures n in a ==> a[n] == b[n] {
      assert Same(s, t, Key(Kind.VSConfig, namespace, n));
    }
  }

  lemma TidyKept(s: Store, t: Store, namespace: string, service: string, table: seq<HTTPRoute>)
    requires WritesAtMost(s, t, namespace, service, table) && Tidy(s, namespace)
    ensures Tidy(t, namespace)
  {
    forall n | Key(Kind.Service, namespace, n) in t ensures 0 < |n| <= LABEL_LIMIT && OwnsByName(t, namespace, n) {
      assert Same(s, t, Key(Kind.Service, namespace, n));
      OthersKept(s, t, namespace, service, table, n);
    }
  }

  // ---------------------------------------------------------------- the updater

  /** `builder.Build`: the configs of the namespace in name order. */
  method Build(c: Cluster, namespace: string, service: string) returns (r: Result<seq<Config>>)
    requires c.Valid()
    ensures r.Ok? ==> r.value == Sorted(ConfigsIn(c.store, namespace)) && Key(Kind.Service, namespace, service) in c.store
  {
    var listed := c.List(Kind.VSConfig, Some(namespace), Everything);
    if listed.Err? { return Err(listed.error); }
    var configs := AsConfigs(c.store, namespace, listed.value);
    var sorted := Sort(configs, NameOf);
    SortingForgetsOrder(configs, sorted, ConfigsIn(c.store, namespace));
    var found := c.Get(Key(Kind.Service, namespace, service));
    if found.Err? { return Err(found.error); }
    if found.value.None? { return Err(NotFound); }
    r := Ok(sorted);
  }

  method AsConfigs(ghost s: Store, namespace: string, items: seq<Object>) returns (configs: seq<Config>)
    requires WellKeyed(s) && Enumerates(items, s, Kind.VSConfig, Some(namespace), Everything)
    ensures Arranges(configs, ConfigsIn(s, namespace))
  {
    configs := [];
    for i := 0 to |items|
      invariant |configs| == i
      invariant forall j :: 0 <= j < i ==> items[j].body.VSConfigBody? && configs[j] == Config(items[j].name, items[j].body.config)
    {
      assert items[i] in items;
      configs := configs + [Config(items[i].name, items[i].body.config)];
    }
    EnumeratedKeysDistinct(items, s, Kind.VSConfig, Some(namespace), Everything);
    assert forall j :: 0 <= j < |items| ==> items[j] in items;
    forall c: Config ensures c in configs <==> c.name in ConfigsIn(s, namespace) && ConfigsIn(s, namespace)[c.name] == c.spec {
      var k := Key(Kind.VSConfig, namespace, c.name);
      if c.name in ConfigsIn(s, namespace) {
        assert k in s;
        assert Listed(s, Kind.VSConfig, Some(namespace), Everything, s[k]);
        var j :| 0 <= j < |items| && items[j] == s[k];
        assert configs[j].name == c.name;
      }
      if c in configs {
        var j :| 0 <= j < |configs| && configs[j] == c;
        assert KeyOf(items[j]) == k;
      }
    }
  }

  /** What one update did to the store. */
  ghost predicate Updated(s: Store, t: Store, namespace: string, service: string, ok: bool) {
    var table := Table(Sorted(ConfigsIn(s, namespace)), service);
    var p, list := ServiceParent(namespace, service), VirtualServiceList(namespace, service, table);
    if ok then Key(Kind.Service, namespace, service) in s && CompleteRun(s, t, p, list)
    else t == s || (Key(Kind.Service, namespace, service) in s && PartialRun(s, t, p, list))
  }

  /** `virtualServiceUpdater.Update`. */
  method Update(c: Cluster, namespace: string, service: string) returns (r: Result<()>)
    requires c.Valid()
    modifies c
    ensures c.Valid()
    ensures Updated(old(c.store), c.store, namespace, service, r.Ok?)
  {
    var found := c.Get(Key(Kind.Service, namespace, service));
    if found.Err? { return Err(found.error); }
    if found.value.None? { return Err(NotFound); }
    var built := Build(c, namespace, service);
    if built.Err? { return Err(built.error); }
    var routes := BuildHTTPRoutes(built.value, service);
    var p, list := ServiceParent(namespace, service), VirtualServiceList(namespace, service, routes);
    ghost var listing, done;
    r, listing, done := Refresh.Refresh(c, p, list);
    assert PartialRun(old(c.store), c.store, p, list);
    if r.Ok? {
      assert Plan(listing, p, list)[..done] == Plan(listing, p, list);
    }
  }

  /** Only failing calls can keep the update of a service that exists from succeeding. */
  lemma UpdateCanSucceed(s: Store, namespace: string, service: string) returns (t: Store)
    requires WellKeyed(s) && OwnsByName(s, namespace, service) && Key(Kind.Service, namespace, service) in s
    ensures WellKeyed(t) && Updated(s, t, namespace, service, true)
  {
    t := RefreshCanSucceed(s, namespace, service, Table(Sorted(ConfigsIn(s, namespace)), service));
  }

  lemma RefreshCanSucceed(s: Store, namespace: string, service: string, table: seq<HTTPRoute>) returns (t: Store)
    requires WellKeyed(s) && OwnsByName(s, namespace, service)
    ensures WellKeyed(t) && CompleteRun(s, t, ServiceParent(namespace, service), VirtualServiceList(namespace, service, table))
  {
    OwnedIsReadable(s, namespace, service, table);
    t := CompleteRunExists(s, ServiceParent(namespace, service), VirtualServiceList(namespace, service, table));
  }

  lemma OwnedIsReadable(s: Store, namespace: string, service: string, table: seq<HTTPRoute>)
    requires OwnsByName(s, namespace, service)
    ensures Writable(ServiceParent(namespace, service), VirtualServiceList(namespace, service, table))
    ensures Readable(s, ServiceParent(namespace, service), VirtualServiceList(namespace, service, table))
  {
    var p, list := ServiceParent(namespace, service), VirtualServiceList(namespace, service, table);
    forall k | OwnedAt(s, k, p, list) ensures list.identity(s[k]).Ok? {
      assert Owns(s, namespace, service, k);
    }
  }

  /** A tidy cluster stays tidy, services in agreement stay so, other kinds are left alone. */
  ghost predicate Improves(s: Store, t: Store, namespace: string) {
    Tidy(s, namespace) ==>
      && Tidy(t, namespace)
      && (forall n :: Agrees(s, namespace, n) ==> Agrees(t, namespace, n))
      && (forall k: Key :: k.kind != Kind.VirtualService ==> Same(s, t, k))
  }

  lemma ImprovesTransitive(s: Store, m: Store, t: Store, namespace: string)
    requires Improves(s, m, namespace) && Improves(m, t, namespace)
    ensures Improves(s, t, namespace)
  {
    if Tidy(s, namespace) {
      forall k: Key | k.kind != Kind.VirtualService ensures Same(s, t, k) {
        assert Same(s, m, k) && Same(m, t, k);
      }
    }
  }

  ghost predicate AllAgree(s: Store, namespace: string, services: seq<Object>, n: nat)
    requires n <= |services|
  {
    forall j :: 0 <= j < n ==> Agrees(s, namespace, services[j].name)
  }

  /** One update, successful or not, keeps the cluster tidy, brings its own service into agreement
      when it succeeds, and never takes a service out of agreement. */
  lemma UpdateAgrees(s: Store, t: Store, namespace: string, service: string, ok: bool)
    requires WellKeyed(s) && Tidy(s, namespace) && Updated(s, t, namespace, service, ok)
    ensures Improves(s, t, namespace)
    ensures ok ==> Agrees(t, namespace, service)
  {
    var table := Table(Sorted(ConfigsIn(s, namespace)), service);
    var p, list := ServiceParent(namespace, service), VirtualServiceList(namespace, service, table);
    if t != s || ok {
      if ok { CompleteIsPartial(s, t, p, list); }
      RefreshWritesOneKey(s, t, namespace, service, table);
      TidyKept(s, t, namespace, service, table);
      OthersKept(s, t, namespace, service, table, service);
      if ok { CompleteRefreshDelivers(s, t, namespace, service, table); }
      forall other | Agrees(s, namespace, other) ensures Agrees(t, namespace, other) {
        OthersKept(s, t, namespace, service, table, other);
        if other == service { AgreementStays(s, t, namespace, service); }
      }
    }
  }

  /** Rewriting what is already there is no change. */
  lemma AgreementStays(s: Store, t: Store, namespace: string, service: string)
    requires Agrees(s, namespace, service)
    requires WritesAtMost(s, t, namespace, service, Table(Sorted(ConfigsIn(s, namespace)), service))
    ensures Held(t, namespace, service) == Held(s, namespace, service)
  {
    var called := Called(ConfigsIn(s, namespace), namespace, service);
    if called.Some? {
      assert called.value.owners[0] == ControllerRef(ServiceParent(namespace, service));
    }
  }

  ghost function SuccessfulUpdate(namespace: string): (Store, Store, string) -> bool {
    (s, t, name) => Updated(s, t, namespace, name, true)
  }

  /** The stores between successful updates of the first of these services, and what followed: nothing after
      the last one, or an update that failed. */
  ghost predicate UpdatedInTurn(s: Store, t: Store, namespace: string, names: seq<string>, stores: seq<Store>, ok: bool) {
    && 1 <= |stores| <= |names| + 1 && stores[0] == s
    && Runs.StepByStep(stores, names[..|stores| - 1], SuccessfulUpdate(namespace))
    && if ok then |stores| == |names| + 1 && t == stores[|names|]
       else t == stores[|stores| - 1] || (|stores| <= |names| && Updated(stores[|stores| - 1], t, namespace, names[|stores| - 1], false))
  }

  lemma OneMoreVisit(s: Store, m: Store, t: Store, namespace: string, names: seq<string>, stores: seq<Store>, ok: bool)
    requires UpdatedInTurn(s, m, namespace, names, stores, false) && m == stores[|stores| - 1] && |stores| <= |names|
    requires Updated(m, t, namespace, names[|stores| - 1], ok)
    ensures if ok then UpdatedInTurn(s, t, namespace, names, stores + [t], false) else UpdatedInTurn(s, t, namespace, names, stores, false)
  {
    if ok {
      var n := |stores| - 1;
      assert SuccessfulUpdate(namespace)(stores[n], t, names[n]);
      OneMoreSuccess(stores, names, SuccessfulUpdate(namespace), t);
    }
  }

  lemma OneMoreSuccess(stores: seq<Store>, names: seq<string>, step: (Store, Store, string) -> bool, t: Store)
    requires 1 <= |stores| <= |names| && Runs.StepByStep(stores, names[..|stores| - 1], step)
    requires step(stores[|stores| - 1], t, names[|stores| - 1])
    ensures Runs.StepByStep(stores + [t], names[..|stores|], step)
  {
    var n := |stores| - 1;
    Runs.OneMoreStep(stores, names[..n], step, t, names[n]);
    assert names[..n] + [names[n]] == names[..n + 1];
  }

  /** The names of the services of the namespace, once each. */
  ghost predicate NamesServices(names: seq<string>, s: Store, namespace: string) {
    && (forall n :: n in names <==> Key(Kind.Service, namespace, n) in s)
    && (forall i, j :: 0 <= i < j < |names| ==> names[i] != names[j])
  }

  ghost function NamesOf(items: seq<Object>): (names: seq<string>)
    ensures |names| == |items| && forall i :: 0 <= i < |items| ==> names[i] == items[i].name
  {
    seq(|items|, i requires 0 <= i < |items| => items[i].name)
  }

  lemma ListedNames(s: Store, namespace: string, items: seq<Object>)
    requires WellKeyed(s) && Enumerates(items, s, Kind.Service, Some(namespace), Everything)
    ensures NamesServices(NamesOf(items), s, namespace)
  {
    EnumeratedKeysDistinct(items, s, Kind.Service, Some(namespace), Everything);
    assert forall i :: 0 <= i < |items| ==> items[i] in items;
    forall n ensures n in NamesOf(items) <==> Key(Kind.Service, namespace, n) in s {
      if n in NamesOf(items) {
        var i :| 0 <= i < |items| && NamesOf(items)[i] == n;
        assert KeyOf(items[i]) == Key(Kind.Service, namespace, n);
      }
      if Key(Kind.Service, namespace, n) in s {
        ListedByName(s, items, namespace, n);
        var i :| 0 <= i < |items| && items[i].name == n;
        assert NamesOf(items)[i] == n;
      }
    }
    forall i, j | 0 <= i < j < |items| ensures NamesOf(items)[i] != NamesOf(items)[j] {
      assert KeyOf(items[i]) != KeyOf(items[j]);
    }
  }

  /** `virtualServiceUpdater.UpdateAll` over one namespace. */
  method UpdateAll(c: Cluster, namespace: string) returns (r: Result<()>, ghost names: seq<string>, ghost stores: seq<Store>)
    requires c.Valid()
    modifies c
    ensures c.Valid() && Improves(old(c.store), c.store, namespace)
    ensures Tidy(old(c.store), namespace) && r.Ok? ==>
      forall n :: Key(Kind.Service, namespace, n) in c.store ==> Agrees(c.store, namespace, n)
    ensures UpdatedInTurn(old(c.store), c.store, namespace, names, stores, r.Ok?)
    ensures NamesServices(names, old(c.store), namespace) || (r.Err? && c.store == old(c.store))
  {
    names, stores := [], [c.store];
    var services := c.List(Kind.Service, Some(namespace), Everything);
    if services.Err? { return Err(services.error), names, stores; }
    var items := services.value;
    names := NamesOf(items);
    ListedNames(c.store, namespace, items);
    for i := 0 to |items|
      invariant c.Valid() && |stores| == i + 1 && c.store == stores[i]
      invariant SoFar(old(c.store), c.store, namespace, items, names, stores, i)
    {
      ghost var before := c.store;
      r := Update(c, namespace, items[i].name);
      NextVisit(old(c.store), before, c.store, namespace, items, names, stores, i, r.Ok?);
      if r.Err? { return; }
      stores := stores + [c.store];
    }
    AllListedAgree(old(c.store), c.store, namespace, items);
    r := Ok(());
  }

  /** The first services have been updated. */
  ghost predicate SoFar(s: Store, t: Store, namespace: string, items: seq<Object>, names: seq<string>, stores: seq<Store>, n: nat)
    requires n <= |items|
  {
    && Improves(s, t, namespace) && (Tidy(s, namespace) ==> AllAgree(t, namespace, items, n))
    && UpdatedInTurn(s, t, namespace, names, stores, false)
  }

  lemma NextVisit(s: Store, m: Store, t: Store, namespace: string, items: seq<Object>, names: seq<string>, stores: seq<Store>, n: nat, ok: bool)
    requires n < |items| && names == NamesOf(items) && |stores| == n + 1 && m == stores[n] && WellKeyed(m)
    requires SoFar(s, m, namespace, items, names, stores, n) && Updated(m, t, namespace, items[n].name, ok)
    ensures Improves(s, t, namespace)
    ensures if ok then SoFar(s, t, namespace, items, names, stores + [t], n + 1) else UpdatedInTurn(s, t, namespace, names, stores, false)
  {
    OneMoreAgrees(s, m, t, namespace, items, n, ok);
    OneMoreVisit(s, m, t, namespace, names, stores, ok);
  }

  lemma OneMoreAgrees(s: Store, m: Store, t: Store, namespace: string, items: seq<Object>, i: nat, ok: bool)
    requires WellKeyed(m) && i < |items| && Improves(s, m, namespace)
    requires Updated(m, t, namespace, items[i].name, ok)
    requires Tidy(s, namespace) ==> AllAgree(m, namespace, items, i)
    ensures Improves(s, t, namespace)
    ensures Tidy(s, namespace) && ok ==> AllAgree(t, namespace, items, i + 1)
  {
    if Tidy(s, namespace) {
      UpdateAgrees(m, t, namespace, items[i].name, ok);
      ImprovesTransitive(s, m, t, namespace);
    }
  }

  lemma AllListedAgree(s: Store, t: Store, namespace: string, items: seq<Object>)
    requires WellKeyed(s) && Enumerates(items, s, Kind.Service, Some(namespace), Everything)
    requires Improves(s, t, namespace)
    requires Tidy(s, namespace) ==> AllAgree(t, namespace, items, |items|)
    ensures Tidy(s, namespace) ==> forall n :: Key(Kind.Service, namespace, n) in t ==> Agrees(t, namespace, n)
  {
    if Tidy(s, namespace) {
      forall n | Key(Kind.Service, namespace, n) in t ensures Agrees(t, namespace, n) {
        assert Same(s, t, Key(Kind.Service, namespace, n));
        ListedByName(s, items, namespace, n);
        var j :| 0 <= j < |items| && items[j].name == n;
        }
    }
  }

  lemma ListedByName(s: Store, items: seq<Object>, namespace: string, n: string)
    requires WellKeyed(s) && Enumerates(items, s, Kind.Service, Some(namespace), Everything)
    requires Key(Kind.Service, namespace, n) in s
    ensures exists j :: 0 <= j < |items| && items[j].name == n
  {
    var o := s[Key(Kind.Service, namespace, n)];
    assert Listed(s, Kind.Service, Some(namespace), Everything, o);
    var j :| 0 <= j < |items| && items[j] == o;
  }

  /** One reconcile of a config: its host is updated; when the config is gone nobody knows its host any more,
      so every service of the namespace is; or it fails before it touches anything. */
  ghost predicate ReconcileDone(s: Store, t: Store, namespace: string, name: string, names: seq<string>, stores: seq<Store>, ok: bool) {
    || (!ok && t == s)
    || (UpdatedInTurn(s, t, namespace, names, stores, ok)
        && if name in ConfigsIn(s, namespace) then names == [ConfigsIn(s, namespace)[name].host] else NamesServices(names, s, namespace))
  }

  lemma SingleVisit(s: Store, t: Store, namespace: string, host: string, ok: bool)
    requires Updated(s, t, namespace, host, ok)
    ensures UpdatedInTurn(s, t, namespace, [host], if ok then [s, t] else [s], ok)
  {
    assert [host][..0] == [] && [host][..1] == [host];
    if ok { assert SuccessfulUpdate(namespace)(s, t, host); }
  }

  /** `VSConfigReconciler.Reconcile`. */
  method Reconcile(c: Cluster, namespace: string, name: string) returns (r: Result<()>, ghost names: seq<string>, ghost stores: seq<Store>)
    requires c.Valid()
    modifies c
    ensures c.Valid() && Improves(old(c.store), c.store, namespace)
    ensures Tidy(old(c.store), namespace) && r.Ok? ==>
      if name in ConfigsIn(old(c.store), namespace) then Agrees(c.store, namespace, ConfigsIn(old(c.store), namespace)[name].host)
      else forall n :: Key(Kind.Service, namespace, n) in c.store ==> Agrees(c.store, namespace, n)
    ensures ReconcileDone(old(c.store), c.store, namespace, name, names, stores, r.Ok?)
  {
    names, stores := [], [c.store];
    var instance := c.Get(Key(Kind.VSConfig, namespace, name));
    if instance.Err? { return Err(instance.error), names, stores; }
    if instance.value.None? {
      r, names, stores := UpdateAll(c, namespace);
    } else {
      assert name in ConfigsIn(c.store, namespace);
      var host := instance.value.value.body.config.host;
      r := Update(c, namespace, host);
      if Tidy(old(c.store), namespace) {
        UpdateAgrees(old(c.store), c.store, namespace, host, r.Ok?);
      }
      SingleVisit(old(c.store), c.store, namespace, host, r.Ok?);
      names, stores := [host], if r.Ok? then [old(c.store), c.store] else [old(c.store)];
    }
  }
}
