/** Any number of fork updates over one namespace in which base services come, change and go: copies are
    never forked again, and a copied service keeps its cluster IP. */
module ForkRuns {
  import opened Kube
  import opened ResourceName
  import opened Refresh
  import opened RefreshTheorems
  import opened RefreshRetry
  import opened ForkApp
  import opened Microservice
  import opened ForkSettling
  import Runs

  /** One namespace with the names of its own services and the forks in it. */
  datatype World = World(namespace: string, base: set<string>, forks: set<ForkResource>)

  function BaseKey(w: World, n: string): Key {
    Key(Kind.Service, w.namespace, n)
  }

  /** A service of the namespace that is not one of its own. */
  predicate Beside(w: World, k: Key) {
    k.kind == Kind.Service && k.namespace == w.namespace && k.name !in w.base
  }

  /** Fork names are unique, and no copy takes the name of a base service or of another copy. */
  ghost predicate WellFormed(w: World) {
    && (forall f :: f in w.forks ==> f.namespace == w.namespace)
    && (forall f, g :: f in w.forks && g in w.forks && f.name == g.name ==> f == g)
    && (forall n, f :: n in w.base && f in w.forks ==> CopyKey(n, f).name !in w.base)
    && (forall n, m, f, g :: n in w.base && m in w.base && f in w.forks && g in w.forks && CopyKey(n, f) == CopyKey(m, g) ==> n == m && f == g)
  }

  /** No fork's service selector accepts the labels of a copy, which are the name of the original
      service and the identifier of the fork, and nothing else. */
  ghost predicate SelectorsReject(w: World) {
    forall f, g, n :: f in w.forks && g in w.forks && n in w.base ==> !Matches(ServiceQuery(f), CopyLabels(n, g))
  }

  /** Base services belong to no fork. */
  ghost predicate BaseIsFree(s: Store, w: World) {
    forall n, f :: n in w.base && f in w.forks && BaseKey(w, n) in s ==> !OwnedByParent(s[BaseKey(w, n)], ForkParent(f))
  }

  ghost predicate RejectedByAll(o: Object, w: World) {
    forall f :: f in w.forks ==> !Matches(ServiceQuery(f), o.labels)
  }

  /** Base services belong to no fork, other services are selected by none, and those that forks own carry the
      names of copies.  Nothing is asked of what else copies hold: they may lag behind the services they were
      copied from, the identifiers of their forks, or services that are gone. */
  ghost predicate Inv(s: Store, w: World) {
    && WellKeyed(s) && BaseIsFree(s, w)
    && (forall k :: k in s && Beside(w, k) ==> RejectedByAll(s[k], w))
    && (forall f :: f in w.forks ==> ServicesNamed(s, f))
  }

  // ---------------------------------------------------------------- steps

  /** An update of one of the forks, finished or not. */
  ghost predicate UpdateStep(s: Store, t: Store, w: World, f: ForkResource, app: App) {
    f in w.forks && Expanded(s, f, app) && PartlyRefreshed(s, t, ForkParent(f), Lists(app))
  }

  function IPOf(o: Object): string {
    if o.body.ServiceBody? then o.body.service.clusterIP else ""
  }

  /** The service keeps its labels, its owners and the cluster IP it has, if any; the rest may change. */
  ghost predicate KeepsIdentity(s: Store, t: Store, k: Key) {
    && (k in s <==> k in t)
    && (k in s ==> t[k].labels == s[k].labels && t[k].owners == s[k].owners && (IPOf(s[k]) != "" ==> IPOf(t[k]) == IPOf(s[k])))
  }

  /** Anything else: base services are created, edited and deleted but given to no fork, other services get
      cluster IPs or are edited, and other kinds of objects and other namespaces are free. */
  ghost predicate EditStep(s: Store, t: Store, w: World) {
    WellKeyed(t) && BaseIsFree(t, w) && forall k :: Beside(w, k) ==> KeepsIdentity(s, t, k)
  }

  ghost predicate Step(s: Store, t: Store, w: World) {
    (exists f, app :: UpdateStep(s, t, w, f, app)) || EditStep(s, t, w)
  }

  // ---------------------------------------------------------------- what forks select

  /** The base service as it is now, and accepted by the fork's selector. */
  ghost predicate Wants(s: Store, n: string, f: ForkResource) {
    var k := Key(Kind.Service, f.namespace, n);
    k in s && Matches(ServiceQuery(f), s[k].labels)
  }

  lemma SelectedIsBase(s: Store, w: World, f: ForkResource, svc: Object)
    requires WellFormed(w) && Inv(s, w) && f in w.forks
    ensures Selected(s, f, svc) <==> svc.name in w.base && BaseKey(w, svc.name) in s && svc == s[BaseKey(w, svc.name)] && Wants(s, svc.name, f)
  {
    var k := BaseKey(w, svc.name);
    if k in s && svc == s[k] && svc.name !in w.base {
      assert Beside(w, k);
    }
  }

  /** Forks never select copies: each fork selects the base services, as they are now, that its selector accepts. */
  ghost predicate SelectsBaseOnly(s: Store, w: World) {
    forall f, svc :: f in w.forks ==>
      (Selected(s, f, svc) <==> svc.name in w.base && BaseKey(w, svc.name) in s && svc == s[BaseKey(w, svc.name)] && Wants(s, svc.name, f))
  }

  /** The services of the app are base services. */
  ghost predicate FromBase(app: App, w: World) {
    && (forall svc :: svc in app.services ==> svc.name in w.base)
    && (forall i, j :: 0 <= i < j < |app.services| ==> app.services[i].name != app.services[j].name)
  }

  lemma AppFromBase(s: Store, w: World, f: ForkResource, app: App)
    requires WellFormed(w) && Inv(s, w) && f in w.forks && Reads(s, f, app)
    ensures FromBase(app, w) && DistinctServiceNames(app)
  {
    forall svc | svc in app.services ensures svc.name in w.base {
      SelectedIsBase(s, w, f, svc);
    }
    EnumeratedKeysDistinct(app.services, s, Kind.Service, Some(f.namespace), ServiceQuery(f));
    forall i, j | 0 <= i < j < |app.services| ensures app.services[i].name != app.services[j].name {
      assert app.services[i] in app.services && app.services[j] in app.services;
    }
    CopyNamesDistinct(w, app);
  }

  lemma CopyNamesDistinct(w: World, app: App)
    requires WellFormed(w) && app.fork in w.forks && FromBase(app, w)
    ensures DistinctServiceNames(app)
  {
    forall i, j | 0 <= i < j < |app.services|
      ensures Shorten(CopyName(app.services[i].name, app.fork)) != Shorten(CopyName(app.services[j].name, app.fork))
    {
      assert app.services[i] in app.services && app.services[j] in app.services;
      assert CopyKey(app.services[i].name, app.fork) != CopyKey(app.services[j].name, app.fork);
    }
  }

  // ---------------------------------------------------------------- refreshing the copies

  /** What an update may do to one service: leave it, delete it because its original is not selected any more,
      or put the copy of a selected service there. */
  ghost predicate ServiceFate(s: Store, t: Store, app: App, k: Key)
    requires Writable(ForkParent(app.fork), ServicesList(app))
  {
    || Same(s, t, k)
    || (k !in t && Stale(s, k, ForkParent(app.fork), ServicesList(app)))
    || (exists i :: 0 <= i < |app.services| && k == CopyKey(app.services[i].name, app.fork) && k in t
                    && t[k] == Final(ServicesList(app), i, ForkParent(app.fork), CanonicalCopyName(app.fork)))
  }

  ghost predicate ServiceFates(s: Store, t: Store, app: App) {
    && Writable(ForkParent(app.fork), ServicesList(app))
    && forall k: Key :: k.kind == Kind.Service ==> ServiceFate(s, t, app, k)
  }

  lemma FateOfRun(m: Store, t: Store, app: App, k: Key)
    requires Orderly(m, ForkParent(app.fork), ServicesList(app), CanonicalCopyName(app.fork))
    requires PartialRun(m, t, ForkParent(app.fork), ServicesList(app))
    ensures ServiceFate(m, t, app, k)
  {
    OrderlyOutcome(m, t, ForkParent(app.fork), ServicesList(app), CanonicalCopyName(app.fork), k);
    if i :| 0 <= i < |app.services| && k == FinalKey(ServicesList(app), i, ForkParent(app.fork), CanonicalCopyName(app.fork))
            && k in t && t[k] == Final(ServicesList(app), i, ForkParent(app.fork), CanonicalCopyName(app.fork)) {
      FinalIsCopy(app, i);
    }
  }

  /** An update, finished or not, seen service by service. */
  lemma UpdateFatesOfServices(s: Store, t: Store, app: App)
    requires WellKeyed(s) && ServicesNamed(s, app.fork) && DistinctServiceNames(app)
    requires PartlyRefreshed(s, t, ForkParent(app.fork), Lists(app))
    ensures WellKeyed(t) && ServiceFates(s, t, app)
  {
    ListsWritable(app);
    var p, canon := ForkParent(app.fork), CanonicalCopyName(app.fork);
    var m, m' := StagesOfPart(s, t, app);
    ServicesAreOrderly(s, app);
    OrderlyElsewhere(s, m, p, ServicesList(app), canon);
    forall k: Key | k.kind == Kind.Service ensures ServiceFate(s, t, app, k) {
      if m' != m { FateOfRun(m, m', app, k); }
      FateAcross(s, m, m', t, app, k);
    }
  }

  lemma FateAcross(s: Store, m: Store, m': Store, t: Store, app: App, k: Key)
    requires Writable(ForkParent(app.fork), ServicesList(app)) && ServiceFate(m, m', app, k)
    requires k.kind == Kind.Service && SameKind(s, m, Kind.Service) && SameKind(m', t, Kind.Service)
    ensures ServiceFate(s, t, app, k)
  {
    assert Same(s, m, k) && Same(m', t, k);
  }

  /** What an update wrote is the copy of a selected service, with the cluster IP known before. */
  lemma WrittenIsCopy(s: Store, t: Store, app: App, k: Key) returns (svc: Object)
    requires ServiceFates(s, t, app) && k.kind == Kind.Service && k in t && !Same(s, t, k)
    ensures svc in app.services && IsCopy(t[k], svc, app.fork) && k == CopyKey(svc.name, app.fork)
    ensures IPOf(t[k]) == KnownClusterIP(CopyName(svc.name, app.fork), app.existing)
  {
    assert ServiceFate(s, t, app, k);
    var i :| 0 <= i < |app.services| && k == CopyKey(app.services[i].name, app.fork)
             && t[k] == Final(ServicesList(app), i, ForkParent(app.fork), CanonicalCopyName(app.fork));
    FinalIsCopy(app, i);
    svc := app.services[i];
  }

  lemma SoleOwner(o: Object, f: ForkResource, g: ForkResource)
    requires o.owners == [ControllerRef(ForkParent(f))]
    ensures OwnedByParent(o, ForkParent(g)) <==> f.name == g.name
  {
    assert o.owners[0] == ControllerRef(ForkParent(f));
  }

  /** An update of a fork leaves base services alone. */
  lemma BaseIsKept(s: Store, t: Store, w: World, app: App, n: string)
    requires WellFormed(w) && app.fork in w.forks && FromBase(app, w) && BaseIsFree(s, w) && n in w.base
    requires ServiceFates(s, t, app)
    ensures Same(s, t, BaseKey(w, n))
  {
    var k := BaseKey(w, n);
    assert ServiceFate(s, t, app, k);
    forall i | 0 <= i < |app.services| ensures k != CopyKey(app.services[i].name, app.fork) {
      assert app.services[i] in app.services;
    }
  }

  lemma UpdateKeepsNames(s: Store, t: Store, w: World, app: App, g: ForkResource)
    requires WellFormed(w) && app.fork in w.forks && g in w.forks && ServicesNamed(s, g) && ServiceFates(s, t, app)
    ensures ServicesNamed(t, g)
  {
    forall k | OwnedAt(t, k, ForkParent(g), ObjectList([], Kind.Service, OriginalService))
      ensures k.name == Shorten(CopyName(OriginalService(t[k]).value, g))
    {
      if Same(s, t, k) {
        assert OwnedAt(s, k, ForkParent(g), ObjectList([], Kind.Service, OriginalService));
      } else {
        var svc := WrittenIsCopy(s, t, app, k);
        SoleOwner(t[k], app.fork, g);
      }
    }
  }

  lemma UpdateKeepsRejected(s: Store, t: Store, w: World, app: App, k: Key)
    requires app.fork in w.forks && FromBase(app, w) && SelectorsReject(w) && ServiceFates(s, t, app)
    requires k in t && Beside(w, k) && (k in s ==> RejectedByAll(s[k], w))
    ensures RejectedByAll(t[k], w)
  {
    if !Same(s, t, k) {
      var svc := WrittenIsCopy(s, t, app, k);
    }
  }

  lemma UpdateKeepsInv(s: Store, t: Store, w: World, f: ForkResource, app: App)
    requires WellFormed(w) && SelectorsReject(w) && Inv(s, w) && UpdateStep(s, t, w, f, app)
    ensures Inv(t, w) && ServiceFates(s, t, app) && forall n :: n in w.base ==> Same(s, t, BaseKey(w, n))
  {
    AppFromBase(s, w, f, app);
    UpdateFatesOfServices(s, t, app);
    forall n | n in w.base ensures Same(s, t, BaseKey(w, n)) {
      BaseIsKept(s, t, w, app, n);
    }
    forall k | k in t && Beside(w, k) ensures RejectedByAll(t[k], w) {
      UpdateKeepsRejected(s, t, w, app, k);
    }
    forall g | g in w.forks ensures ServicesNamed(t, g) {
      UpdateKeepsNames(s, t, w, app, g);
    }
  }

  lemma EditKeepsNames(s: Store, t: Store, w: World, g: ForkResource)
    requires WellFormed(w) && g in w.forks && ServicesNamed(s, g) && EditStep(s, t, w)
    ensures ServicesNamed(t, g)
  {
    forall k | OwnedAt(t, k, ForkParent(g), ObjectList([], Kind.Service, OriginalService))
      ensures k.name == Shorten(CopyName(OriginalService(t[k]).value, g))
    {
      assert k.name in w.base ==> k == BaseKey(w, k.name);
      if k.name !in w.base {
        assert Beside(w, k) && KeepsIdentity(s, t, k);
        assert OwnedAt(s, k, ForkParent(g), ObjectList([], Kind.Service, OriginalService));
      }
    }
  }

  lemma EditKeepsInv(s: Store, t: Store, w: World)
    requires WellFormed(w) && Inv(s, w) && EditStep(s, t, w)
    ensures Inv(t, w)
  {
    forall k | k in t && Beside(w, k) ensures RejectedByAll(t[k], w) {
      assert KeepsIdentity(s, t, k);
    }
    forall g | g in w.forks ensures ServicesNamed(t, g) {
      EditKeepsNames(s, t, w, g);
    }
  }

  /** Every step keeps copies rejected and canonically named, and base services free of owners. */
  lemma StepKeepsInv(s: Store, t: Store, w: World)
    requires WellFormed(w) && SelectorsReject(w) && Inv(s, w) && Step(s, t, w)
    ensures Inv(t, w)
  {
    if f, app :| UpdateStep(s, t, w, f, app) {
      UpdateKeepsInv(s, t, w, f, app);
    } else {
      EditKeepsInv(s, t, w);
    }
  }

  // ---------------------------------------------------------------- whole runs

  ghost function StepOf(w: World): (Store, Store) -> bool {
    (s, t) => Step(s, t, w)
  }

  ghost predicate IsRun(run: seq<Store>, w: World) {
    Runs.IsRun(run, StepOf(w))
  }

  lemma StepsKeepInv(w: World)
    requires WellFormed(w) && SelectorsReject(w)
    ensures Runs.Keeps(StepOf(w), (s: Store) => Inv(s, w))
  {
    forall s, t | Inv(s, w) && StepOf(w)(s, t) ensures Inv(t, w) {
      StepKeepsInv(s, t, w);
    }
  }

  lemma InvHoldsAlong(run: seq<Store>, w: World, n: nat)
    requires WellFormed(w) && SelectorsReject(w) && IsRun(run, w) && Inv(run[0], w) && n < |run|
    ensures Inv(run[n], w)
  {
    StepsKeepInv(w);
    Runs.HoldsAlong(run, StepOf(w), (s: Store) => Inv(s, w), 0, n);
  }

  /** Forked services are never forked again: in every state of every run of updates, finished or not, and of
      edits, each fork selects exactly the base services its selector accepts. */
  lemma NeverForkedAgain(run: seq<Store>, w: World, n: nat)
    requires WellFormed(w) && SelectorsReject(w) && IsRun(run, w) && Inv(run[0], w) && n < |run|
    ensures Inv(run[n], w) && SelectsBaseOnly(run[n], w)
  {
    InvHoldsAlong(run, w, n);
    forall f, svc | f in w.forks
      ensures Selected(run[n], f, svc) <==> svc.name in w.base && BaseKey(w, svc.name) in run[n] && svc == run[n][BaseKey(w, svc.name)] && Wants(run[n], svc.name, f)
    {
      SelectedIsBase(run[n], w, f, svc);
    }
  }

  // ---------------------------------------------------------------- the cluster IP of a copy

  /** The copy of `n` for `f` exists, marked as such, and has this cluster IP; its ports, type and selector may be
      anything. */
  ghost predicate HasIP(s: Store, n: string, f: ForkResource, ip: string) {
    CopyKey(n, f) in s && Marked(s[CopyKey(n, f)], n, f) && IPOf(s[CopyKey(n, f)]) == ip
  }

  /** A selected service is in every expansion. */
  lemma WantedIsRead(s: Store, w: World, n: string, f: ForkResource, app: App)
    requires WellFormed(w) && WellKeyed(s) && f in w.forks && Wants(s, n, f) && Reads(s, f, app)
    ensures exists svc :: svc in app.services && svc.name == n
  {
    var svc := s[Key(Kind.Service, f.namespace, n)];
    assert Selected(s, f, svc);
    assert svc in app.services && svc.name == n;
  }

  lemma SelectedNotStale(s: Store, app: App, n: string)
    requires exists svc :: svc in app.services && svc.name == n
    requires CopyKey(n, app.fork) in s && Marked(s[CopyKey(n, app.fork)], n, app.fork)
    ensures !Stale(s, CopyKey(n, app.fork), ForkParent(app.fork), ServicesList(app))
  {
    var svc :| svc in app.services && svc.name == n;
    var j :| 0 <= j < |app.services| && app.services[j] == svc;
    CopyIdentity(app, j);
    assert ServicesList(app).identity(ServicesList(app).items[j]) == Ok(n);
    assert OriginalService(s[CopyKey(n, app.fork)]) == Ok(n);
  }

  lemma OwnUpdateKeepsIP(s: Store, t: Store, w: World, app: App, n: string, ip: string)
    requires WellFormed(w) && SelectorsReject(w) && Inv(s, w) && UpdateStep(s, t, w, app.fork, app)
    requires n in w.base && Wants(s, n, app.fork)
    requires |CopyName(n, app.fork)| <= LABEL_LIMIT && HasIP(s, n, app.fork, ip)
    ensures HasIP(t, n, app.fork, ip)
  {
    var k := CopyKey(n, app.fork);
    AppFromBase(s, w, app.fork, app);
    UpdateFatesOfServices(s, t, app);
    WantedIsRead(s, w, n, app.fork, app);
    SelectedNotStale(s, app, n);
    KnownIP(s, n, app.fork, app);
    assert ServiceFate(s, t, app, k);
    if !Same(s, t, k) {
      var svc := WrittenIsCopy(s, t, app, k);
      assert svc.name in w.base && CopyKey(n, app.fork) == CopyKey(svc.name, app.fork);
    }
  }

  lemma OtherUpdateKeepsIP(s: Store, t: Store, w: World, app: App, n: string, f: ForkResource, ip: string)
    requires WellFormed(w) && SelectorsReject(w) && Inv(s, w) && UpdateStep(s, t, w, app.fork, app)
    requires n in w.base && f in w.forks && f != app.fork && HasIP(s, n, f, ip)
    ensures HasIP(t, n, f, ip)
  {
    var k := CopyKey(n, f);
    AppFromBase(s, w, app.fork, app);
    UpdateFatesOfServices(s, t, app);
    OthersUntouched(s, t, w, app, n, f);
  }

  /** What one fork marked as its copy is no other fork's business. */
  lemma OthersUntouched(s: Store, t: Store, w: World, app: App, n: string, f: ForkResource)
    requires WellFormed(w) && app.fork in w.forks && f in w.forks && f != app.fork && n in w.base
    requires FromBase(app, w) && ServiceFates(s, t, app)
    requires CopyKey(n, f) in s && Marked(s[CopyKey(n, f)], n, f)
    ensures Same(s, t, CopyKey(n, f))
  {
    var k := CopyKey(n, f);
    assert ServiceFate(s, t, app, k);
    SoleOwner(s[k], f, app.fork);
    forall i | 0 <= i < |app.services| ensures k != CopyKey(app.services[i].name, app.fork) {
      assert app.services[i] in app.services;
    }
  }

  lemma EditKeepsIP(s: Store, t: Store, w: World, n: string, f: ForkResource, ip: string)
    requires WellFormed(w) && n in w.base && f in w.forks && EditStep(s, t, w)
    requires ip != "" && HasIP(s, n, f, ip)
    ensures HasIP(t, n, f, ip)
  {
    assert Beside(w, CopyKey(n, f)) && KeepsIdentity(s, t, CopyKey(n, f));
  }

  /** One step, of this fork or another, or an edit of any base service, leaves the cluster IP as it is. */
  lemma StepKeepsIP(s: Store, t: Store, w: World, n: string, f: ForkResource, ip: string)
    requires WellFormed(w) && SelectorsReject(w) && Inv(s, w) && Step(s, t, w)
    requires n in w.base && f in w.forks && Wants(s, n, f)
    requires |CopyName(n, f)| <= LABEL_LIMIT && ip != "" && HasIP(s, n, f, ip)
    ensures HasIP(t, n, f, ip)
  {
    if g, app :| UpdateStep(s, t, w, g, app) {
      if g == f {
        OwnUpdateKeepsIP(s, t, w, app, n, ip);
      } else {
        OtherUpdateKeepsIP(s, t, w, app, n, f, ip);
      }
    } else {
      EditKeepsIP(s, t, w, n, f, ip);
    }
  }

  lemma StepsKeepIP(w: World, n: string, f: ForkResource, ip: string)
    requires WellFormed(w) && SelectorsReject(w) && n in w.base && f in w.forks && |CopyName(n, f)| <= LABEL_LIMIT && ip != ""
    ensures forall s, t :: KeepingIP(w, n, f, ip)(s) && Wants(s, n, f) && StepOf(w)(s, t) ==> KeepingIP(w, n, f, ip)(t)
  {
    forall s, t | KeepingIP(w, n, f, ip)(s) && Wants(s, n, f) && StepOf(w)(s, t) ensures KeepingIP(w, n, f, ip)(t) {
      StepKeepsInv(s, t, w);
      StepKeepsIP(s, t, w, n, f, ip);
    }
  }

  ghost function KeepingIP(w: World, n: string, f: ForkResource, ip: string): Store -> bool {
    s => Inv(s, w) && HasIP(s, n, f, ip)
  }

  /** Copies keep their cluster IP over all updates: once the copy of a service has an IP, every later state of the
      run has it too, as long as the service is selected, whichever forks are updated and wherever they stop, and
      however base services are edited in between. */
  lemma ClusterIPKept(run: seq<Store>, w: World, n: string, f: ForkResource, ip: string, i: nat, j: nat)
    requires WellFormed(w) && SelectorsReject(w) && IsRun(run, w) && Inv(run[0], w) && i <= j < |run|
    requires n in w.base && f in w.forks && forall m :: i <= m < j ==> Wants(run[m], n, f)
    requires |CopyName(n, f)| <= LABEL_LIMIT && ip != "" && HasIP(run[i], n, f, ip)
    ensures HasIP(run[j], n, f, ip)
  {
    InvHoldsAlong(run, w, i);
    StepsKeepIP(w, n, f, ip);
    Runs.HoldsWhile(run, StepOf(w), KeepingIP(w, n, f, ip), s => Wants(s, n, f), i, j);
  }
}
