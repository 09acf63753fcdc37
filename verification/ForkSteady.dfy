/** After the first successful update of a fork its copies stay as they are, over any number of updates of
    any forks, finished or not, and whatever else happens that leaves the fork's inputs alone. */
module ForkSteady {
  import opened Kube
  import opened Text
  import opened ResourceName
  import opened Refresh
  import opened RefreshTheorems
  import opened RefreshRetry
  import opened ForkApp
  import opened Microservice
  import opened ForkRuns
  import opened ForkSettling
  import Runs

  // ---------------------------------------------------------------- what is held fixed

  ghost predicate SameDeployments(s: Store, t: Store, w: World) {
    forall k: Key :: k.kind == Kind.Deployment && k.namespace == w.namespace ==> Same(s, t, k)
  }

  /** Nobody but the forks' updates touches services, or the DeploymentCopies and VSConfigs forks own;
      deployments and managers stay as they are. */
  ghost predicate OutsideStep(s: Store, t: Store, w: World) {
    && WellKeyed(t) && SameKind(s, t, Kind.Service) && SameDeployments(s, t, w) && SameKind(s, t, Kind.ForkManager)
    && (forall k: Key, f | f in w.forks && (OwnedBy(s, k, f) || OwnedBy(t, k, f))
          :: k.kind == Kind.DeploymentCopy || k.kind == Kind.VSConfig ==> Same(s, t, k))
  }

  ghost predicate OwnedBy(s: Store, k: Key, f: ForkResource) {
    k in s && OwnedByParent(s[k], ForkParent(f))
  }

  /** The cluster gives a service its IP. */
  ghost predicate AllocateStep(s: Store, t: Store, w: World, k: Key, ip: string) {
    && k in s && Beside(w, k) && s[k].body.ServiceBody? && s[k].body.service.clusterIP == ""
    && t == s[k := s[k].(body := s[k].body.(service := s[k].body.service.(clusterIP := ip)))]
  }

  ghost predicate SteadyStep(s: Store, t: Store, w: World) {
    || (exists f, app :: UpdateStep(s, t, w, f, app))
    || (exists k, ip :: AllocateStep(s, t, w, k, ip))
    || OutsideStep(s, t, w)
  }

  ghost function SteadyOf(w: World): (Store, Store) -> bool {
    (s, t) => SteadyStep(s, t, w)
  }

  ghost predicate IsSteadyRun(run: seq<Store>, w: World) {
    Runs.IsRun(run, SteadyOf(w))
  }

  /** What all forks own is named as the updates name it. */
  ghost predicate NamesInOrder(s: Store, w: World) {
    forall f :: f in w.forks ==> ConfigsNamed(s, f) && CopiesNamed(s, f)
  }

  ghost predicate HasDeployment(s: Store, w: World, d: string) {
    Key(Kind.Deployment, w.namespace, d) in s
  }

  /** No two DeploymentCopies, of one fork or of two, share a name. */
  ghost predicate NamesApart(s: Store, w: World) {
    forall d, e, f, g {:trigger HasDeployment(s, w, d), HasDeployment(s, w, e), f in w.forks, g in w.forks} ::
      f in w.forks && g in w.forks && HasDeployment(s, w, d) && HasDeployment(s, w, e) && Shorten(CopyName(d, f)) == Shorten(CopyName(e, g)) ==>
        d == e && f == g
  }

  ghost predicate Sound(s: Store, w: World) {
    WellFormed(w) && SelectorsReject(w) && Inv(s, w) && NamesInOrder(s, w) && NamesApart(s, w)
  }

  lemma ReadDeployment(s: Store, w: World, app: App, d: Object)
    requires Reads(s, app.fork, app) && d in app.deployments && app.fork.namespace == w.namespace
    ensures HasDeployment(s, w, d.name)
  {}

  lemma SoundIsReady(s: Store, w: World, f: ForkResource, app: App)
    requires Sound(s, w) && f in w.forks && Expanded(s, f, app)
    ensures Ready(s, f, app) && AllOrderly(s, app) && FromBase(app, w)
  {
    AppFromBase(s, w, f, app);
    forall i, j | 0 <= i < j < |app.deployments|
      ensures Shorten(CopyName(app.deployments[i].name, f)) != Shorten(CopyName(app.deployments[j].name, f))
    {
      ReadDeployment(s, w, app, app.deployments[i]);
      ReadDeployment(s, w, app, app.deployments[j]);
      assert ObjectName(app.deployments[i]) != ObjectName(app.deployments[j]);
    }
    ReadyIsOrderly(s, f, app);
  }

  // ---------------------------------------------------------------- the copies stand

  /** Each selected service has its copy, with some cluster IP, and the fork owns no other services. */
  ghost predicate ServicesStand(t: Store, app: App) {
    (forall svc :: svc in app.services ==> CopyMade(t, svc, app.fork)) && OwnedAreSelected(t, app)
  }

  ghost predicate ConfigsStand(t: Store, app: App) {
    Writable(ForkParent(app.fork), ConfigsList(app)) && Holds(t, ForkParent(app.fork), ConfigsList(app), CanonicalCopyName(app.fork))
  }

  ghost predicate CopiesStand(t: Store, app: App) {
    Writable(ForkParent(app.fork), CopiesList(app)) && Holds(t, ForkParent(app.fork), CopiesList(app), Shortened())
  }

  /** Services and VSConfigs of the fork stand, and what its updates read is what they were made from. */
  ghost predicate Footing(t: Store, w: World, app: App) {
    && Sound(t, w) && app.fork in w.forks && FromBase(app, w) && Reads(t, app.fork, app)
    && ServicesStand(t, app) && ConfigsStand(t, app)
  }

  /** The fork owns exactly the desired objects of its three kinds, services with some cluster IP. */
  ghost predicate Fixture(t: Store, w: World, app: App) {
    Footing(t, w, app) && CopiesStand(t, app)
  }

  lemma DeliveredStands(t: Store, app: App)
    requires Delivers(t, app)
    ensures ServicesStand(t, app) && ConfigsStand(t, app) && CopiesStand(t, app)
  {
    HoldsMeansInPlace(t, app);
    forall svc | svc in app.services ensures CopyMade(t, svc, app.fork) {
      assert CopyInPlace(t, app, svc);
    }
  }

  // ---------------------------------------------------------------- what an update does to one key

  ghost predicate Fate(s: Store, t: Store, p: Parent, list: ObjectList, canon: string -> string, k: Key)
    requires Writable(p, list)
  {
    || Same(s, t, k)
    || (Stale(s, k, p, list) && k !in t)
    || (k in t && exists i :: 0 <= i < |list.items| && k == FinalKey(list, i, p, canon) && t[k] == Final(list, i, p, canon))
  }

  ghost predicate Fates(s: Store, t: Store, p: Parent, list: ObjectList, canon: string -> string)
    requires Writable(p, list)
  {
    forall k: Key :: k.kind == list.kind ==> Fate(s, t, p, list, canon, k)
  }

  lemma FatesOfRun(s: Store, x: Store, y: Store, t: Store, p: Parent, list: ObjectList, canon: string -> string)
    requires Orderly(s, p, list, canon) && WellKeyed(x) && SameKind(s, x, list.kind) && SameKind(y, t, list.kind)
    requires AtMostRun(x, y, p, list)
    ensures Fates(s, t, p, list, canon)
  {
    OrderlyElsewhere(s, x, p, list, canon);
    forall k: Key | k.kind == list.kind ensures Fate(s, t, p, list, canon, k) {
      assert Same(s, x, k) && Same(y, t, k);
      if y != x { OrderlyOutcome(x, y, p, list, canon, k); }
    }
  }

  ghost predicate AllFates(s: Store, t: Store, app: App) {
    && ListsAreWritable(app)
    && Fates(s, t, ForkParent(app.fork), CopiesList(app), Shortened())
    && Fates(s, t, ForkParent(app.fork), ServicesList(app), CanonicalCopyName(app.fork))
    && Fates(s, t, ForkParent(app.fork), ConfigsList(app), CanonicalCopyName(app.fork))
  }

  lemma UpdateFates(s: Store, t: Store, app: App)
    requires AllOrderly(s, app) && PartlyRefreshed(s, t, ForkParent(app.fork), Lists(app))
    ensures WellKeyed(t) && AllFates(s, t, app) && OtherKindsSame(s, t)
  {
    var p, canon := ForkParent(app.fork), CanonicalCopyName(app.fork);
    var m, m' := StagesOfPart(s, t, app);
    KindsOfStages(s, m, m', t, app);
    FatesOfRun(s, s, m, t, p, CopiesList(app), Shortened());
    FatesOfRun(s, m, m', t, p, ServicesList(app), canon);
    FatesOfRun(s, m', t, t, p, ConfigsList(app), canon);
  }

  /** The two forks' desired objects have no key in common. */
  ghost predicate KeysApart(app: App, list: ObjectList, canon: string -> string, other: App, theirs: ObjectList, canon': string -> string)
    requires Writable(ForkParent(app.fork), list) && Writable(ForkParent(other.fork), theirs)
  {
    forall i, j :: 0 <= i < |list.items| && 0 <= j < |theirs.items| ==>
      FinalKey(list, i, ForkParent(app.fork), canon) != FinalKey(theirs, j, ForkParent(other.fork), canon')
  }

  /** What a run writes is owned by its fork alone. */
  lemma FinalOwners(app: App, list: ObjectList, i: nat, canon: string -> string)
    requires list in Lists(app) && Writable(ForkParent(app.fork), list) && i < |list.items|
    ensures Final(list, i, ForkParent(app.fork), canon).owners == [ControllerRef(ForkParent(app.fork))]
  {}

  lemma ListsInTurn(app: App)
    ensures CopiesList(app) in Lists(app) && ServicesList(app) in Lists(app) && ConfigsList(app) in Lists(app)
  {
    var lists := Lists(app);
    assert lists[0] in lists && lists[1] in lists && lists[2] in lists;
  }

  // ---------------------------------------------------------------- names stay in order

  lemma NamesStay(s: Store, t: Store, w: World, app: App)
    requires WellFormed(w) && NamesInOrder(s, w) && app.fork in w.forks && AllFates(s, t, app)
    ensures NamesInOrder(t, w)
  {
    forall f | f in w.forks ensures ConfigsNamed(t, f) && CopiesNamed(t, f) {
      ConfigNamesStay(s, t, w, app, f);
      CopyNamesStay(s, t, app, f);
    }
  }

  lemma ConfigNamesStay(s: Store, t: Store, w: World, app: App, f: ForkResource)
    requires WellFormed(w) && f in w.forks && app.fork in w.forks && ConfigsNamed(s, f)
    requires Writable(ForkParent(app.fork), ConfigsList(app))
    requires Fates(s, t, ForkParent(app.fork), ConfigsList(app), CanonicalCopyName(app.fork))
    ensures ConfigsNamed(t, f)
  {
    var g, list, canon := app.fork, ConfigsList(app), CanonicalCopyName(app.fork);
    forall k | OwnedAt(t, k, ForkParent(f), ObjectList([], Kind.VSConfig, ConfigHost))
      ensures t[k].body.VSConfigBody? && k.name == Shorten(CopyName(t[k].body.config.host, f))
    {
      assert Fate(s, t, ForkParent(g), list, canon, k);
      if Same(s, t, k) {
        assert OwnedAt(s, k, ForkParent(f), ObjectList([], Kind.VSConfig, ConfigHost));
      } else {
        var i :| 0 <= i < |list.items| && k == FinalKey(list, i, ForkParent(g), canon) && t[k] == Final(list, i, ForkParent(g), canon);
        ListsInTurn(app);
        FinalOwners(app, list, i, canon);
        SoleOwner(t[k], g, f);
        ConfigIdentity(app, i);
      }
    }
  }

  lemma CopyNamesStay(s: Store, t: Store, app: App, f: ForkResource)
    requires CopiesNamed(s, f) && Writable(ForkParent(app.fork), CopiesList(app))
    requires Fates(s, t, ForkParent(app.fork), CopiesList(app), Shortened())
    ensures CopiesNamed(t, f)
  {
    forall k | OwnedAt(t, k, ForkParent(f), ObjectList([], Kind.DeploymentCopy, NameIdentity)) ensures |k.name| <= LABEL_LIMIT {
      assert Fate(s, t, ForkParent(app.fork), CopiesList(app), Shortened(), k);
      if Same(s, t, k) {
        assert OwnedAt(s, k, ForkParent(f), ObjectList([], Kind.DeploymentCopy, NameIdentity));
      }
    }
  }

  // ---------------------------------------------------------------- inputs stay

  ghost predicate SameBase(s: Store, t: Store, w: World) {
    forall n :: n in w.base ==> Same(s, t, BaseKey(w, n))
  }

  lemma ReadsStay(s: Store, t: Store, w: World, app: App)
    requires WellFormed(w) && Inv(s, w) && Inv(t, w) && app.fork in w.forks && SameBase(s, t, w)
    requires SameDeployments(s, t, w) && SameKind(s, t, Kind.ForkManager) && Reads(s, app.fork, app)
    ensures Reads(t, app.fork, app)
  {
    var f := app.fork;
    assert Same(s, t, ManagerKey(f.spec.manager).value);
    forall svc ensures Selected(t, f, svc) <==> Selected(s, f, svc) {
      SelectedIsBase(s, w, f, svc);
      SelectedIsBase(t, w, f, svc);
      assert svc.name in w.base ==> Same(s, t, BaseKey(w, svc.name));
    }
    forall d ensures Candidate(t, f, d) <==> Candidate(s, f, d) {
      if KindOf(d.body) == Kind.Deployment && d.namespace == w.namespace { assert Same(s, t, KeyOf(d)); }
    }
    SelectionMeansReads(s, t, f, app);
  }

  lemma SelectionMeansReads(s: Store, t: Store, f: ForkResource, app: App)
    requires Reads(s, f, app) && HeaderOf(t, f, app.header)
    requires forall svc :: Selected(t, f, svc) <==> Selected(s, f, svc)
    requires forall d :: Candidate(t, f, d) <==> Candidate(s, f, d)
    ensures Reads(t, f, app)
  {
    forall o ensures o in app.services <==> Listed(t, Kind.Service, Some(f.namespace), ServiceQuery(f), o) {
      assert Selected(t, f, o) <==> Selected(s, f, o);
    }
  }

  lemma ApartStay(s: Store, t: Store, w: World)
    requires NamesApart(s, w) && SameDeployments(s, t, w)
    ensures NamesApart(t, w)
  {
    forall d ensures HasDeployment(t, w, d) <==> HasDeployment(s, w, d) {
      assert Same(s, t, Key(Kind.Deployment, w.namespace, d));
    }
  }

  /** Two expansions from one store differ in the order of services and the cluster IPs only. */
  lemma ReadAgain(t: Store, f: ForkResource, app: App, again: App)
    requires Reads(t, f, app) && Reads(t, f, again)
    ensures SameSelection(app, again) && CopiesList(again) == CopiesList(app)
  {
    forall svc ensures svc in again.services <==> svc in app.services {
      assert svc in app.services <==> Selected(t, f, svc);
      assert svc in again.services <==> Selected(t, f, svc);
    }
    DeploymentsAgain(t, t, f, app, again);
    SameRoutes(t, t, f, app, again);
  }

  // ---------------------------------------------------------------- an update of another fork

  /** Objects of one fork survive the run of another one over a list of the same kind. */
  lemma OtherForkHolds(s: Store, t: Store, app: App, list: ObjectList, canon: string -> string,
                       other: App, theirs: ObjectList, canon': string -> string)
    requires list in Lists(app) && theirs in Lists(other) && app.fork.name != other.fork.name && list.kind == theirs.kind
    requires Writable(ForkParent(app.fork), list) && Writable(ForkParent(other.fork), theirs)
    requires Holds(s, ForkParent(app.fork), list, canon)
    requires Fates(s, t, ForkParent(other.fork), theirs, canon')
    requires KeysApart(app, list, canon, other, theirs, canon')
    ensures Holds(t, ForkParent(app.fork), list, canon)
  {
    var p, q := ForkParent(app.fork), ForkParent(other.fork);
    forall i | 0 <= i < |list.items| ensures Same(s, t, FinalKey(list, i, p, canon)) {
      var k := FinalKey(list, i, p, canon);
      assert Fate(s, t, q, theirs, canon', k);
      FinalOwners(app, list, i, canon);
      SoleOwner(s[k], app.fork, other.fork);
    }
    forall k | OwnedAt(t, k, p, list) ensures IsFinalKey(k, list, p, canon) {
      assert Fate(s, t, q, theirs, canon', k);
      TheirsNotOurs(s, t, app, list, other, theirs, canon', k);
      assert OwnedAt(s, k, p, list);
    }
  }

  /** What another fork writes is not ours. */
  lemma TheirsNotOurs(s: Store, t: Store, app: App, list: ObjectList, other: App, theirs: ObjectList, canon': string -> string, k: Key)
    requires theirs in Lists(other) && app.fork.name != other.fork.name && Writable(ForkParent(other.fork), theirs)
    requires OwnedAt(t, k, ForkParent(app.fork), list) && Fate(s, t, ForkParent(other.fork), theirs, canon', k)
    ensures Same(s, t, k)
  {
    var q := ForkParent(other.fork);
    if i :| 0 <= i < |theirs.items| && k == FinalKey(theirs, i, q, canon') && t[k] == Final(theirs, i, q, canon') {
      FinalOwners(other, theirs, i, canon');
      SoleOwner(t[k], other.fork, app.fork);
    }
  }

  /** The configs are stored under the shortened names of the copies. */
  ghost predicate ConfigsStoredAs(app: App, canon: string -> string)
    requires Writable(ForkParent(app.fork), ConfigsList(app))
  {
    forall i :: 0 <= i < |app.services| ==>
      FinalKey(ConfigsList(app), i, ForkParent(app.fork), canon).name == Shorten(CopyName(app.services[i].name, app.fork))
  }

  lemma CanonicalConfigs(app: App)
    requires Writable(ForkParent(app.fork), ConfigsList(app))
    ensures ConfigsStoredAs(app, CanonicalCopyName(app.fork))
  {
    forall i | 0 <= i < |app.services|
      ensures FinalKey(ConfigsList(app), i, ForkParent(app.fork), CanonicalCopyName(app.fork)).name == Shorten(CopyName(app.services[i].name, app.fork))
    {
      ConfigIdentity(app, i);
    }
  }

  ghost predicate ServiceNamesApart(app: App, other: App) {
    forall i, j :: 0 <= i < |app.services| && 0 <= j < |other.services| ==>
      Shorten(CopyName(app.services[i].name, app.fork)) != Shorten(CopyName(other.services[j].name, other.fork))
  }

  lemma ForksNamedApart(w: World, app: App, other: App)
    requires WellFormed(w) && app.fork in w.forks && other.fork in w.forks && app.fork.name != other.fork.name
    requires FromBase(app, w) && FromBase(other, w)
    ensures ServiceNamesApart(app, other)
  {
    forall i, j | 0 <= i < |app.services| && 0 <= j < |other.services|
      ensures Shorten(CopyName(app.services[i].name, app.fork)) != Shorten(CopyName(other.services[j].name, other.fork))
    {
      assert app.services[i] in app.services && other.services[j] in other.services;
      assert CopyKey(app.services[i].name, app.fork) != CopyKey(other.services[j].name, other.fork);
    }
  }

  lemma OtherForkServices(s: Store, t: Store, w: World, app: App, other: App)
    requires WellFormed(w) && app.fork in w.forks && other.fork in w.forks && app.fork.name != other.fork.name
    requires FromBase(app, w) && FromBase(other, w) && ServicesStand(s, app) && ServiceFates(s, t, other)
    ensures ServicesStand(t, app)
  {
    forall svc | svc in app.services ensures CopyMade(t, svc, app.fork) {
      assert CopyMade(s, svc, app.fork);
      OthersUntouched(s, t, w, other, svc.name, app.fork);
    }
    forall k | OwnedAt(t, k, ForkParent(app.fork), ServicesList(app)) ensures exists svc :: svc in app.services && k == CopyKey(svc.name, app.fork) {
      if !Same(s, t, k) {
        var theirs := WrittenIsCopy(s, t, other, k);
        SoleOwner(t[k], other.fork, app.fork);
      }
      assert OwnedAt(s, k, ForkParent(app.fork), ServicesList(app));
    }
  }

  lemma CopiesApart(s: Store, w: World, app: App, other: App)
    requires NamesApart(s, w) && WellFormed(w) && app.fork in w.forks && other.fork in w.forks && app.fork.name != other.fork.name
    requires Reads(s, app.fork, app) && Reads(s, other.fork, other)
    requires Writable(ForkParent(app.fork), CopiesList(app)) && Writable(ForkParent(other.fork), CopiesList(other))
    ensures KeysApart(app, CopiesList(app), Shortened(), other, CopiesList(other), Shortened())
  {
    forall i, j | 0 <= i < |app.deployments| && 0 <= j < |other.deployments|
      ensures FinalKey(CopiesList(app), i, ForkParent(app.fork), Shortened()) != FinalKey(CopiesList(other), j, ForkParent(other.fork), Shortened())
    {
      ReadDeployment(s, w, app, app.deployments[i]);
      ReadDeployment(s, w, other, other.deployments[j]);
    }
  }

  lemma ConfigsApart(app: App, other: App, canon: string -> string, canon': string -> string)
    requires ServiceNamesApart(app, other)
    requires Writable(ForkParent(app.fork), ConfigsList(app)) && Writable(ForkParent(other.fork), ConfigsList(other))
    requires ConfigsStoredAs(app, canon) && ConfigsStoredAs(other, canon')
    ensures KeysApart(app, ConfigsList(app), canon, other, ConfigsList(other), canon')
  {}

  lemma OtherUpdateCopies(s: Store, t: Store, app: App, other: App)
    requires app.fork.name != other.fork.name
    requires Writable(ForkParent(app.fork), CopiesList(app)) && Writable(ForkParent(other.fork), CopiesList(other))
    requires KeysApart(app, CopiesList(app), Shortened(), other, CopiesList(other), Shortened())
    requires Holds(s, ForkParent(app.fork), CopiesList(app), Shortened())
    requires Fates(s, t, ForkParent(other.fork), CopiesList(other), Shortened())
    ensures Holds(t, ForkParent(app.fork), CopiesList(app), Shortened())
  {
    ListsInTurn(app);
    ListsInTurn(other);
    OtherForkHolds(s, t, app, CopiesList(app), Shortened(), other, CopiesList(other), Shortened());
  }

  lemma OtherUpdateConfigs(s: Store, t: Store, app: App, other: App, canon: string -> string, canon': string -> string)
    requires app.fork.name != other.fork.name && ServiceNamesApart(app, other)
    requires Writable(ForkParent(app.fork), ConfigsList(app)) && Writable(ForkParent(other.fork), ConfigsList(other))
    requires ConfigsStoredAs(app, canon) && ConfigsStoredAs(other, canon')
    requires Holds(s, ForkParent(app.fork), ConfigsList(app), canon)
    requires Fates(s, t, ForkParent(other.fork), ConfigsList(other), canon')
    ensures Holds(t, ForkParent(app.fork), ConfigsList(app), canon)
  {
    ListsInTurn(app);
    ListsInTurn(other);
    ConfigsApart(app, other, canon, canon');
    OtherForkHolds(s, t, app, ConfigsList(app), canon, other, ConfigsList(other), canon');
  }

  lemma OtherUpdateStands(s: Store, t: Store, w: World, app: App, other: App)
    requires Footing(s, w, app) && other.fork in w.forks && app.fork.name != other.fork.name
    requires FromBase(other, w) && AllFates(s, t, other) && ServiceFates(s, t, other)
    ensures ServicesStand(t, app) && ConfigsStand(t, app)
  {
    ForksNamedApart(w, app, other);
    CanonicalConfigs(app);
    CanonicalConfigs(other);
    OtherUpdateConfigs(s, t, app, other, CanonicalCopyName(app.fork), CanonicalCopyName(other.fork));
    OtherForkServices(s, t, w, app, other);
  }

  lemma OtherCopiesStand(s: Store, t: Store, w: World, app: App, other: App)
    requires Fixture(s, w, app) && other.fork in w.forks && app.fork.name != other.fork.name
    requires Reads(s, other.fork, other) && AllFates(s, t, other)
    ensures CopiesStand(t, app)
  {
    CopiesApart(s, w, app, other);
    OtherUpdateCopies(s, t, app, other);
  }

  // ---------------------------------------------------------------- an update of the fork itself

  ghost predicate ShortDeploymentNames(app: App) {
    forall d :: d in app.deployments ==> |CopyName(d.name, app.fork)| <= LABEL_LIMIT
  }

  lemma ShortNamesKeepIdentity(app: App)
    requires Writable(ForkParent(app.fork), CopiesList(app)) && ShortDeploymentNames(app)
    ensures FinalsKeepIdentity(ForkParent(app.fork), CopiesList(app), Shortened())
  {
    forall i | 0 <= i < |app.deployments| ensures |CopiesList(app).items[i].name| <= LABEL_LIMIT {
      assert app.deployments[i] in app.deployments;
    }
  }

  lemma ConfigsKeepIdentity(app: App)
    requires Writable(ForkParent(app.fork), ConfigsList(app))
    ensures FinalsKeepIdentity(ForkParent(app.fork), ConfigsList(app), CanonicalCopyName(app.fork))
  {
    forall i | 0 <= i < |app.services|
      ensures ConfigHost(Final(ConfigsList(app), i, ForkParent(app.fork), CanonicalCopyName(app.fork))) == ConfigHost(ConfigsList(app).items[i])
    {
      ConfigIdentity(app, i);
    }
  }

  lemma ServicesKeepIdentity(app: App)
    requires Writable(ForkParent(app.fork), ServicesList(app))
    ensures FinalsKeepIdentity(ForkParent(app.fork), ServicesList(app), CanonicalCopyName(app.fork))
  {
    forall i | 0 <= i < |app.services|
      ensures OriginalService(Final(ServicesList(app), i, ForkParent(app.fork), CanonicalCopyName(app.fork))) == OriginalService(ServicesList(app).items[i])
    {
      CopyIdentity(app, i);
    }
  }

  /** A list whose objects are in place is passed over without a change. */
  lemma PassesOver(s: Store, t: Store, p: Parent, list: ObjectList, canon: string -> string)
    requires Orderly(s, p, list, canon) && Holds(s, p, list, canon) && FinalsKeepIdentity(p, list, canon) && AtMostRun(s, t, p, list)
    ensures t == s
  {
    if t != s { HeldRunChangesNothing(s, t, p, list, canon); }
  }

  /** Once the copies stand, an update of their fork can at most rewrite services. */
  lemma OwnUpdate(s: Store, t: Store, again: App)
    requires AllOrderly(s, again) && ShortDeploymentNames(again) && PartlyRefreshed(s, t, ForkParent(again.fork), Lists(again))
    requires Holds(s, ForkParent(again.fork), CopiesList(again), Shortened())
    requires Holds(s, ForkParent(again.fork), ConfigsList(again), CanonicalCopyName(again.fork))
    ensures AtMostRun(s, t, ForkParent(again.fork), ServicesList(again)) && TouchesOnly(s, t, Kind.Service)
  {
    var p, canon := ForkParent(again.fork), CanonicalCopyName(again.fork);
    var m, m' := StagesOfPart(s, t, again);
    KindsOfStages(s, m, m', t, again);
    ShortNamesKeepIdentity(again);
    PassesOver(s, m, p, CopiesList(again), Shortened());
    OrderlyElsewhere(s, m', p, ConfigsList(again), canon);
    HoldsElsewhere(s, m', p, ConfigsList(again), canon);
    ConfigsKeepIdentity(again);
    PassesOver(m', t, p, ConfigsList(again), canon);
  }

  /** An update of the fork itself leaves its configs as they stand. */
  lemma OwnUpdateConfigs(s: Store, t: Store, again: App)
    requires AllOrderly(s, again) && ConfigsStand(s, again) && PartlyRefreshed(s, t, ForkParent(again.fork), Lists(again))
    ensures SameKind(s, t, Kind.VSConfig)
  {
    var p, canon := ForkParent(again.fork), CanonicalCopyName(again.fork);
    var m, m' := StagesOfPart(s, t, again);
    KindsOfStages(s, m, m', t, again);
    OrderlyElsewhere(s, m', p, ConfigsList(again), canon);
    HoldsElsewhere(s, m', p, ConfigsList(again), canon);
    ConfigsKeepIdentity(again);
    PassesOver(m', t, p, ConfigsList(again), canon);
  }

  lemma HeldBothWays(s: Store, w: World, app: App, again: App)
    requires Footing(s, w, app) && Expanded(s, app.fork, again)
    ensures SameSelection(app, again) && CopiesList(again) == CopiesList(app) && FromBase(again, w)
    ensures AllOrderly(s, again) && (ShortDeploymentNames(app) ==> ShortDeploymentNames(again))
    ensures ConfigsStand(s, again)
  {
    ReadAgain(s, app.fork, app, again);
    SoundIsReady(s, w, app.fork, again);
    ConfigsHoldAgain(s, app.fork, app, again);
  }

  lemma OwnServices(s: Store, t: Store, app: App, again: App)
    requires SameSelection(app, again) && DistinctServiceNames(again) && ServicesStand(s, app) && ServiceFates(s, t, again)
    ensures ServicesStand(t, app)
  {
    forall svc | svc in app.services ensures CopyMade(t, svc, app.fork) {
      assert CopyMade(s, svc, app.fork);
      OwnService(s, t, again, svc);
    }
    forall k | OwnedAt(t, k, ForkParent(app.fork), ServicesList(app)) ensures exists svc :: svc in app.services && k == CopyKey(svc.name, app.fork) {
      if Same(s, t, k) {
        assert OwnedAt(s, k, ForkParent(app.fork), ServicesList(app));
      } else {
        var svc := WrittenIsCopy(s, t, again, k);
        assert svc in app.services;
      }
    }
  }

  lemma OwnService(s: Store, t: Store, again: App, svc: Object)
    requires DistinctServiceNames(again) && ServiceFates(s, t, again) && svc in again.services && CopyMade(s, svc, again.fork)
    ensures CopyMade(t, svc, again.fork)
  {
    var k := CopyKey(svc.name, again.fork);
    assert ServiceFate(s, t, again, k);
    SelectedNotStale(s, again, svc.name);
    if !Same(s, t, k) {
      var written := WrittenIsCopy(s, t, again, k);
      OneCopyKey(again, svc, written);
    }
  }

  lemma OneCopyKey(app: App, svc: Object, o: Object)
    requires DistinctServiceNames(app) && svc in app.services && o in app.services
    requires CopyKey(svc.name, app.fork) == CopyKey(o.name, app.fork)
    ensures o == svc
  {
    var i :| 0 <= i < |app.services| && app.services[i] == svc;
    var j :| 0 <= j < |app.services| && app.services[j] == o;
  }

  /** An update of the fork itself touches services at most, once its DeploymentCopies stand under full names. */
  lemma OwnUpdateTouches(s: Store, t: Store, w: World, app: App, again: App)
    requires Fixture(s, w, app) && ShortDeploymentNames(app) && Expanded(s, app.fork, again)
    requires PartlyRefreshed(s, t, ForkParent(again.fork), Lists(again))
    ensures AtMostRun(s, t, ForkParent(again.fork), ServicesList(again)) && TouchesOnly(s, t, Kind.Service)
  {
    HeldBothWays(s, w, app, again);
    OwnUpdate(s, t, again);
  }

  lemma OwnUpdateStands(s: Store, t: Store, w: World, app: App, again: App)
    requires Footing(s, w, app) && Expanded(s, app.fork, again)
    requires PartlyRefreshed(s, t, ForkParent(again.fork), Lists(again)) && ServiceFates(s, t, again)
    ensures ServicesStand(t, app) && ConfigsStand(t, app)
  {
    HeldBothWays(s, w, app, again);
    CopyNamesDistinct(w, again);
    OwnServices(s, t, app, again);
    OwnUpdateConfigs(s, t, again);
    HoldsElsewhere(s, t, ForkParent(app.fork), ConfigsList(app), CanonicalCopyName(app.fork));
  }

  // ---------------------------------------------------------------- the other steps

  lemma AllocationStands(s: Store, t: Store, w: World, app: App, k: Key, ip: string)
    requires ServicesStand(s, app) && ConfigsStand(s, app) && AllocateStep(s, t, w, k, ip)
    ensures ServicesStand(t, app) && ConfigsStand(t, app)
  {
    assert forall l :: l != k ==> Same(s, t, l);
    HoldsElsewhere(s, t, ForkParent(app.fork), ConfigsList(app), CanonicalCopyName(app.fork));
    AllocationKeepsServices(s, t, w, app, k, ip);
  }

  lemma AllocationKeepsServices(s: Store, t: Store, w: World, app: App, k: Key, ip: string)
    requires ServicesStand(s, app) && AllocateStep(s, t, w, k, ip)
    ensures ServicesStand(t, app)
  {
    forall svc | svc in app.services ensures CopyMade(t, svc, app.fork) {
      assert CopyMade(s, svc, app.fork);
    }
    forall l | OwnedAt(t, l, ForkParent(app.fork), ServicesList(app)) ensures OwnedAt(s, l, ForkParent(app.fork), ServicesList(app)) {
      assert t[l].owners == s[l].owners;
    }
  }

  /** What is held is held still if no owned object comes or goes or changes. */
  lemma HoldsUntouched(s: Store, t: Store, app: App, list: ObjectList, canon: string -> string)
    requires list in Lists(app) && Writable(ForkParent(app.fork), list) && Holds(s, ForkParent(app.fork), list, canon)
    requires forall k: Key :: k.kind == list.kind && (OwnedBy(s, k, app.fork) || OwnedBy(t, k, app.fork)) ==> Same(s, t, k)
    ensures Holds(t, ForkParent(app.fork), list, canon)
  {
    var p := ForkParent(app.fork);
    forall i | 0 <= i < |list.items| ensures Same(s, t, FinalKey(list, i, p, canon)) {
      FinalOwners(app, list, i, canon);
      SoleOwner(s[FinalKey(list, i, p, canon)], app.fork, app.fork);
    }
    forall k | OwnedAt(t, k, p, list) ensures OwnedAt(s, k, p, list) {
      assert Same(s, t, k);
    }
  }

  lemma ServicesElsewhere(s: Store, t: Store, app: App)
    requires ServicesStand(s, app) && SameKind(s, t, Kind.Service)
    ensures ServicesStand(t, app)
  {
    forall svc | svc in app.services ensures CopyMade(t, svc, app.fork) {
      assert CopyMade(s, svc, app.fork) && Same(s, t, CopyKey(svc.name, app.fork));
    }
    forall k | OwnedAt(t, k, ForkParent(app.fork), ServicesList(app)) ensures OwnedAt(s, k, ForkParent(app.fork), ServicesList(app)) {
      assert Same(s, t, k);
    }
  }

  lemma OutsideStands(s: Store, t: Store, w: World, app: App)
    requires ServicesStand(s, app) && ConfigsStand(s, app) && app.fork in w.forks && OutsideStep(s, t, w)
    ensures ServicesStand(t, app) && ConfigsStand(t, app)
  {
    ListsInTurn(app);
    HoldsUntouched(s, t, app, ConfigsList(app), CanonicalCopyName(app.fork));
    ServicesElsewhere(s, t, app);
  }

  // ---------------------------------------------------------------- every step

  lemma OtherKindsInputs(s: Store, t: Store, w: World)
    requires OtherKindsSame(s, t)
    ensures SameDeployments(s, t, w) && SameKind(s, t, Kind.ForkManager)
  {}

  lemma UpdateKeepsSound(s: Store, t: Store, w: World, f: ForkResource, app: App)
    requires Sound(s, w) && UpdateStep(s, t, w, f, app)
    ensures Sound(t, w) && AllFates(s, t, app) && ServiceFates(s, t, app) && OtherKindsSame(s, t) && SameBase(s, t, w)
  {
    UpdateKeepsInv(s, t, w, f, app);
    SoundIsReady(s, w, f, app);
    UpdateFates(s, t, app);
    NamesStay(s, t, w, app);
    OtherKindsInputs(s, t, w);
    ApartStay(s, t, w);
  }

  lemma NamesUntouched(s: Store, t: Store, w: World)
    requires NamesInOrder(s, w)
    requires forall k: Key, f | f in w.forks && OwnedBy(t, k, f) :: k.kind == Kind.DeploymentCopy || k.kind == Kind.VSConfig ==> Same(s, t, k)
    ensures NamesInOrder(t, w)
  {
    forall f | f in w.forks ensures ConfigsNamed(t, f) && CopiesNamed(t, f) {
      forall k | OwnedAt(t, k, ForkParent(f), ObjectList([], Kind.VSConfig, ConfigHost))
        ensures t[k].body.VSConfigBody? && k.name == Shorten(CopyName(t[k].body.config.host, f))
      {
        assert OwnedBy(t, k, f) && Same(s, t, k);
        assert OwnedAt(s, k, ForkParent(f), ObjectList([], Kind.VSConfig, ConfigHost));
      }
      forall k | OwnedAt(t, k, ForkParent(f), ObjectList([], Kind.DeploymentCopy, NameIdentity)) ensures |k.name| <= LABEL_LIMIT {
        assert OwnedBy(t, k, f) && Same(s, t, k);
        assert OwnedAt(s, k, ForkParent(f), ObjectList([], Kind.DeploymentCopy, NameIdentity));
      }
    }
  }

  /** Steps that leave the base alone and keep what marks a copy are among the edits of `ForkRuns`. */
  lemma OutsideIsEdit(s: Store, t: Store, w: World)
    requires Inv(s, w) && OutsideStep(s, t, w)
    ensures EditStep(s, t, w) && SameBase(s, t, w)
  {
    forall k: Key | k.kind == Kind.Service ensures Same(s, t, k) {}
    forall n, f | n in w.base && f in w.forks && BaseKey(w, n) in t ensures !OwnedByParent(t[BaseKey(w, n)], ForkParent(f)) {
      assert Same(s, t, BaseKey(w, n));
    }
  }

  lemma AllocationIsEdit(s: Store, t: Store, w: World, k: Key, ip: string)
    requires Inv(s, w) && AllocateStep(s, t, w, k, ip)
    ensures EditStep(s, t, w) && SameBase(s, t, w) && SameDeployments(s, t, w) && SameKind(s, t, Kind.ForkManager)
  {
    assert forall l :: l != k ==> Same(s, t, l);
  }

  lemma OutsideKeepsSound(s: Store, t: Store, w: World)
    requires Sound(s, w) && OutsideStep(s, t, w)
    ensures Sound(t, w)
  {
    OutsideIsEdit(s, t, w);
    EditKeepsInv(s, t, w);
    NamesUntouched(s, t, w);
    ApartStay(s, t, w);
  }

  lemma AllocationKeepsSound(s: Store, t: Store, w: World, k: Key, ip: string)
    requires Sound(s, w) && AllocateStep(s, t, w, k, ip)
    ensures Sound(t, w) && SameDeployments(s, t, w) && SameKind(s, t, Kind.ForkManager) && SameBase(s, t, w)
  {
    AllocationIsEdit(s, t, w, k, ip);
    EditKeepsInv(s, t, w);
    assert forall l :: l != k ==> Same(s, t, l);
    NamesUntouched(s, t, w);
    ApartStay(s, t, w);
  }

  lemma StepKeepsSound(s: Store, t: Store, w: World)
    requires Sound(s, w) && SteadyStep(s, t, w)
    ensures Sound(t, w)
  {
    if f, app :| UpdateStep(s, t, w, f, app) {
      UpdateKeepsSound(s, t, w, f, app);
    } else if k, ip :| AllocateStep(s, t, w, k, ip) {
      AllocationKeepsSound(s, t, w, k, ip);
    } else {
      OutsideKeepsSound(s, t, w);
    }
  }

  lemma UpdateKeepsReads(s: Store, t: Store, w: World, app: App, f: ForkResource, again: App)
    requires Sound(s, w) && app.fork in w.forks && Reads(s, app.fork, app) && UpdateStep(s, t, w, f, again)
    ensures Sound(t, w) && Reads(t, app.fork, app)
  {
    UpdateKeepsSound(s, t, w, f, again);
    OtherKindsInputs(s, t, w);
    ReadsStay(s, t, w, app);
  }

  lemma FootingMade(s: Store, t: Store, w: World, app: App)
    requires Footing(s, w, app) && Sound(t, w) && Reads(t, app.fork, app) && ServicesStand(t, app) && ConfigsStand(t, app)
    ensures Footing(t, w, app)
  {}

  lemma OwnUpdateKeepsFooting(s: Store, t: Store, w: World, app: App, again: App)
    requires Footing(s, w, app) && UpdateStep(s, t, w, app.fork, again)
    ensures Footing(t, w, app)
  {
    UpdateKeepsReads(s, t, w, app, app.fork, again);
    UpdateKeepsSound(s, t, w, app.fork, again);
    OwnUpdateStands(s, t, w, app, again);
    FootingMade(s, t, w, app);
  }

  lemma OtherUpdateKeepsStanding(s: Store, t: Store, w: World, app: App, f: ForkResource, again: App)
    requires Footing(s, w, app) && UpdateStep(s, t, w, f, again) && app.fork.name != f.name
    ensures ServicesStand(t, app) && ConfigsStand(t, app)
  {
    UpdateKeepsSound(s, t, w, f, again);
    AppFromBase(s, w, f, again);
    OtherUpdateStands(s, t, w, app, again);
  }

  lemma OtherUpdateKeepsFooting(s: Store, t: Store, w: World, app: App, f: ForkResource, again: App)
    requires Footing(s, w, app) && UpdateStep(s, t, w, f, again) && app.fork.name != f.name
    ensures Footing(t, w, app)
  {
    UpdateKeepsReads(s, t, w, app, f, again);
    OtherUpdateKeepsStanding(s, t, w, app, f, again);
    FootingMade(s, t, w, app);
  }

  lemma AllocationKeepsFooting(s: Store, t: Store, w: World, app: App, k: Key, ip: string)
    requires Footing(s, w, app) && AllocateStep(s, t, w, k, ip)
    ensures Footing(t, w, app)
  {
    AllocationKeepsSound(s, t, w, k, ip);
    ReadsStay(s, t, w, app);
    AllocationStands(s, t, w, app, k, ip);
    FootingMade(s, t, w, app);
  }

  lemma OutsideKeepsFooting(s: Store, t: Store, w: World, app: App)
    requires Footing(s, w, app) && OutsideStep(s, t, w)
    ensures Footing(t, w, app)
  {
    OutsideKeepsSound(s, t, w);
    OutsideIsEdit(s, t, w);
    ReadsStay(s, t, w, app);
    OutsideStands(s, t, w, app);
    FootingMade(s, t, w, app);
  }

  ghost function FootingOf(w: World, app: App): Store -> bool {
    s => Footing(s, w, app)
  }

  ghost function FixtureOf(w: World, app: App): Store -> bool {
    s => Fixture(s, w, app)
  }

  ghost function CopiesOf(app: App): Store -> bool {
    s => CopiesStand(s, app)
  }

  /** A step is an update of the fork itself, an update of one of another name, or one of the others. */
  lemma EachStep(s: Store, t: Store, w: World, self: ForkResource, good: Store -> bool)
    requires SteadyStep(s, t, w) && self in w.forks && forall f, g :: f in w.forks && g in w.forks && f.name == g.name ==> f == g
    requires forall app :: UpdateStep(s, t, w, self, app) ==> good(t)
    requires forall f: ForkResource, app :: self.name != f.name && UpdateStep(s, t, w, f, app) ==> good(t)
    requires forall k, ip :: AllocateStep(s, t, w, k, ip) ==> good(t)
    requires OutsideStep(s, t, w) ==> good(t)
    ensures good(t)
  {
    if f, app :| UpdateStep(s, t, w, f, app) {
      if self.name == f.name { assert UpdateStep(s, t, w, self, app); }
    }
  }

  lemma OwnUpdatesKeep(s: Store, t: Store, w: World, app: App)
    requires FootingOf(w, app)(s)
    ensures forall again :: UpdateStep(s, t, w, app.fork, again) ==> FootingOf(w, app)(t)
  {
    forall again | UpdateStep(s, t, w, app.fork, again) ensures FootingOf(w, app)(t) {
      OwnUpdateKeepsFooting(s, t, w, app, again);
    }
  }

  lemma OtherUpdatesKeep(s: Store, t: Store, w: World, app: App)
    requires FootingOf(w, app)(s)
    ensures forall f: ForkResource, again :: app.fork.name != f.name && UpdateStep(s, t, w, f, again) ==> FootingOf(w, app)(t)
  {
    forall f: ForkResource, again | app.fork.name != f.name && UpdateStep(s, t, w, f, again) ensures FootingOf(w, app)(t) {
      OtherUpdateKeepsFooting(s, t, w, app, f, again);
    }
  }

  lemma AllocationsKeep(s: Store, t: Store, w: World, app: App)
    requires FootingOf(w, app)(s)
    ensures forall k, ip :: AllocateStep(s, t, w, k, ip) ==> FootingOf(w, app)(t)
  {
    forall k, ip | AllocateStep(s, t, w, k, ip) ensures FootingOf(w, app)(t) {
      AllocationKeepsFooting(s, t, w, app, k, ip);
    }
  }

  lemma OutsideKeeps(s: Store, t: Store, w: World, app: App)
    requires FootingOf(w, app)(s)
    ensures OutsideStep(s, t, w) ==> FootingOf(w, app)(t)
  {
    if OutsideStep(s, t, w) { OutsideKeepsFooting(s, t, w, app); }
  }

  lemma KnownForks(s: Store, w: World, app: App)
    requires FootingOf(w, app)(s)
    ensures app.fork in w.forks && forall f, g :: f in w.forks && g in w.forks && f.name == g.name ==> f == g
  {}

  /** Services and VSConfigs that stand are kept by every step, names of any length included. */
  lemma StepKeepsFooting(s: Store, t: Store, w: World, app: App)
    requires FootingOf(w, app)(s) && SteadyStep(s, t, w)
    ensures FootingOf(w, app)(t)
  {
    KnownForks(s, w, app);
    OwnUpdatesKeep(s, t, w, app);
    OtherUpdatesKeep(s, t, w, app);
    AllocationsKeep(s, t, w, app);
    OutsideKeeps(s, t, w, app);
    EachStep(s, t, w, app.fork, FootingOf(w, app));
  }

  lemma OwnUpdateKeepsCopies(s: Store, t: Store, w: World, app: App, again: App)
    requires Fixture(s, w, app) && ShortDeploymentNames(app) && UpdateStep(s, t, w, app.fork, again)
    ensures CopiesStand(t, app)
  {
    OwnUpdateTouches(s, t, w, app, again);
    HoldsElsewhere(s, t, ForkParent(app.fork), CopiesList(app), Shortened());
  }

  lemma OtherUpdateKeepsCopies(s: Store, t: Store, w: World, app: App, f: ForkResource, again: App)
    requires Fixture(s, w, app) && UpdateStep(s, t, w, f, again) && app.fork.name != f.name
    ensures CopiesStand(t, app)
  {
    UpdateKeepsSound(s, t, w, f, again);
    OtherCopiesStand(s, t, w, app, again);
  }

  lemma AllocationKeepsCopies(s: Store, t: Store, w: World, app: App, k: Key, ip: string)
    requires CopiesStand(s, app) && AllocateStep(s, t, w, k, ip)
    ensures CopiesStand(t, app)
  {
    assert forall l :: l != k ==> Same(s, t, l);
    HoldsElsewhere(s, t, ForkParent(app.fork), CopiesList(app), Shortened());
  }

  lemma OutsideKeepsCopies(s: Store, t: Store, w: World, app: App)
    requires CopiesStand(s, app) && app.fork in w.forks && OutsideStep(s, t, w)
    ensures CopiesStand(t, app)
  {
    ListsInTurn(app);
    HoldsUntouched(s, t, app, CopiesList(app), Shortened());
  }

  lemma UpdatesKeepCopies(s: Store, t: Store, w: World, app: App)
    requires FixtureOf(w, app)(s) && ShortDeploymentNames(app)
    ensures forall again :: UpdateStep(s, t, w, app.fork, again) ==> CopiesOf(app)(t)
    ensures forall f: ForkResource, again :: app.fork.name != f.name && UpdateStep(s, t, w, f, again) ==> CopiesOf(app)(t)
  {
    forall again | UpdateStep(s, t, w, app.fork, again) ensures CopiesOf(app)(t) {
      OwnUpdateKeepsCopies(s, t, w, app, again);
    }
    forall f: ForkResource, again | app.fork.name != f.name && UpdateStep(s, t, w, f, again) ensures CopiesOf(app)(t) {
      OtherUpdateKeepsCopies(s, t, w, app, f, again);
    }
  }

  /** DeploymentCopies stay, too, if their full names fit a label. */
  lemma StepKeepsCopies(s: Store, t: Store, w: World, app: App)
    requires FixtureOf(w, app)(s) && ShortDeploymentNames(app) && SteadyStep(s, t, w)
    ensures CopiesOf(app)(t)
  {
    KnownForks(s, w, app);
    UpdatesKeepCopies(s, t, w, app);
    forall k, ip | AllocateStep(s, t, w, k, ip) ensures CopiesOf(app)(t) {
      AllocationKeepsCopies(s, t, w, app, k, ip);
    }
    if OutsideStep(s, t, w) { OutsideKeepsCopies(s, t, w, app); }
    EachStep(s, t, w, app.fork, CopiesOf(app));
  }

  lemma StepKeepsFixture(s: Store, t: Store, w: World, app: App)
    requires FixtureOf(w, app)(s) && ShortDeploymentNames(app) && SteadyStep(s, t, w)
    ensures FixtureOf(w, app)(t)
  {
    StepKeepsFooting(s, t, w, app);
    StepKeepsCopies(s, t, w, app);
  }

  // ---------------------------------------------------------------- whole runs

  lemma SoundAlong(run: seq<Store>, w: World, i: nat)
    requires IsSteadyRun(run, w) && Sound(run[0], w) && i < |run|
    ensures Sound(run[i], w)
  {
    forall s, t | Sound(s, w) && SteadyOf(w)(s, t) ensures Sound(t, w) {
      StepKeepsSound(s, t, w);
    }
    Runs.HoldsAlong(run, SteadyOf(w), (s: Store) => Sound(s, w), 0, i);
  }

  lemma SteadyIsRun(run: seq<Store>, w: World)
    requires IsSteadyRun(run, w) && Sound(run[0], w)
    ensures ForkRuns.IsRun(run, w)
  {
    forall i | 0 <= i < |run| - 1 ensures Runs.StepAt(run, StepOf(w), i) {
      SoundAlong(run, w, i);
      assert Runs.StepAt(run, SteadyOf(w), i);
      SteadyIsStep(run[i], run[i + 1], w);
    }
  }

  lemma EditIsStep(s: Store, t: Store, w: World)
    requires EditStep(s, t, w)
    ensures StepOf(w)(s, t)
  {}

  lemma UpdateIsStep(s: Store, t: Store, w: World, f: ForkResource, app: App)
    requires UpdateStep(s, t, w, f, app)
    ensures StepOf(w)(s, t)
  {}

  lemma SteadyIsStep(s: Store, t: Store, w: World)
    requires Inv(s, w) && SteadyStep(s, t, w)
    ensures StepOf(w)(s, t)
  {
    if f, app :| UpdateStep(s, t, w, f, app) {
      UpdateIsStep(s, t, w, f, app);
    } else if k, ip :| AllocateStep(s, t, w, k, ip) {
      AllocationIsEdit(s, t, w, k, ip);
      EditIsStep(s, t, w);
    } else {
      OutsideIsEdit(s, t, w);
      EditIsStep(s, t, w);
    }
  }

  lemma FootingAlong(run: seq<Store>, w: World, app: App, i: nat, j: nat)
    requires IsSteadyRun(run, w) && i <= j < |run| && FootingOf(w, app)(run[i])
    ensures FootingOf(w, app)(run[j])
  {
    forall s, t | FootingOf(w, app)(s) && SteadyOf(w)(s, t) ensures FootingOf(w, app)(t) {
      StepKeepsFooting(s, t, w, app);
    }
    Runs.HoldsAlong(run, SteadyOf(w), FootingOf(w, app), i, j);
  }

  lemma FixtureAlong(run: seq<Store>, w: World, app: App, i: nat, j: nat)
    requires IsSteadyRun(run, w) && ShortDeploymentNames(app) && i <= j < |run| && FixtureOf(w, app)(run[i])
    ensures FixtureOf(w, app)(run[j])
  {
    forall s, t | FixtureOf(w, app)(s) && SteadyOf(w)(s, t) ensures FixtureOf(w, app)(t) {
      StepKeepsFixture(s, t, w, app);
    }
    Runs.HoldsAlong(run, SteadyOf(w), FixtureOf(w, app), i, j);
  }

  /** A successful update of the fork, from what it read in the store. */
  ghost predicate Succeeds(s: Store, t: Store, w: World, app: App) {
    app.fork in w.forks && Expanded(s, app.fork, app) && Refreshed(s, t, ForkParent(app.fork), Lists(app))
  }

  ghost function SuccessOf(w: World, app: App): (Store, Store) -> bool {
    (s, t) => Succeeds(s, t, w, app)
  }

  ghost predicate SucceedsAt(run: seq<Store>, i: nat, w: World, app: App) {
    i + 1 < |run| && SuccessOf(w, app)(run[i], run[i + 1])
  }

  /** A success puts the copies in place, whatever the fork owned before. */
  lemma FirstSuccess(s: Store, t: Store, w: World, app: App)
    requires Sound(s, w) && Succeeds(s, t, w, app)
    ensures FixtureOf(w, app)(t)
  {
    SoundIsReady(s, w, app.fork, app);
    UpdateDelivers(s, t, app.fork, app);
    RefreshedIsPartly(s, t, ForkParent(app.fork), Lists(app));
    UpdateKeepsReads(s, t, w, app, app.fork, app);
    DeliveredStands(t, app);
  }

  /** The same service but for its cluster IP. */
  predicate SameButIP(a: Object, b: Object) {
    a.body.ServiceBody? && b.body.ServiceBody?
    && b == a.(body := a.body.(service := a.body.service.(clusterIP := b.body.service.clusterIP)))
  }

  /** The fork owns the same services in both stores, up to their cluster IPs. */
  ghost predicate SameServices(s: Store, t: Store, f: ForkResource) {
    forall k: Key | k.kind == Kind.Service && k.namespace == f.namespace && (OwnedBy(s, k, f) || OwnedBy(t, k, f))
      :: SameServiceAt(s, t, k)
  }

  ghost predicate SameServiceAt(s: Store, t: Store, k: Key) {
    k in s && k in t && SameButIP(s[k], t[k])
  }

  /** The fork owns the same objects of the kind in both stores. */
  ghost predicate SameOwned(s: Store, t: Store, f: ForkResource, kind: Kind) {
    forall k: Key | k.kind == kind && k.namespace == f.namespace && (OwnedBy(s, k, f) || OwnedBy(t, k, f)) :: Same(s, t, k)
  }

  /** All three kinds are the same, services up to their cluster IPs. */
  ghost predicate SameCopies(s: Store, t: Store, f: ForkResource) {
    SameServices(s, t, f) && SameOwned(s, t, f, Kind.VSConfig) && SameOwned(s, t, f, Kind.DeploymentCopy)
  }

  lemma HeldAlike(s: Store, t: Store, f: ForkResource, list: ObjectList, canon: string -> string)
    requires Writable(ForkParent(f), list) && Holds(s, ForkParent(f), list, canon) && Holds(t, ForkParent(f), list, canon)
    ensures SameOwned(s, t, f, list.kind)
  {
    var p := ForkParent(f);
    forall k: Key | k.kind == list.kind && k.namespace == f.namespace && (OwnedBy(s, k, f) || OwnedBy(t, k, f)) ensures Same(s, t, k) {
      assert OwnedAt(s, k, p, list) || OwnedAt(t, k, p, list);
      var i :| 0 <= i < |list.items| && k == FinalKey(list, i, p, canon);
    }
  }

  lemma ServicesAlike(s: Store, t: Store, app: App)
    requires ServicesStand(s, app) && ServicesStand(t, app)
    ensures SameServices(s, t, app.fork)
  {
    var p, list := ForkParent(app.fork), ServicesList(app);
    forall k: Key | k.kind == Kind.Service && k.namespace == app.fork.namespace && (OwnedBy(s, k, app.fork) || OwnedBy(t, k, app.fork))
      ensures SameServiceAt(s, t, k)
    {
      assert OwnedAt(s, k, p, list) || OwnedAt(t, k, p, list);
      var svc :| svc in app.services && k == CopyKey(svc.name, app.fork);
      assert CopyMade(s, svc, app.fork) && CopyMade(t, svc, app.fork);
    }
  }

  lemma StandingAlike(s: Store, t: Store, app: App)
    requires ServicesStand(s, app) && ConfigsStand(s, app) && ServicesStand(t, app) && ConfigsStand(t, app)
    ensures SameServices(s, t, app.fork) && SameOwned(s, t, app.fork, Kind.VSConfig)
    ensures CopiesStand(s, app) && CopiesStand(t, app) ==> SameCopies(s, t, app.fork)
  {
    ServicesAlike(s, t, app);
    HeldAlike(s, t, app.fork, ConfigsList(app), CanonicalCopyName(app.fork));
    if CopiesStand(s, app) && CopiesStand(t, app) { HeldAlike(s, t, app.fork, CopiesList(app), Shortened()); }
  }

  /** What the fork owns stays fixed after its first success, whatever it owned before: over any run of updates of
      any forks, finished or not, of IP allocations and of steps that leave forks' objects and inputs alone, it
      owns the same services, up to the allocation of a cluster IP, and VSConfigs from its first success on, and
      the same DeploymentCopies, if their full names fit a label. */
  lemma FixedAfterFirstSuccess(run: seq<Store>, w: World, app: App, i: nat, j: nat)
    requires IsSteadyRun(run, w) && Sound(run[0], w) && i < j < |run| && SucceedsAt(run, i, w, app)
    ensures FootingOf(w, app)(run[j]) && SameServices(run[i + 1], run[j], app.fork) && SameOwned(run[i + 1], run[j], app.fork, Kind.VSConfig)
    ensures IPsStay(run[i + 1], run[j], app)
    ensures ShortDeploymentNames(app) ==> FixtureOf(w, app)(run[j]) && SameCopies(run[i + 1], run[j], app.fork)
  {
    SoundAlong(run, w, i);
    FirstSuccess(run[i], run[i + 1], w, app);
    FootingAlong(run, w, app, i + 1, j);
    if ShortDeploymentNames(app) { FixtureAlong(run, w, app, i + 1, j); }
    StandingAlike(run[i + 1], run[j], app);
    CopiesStay(run, w, app, i + 1, j);
  }

  /** What a success makes of long names, too: whenever the fork succeeds again, with anything a run may hold in
      between, it owns the same objects of all three kinds as right after its first success, services up to their
      cluster IPs. */
  lemma SameAfterEachSuccess(run: seq<Store>, w: World, app: App, again: App, i: nat, j: nat, t: Store)
    requires IsSteadyRun(run, w) && Sound(run[0], w) && i < j < |run| && SucceedsAt(run, i, w, app)
    requires Succeeds(run[j], t, w, again) && again.fork == app.fork
    ensures SameCopies(run[i + 1], t, app.fork)
  {
    SoundAlong(run, w, i);
    FirstSuccess(run[i], run[i + 1], w, app);
    FootingAlong(run, w, app, i + 1, j);
    SucceedsLikeBefore(run[i + 1], run[j], t, w, app, again);
  }

  lemma SucceedsLikeBefore(s: Store, u: Store, t: Store, w: World, app: App, again: App)
    requires FixtureOf(w, app)(s) && FootingOf(w, app)(u) && Succeeds(u, t, w, again) && again.fork == app.fork
    ensures SameCopies(s, t, app.fork)
  {
    SucceedsAgain(u, t, w, app, again);
    StillFooting(u, t, w, app, again);
    StandingAlike(s, t, app);
  }

  lemma StillFooting(u: Store, t: Store, w: World, app: App, again: App)
    requires FootingOf(w, app)(u) && Succeeds(u, t, w, again) && again.fork == app.fork
    ensures FootingOf(w, app)(t)
  {
    RefreshedIsPartly(u, t, ForkParent(again.fork), Lists(again));
    OwnUpdateKeepsFooting(u, t, w, app, again);
  }

  lemma CopiesAfterSuccess(s: Store, t: Store, w: World, app: App)
    requires Sound(s, w) && Succeeds(s, t, w, app)
    ensures CopiesStand(t, app)
  {
    FirstSuccess(s, t, w, app);
  }

  lemma SucceedsAgain(s: Store, t: Store, w: World, app: App, again: App)
    requires FootingOf(w, app)(s) && Succeeds(s, t, w, again) && again.fork == app.fork
    ensures CopiesStand(t, app)
  {
    HeldBothWays(s, w, app, again);
    CopiesAfterSuccess(s, t, w, again);
  }

  /** Copies whose full names fit a label keep the cluster IPs they have. */
  ghost predicate IPsStay(s: Store, t: Store, app: App) {
    forall svc | svc in app.services && |CopyName(svc.name, app.fork)| <= LABEL_LIMIT
      :: CopyIP(s, svc.name, app.fork) != "" ==> Same(s, t, CopyKey(svc.name, app.fork))
  }

  lemma CopiesStay(run: seq<Store>, w: World, app: App, i: nat, j: nat)
    requires IsSteadyRun(run, w) && Sound(run[0], w) && i <= j < |run| && FootingOf(w, app)(run[i])
    ensures IPsStay(run[i], run[j], app)
  {
    forall svc | svc in app.services && |CopyName(svc.name, app.fork)| <= LABEL_LIMIT && CopyIP(run[i], svc.name, app.fork) != ""
      ensures Same(run[i], run[j], CopyKey(svc.name, app.fork))
    {
      CopyStays(run, w, app, svc, i, j);
    }
  }

  lemma StandingCopy(s: Store, w: World, app: App, svc: Object)
    requires FootingOf(w, app)(s) && svc in app.services
    ensures svc.name in w.base && Wants(s, svc.name, app.fork) && CopyMade(s, svc, app.fork)
    ensures HasIP(s, svc.name, app.fork, CopyIP(s, svc.name, app.fork))
  {
    assert CopyMade(s, svc, app.fork);
    assert Selected(s, app.fork, svc);
  }

  lemma CopyStays(run: seq<Store>, w: World, app: App, svc: Object, i: nat, j: nat)
    requires IsSteadyRun(run, w) && Sound(run[0], w) && i <= j < |run|
    requires FootingOf(w, app)(run[i]) && svc in app.services
    requires |CopyName(svc.name, app.fork)| <= LABEL_LIMIT && CopyIP(run[i], svc.name, app.fork) != ""
    ensures Same(run[i], run[j], CopyKey(svc.name, app.fork))
  {
    SteadyIsRun(run, w);
    var f, ip := app.fork, CopyIP(run[i], svc.name, app.fork);
    forall m | i <= m <= j ensures FootingOf(w, app)(run[m]) && Wants(run[m], svc.name, f) && CopyMade(run[m], svc, f) {
      FootingAlong(run, w, app, i, m);
      StandingCopy(run[m], w, app, svc);
    }
    StandingCopy(run[i], w, app, svc);
    KnownForks(run[i], w, app);
    ClusterIPKept(run, w, svc.name, f, ip, i, j);
    CopiesWithIPEqual(run[i][CopyKey(svc.name, f)], run[j][CopyKey(svc.name, f)], svc, f);
  }

  // ---------------------------------------------------------------- when updates change nothing any more

  /** No update of the fork, finished or not, changes the store. */
  ghost predicate NothingChanges(t: Store, w: World, f: ForkResource) {
    forall again, u :: UpdateStep(t, u, w, f, again) ==> u == t
  }

  /** No service is stored under the full name of a copy that is stored under a shortened one: service names fit labels. */
  ghost predicate LongNamesFree(t: Store, app: App) {
    forall svc :: svc in app.services && |CopyName(svc.name, app.fork)| > LABEL_LIMIT ==>
      Key(Kind.Service, app.fork.namespace, CopyName(svc.name, app.fork)) !in t
  }

  ghost predicate IPsKnown(t: Store, app: App) {
    forall svc :: svc in app.services ==> |CopyName(svc.name, app.fork)| <= LABEL_LIMIT || CopyIP(t, svc.name, app.fork) == ""
  }

  /** The cluster IP an expansion finds for a copy: that of the copy, unless its full name is too long to be found. */
  lemma FoundIP(t: Store, w: World, app: App, again: App, svc: Object)
    requires Fixture(t, w, app) && Expanded(t, app.fork, again) && svc in app.services
    requires LongNamesFree(t, app)
    ensures KnownClusterIP(CopyName(svc.name, app.fork), again.existing) ==
      if |CopyName(svc.name, app.fork)| <= LABEL_LIMIT then CopyIP(t, svc.name, app.fork) else ""
  {
    StandingCopy(t, w, app, svc);
    if |CopyName(svc.name, app.fork)| <= LABEL_LIMIT {
      KnownIP(t, svc.name, app.fork, again);
    } else {
      assert !Forked(t, app.fork, CopyName(svc.name, app.fork));
    }
  }

  lemma KnownMeansHeld(t: Store, w: World, app: App, again: App)
    requires Fixture(t, w, app) && Expanded(t, app.fork, again) && IPsKnown(t, app)
    requires LongNamesFree(t, app)
    ensures Writable(ForkParent(again.fork), ServicesList(again))
    ensures Holds(t, ForkParent(again.fork), ServicesList(again), CanonicalCopyName(again.fork))
  {
    HeldBothWays(t, w, app, again);
    ListsWritable(again);
    forall svc | svc in again.services ensures CopyInPlace(t, again, svc) {
      FoundInPlace(t, w, app, again, svc);
    }
    OwnedAgain(t, app, again);
    InPlaceMeansHolds(t, again);
  }

  lemma FoundInPlace(t: Store, w: World, app: App, again: App, svc: Object)
    requires Fixture(t, w, app) && Expanded(t, app.fork, again) && IPsKnown(t, app) && svc in app.services
    requires LongNamesFree(t, app)
    ensures CopyInPlace(t, again, svc)
  {
    StandingCopy(t, w, app, svc);
    FoundIP(t, w, app, again, svc);
  }

  lemma KnownMeansNoChange(t: Store, u: Store, w: World, app: App, again: App)
    requires Fixture(t, w, app) && ShortDeploymentNames(app) && IPsKnown(t, app) && UpdateStep(t, u, w, app.fork, again)
    requires LongNamesFree(t, app)
    ensures u == t
  {
    OwnUpdateTouches(t, u, w, app, again);
    KnownMeansHeld(t, w, app, again);
    SoundIsReady(t, w, app.fork, again);
    ServicesKeepIdentity(again);
    PassesOver(t, u, ForkParent(again.fork), ServicesList(again), CanonicalCopyName(again.fork));
  }

  lemma ForkedServices(t: Store, f: ForkResource) returns (existing: map<string, Object>)
    ensures HoldsForked(t, f, existing)
  {
    var names := set k: Key | k in t && k.kind == Kind.Service && k.namespace == f.namespace && Forked(t, f, k.name) :: k.name;
    existing := map n | n in names :: t[Key(Kind.Service, f.namespace, n)];
    forall n ensures n in existing <==> Forked(t, f, n) {
      if Forked(t, f, n) { assert Key(Kind.Service, f.namespace, n).name == n; }
    }
  }

  lemma OtherExisting(t: Store, f: ForkResource, app: App, existing: map<string, Object>)
    requires Reads(t, f, app) && HoldsForked(t, f, existing)
    ensures Expanded(t, f, app.(existing := existing))
  {
    var again := app.(existing := existing);
    forall d ensures RoutesOf(again, d) == RoutesOf(app, d) {}
  }

  /** What the fork's next update reads. */
  lemma FixtureExpands(t: Store, w: World, app: App) returns (again: App)
    requires Fixture(t, w, app)
    ensures Expanded(t, app.fork, again)
  {
    var existing := ForkedServices(t, app.fork);
    OtherExisting(t, app.fork, app, existing);
    again := app.(existing := existing);
  }

  lemma PartIsStep(t: Store, u: Store, w: World, again: App)
    requires again.fork in w.forks && Expanded(t, again.fork, again) && PartialRun(t, u, ForkParent(again.fork), CopiesList(again))
    ensures UpdateStep(t, u, w, again.fork, again)
  {
    assert Lists(again)[0] == CopiesList(again);
  }

  lemma StaleCopyMayBeGone(t: Store, w: World, again: App, k: Key)
    requires again.fork in w.forks && Expanded(t, again.fork, again) && AllOrderly(t, again)
    requires Stale(t, k, ForkParent(again.fork), CopiesList(again))
    ensures !NothingChanges(t, w, again.fork)
  {
    var u := StaleMayBeGone(t, ForkParent(again.fork), CopiesList(again), k);
    PartIsStep(t, u, w, again);
  }

  /** A copy whose full name is too long is not recognised, and may be found missing. */
  lemma LongCopyMayBeGone(t: Store, w: World, app: App, d: Object)
    requires Fixture(t, w, app) && d in app.deployments && |CopyName(d.name, app.fork)| > LABEL_LIMIT
    ensures !NothingChanges(t, w, app.fork)
  {
    var again := FixtureExpands(t, w, app);
    HeldBothWays(t, w, app, again);
    LongCopyIsStale(t, again, d);
    StaleCopyMayBeGone(t, w, again, Key(Kind.DeploymentCopy, app.fork.namespace, Shorten(CopyName(d.name, app.fork))));
  }

  lemma LongCopyIsStale(t: Store, app: App, d: Object)
    requires AllOrderly(t, app) && d in app.deployments && |CopyName(d.name, app.fork)| > LABEL_LIMIT
    requires Holds(t, ForkParent(app.fork), CopiesList(app), Shortened())
    ensures Stale(t, Key(Kind.DeploymentCopy, app.fork.namespace, Shorten(CopyName(d.name, app.fork))), ForkParent(app.fork), CopiesList(app))
  {
    var p, list := ForkParent(app.fork), CopiesList(app);
    var i :| 0 <= i < |app.deployments| && app.deployments[i] == d;
    var k := FinalKey(list, i, p, Shortened());
    assert k == Key(Kind.DeploymentCopy, app.fork.namespace, Shorten(CopyName(d.name, app.fork)));
    ListsInTurn(app);
    FinalOwners(app, list, i, Shortened());
    SoleOwner(t[k], app.fork, app.fork);
    NoItemNamed(t, app, i);
  }

  lemma NoItemNamed(t: Store, app: App, i: nat)
    requires Orderly(t, ForkParent(app.fork), CopiesList(app), Shortened())
    requires i < |app.deployments| && |CopyName(app.deployments[i].name, app.fork)| > LABEL_LIMIT
    ensures !Wanted(Shorten(CopyName(app.deployments[i].name, app.fork)), CopiesList(app))
  {
    var short := Shorten(CopyName(app.deployments[i].name, app.fork));
    forall j | 0 <= j < |app.deployments| ensures CopyName(app.deployments[j].name, app.fork) != short {
      assert Id(CopiesList(app), j) == CopyName(app.deployments[j].name, app.fork);
      assert Id(CopiesList(app), i) == CopyName(app.deployments[i].name, app.fork);
    }
  }

  lemma CopyAfterUpdate(t: Store, u: Store, w: World, app: App, again: App, svc: Object)
    requires Fixture(t, w, app) && svc in app.services && Expanded(t, app.fork, again)
    requires Refreshed(t, u, ForkParent(again.fork), Lists(again))
    ensures CopyIP(u, svc.name, app.fork) == KnownClusterIP(CopyName(svc.name, app.fork), again.existing)
  {
    SoundIsReady(t, w, app.fork, again);
    UpdateDelivers(t, u, app.fork, again);
    ReadAgain(t, app.fork, app, again);
    HoldsMeansInPlace(u, again);
    assert CopyInPlace(u, again, svc);
  }

  /** A copied service whose full name is too long loses its cluster IP in the next update. */
  lemma LongServiceLosesIP(t: Store, w: World, app: App, svc: Object)
    requires Fixture(t, w, app) && svc in app.services && |CopyName(svc.name, app.fork)| > LABEL_LIMIT
    requires CopyIP(t, svc.name, app.fork) != "" && LongNamesFree(t, app)
    ensures !NothingChanges(t, w, app.fork)
  {
    var again := FixtureExpands(t, w, app);
    var u := UpdateCanSucceed(t, app.fork, again);
    RefreshedIsPartly(t, u, ForkParent(app.fork), Lists(again));
    FoundIP(t, w, app, again, svc);
    CopyAfterUpdate(t, u, w, app, again, svc);
    assert UpdateStep(t, u, w, app.fork, again) && u != t;
  }

  lemma KnownMeansNothingChanges(t: Store, w: World, app: App)
    requires Fixture(t, w, app) && ShortDeploymentNames(app) && IPsKnown(t, app)
    requires LongNamesFree(t, app)
    ensures NothingChanges(t, w, app.fork)
  {
    forall again, u | UpdateStep(t, u, w, app.fork, again) ensures u == t {
      KnownMeansNoChange(t, u, w, app, again);
    }
  }

  lemma UnknownMeansSomethingChanges(t: Store, w: World, app: App)
    requires Fixture(t, w, app) && !(ShortDeploymentNames(app) && IPsKnown(t, app))
    requires LongNamesFree(t, app)
    ensures !NothingChanges(t, w, app.fork)
  {
    if d :| d in app.deployments && |CopyName(d.name, app.fork)| > LABEL_LIMIT {
      LongCopyMayBeGone(t, w, app, d);
    } else {
      var svc :| svc in app.services && |CopyName(svc.name, app.fork)| > LABEL_LIMIT && CopyIP(t, svc.name, app.fork) != "";
      LongServiceLosesIP(t, w, app, svc);
    }
  }

  /** Once the copies stand, no update of their fork, finished or not, changes the store any more if and only
      if the full names of the DeploymentCopies fit a label and those of the copied services do, too, or
      these have no cluster IP to lose. */
  lemma NothingChangesWhen(t: Store, w: World, app: App)
    requires Fixture(t, w, app) && LongNamesFree(t, app)
    ensures NothingChanges(t, w, app.fork) <==> ShortDeploymentNames(app) && IPsKnown(t, app)
  {
    if ShortDeploymentNames(app) && IPsKnown(t, app) {
      KnownMeansNothingChanges(t, w, app);
    } else {
      UnknownMeansSomethingChanges(t, w, app);
    }
  }

  lemma SettledAtOnce(s: Store, t: Store, w: World, app: App)
    requires Sound(s, w) && Succeeds(s, t, w, app) && ShortDeploymentNames(app)
    requires forall svc :: svc in app.services ==> |CopyName(svc.name, app.fork)| <= LABEL_LIMIT
    ensures NothingChanges(t, w, app.fork)
  {
    FirstSuccess(s, t, w, app);
    KnownMeansNothingChanges(t, w, app);
  }

  /** With names that fit labels the fork is settled for good by its first success: in no later state of the
      run does any update of it, finished or not, change anything. */
  lemma SettledForGood(run: seq<Store>, w: World, app: App, i: nat, j: nat)
    requires IsSteadyRun(run, w) && Sound(run[0], w) && i < j < |run| && SucceedsAt(run, i, w, app) && ShortDeploymentNames(app)
    requires forall svc :: svc in app.services ==> |CopyName(svc.name, app.fork)| <= LABEL_LIMIT
    ensures NothingChanges(run[j], w, app.fork)
  {
    FixedAfterFirstSuccess(run, w, app, i, j);
    KnownMeansNothingChanges(run[j], w, app);
  }
}
