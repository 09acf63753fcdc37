/** Reconciling one fork: its deadline, the mappings of its manager, then its own copies; and the
    mappings of all managers once it is gone. */
module ForkController {
  import opened Text
  import opened Kube
  import opened Refresh
  import opened RefreshTheorems
  import opened RefreshRetry
  import opened ForkApp
  import Microservice
  import ForkSettling
  import opened Mappings
  import opened MappingSync
  import opened MappingTheorems
  import opened MappingCleanUp

  function ForkKey(namespace: string, name: string): Key {
    Key(Kind.Fork, namespace, name)
  }

  /** `frk.Spec.Deadline.Before(&now)`; no deadline never passes. */
  predicate Expired(spec: ForkSpec, now: int) {
    spec.deadline.Some? && spec.deadline.value < now
  }

  /** A fork without a deadline never expires; one with a deadline has not at that time, and has at every later one. */
  lemma DeadlineMeaning(spec: ForkSpec, now: int)
    ensures spec.deadline == None ==> !Expired(spec, now)
    ensures spec.deadline == Some(now) ==> !Expired(spec, now) && forall later :: Expired(spec, later) <==> later > now
  {}

  predicate NamesManager(spec: ForkSpec) {
    |Split(spec.manager, "/")| == 2
  }

  /** What a visit has done by the end, or by the time it failed. */
  datatype Visit =
    | Idle
    | CleanUp(jobs: seq<Job>, stores: seq<Store>)
    | Expiry
    | MappingsOnly(job: Job)
    | Expansion(job: Job, middle: Store, app: Option<App>)

  ghost predicate JobOf(s: Store, job: Job, spec: ForkSpec) {
    && NamesManager(spec) && [job.manager.namespace, job.manager.name] == Split(spec.manager, "/")
    && IsManager(s, job.manager) && ListsForks(s, job.forks)
  }

  /** The fork's copies were updated from `m` on, or the update stopped on the way. */
  ghost predicate Expanding(m: Store, t: Store, f: ForkResource, app: Option<App>, finished: bool) {
    match app
    case None => m == t && (finished ==> ForkKey(f.namespace, f.name) !in m)
    case Some(a) =>
      && a.fork.namespace == f.namespace && a.fork.name == f.name && Microservice.IsFork(m, a.fork)
      && Expanded(m, a.fork, a)
      && if finished then Microservice.Refreshed(m, t, Microservice.ForkParent(a.fork), Microservice.Lists(a))
         else Microservice.PartlyRefreshed(m, t, Microservice.ForkParent(a.fork), Microservice.Lists(a))
  }

  /** What each kind of visit does to the store. */
  ghost predicate Visited(s: Store, t: Store, namespace: string, name: string, now: int, visit: Visit, finished: bool) {
    var key := ForkKey(namespace, name);
    match visit
    case Idle => t == s && !finished
    case CleanUp(jobs, stores) =>
      && key !in s && Chain(stores, jobs) && stores[0] == s
      && if finished then t == stores[|jobs|] && CoversManagers(s, jobs) else Begun(stores[|jobs|], t)
    case Expiry => key in s && s[key].body.ForkBody? && Expired(s[key].body.fork, now) && t == s - {key}
    case MappingsOnly(job) =>
      && !finished && key in s && s[key].body.ForkBody? && !Expired(s[key].body.fork, now)
      && JobOf(s, job, s[key].body.fork) && SyncedPartly(s, t, job)
    case Expansion(job, middle, app) =>
      && key in s && s[key].body.ForkBody? && !Expired(s[key].body.fork, now)
      && JobOf(s, job, s[key].body.fork) && SyncedFully(s, middle, job)
      && Expanding(middle, t, ForkResource(name, namespace, s[key].body.fork), app, finished)
  }

  /** `ForkReconciler.Reconcile`. */
  method Reconcile(c: Cluster, namespace: string, name: string, now: int) returns (r: Result<()>, ghost visit: Visit)
    requires c.Valid()
    modifies c
    ensures c.Valid() && Visited(old(c.store), c.store, namespace, name, now, visit, r.Ok?)
  {
    visit := Idle;
    var key := ForkKey(namespace, name);
    var found := c.Get(key);
    if found.Err? { return Err(found.error), visit; }
    if found.value.None? {
      ghost var jobs, stores;
      r, jobs, stores := UpdateAll(c);
      visit := CleanUp(jobs, stores);
      return;
    }
    assert KeyOf(found.value.value) == key;
    var spec := found.value.value.body.fork;
    if Expired(spec, now) {
      r := c.Delete(key);
      if r.Ok? || c.store != old(c.store) { visit := Expiry; }
      return;
    }
    r, visit := UpdateLive(c, namespace, name, spec, now);
  }

  /** The updates for a fork that is there and has not expired. */
  method UpdateLive(c: Cluster, namespace: string, name: string, spec: ForkSpec, ghost now: int) returns (r: Result<()>, ghost visit: Visit)
    requires c.Valid() && ForkKey(namespace, name) in c.store && c.store[ForkKey(namespace, name)].body == ForkBody(spec)
    requires !Expired(spec, now)
    modifies c
    ensures c.Valid() && Visited(old(c.store), c.store, namespace, name, now, visit, r.Ok?)
    ensures !visit.CleanUp? && !visit.Expiry?
  {
    var parts := Split(spec.manager, "/");
    if |parts| != 2 { return Err(MalformedManager), Idle; }
    ghost var job;
    r, job := UpdateMappings(c, spec, parts);
    if r.Err? {
      visit := if job.Some? then MappingsOnly(job.value) else Idle;
      return;
    }
    ghost var middle := c.store;
    ghost var app;
    r, app := UpdateCopies(c, ForkResource(name, namespace, spec));
    visit := Expansion(job.value, middle, app);
  }

  method UpdateMappings(c: Cluster, spec: ForkSpec, parts: seq<string>) returns (r: Result<()>, ghost job: Option<Job>)
    requires c.Valid() && parts == Split(spec.manager, "/") && |parts| == 2
    modifies c
    ensures c.Valid()
    ensures job.None? ==> r.Err? && c.store == old(c.store)
    ensures job.Some? ==> JobOf(old(c.store), job.value, spec)
    ensures job.Some? && r.Ok? ==> SyncedFully(old(c.store), c.store, job.value)
    ensures job.Some? && r.Err? ==> SyncedPartly(old(c.store), c.store, job.value)
  {
    r, job := Update(c, parts[0], parts[1]);
  }

  method UpdateCopies(c: Cluster, f: ForkResource) returns (r: Result<()>, ghost app: Option<App>)
    requires c.Valid()
    modifies c
    ensures c.Valid() && Expanding(old(c.store), c.store, f, app, r.Ok?)
  {
    r, app := Microservice.Update(c, f.namespace, f.name);
  }

  // ---------------------------------------------------------------- what a visit achieves

  lemma CopiesKeepMappings(m: Store, t: Store, f: ForkResource, app: App)
    requires WellKeyed(m) && Expanded(m, f, app)
    requires Microservice.Refreshed(m, t, Microservice.ForkParent(f), Microservice.Lists(app))
    ensures forall k: Key :: k.kind == Kind.Mapping || k.kind == Kind.Fork || k.kind == Kind.ForkManager ==> Same(m, t, k)
  {
    ForkSettling.ListsWritable(app);
    var a, b := Microservice.StagesOf(m, t, app);
    Microservice.KindsOfStages(m, a, b, t, app);
  }

  lemma RunStaysWellKeyed(s: Store, t: Store, job: Job)
    requires WellKeyed(s) && SyncedFully(s, t, job)
    ensures WellKeyed(t)
  {
    var order := FullRun(s, t, job);
    forall k | k in t ensures KeyOf(t[k]) == k {
      DesiredWhen(job, order, k);
      WellKeyedAt(s, t, job, order, k);
    }
  }

  lemma WellKeyedAt(s: Store, t: Store, job: Job, order: seq<string>, k: Key)
    requires WellKeyed(s) && Outcome(s, t, job, order) && k in t && (LastContent(job, order, k).Some? ==> Desired(job, k))
    ensures KeyOf(t[k]) == k
  {
    assert k !in StaleKeys(s, job);
    assert HasContent(s, t, job.manager, k, LastContent(job, order, k));
  }

  lemma ForkIsListed(s: Store, forks: seq<ForkResource>, f: ForkResource)
    requires WellKeyed(s) && ListsForks(s, forks) && Microservice.IsFork(s, f)
    ensures f.spec.identifier in Identifiers(forks)
  {
    var items: seq<Object> :| Enumerates(items, s, Kind.Fork, None, Everything) && |items| == |forks|
      && forall i :: 0 <= i < |items| ==> items[i].body.ForkBody? && forks[i] == AsFork(items[i]);
    var o := s[ForkKey(f.namespace, f.name)];
    assert KeyOf(o) == ForkKey(f.namespace, f.name);
    assert Listed(s, Kind.Fork, None, Everything, o);
    var i :| 0 <= i < |items| && items[i] == o;
    assert forks[i] == f && forks[i] in forks;
  }

  lemma ExactAfterwards(m: Store, t: Store, job: Job)
    requires Exact(m, job) && forall k: Key :: k.kind == Kind.Mapping ==> Same(m, t, k)
    ensures Exact(t, job)
  {
    forall k ensures Labelled(t, job.manager, k) <==> Desired(job, k) {
      assert k.kind == Kind.Mapping ==> Same(m, t, k);
    }
  }

  /** After a visit to a live fork that ends without an error, the manager's mappings are exact, every
      upstream has a mapping for the fork's identifier, and the copies were made for the fork as it was
      read at the start. */
  lemma LiveForkIsMapped(s: Store, t: Store, namespace: string, name: string, now: int, visit: Visit)
    requires WellKeyed(s) && visit.Expansion?
    requires Visited(s, t, namespace, name, now, visit, true)
    ensures visit.app.Some? && visit.app.value.fork == ForkResource(name, namespace, s[ForkKey(namespace, name)].body.fork)
    ensures var m := visit.job.manager;
      && s[ForkKey(namespace, name)].body.fork.manager == m.namespace + "/" + m.name && Lacks(m.namespace, '/') && Lacks(m.name, '/')
      && Key(Kind.ForkManager, m.namespace, m.name) in s && s[Key(Kind.ForkManager, m.namespace, m.name)].body == ForkManagerBody(m.spec)
    ensures Exact(t, visit.job)
    ensures forall i :: 0 <= i < |visit.job.manager.spec.upstreams| ==>
      Labelled(t, visit.job.manager, MappingKey(visit.job.manager, visit.job.manager.spec.upstreams[i].host,
                                               s[ForkKey(namespace, name)].body.fork.identifier))
  {
    var job, key := visit.job, ForkKey(namespace, name);
    var f := ForkResource(name, namespace, s[key].body.fork);
    TwoNames(f.spec.manager);
    RunsKeepOthers(s, visit.middle, job);
    assert Same(s, visit.middle, key);
    MappingSetIsExact(s, visit.middle, job);
    RunStaysWellKeyed(s, visit.middle, job);
    CopiesKeepMappings(visit.middle, t, visit.app.value.fork, visit.app.value);
    ExactAfterwards(visit.middle, t, job);
    ForkIsListed(s, job.forks, f);
    forall i | 0 <= i < |job.manager.spec.upstreams|
      ensures Labelled(t, job.manager, MappingKey(job.manager, job.manager.spec.upstreams[i].host, f.spec.identifier))
    {
      assert Desired(job, MappingKey(job.manager, job.manager.spec.upstreams[i].host, f.spec.identifier));
    }
  }

  /** After a visit that finds the fork gone and ends without an error, the mappings of every manager are
      exactly those of the remaining forks, if and only if managers that share a name call for none. */
  lemma GoneForkIsCleanedUp(s: Store, t: Store, namespace: string, name: string, now: int, visit: Visit)
    requires visit.CleanUp? && Visited(s, t, namespace, name, now, visit, true)
    ensures ForkKey(namespace, name) !in s && CoversManagers(s, visit.jobs)
    ensures (forall i :: 0 <= i < |visit.jobs| ==> Exact(t, visit.jobs[i])) <==> NamesSuffice(visit.jobs)
  {
    EveryManagerExact(visit.stores, visit.jobs);
  }
}
