/** Bringing the mappings of all managers up to date, as is done once a fork has disappeared. */
module MappingCleanUp {
  import opened Kube
  import opened RefreshTheorems
  import opened ForkApp
  import opened Mappings
  import opened MappingSync
  import opened MappingTheorems
  import Runs

  // ---------------------------------------------------------------- several managers in turn

  ghost function SuccessfulRun(): (Store, Store, Job) -> bool {
    (s, t, job) => SyncedFully(s, t, job)
  }

  /** Successful runs one after the other. */
  ghost predicate Chain(stores: seq<Store>, jobs: seq<Job>) {
    Runs.StepByStep(stores, jobs, SuccessfulRun())
  }

  /** No manager of another name may take the manager's mappings. */
  ghost predicate OthersKeptOut(t: Store, job: Job) {
    forall m: Manager, k :: Desired(job, k) && m.name != job.manager.name ==> !Accepted(t, m, k)
  }

  /** The manager's mappings are exact, and safe from managers of other names. */
  ghost predicate Secured(t: Store, job: Job) {
    Exact(t, job) && OthersKeptOut(t, job)
  }

  lemma {:induction false} OthersRefused(owners: seq<OwnerRef>, ref: OwnerRef, other: OwnerRef)
    requires ref.controller && !SameReferent(ref, other) && !ControlledByOther(owners, ref)
    ensures ControlledByOther(Upsert(owners, ref), other)
  {
    if owners != [] && !SameReferent(owners[0], ref) {
      OthersRefused(owners[1..], ref, other);
      assert Upsert(owners, ref)[1..] == Upsert(owners[1..], ref);
    }
  }

  lemma RunHolds(s: Store, t: Store, job: Job)
    requires SyncedFully(s, t, job)
    ensures Secured(t, job)
  {
    MappingSetIsExact(s, t, job);
    var order := FullRun(s, t, job);
    forall m: Manager, k | Desired(job, k) && m.name != job.manager.name ensures !Accepted(t, m, k) {
      DesiredWhen(job, order, k);
      assert HasContent(s, t, job.manager, k, LastContent(job, order, k));
      OthersRefused(OwnersAt(s, k), ManagerRef(job.manager), ManagerRef(m));
    }
  }

  /** A later run for a manager of another name leaves the earlier manager's mappings alone. */
  lemma EarlierMappingsStay(s: Store, t: Store, job: Job, other: Job)
    requires Secured(s, job) && SyncedFully(s, t, other) && job.manager.name != other.manager.name
    ensures Secured(t, job)
    ensures forall k :: Desired(job, k) ==> Same(s, t, k)
  {
    var order := FullRun(s, t, other);
    MappingSetIsExact(s, t, other);
    LeftAlone(s, t, job, other, order);
  }

  lemma LeftAlone(s: Store, t: Store, job: Job, other: Job, order: seq<string>)
    requires Secured(s, job) && job.manager.name != other.manager.name && Exact(t, other) && Outcome(s, t, other, order)
    requires forall k :: Desired(other, k) ==> Accepted(s, other.manager, k)
    requires forall k :: !Desired(other, k) && !Labelled(s, other.manager, k) ==> Same(s, t, k)
    ensures Secured(t, job)
    ensures forall k :: Desired(job, k) ==> Same(s, t, k)
  {
    forall k | Desired(job, k) ensures Same(s, t, k) {
      NotTaken(s, t, job, other, k);
    }
    forall k ensures Labelled(t, job.manager, k) <==> Desired(job, k) {
      OneLabel(s, t, job, other, order, k);
    }
    StillKeptOut(s, t, job);
  }

  lemma StillKeptOut(s: Store, t: Store, job: Job)
    requires OthersKeptOut(s, job) && forall k :: Desired(job, k) ==> Same(s, t, k)
    ensures OthersKeptOut(t, job)
  {
    forall m: Manager, k | Desired(job, k) && m.name != job.manager.name ensures !Accepted(t, m, k) {
      assert Same(s, t, k) && !Accepted(s, m, k);
    }
  }

  lemma NotTaken(s: Store, t: Store, job: Job, other: Job, k: Key)
    requires Secured(s, job) && job.manager.name != other.manager.name && Desired(job, k)
    requires Desired(other, k) ==> Accepted(s, other.manager, k)
    requires !Desired(other, k) && !Labelled(s, other.manager, k) ==> Same(s, t, k)
    ensures Same(s, t, k)
  {
    assert Labelled(s, job.manager, k);
    CarriesLabel(job.manager, s[k].labels);
    CarriesLabel(other.manager, s[k].labels);
  }

  lemma OneLabel(s: Store, t: Store, job: Job, other: Job, order: seq<string>, k: Key)
    requires job.manager.name != other.manager.name && Exact(s, job) && Exact(t, other) && Outcome(s, t, other, order)
    requires Desired(job, k) || (!Desired(other, k) && !Labelled(s, other.manager, k)) ==> Same(s, t, k)
    ensures Labelled(t, job.manager, k) <==> Desired(job, k)
  {
    if k in t {
      CarriesLabel(job.manager, t[k].labels);
      CarriesLabel(other.manager, t[k].labels);
    }
  }

  /** Runs that hold what they sync and leave alone what a manager of another name holds. */
  ghost predicate KeepsApart(run: (Store, Store, Job) -> bool) {
    && (forall s, t, job :: run(s, t, job) ==> Secured(t, job))
    && (forall s, t, job, other {:trigger run(s, t, other), Secured(s, job)} ::
          run(s, t, other) && Secured(s, job) && job.manager.name != other.manager.name ==>
            Secured(t, job) && forall k :: Desired(job, k) ==> Same(s, t, k))
  }

  lemma SuccessfulRunsKeepApart()
    ensures KeepsApart(SuccessfulRun())
  {
    var run := SuccessfulRun();
    forall s, t, job | run(s, t, job) ensures Secured(t, job) {
      RunHolds(s, t, job);
    }
    forall s, t, job, other | run(s, t, other) && Secured(s, job) && job.manager.name != other.manager.name
      ensures Secured(t, job) && forall k :: Desired(job, k) ==> Same(s, t, k)
    {
      EarlierMappingsStay(s, t, job, other);
    }
  }

  lemma {:induction false} LastIsHeld(stores: seq<Store>, jobs: seq<Job>, run: (Store, Store, Job) -> bool, i: nat, n: nat)
    requires Runs.StepByStep(stores, jobs, run) && KeepsApart(run) && i < n <= |jobs|
    requires forall j :: i < j < n ==> jobs[j].manager.name != jobs[i].manager.name
    ensures Secured(stores[n], jobs[i])
  {
    assert run(stores[n - 1], stores[n - 1 + 1], jobs[n - 1]);
    if n > i + 1 {
      LastIsHeld(stores, jobs, run, i, n - 1);
    }
  }

  lemma {:induction false} LastStays(stores: seq<Store>, jobs: seq<Job>, run: (Store, Store, Job) -> bool, i: nat, n: nat, k: Key)
    requires Runs.StepByStep(stores, jobs, run) && KeepsApart(run) && i < n <= |jobs| && Desired(jobs[i], k)
    requires forall j :: i < j < n ==> jobs[j].manager.name != jobs[i].manager.name
    ensures Same(stores[i + 1], stores[n], k)
  {
    if n > i + 1 {
      LastStays(stores, jobs, run, i, n - 1, k);
      LastIsHeld(stores, jobs, run, i, n - 1);
      assert run(stores[n - 1], stores[n - 1 + 1], jobs[n - 1]);
      assert Same(stores[n - 1], stores[n], k);
    }
  }

  /** Of the managers with one name, the last decides: its mappings are exact and stay as its own run left them. */
  lemma LastOfNameWins(stores: seq<Store>, jobs: seq<Job>, i: nat, n: nat)
    requires Chain(stores, jobs) && i < n <= |jobs|
    requires forall j :: i < j < n ==> jobs[j].manager.name != jobs[i].manager.name
    ensures Exact(stores[n], jobs[i])
    ensures forall k :: Desired(jobs[i], k) ==> Same(stores[i + 1], stores[n], k)
  {
    SuccessfulRunsKeepApart();
    LastIsHeld(stores, jobs, SuccessfulRun(), i, n);
    forall k | Desired(jobs[i], k) ensures Same(stores[i + 1], stores[n], k) {
      LastStays(stores, jobs, SuccessfulRun(), i, n, k);
    }
  }

  ghost predicate DistinctManagers(jobs: seq<Job>) {
    forall i, j :: 0 <= i < j < |jobs| ==>
      jobs[i].manager.name != jobs[j].manager.name || jobs[i].manager.namespace != jobs[j].manager.namespace
  }

  /** Managers of different namespaces that share a name call for nothing: the label holds only the name. */
  ghost predicate NamesSuffice(jobs: seq<Job>) {
    forall i, j, k :: 0 <= i < j < |jobs| && jobs[i].manager.name == jobs[j].manager.name ==>
      !Desired(jobs[i], k) && !Desired(jobs[j], k)
  }

  lemma {:induction false} LastOfName(jobs: seq<Job>, i: nat, n: nat) returns (l: nat)
    requires i < n <= |jobs|
    ensures i <= l < n && jobs[l].manager.name == jobs[i].manager.name
    ensures forall j :: l < j < n ==> jobs[j].manager.name != jobs[i].manager.name
  {
    if n == i + 1 || jobs[n - 1].manager.name == jobs[i].manager.name {
      l := n - 1;
    } else {
      l := LastOfName(jobs, i, n - 1);
    }
  }

  lemma LastIsExact(stores: seq<Store>, jobs: seq<Job>, i: nat) returns (l: nat)
    requires Chain(stores, jobs) && i < |jobs|
    ensures i <= l < |jobs| && jobs[l].manager.name == jobs[i].manager.name && Exact(stores[|jobs|], jobs[l])
  {
    l := LastOfName(jobs, i, |jobs|);
    LastOfNameWins(stores, jobs, l, |jobs|);
  }

  lemma ExactAt(stores: seq<Store>, jobs: seq<Job>, i: nat)
    requires Chain(stores, jobs) && NamesSuffice(jobs) && i < |jobs|
    ensures Exact(stores[|jobs|], jobs[i])
  {
    var l := LastIsExact(stores, jobs, i);
    if l != i {
      NamesakesCallForNothing(jobs, i, l);
      NamesakeExact(stores[|jobs|], jobs[i], jobs[l]);
    }
  }

  lemma NamesakesCallForNothing(jobs: seq<Job>, i: nat, l: nat)
    requires NamesSuffice(jobs) && i < l < |jobs| && jobs[i].manager.name == jobs[l].manager.name
    ensures forall k :: !Desired(jobs[i], k) && !Desired(jobs[l], k)
  {}

  lemma ExactMeansNamesSuffice(t: Store, jobs: seq<Job>)
    requires DistinctManagers(jobs) && forall i :: 0 <= i < |jobs| ==> Exact(t, jobs[i])
    ensures NamesSuffice(jobs)
  {
    forall i, j, k | 0 <= i < j < |jobs| && jobs[i].manager.name == jobs[j].manager.name
      ensures !Desired(jobs[i], k) && !Desired(jobs[j], k)
    {
      assert Exact(t, jobs[i]) && Exact(t, jobs[j]);
      NamesakesApart(t, jobs[i], jobs[j], k);
    }
  }

  /** After all managers have been updated, every manager has exactly its mappings, if and only if
      managers that share a name call for none. */
  lemma EveryManagerExact(stores: seq<Store>, jobs: seq<Job>)
    requires Chain(stores, jobs) && DistinctManagers(jobs)
    ensures (forall i :: 0 <= i < |jobs| ==> Exact(stores[|jobs|], jobs[i])) <==> NamesSuffice(jobs)
  {
    if NamesSuffice(jobs) {
      forall i | 0 <= i < |jobs| ensures Exact(stores[|jobs|], jobs[i]) { ExactAt(stores, jobs, i); }
    }
    if forall i :: 0 <= i < |jobs| ==> Exact(stores[|jobs|], jobs[i]) {
      ExactMeansNamesSuffice(stores[|jobs|], jobs);
    }
  }

  lemma NamesakeExact(t: Store, job: Job, last: Job)
    requires job.manager.name == last.manager.name && Exact(t, last)
    requires forall k :: !Desired(job, k) && !Desired(last, k)
    ensures Exact(t, job)
  {
    assert LabelQuery(job.manager) == LabelQuery(last.manager);
    forall k ensures Labelled(t, job.manager, k) <==> Desired(job, k) {
      assert Labelled(t, last.manager, k) <==> Desired(last, k);
    }
  }

  lemma NamesakesApart(t: Store, a: Job, b: Job, k: Key)
    requires a.manager.name == b.manager.name && a.manager.namespace != b.manager.namespace
    requires Exact(t, a) && Exact(t, b)
    ensures !Desired(a, k) && !Desired(b, k)
  {
    assert LabelQuery(a.manager) == LabelQuery(b.manager);
    assert Labelled(t, a.manager, k) <==> Labelled(t, b.manager, k);
    assert Desired(a, k) ==> k.namespace == a.manager.namespace;
    assert Desired(b, k) ==> k.namespace == b.manager.namespace;
  }

  // ---------------------------------------------------------------- updating all managers

  function KeyOfManager(m: Manager): Key {
    Key(Kind.ForkManager, m.namespace, m.name)
  }

  /** The runs are those of the cluster's managers, once each, for the cluster's forks. */
  ghost predicate CoversManagers(s: Store, jobs: seq<Job>) {
    && DistinctManagers(jobs)
    && (forall i :: 0 <= i < |jobs| ==> ListsForks(s, jobs[i].forks))
    && RunsForAll(s, jobs)
  }

  /** Each run is for a manager stored, and each manager stored has one. */
  ghost predicate RunsForAll(s: Store, jobs: seq<Job>) {
    && (forall i :: 0 <= i < |jobs| ==> IsManager(s, jobs[i].manager))
    && forall k: Key {:trigger HasRun(jobs, k)} :: k in s && k.kind == Kind.ForkManager ==> HasRun(jobs, k)
  }

  ghost predicate HasRun(jobs: seq<Job>, k: Key) {
    exists i :: 0 <= i < |jobs| && KeyOfManager(jobs[i].manager) == k
  }

  /** A clean-up is for every manager stored, in whatever namespace, with the specification stored. */
  lemma CoversMeaning(s: Store, jobs: seq<Job>, k: Key) returns (i: nat)
    requires RunsForAll(s, jobs) && k in s && k.kind == Kind.ForkManager
    ensures i < |jobs| && jobs[i].manager.namespace == k.namespace && jobs[i].manager.name == k.name
    ensures s[k].body == ForkManagerBody(jobs[i].manager.spec)
  {
    assert HasRun(jobs, k);
    i :| 0 <= i < |jobs| && KeyOfManager(jobs[i].manager) == k;
    assert IsManager(s, jobs[i].manager);
  }

  /** The run was for the manager listed, and for the cluster's forks. */
  ghost function RunFor(s: Store): (Object, Job) -> bool {
    (o: Object, job: Job) => KeyOf(o) == KeyOfManager(job.manager) && IsManager(s, job.manager) && ListsForks(s, job.forks)
  }

  /** The runs so far were for the first of the managers listed. */
  ghost predicate Follows(s: Store, jobs: seq<Job>, items: seq<Object>) {
    Paired(items, jobs, RunFor(s))
  }

  ghost predicate Paired<A(!new), B(!new)>(xs: seq<A>, ys: seq<B>, pair: (A, B) -> bool) {
    |ys| <= |xs| && forall i {:trigger ys[i]} :: 0 <= i < |ys| ==> pair(xs[i], ys[i])
  }

  lemma OneMorePaired<A(!new), B(!new)>(xs: seq<A>, ys: seq<B>, pair: (A, B) -> bool, y: B)
    requires Paired(xs, ys, pair) && |ys| < |xs| && pair(xs[|ys|], y)
    ensures Paired(xs, ys + [y], pair)
  {}

  ghost predicate OnlyMappingsDiffer(s: Store, t: Store) {
    forall k: Key :: k.kind != Kind.Mapping ==> Same(s, t, k)
  }

  lemma RunsKeepOthers(s: Store, t: Store, job: Job)
    requires SyncedFully(s, t, job)
    ensures OnlyMappingsDiffer(s, t)
  {
    MappingSetIsExact(s, t, job);
  }

  lemma SameForks(s: Store, t: Store, forks: seq<ForkResource>)
    requires OnlyMappingsDiffer(s, t) && ListsForks(t, forks)
    ensures ListsForks(s, forks)
  {
    var items: seq<Object> :| Enumerates(items, t, Kind.Fork, None, Everything) && |items| == |forks|
      && forall i :: 0 <= i < |items| ==> items[i].body.ForkBody? && forks[i] == AsFork(items[i]);
    forall o ensures Listed(s, Kind.Fork, None, Everything, o) <==> Listed(t, Kind.Fork, None, Everything, o) {
      if KindOf(o.body) == Kind.Fork { assert Same(s, t, KeyOf(o)); }
    }
    assert Enumerates(items, s, Kind.Fork, None, Everything);
  }

  lemma LongerChain(stores: seq<Store>, jobs: seq<Job>, now: Store, t: Store, job: Job)
    requires Chain(stores, jobs) && stores[|jobs|] == now && SyncedFully(now, t, job)
    ensures Chain(stores + [t], jobs + [job])
  {
    assert SuccessfulRun()(now, t, job);
    Runs.OneMoreStep(stores, jobs, SuccessfulRun(), t, job);
  }

  lemma OneMoreRun(s: Store, now: Store, t: Store, jobs: seq<Job>, items: seq<Object>, job: Job)
    requires OnlyMappingsDiffer(s, now) && OnlyMappingsDiffer(now, t)
    requires Follows(s, jobs, items) && |jobs| < |items| && KeyOf(items[|jobs|]) == KeyOfManager(job.manager)
    requires IsManager(now, job.manager) && ListsForks(now, job.forks)
    ensures OnlyMappingsDiffer(s, t) && Follows(s, jobs + [job], items)
  {
    SameForks(s, now, job.forks);
    assert Same(s, now, KeyOfManager(job.manager));
    assert RunFor(s)(items[|jobs|], job);
    OneMorePaired(items, jobs, RunFor(s), job);
    NoKindAdded(s, now, t);
  }

  lemma NoKindAdded(s: Store, now: Store, t: Store)
    requires OnlyMappingsDiffer(s, now) && OnlyMappingsDiffer(now, t)
    ensures OnlyMappingsDiffer(s, t)
  {
    forall k: Key | k.kind != Kind.Mapping ensures Same(s, t, k) {
      assert Same(s, now, k) && Same(now, t, k);
    }
  }

  lemma AllFollowed(s: Store, jobs: seq<Job>, items: seq<Object>)
    requires WellKeyed(s) && Enumerates(items, s, Kind.ForkManager, None, Everything)
    requires Follows(s, jobs, items) && |jobs| == |items|
    ensures CoversManagers(s, jobs)
  {
    assert forall i :: 0 <= i < |jobs| ==> RunFor(s)(items[i], jobs[i]);
    EnumeratedKeysDistinct(items, s, Kind.ForkManager, None, Everything);
    forall k: Key | k in s && k.kind == Kind.ForkManager ensures exists i :: 0 <= i < |jobs| && KeyOfManager(jobs[i].manager) == k {
      assert Listed(s, Kind.ForkManager, None, Everything, s[k]);
      var i :| 0 <= i < |items| && items[i] == s[k];
      assert KeyOfManager(jobs[i].manager) == k;
    }
    forall i, j | 0 <= i < j < |jobs|
      ensures jobs[i].manager.name != jobs[j].manager.name || jobs[i].manager.namespace != jobs[j].manager.namespace
    {
      assert KeyOf(items[i]) != KeyOf(items[j]);
    }
  }

  lemma NextRun(stores: seq<Store>, jobs: seq<Job>, now: Store, t: Store, items: seq<Object>, job: Job)
    requires Chain(stores, jobs) && stores[|jobs|] == now && OnlyMappingsDiffer(stores[0], now)
    requires Follows(stores[0], jobs, items) && |jobs| < |items| && KeyOf(items[|jobs|]) == KeyOfManager(job.manager)
    requires SyncedFully(now, t, job) && IsManager(now, job.manager) && ListsForks(now, job.forks)
    ensures Chain(stores + [t], jobs + [job]) && (stores + [t])[0] == stores[0]
    ensures OnlyMappingsDiffer(stores[0], t) && Follows(stores[0], jobs + [job], items)
  {
    LongerChain(stores, jobs, now, t, job);
    RunsKeepOthers(now, t, job);
    OneMoreRun(stores[0], now, t, jobs, items, job);
  }

  /** Nothing done yet, or a run for some manager stopped on the way. */
  ghost predicate Begun(s: Store, t: Store) {
    s == t || exists job :: SyncedPartly(s, t, job)
  }

  lemma StoppedRun(s: Store, t: Store, job: Option<Job>)
    requires if job.None? then s == t else SyncedPartly(s, t, job.value)
    ensures Begun(s, t)
  {}

  /** The loop's body: the next manager listed. */
  method UpdateNext(c: Cluster, next: Object, ghost items: seq<Object>, ghost jobs: seq<Job>, ghost stores: seq<Store>)
    returns (r: Result<()>, ghost newJobs: seq<Job>, ghost newStores: seq<Store>)
    requires c.Valid() && Chain(stores, jobs) && stores[|jobs|] == c.store && OnlyMappingsDiffer(stores[0], c.store)
    requires Follows(stores[0], jobs, items) && |jobs| < |items| && next == items[|jobs|] && KindOf(next.body) == Kind.ForkManager
    modifies c
    ensures c.Valid() && Chain(newStores, newJobs) && newStores[0] == stores[0]
    ensures r.Ok? ==> |newJobs| == |jobs| + 1 && newStores[|newJobs|] == c.store
    ensures r.Ok? ==> OnlyMappingsDiffer(stores[0], c.store) && Follows(stores[0], newJobs, items)
    ensures r.Err? ==> Begun(newStores[|newJobs|], c.store)
  {
    newJobs, newStores := jobs, stores;
    ghost var job, before := None, c.store;
    r, job := Update(c, next.namespace, next.name);
    if r.Err? {
      StoppedRun(before, c.store, job);
      return;
    }
    NextRun(stores, jobs, before, c.store, items, job.value);
    newJobs, newStores := jobs + [job.value], stores + [c.store];
  }

  /** `mappingUpdater.UpdateAll`. */
  method UpdateAll(c: Cluster) returns (r: Result<()>, ghost jobs: seq<Job>, ghost stores: seq<Store>)
    requires c.Valid()
    modifies c
    ensures c.Valid() && Chain(stores, jobs) && stores[0] == old(c.store)
    ensures r.Ok? ==> c.store == stores[|jobs|] && CoversManagers(old(c.store), jobs)
    ensures r.Err? ==> Begun(stores[|jobs|], c.store)
  {
    jobs, stores := [], [c.store];
    var listed := c.List(Kind.ForkManager, None, Everything);
    if listed.Err? { return Err(listed.error), jobs, stores; }
    for i := 0 to |listed.value|
      invariant c.Valid() && |jobs| == i && OnlyMappingsDiffer(old(c.store), c.store)
      invariant Chain(stores, jobs) && stores[0] == old(c.store) && stores[i] == c.store
      invariant Follows(old(c.store), jobs, listed.value)
    {
      assert listed.value[i] in listed.value;
      r, jobs, stores := UpdateNext(c, listed.value[i], listed.value, jobs, stores);
      if r.Err? { return; }
    }
    AllFollowed(old(c.store), jobs, listed.value);
    r := Ok(());
  }
}
