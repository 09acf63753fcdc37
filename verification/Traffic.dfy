/** Where requests go in the states both controllers leave behind: in every state of every run in which a fork's
    copies stand and the VirtualService controller is quiet, the fork's requests reach its copies. */
module Traffic {
  import opened Kube
  import opened ResourceName
  import opened Refresh
  import opened RefreshTheorems
  import opened RefreshRetry
  import opened ForkApp
  import opened Microservice
  import opened ForkRuns
  import opened ForkSettling
  import opened ForkSteady
  import opened EndToEnd
  import VS = VirtualServices
  import Agreement
  import Runs

  // ---------------------------------------------------------------- one state

  /** The fork owns nothing but what it desires, so nothing is out of the frame. */
  lemma HeldIsFramed(u: Store, p: Parent, list: ObjectList, canon: string -> string)
    requires Writable(p, list) && Holds(u, p, list, canon)
    ensures Frames(u, u, p, list, canon)
  {}

  /** In a store in which the fork's copies stand and the service's VirtualService is what the VSConfigs call for,
      a request with the fork's identifier reaches a service whose selector picks exactly the copies of the
      deployments routable from the original. */
  lemma StandingMeansReached(u: Store, w: World, app: App, svc: Object, headers: map<string, string>)
    requires Fixture(u, w, app) && svc in app.services && VS.Agrees(u, app.fork.namespace, svc.name)
    requires TemplateHarmless(app) && ForeignCopiesApart(u, app.fork, app) && Asks(u, app.fork, app, svc.name, headers)
    requires |CopyName(svc.name, app.fork)| <= LABEL_LIMIT
    ensures Destination(u, app.fork.namespace, svc.name, headers) == [CopyName(svc.name, app.fork)]
    ensures NoStrays(u, app.fork.namespace, svc.name) ==> Destinations(u, app.fork.namespace, svc.name, headers) == {[CopyName(svc.name, app.fork)]}
    ensures ServedByCopies(u, app.fork, app, svc)
  {
    StandingRoutes(u, app, svc, headers);
    if NoStrays(u, app.fork.namespace, svc.name) { OneDestination(u, app.fork.namespace, svc.name, headers); }
    StandingCopyIsNamed(u, app, svc);
    CopyPods(u, u, u, app.fork, app, svc);
  }

  lemma StandingRoutes(u: Store, app: App, svc: Object, headers: map<string, string>)
    requires ConfigsStand(u, app) && svc in app.services && VS.Agrees(u, app.fork.namespace, svc.name)
    requires Asks(u, app.fork, app, svc.name, headers)
    ensures Destination(u, app.fork.namespace, svc.name, headers) == [CopyName(svc.name, app.fork)]
  {
    HeldIsFramed(u, ForkParent(app.fork), ConfigsList(app), CanonicalCopyName(app.fork));
    RivalsStayAway(u, u, app.fork, app, svc.name, headers);
    ForkedDestination(u, u, app.fork, app, svc, headers);
  }

  lemma StandingCopyIsNamed(u: Store, app: App, svc: Object)
    requires ServicesStand(u, app) && svc in app.services && |CopyName(svc.name, app.fork)| <= LABEL_LIMIT
    ensures CopyIsNamed(u, app.fork, svc.name)
  {
    assert CopyMade(u, svc, app.fork);
  }

  // ---------------------------------------------------------------- every quiet state

  ghost function Stores(run: seq<Agreement.State>): seq<Store> {
    seq(|run|, i requires 0 <= i < |run| => run[i].store)
  }

  /** The state of both controllers: the VirtualService controller's protocol runs over stores that users, the
      cluster and the updates of forks change. */
  ghost predicate IsJointRun(run: seq<Agreement.State>, setting: Agreement.Setting, w: World) {
    Agreement.IsRun(run, setting) && IsSteadyRun(Stores(run), w) && setting.namespace == w.namespace
  }

  lemma SelectedIsServed(u: Store, w: World, setting: Agreement.Setting, app: App, svc: Object)
    requires Reads(u, app.fork, app) && svc in app.services && app.fork.namespace == setting.namespace
    requires forall n :: n in setting.services <==> Key(Kind.Service, setting.namespace, n) in u
    ensures svc.name in setting.services
  {
    assert Selected(u, app.fork, svc);
  }

  /** From a state in which the copies stand, as they do after a success of the fork, in every later quiet state of
      every joint run the fork's requests reach its copies. */
  lemma QuietMeansReached(run: seq<Agreement.State>, setting: Agreement.Setting, w: World, app: App, i: nat, j: nat,
                          svc: Object, headers: map<string, string>)
    requires IsJointRun(run, setting, w) && Agreement.Started(run[0], setting) && Agreement.NoOrphans(run[0], setting)
    requires i <= j < |run| && FixtureOf(w, app)(run[i].store) && ShortDeploymentNames(app) && Agreement.Quiet(run[j])
    requires svc in app.services && |CopyName(svc.name, app.fork)| <= LABEL_LIMIT && TemplateHarmless(app)
    requires ForeignCopiesApart(run[j].store, app.fork, app) && Asks(run[j].store, app.fork, app, svc.name, headers)
    ensures Destination(run[j].store, app.fork.namespace, svc.name, headers) == [CopyName(svc.name, app.fork)]
    ensures NoStrays(run[j].store, app.fork.namespace, svc.name) ==>
      Destinations(run[j].store, app.fork.namespace, svc.name, headers) == {[CopyName(svc.name, app.fork)]}
    ensures ServedByCopies(run[j].store, app.fork, app, svc)
  {
    FixtureAlong(Stores(run), w, app, i, j);
    QuietMeansAgrees(run, setting, w, app, j, svc);
    StandingMeansReached(run[j].store, w, app, svc, headers);
  }

  lemma QuietMeansAgrees(run: seq<Agreement.State>, setting: Agreement.Setting, w: World, app: App, j: nat, svc: Object)
    requires Agreement.IsRun(run, setting) && setting.namespace == w.namespace
    requires Agreement.Started(run[0], setting) && Agreement.NoOrphans(run[0], setting)
    requires j < |run| && FixtureOf(w, app)(run[j].store) && Agreement.Quiet(run[j]) && svc in app.services
    ensures VS.Agrees(run[j].store, app.fork.namespace, svc.name)
  {
    Agreement.RunSimulated(run, setting, j);
    Agreement.AgreementInEveryRun(run, setting, j);
    SelectedIsServed(run[j].store, w, setting, app, svc);
  }

  // ---------------------------------------------------------------- getting there

  /** A step the VSConfig controller takes by itself, with or without a failing call. */
  ghost predicate OwnStep(st: Agreement.State, st': Agreement.State, setting: Agreement.Setting) {
    Agreement.Progress(st, st', setting) || Agreement.Fail(st, st', setting)
  }

  ghost function OwnStepOf(setting: Agreement.Setting): (Agreement.State, Agreement.State) -> bool {
    (st, st') => OwnStep(st, st', setting)
  }

  lemma OwnStepWrites(st: Agreement.State, st': Agreement.State, setting: Agreement.Setting)
    requires WellKeyed(st.store) && OwnStep(st, st', setting)
    ensures WellKeyed(st'.store) && OnlyVirtualServicesDiffer(st.store, st'.store)
  {
    if st'.store != st.store {
      assert Agreement.WritesPart(st, st'.store, setting);
    }
  }

  /** No step of the VSConfig controller is any of the forks' business. */
  lemma RoutesAreOutside(s: Store, t: Store, w: World)
    requires WellKeyed(t) && OnlyVirtualServicesDiffer(s, t)
    ensures OutsideStep(s, t, w) && SameKind(s, t, Kind.VSConfig) && SameKind(s, t, Kind.DeploymentCopy)
  {}

  ghost function Since(s: Store): Agreement.State -> bool {
    (st: Agreement.State) => WellKeyed(st.store) && OnlyVirtualServicesDiffer(s, st.store)
  }

  lemma OwnStepsWrite(run: seq<Agreement.State>, setting: Agreement.Setting, i: nat)
    requires Runs.IsRun(run, OwnStepOf(setting)) && WellKeyed(run[0].store) && i < |run|
    ensures WellKeyed(run[i].store) && OnlyVirtualServicesDiffer(run[0].store, run[i].store)
  {
    var s := run[0].store;
    forall a, b | Since(s)(a) && OwnStepOf(setting)(a, b) ensures Since(s)(b) {
      OwnStepWrites(a, b, setting);
    }
    Runs.HoldsAlong(run, OwnStepOf(setting), Since(s), 0, i);
  }

  lemma OwnRunIsSteady(run: seq<Agreement.State>, setting: Agreement.Setting, w: World)
    requires Runs.IsRun(run, OwnStepOf(setting)) && WellKeyed(run[0].store)
    ensures IsSteadyRun(Stores(run), w)
  {
    forall i | 0 <= i < |Stores(run)| - 1 ensures Runs.StepAt(Stores(run), SteadyOf(w), i) {
      OwnStepsWrite(run, setting, i);
      assert Runs.StepAt(run, OwnStepOf(setting), i);
      OwnStepWrites(run[i], run[i + 1], setting);
      RoutesAreOutside(run[i].store, run[i + 1].store, w);
    }
  }

  /** What coming to rest consists of. */
  lemma RestIsOwn(run: seq<Agreement.State>, setting: Agreement.Setting)
    requires Runs.IsRun(run, Agreement.ProgressOf(setting))
      || (|run| > 1 && Agreement.Fail(run[0], run[1], setting) && Runs.IsRun(run[1..], Agreement.ProgressOf(setting)))
    ensures Runs.IsRun(run, OwnStepOf(setting))
  {
    forall i | 0 <= i < |run| - 1 ensures Runs.StepAt(run, OwnStepOf(setting), i) {
      if Runs.IsRun(run, Agreement.ProgressOf(setting)) {
        assert Runs.StepAt(run, Agreement.ProgressOf(setting), i);
      } else if i > 0 {
        assert Runs.StepAt(run[1..], Agreement.ProgressOf(setting), i - 1);
      }
    }
  }

  lemma StandsStill(s: Store, t: Store, w: World, app: App)
    requires Fixture(s, w, app) && WellKeyed(t) && OnlyVirtualServicesDiffer(s, t)
    ensures Fixture(t, w, app)
  {
    RoutesAreOutside(s, t, w);
    OutsideKeepsFooting(s, t, w, app);
    OutsideKeepsCopies(s, t, w, app);
  }

  lemma AsksStill(s: Store, t: Store, app: App, n: string, headers: map<string, string>)
    requires OnlyVirtualServicesDiffer(s, t) && Asks(s, app.fork, app, n, headers) && ForeignCopiesApart(s, app.fork, app)
    ensures Asks(t, app.fork, app, n, headers) && ForeignCopiesApart(t, app.fork, app)
  {
    var f := app.fork;
    forall c | c in VS.ConfigsIn(t, f.namespace) ensures c in VS.ConfigsIn(s, f.namespace) && VS.ConfigsIn(s, f.namespace)[c] == VS.ConfigsIn(t, f.namespace)[c] {
      assert Same(s, t, Key(Kind.VSConfig, f.namespace, c));
    }
    forall k: Key | k.kind == Kind.VSConfig || k.kind == Kind.DeploymentCopy ensures Same(s, t, k) {}
  }

  /** Traffic is always within reach: from every state of the VSConfig controller in which the fork's copies stand and
      each config's host exists, the controller left alone comes to rest, in a joint run of bounded length, with the
      fork's requests reaching its copies. */
  lemma TrafficWithinReach(st: Agreement.State, setting: Agreement.Setting, w: World, app: App, svc: Object, headers: map<string, string>)
    returns (run: seq<Agreement.State>)
    requires Agreement.Inv(st, setting) && Agreement.HostsExist(st, setting) && setting.namespace == w.namespace
    requires Fixture(st.store, w, app) && svc in app.services && |CopyName(svc.name, app.fork)| <= LABEL_LIMIT
    requires TemplateHarmless(app) && ForeignCopiesApart(st.store, app.fork, app) && Asks(st.store, app.fork, app, svc.name, headers)
    ensures IsJointRun(run, setting, w) && run[0] == st && |run| <= Agreement.WorkLeft(st, setting) + 2 * |setting.services| + 7
    ensures var u := run[|run| - 1].store;
      && Agreement.Quiet(run[|run| - 1])
      && Destination(u, app.fork.namespace, svc.name, headers) == [CopyName(svc.name, app.fork)]
      && (NoStrays(u, app.fork.namespace, svc.name) ==> Destinations(u, app.fork.namespace, svc.name, headers) == {[CopyName(svc.name, app.fork)]})
      && ServedByCopies(u, app.fork, app, svc)
  {
    run := Agreement.ComesToRest(st, setting);
    RestIsOwn(run, setting);
    OwnRunIsSteady(run, setting, w);
    OwnStepsWrite(run, setting, |run| - 1);
    ReachedAtRest(st.store, run[|run| - 1].store, setting, w, app, svc, headers);
  }

  lemma ReachedAtRest(s: Store, u: Store, setting: Agreement.Setting, w: World, app: App, svc: Object, headers: map<string, string>)
    requires Fixture(s, w, app) && WellKeyed(u) && OnlyVirtualServicesDiffer(s, u) && setting.namespace == w.namespace
    requires forall n :: n in setting.services <==> Key(Kind.Service, setting.namespace, n) in s
    requires forall n :: n in setting.services ==> VS.Agrees(u, setting.namespace, n)
    requires svc in app.services && |CopyName(svc.name, app.fork)| <= LABEL_LIMIT
    requires TemplateHarmless(app) && ForeignCopiesApart(s, app.fork, app) && Asks(s, app.fork, app, svc.name, headers)
    ensures Destination(u, app.fork.namespace, svc.name, headers) == [CopyName(svc.name, app.fork)]
    ensures NoStrays(u, app.fork.namespace, svc.name) ==> Destinations(u, app.fork.namespace, svc.name, headers) == {[CopyName(svc.name, app.fork)]}
    ensures ServedByCopies(u, app.fork, app, svc)
  {
    SelectedIsServed(s, w, setting, app, svc);
    StandsStill(s, u, w, app);
    AsksStill(s, u, app, svc.name, headers);
    StandingMeansReached(u, w, app, svc, headers);
  }
}
