/** Concrete inputs on which the code does less than one may expect.  The exact conditions are stated by the
    lemmas they call. */
module Counterexamples {
  import opened Kube
  import opened Text
  import opened ResourceName
  import opened Refresh
  import opened RefreshTheorems
  import opened RefreshRetry
  import opened ForkApp
  import opened Microservice
  import opened ForkRuns
  import opened ForkSettling
  import opened EndToEnd
  import opened Example
  import Routing
  import VS = VirtualServices
  import Loop
  import Runs
  import Agreement
  import Mappings
  import MappingSync
  import MappingTheorems
  import MappingCleanUp
  import Selector
  import Preview

  /** A name of 64 bytes. */
  const LONG: string := seq(64, i => 'f')

  // ---------------------------------------------------------------- names that are too long

  /** A copied service with a long name is not reached. */
  lemma LongNameNotReached() returns (t: Store, u: Store)
    ensures var v := Variant(LONG, APP, None);
      BothUpdated(CLUSTER, t, u, ForkOf(v), Expansion(v), "s") && !ReachesCopies(u, ForkOf(v), Expansion(v), WEB, map["h" := "i"])
  {
    t, u := ExampleIsForked(Variant(LONG, APP, None));
  }

  const OWNER: Parent := Parent(SchemeGVK(Kind.Fork), Kind.Fork, NS, "f")

  const LONG_COPY: Object := Object(LONG, NS, map[], [], DeploymentCopyBody(DeploymentCopySpec(1, "d", "f", map[], map[], [])))

  const LONG_LIST: ObjectList := ObjectList([LONG_COPY], Kind.DeploymentCopy, NameIdentity)

  /** A DeploymentCopy with a long name is created, and deleted again by the next run. */
  lemma LongCopyIsRecreated() returns (t: Store, again: seq<Object>)
    ensures CompleteRun(map[], t, OWNER, LONG_LIST) && Answers(again, t, OWNER, LONG_LIST)
    ensures !DeletesNothing(Plan(again, OWNER, LONG_LIST))
  {
    var listing: seq<Object> := [];
    assert Answers(listing, map[], OWNER, LONG_LIST);
    NeverAborts(map[], listing, OWNER, LONG_LIST);
    t := Run(map[], Plan(listing, OWNER, LONG_LIST));
    RunKeepsKeys(map[], Plan(listing, OWNER, LONG_LIST));
    again := SomeAnswer(t, Kind.DeploymentCopy, Some(NS), Everything);
    assert LONG_LIST.items[0].name == LONG && |LONG| > LABEL_LIMIT;
    NameIdentityRerun(map[], listing, OWNER, LONG_LIST, again);
  }

  // ---------------------------------------------------------------- templates and selectors

  /** A pod template that sets the identifier label breaks the routes. */
  lemma TemplateBreaksRoutes()
    ensures var v := Variant("f", APP, Some(PodTemplate(map[IDENTIFIER := "other"], map[], [])));
      Expanded(CLUSTER, ForkOf(v), Expansion(v)) && !RoutabilityPreserved(Expansion(v))
  {
    var v := Variant("f", APP, Some(PodTemplate(map[IDENTIFIER := "other"], map[], [])));
    ExpansionIsRight(v);
    ForkingPreservesRoutability(CLUSTER, ForkOf(v), Expansion(v));
    assert |"other"| != |"i"|;
    assert IDENTIFIER in TemplateLabels(ForkOf(v)) && TemplateLabels(ForkOf(v))[IDENTIFIER] == "other";
  }

  /** A fork whose selector accepts everything selects its own copy after its first update. */
  lemma CopySelected() returns (t: Store)
    ensures var v := Variant("f", map[], None);
      Refreshed(CLUSTER, t, ForkParent(ForkOf(v)), Lists(Expansion(v))) && exists svc :: Selected(t, ForkOf(v), svc) && !Selected(CLUSTER, ForkOf(v), svc)
  {
    var v := Variant("f", map[], None);
    ClusterIsReady(v);
    SelectsWeb(v);
    t := UpdateCanSucceed(CLUSTER, ForkOf(v), Expansion(v));
    SelectedAfter(CLUSTER, t, ForkOf(v), Expansion(v));
    Selections(v, CopyLabels("s", ForkOf(v)));
    assert WEB in Expansion(v).services && Selected(CLUSTER, ForkOf(v), WEB);
    CopySelectedToo(CLUSTER, t, ForkOf(v), Expansion(v), WEB);
  }

  // ---------------------------------------------------------------- VirtualServices left behind

  function OnlyService(n: string): string {
    "s"
  }

  const SETTING: Agreement.Setting := Agreement.Setting(NS, {"s"}, OnlyService)

  function Left(): Object {
    VS.VirtualServiceFor(NS, "s", []).(owners := [ControllerRef(VS.ServiceParent(NS, "s"))])
  }

  /** No config is left, but the VirtualService of one that went. */
  const ORPHANED: Agreement.State := Agreement.State(map[KeyOf(WEB) := WEB, KeyOf(Left()) := Left()], {}, {}, Loop.Idle)

  lemma OrphanedKinds(k: Key)
    ensures k in ORPHANED.store <==> k == KeyOf(WEB) || k == KeyOf(Left())
  {}

  lemma OrphanedIsTidy()
    ensures Agreement.Surroundings(ORPHANED, SETTING) && Agreement.Now(ORPHANED, SETTING) == map[]
    ensures VS.Held(ORPHANED.store, NS, "s") == Some(Left())
  {
    assert |"s"| == 1;
    forall n ensures Key(Kind.Service, NS, n) in ORPHANED.store <==> n == "s" { OrphanedKinds(Key(Kind.Service, NS, n)); }
    forall n ensures Key(Kind.VSConfig, NS, n) !in ORPHANED.store { OrphanedKinds(Key(Kind.VSConfig, NS, n)); }
    forall k | VS.Owns(ORPHANED.store, NS, "s", k) ensures k == KeyOf(Left()) { OrphanedKinds(k); }
    assert Left().owners[0].name == "s";
    assert VS.VSKey(NS, "s") == KeyOf(Left());
  }

  /** A controller that starts there is quiet at once, and disagrees. */
  lemma OrphanStays()
    ensures Agreement.Started(ORPHANED, SETTING) && Agreement.HostsExist(ORPHANED, SETTING) && Agreement.Quiet(ORPHANED)
    ensures !VS.Agrees(ORPHANED.store, NS, "s") && !Agreement.QuietMeansAgreement(ORPHANED, SETTING)
  {
    OrphanedIsTidy();
    Routing.TableHasRoutes(Routing.Sorted(map[]), "s");
    Agreement.QuietAgreementWhen(ORPHANED, SETTING);
  }

  function Config(host: string): Object {
    Object("c", NS, map[], [], VSConfigBody(VSConfigSpec(host, "x", "h", "v")))
  }

  const OTHER: Object := Object("o", NS, APP, [], ServiceBody(ServiceSpec("2", "ClusterIP", [], APP)))

  /** Two services and a config for one of them. */
  const ROUTED: Store := map[KeyOf(WEB) := WEB, KeyOf(OTHER) := OTHER, KeyOf(Config("s")) := Config("s")]

  lemma RoutedKinds(k: Key)
    ensures k in ROUTED <==> k == KeyOf(WEB) || k == KeyOf(OTHER) || k == KeyOf(Config("s"))
    ensures k in ROUTED ==> ROUTED[k].owners == []
  {}

  lemma RoutedIsTidy()
    ensures WellKeyed(ROUTED) && VS.Tidy(ROUTED, NS) && VS.ConfigsIn(ROUTED, NS) == map["c" := Config("s").body.config]
    ensures forall n :: Key(Kind.Service, NS, n) in ROUTED <==> n == "s" || n == "o"
    ensures VS.Agrees(ROUTED, NS, "o")
  {
    assert |"s"| == 1 && |"o"| == 1 && "s"[0] != "o"[0];
    forall n ensures Key(Kind.Service, NS, n) in ROUTED <==> n == "s" || n == "o" { RoutedKinds(Key(Kind.Service, NS, n)); }
    forall n ensures Key(Kind.VSConfig, NS, n) in ROUTED <==> n == "c" { RoutedKinds(Key(Kind.VSConfig, NS, n)); }
    forall n, k ensures !VS.Owns(ROUTED, NS, n, k) { RoutedKinds(k); }
    var configs := VS.ConfigsIn(ROUTED, NS);
    assert configs == map["c" := Config("s").body.config];
    Routing.TableHasRoutes(Routing.Sorted(configs), "o");
  }

  /** After the first update of `s` every service agrees. */
  lemma RoutedAgrees() returns (s: Store)
    ensures WellKeyed(s) && VS.Tidy(s, NS) && SameKind(ROUTED, s, Kind.Service) && SameKind(ROUTED, s, Kind.VSConfig)
    ensures VS.Agrees(s, NS, "s") && VS.Agrees(s, NS, "o")
  {
    RoutedIsTidy();
    s := VS.UpdateCanSucceed(ROUTED, NS, "s");
    VS.UpdateAgrees(ROUTED, s, NS, "s", true);
  }

  const MOVED: Key := Key(Kind.VSConfig, NS, "c")

  lemma MovedIsTidy(s: Store, m: Store)
    requires WellKeyed(s) && VS.Tidy(s, NS) && m == s[MOVED := Config("o")]
    ensures WellKeyed(m) && VS.Tidy(m, NS)
    ensures forall l :: l != Key(Kind.VSConfig, NS, "c") ==> Same(s, m, l)
    ensures "c" in VS.ConfigsIn(m, NS) && VS.ConfigsIn(m, NS)["c"] == Config("o").body.config
  {
    assert KeyOf(Config("o")) == MOVED;
    Agreement.TidyBesideConfig(s, m, NS, "c");
    assert MOVED in m && MOVED.name == "c";
  }

  lemma ConfigBefore(s: Store)
    requires SameKind(ROUTED, s, Kind.VSConfig)
    ensures "c" in VS.ConfigsIn(s, NS) && VS.ConfigsIn(s, NS)["c"] == Config("s").body.config
  {
    assert KeyOf(Config("s")) == MOVED;
    RoutedKinds(MOVED);
    assert Same(ROUTED, s, MOVED) && MOVED.name == "c";
  }

  lemma ServicesBefore(s: Store)
    requires SameKind(ROUTED, s, Kind.Service)
    ensures forall n :: Key(Kind.Service, NS, n) in s <==> n == "s" || n == "o"
  {
    RoutedIsTidy();
    forall n ensures Key(Kind.Service, NS, n) in s <==> n == "s" || n == "o" {
      assert Same(ROUTED, s, Key(Kind.Service, NS, n));
    }
  }

  /** A config that moves from `s` to `o` leaves its route at `s`. */
  lemma MoveLeavesRoute() returns (s: Store, t: Store)
    ensures forall n :: Key(Kind.Service, NS, n) in s ==> VS.Agrees(s, NS, n)
    ensures VS.Updated(s[MOVED := Config("o")], t, NS, "o", true)
    ensures !forall n :: Key(Kind.Service, NS, n) in t ==> VS.Agrees(t, NS, n)
  {
    s := RoutedAgrees();
    ServicesBefore(s);
    ConfigBefore(s);
    t := MoveAndUpdate(s);
  }

  lemma MoveAndUpdate(s: Store) returns (t: Store)
    requires WellKeyed(s) && VS.Tidy(s, NS) && forall n :: Key(Kind.Service, NS, n) in s ==> VS.Agrees(s, NS, n)
    requires Key(Kind.Service, NS, "s") in s && Key(Kind.Service, NS, "o") in s
    requires "c" in VS.ConfigsIn(s, NS) && VS.ConfigsIn(s, NS)["c"] == Config("s").body.config
    ensures VS.Updated(s[MOVED := Config("o")], t, NS, "o", true)
    ensures !forall n :: Key(Kind.Service, NS, n) in t ==> VS.Agrees(t, NS, n)
  {
    var m := s[MOVED := Config("o")];
    MovedIsTidy(s, m);
    assert Key(Kind.Service, NS, "o") in m;
    t := VS.UpdateCanSucceed(m, NS, "o");
    Agreement.HostMove(s, m, t, NS, "c");
    assert "s"[0] != "o"[0] && |"v"| == 1;
  }

  // ---------------------------------------------------------------- mappings

  const HOSTS: seq<Upstream> := [Upstream("b", "", ""), Upstream("b.a", "", "")]

  function Job(forks: seq<ForkResource>, manager: string, namespace: string, ups: seq<Upstream>): Mappings.Job {
    Mappings.Job(Mappings.Manager(manager, namespace, ForkManagerSpec("a", "h", ups)), forks)
  }

  function Identified(id: string): ForkResource {
    ForkResource("f", NS, ForkSpec("n/m", id, None, None, None, None))
  }

  /** `a.c` under `b` and `c` under `b.a` share a mapping, and want different hosts. */
  lemma IdentifiersCollide()
    ensures !MappingTheorems.AgreeOnSharedKeys(Job([Identified("a.c"), Identified("c")], "m", NS, HOSTS))
    ensures !MappingTheorems.OneOutcome(map[], Job([Identified("a.c"), Identified("c")], "m", NS, HOSTS))
  {
    var job := Job([Identified("a.c"), Identified("c")], "m", NS, HOSTS);
    var k := Key(Kind.Mapping, NS, "b-a-c");
    TheyDisagree(job, k);
    MappingTheorems.OrderMattersNot(map[], job);
  }

  lemma TheyDisagree(job: Mappings.Job, k: Key)
    requires job == Job([Identified("a.c"), Identified("c")], "m", NS, HOSTS) && k == Key(Kind.Mapping, NS, "b-a-c")
    ensures !MappingTheorems.AgreeOnSharedKeys(job)
  {
    BothIdentified(job);
    ContentsDiffer(job);
    KeyWriters(job, k);
  }

  lemma BothIdentified(job: Mappings.Job)
    requires job.forks == [Identified("a.c"), Identified("c")]
    ensures "a.c" in Mappings.Identifiers(job.forks) && "c" in Mappings.Identifiers(job.forks)
  {
    assert job.forks[0] in job.forks && job.forks[1] in job.forks;
  }

  lemma ContentsDiffer(job: Mappings.Job)
    ensures Mappings.Content(job, "a.c", HOSTS[0]) != Mappings.Content(job, "c", HOSTS[1])
  {
    Mappings.ContentMeaning(job, "a.c", HOSTS[0]);
    Mappings.ContentMeaning(job, "c", HOSTS[1]);
    assert ("a.c" + "." + "b")[0] == 'a' && ("c" + "." + "b.a")[0] == 'c';
  }

  lemma SharedKey()
    ensures Mappings.MappingName("b", "a.c") == "b-a-c" && Mappings.MappingName("b.a", "c") == "b-a-c"
    ensures Mappings.MappingName("b.a", "a.c") != "b-a-c"
  {
    assert "b" + "-" + "a.c" == "b-a.c" && "b.a" + "-" + "c" == "b.a-c";
    assert |Mappings.MappingName("b.a", "a.c")| == 7;
  }

  lemma KeyWriters(job: Mappings.Job, k: Key)
    requires job == Job([Identified("a.c"), Identified("c")], "m", NS, HOSTS) && k == Key(Kind.Mapping, NS, "b-a-c")
    ensures MappingTheorems.ContentAt(job, "a.c", k) == Some(Mappings.Content(job, "a.c", HOSTS[0]))
    ensures MappingTheorems.ContentAt(job, "c", k) == Some(Mappings.Content(job, "c", HOSTS[1]))
  {
    SharedKey();
    assert HOSTS[..1] == [HOSTS[0]];
  }

  /** The upgrades of a fork that adds no header are dropped. */
  lemma UpgradesDropped(spec: MappingSpec)
    ensures Mappings.Applied(spec, ForkResource("f", NS, ForkSpec("n/m", "i", None, Some(GatewayOptions(map[], ["h2c"])), None, None))) == spec
  {
    assert GatewayOptions(map[], ["h2c"]).addRequestHeaders == map[];
  }

  /** Two managers called `m` that both have something to map cannot both be exact. */
  lemma NamesakesClash(stores: seq<Store>)
    requires MappingCleanUp.Chain(stores, [Job([Identified("i")], "m", "x", HOSTS), Job([Identified("i")], "m", "y", HOSTS)])
    ensures !MappingTheorems.Exact(stores[2], Job([Identified("i")], "m", "x", HOSTS))
  {
    var a, b := Job([Identified("i")], "m", "x", HOSTS), Job([Identified("i")], "m", "y", HOSTS);
    var jobs := [a, b];
    assert MappingSync.Desired(a, Mappings.MappingKey(a.manager, HOSTS[0].host, "i")) by {
      assert a.forks[0] in a.forks && "i" in Mappings.Identifiers(a.forks);
    }
    MappingCleanUp.LastOfNameWins(stores, jobs, 1, 2);
    if MappingTheorems.Exact(stores[2], a) {
      assert |"x"| == 1 && "x"[0] != "y"[0];
      MappingCleanUp.NamesakesApart(stores[2], a, b, Mappings.MappingKey(a.manager, HOSTS[0].host, "i"));
    }
  }

  /** There are such runs: from an empty cluster both managers' updates can succeed. */
  lemma NamesakesRun() returns (stores: seq<Store>)
    ensures MappingCleanUp.Chain(stores, [Job([Identified("i")], "m", "x", HOSTS), Job([Identified("i")], "m", "y", HOSTS)])
  {
    var a, b := Job([Identified("i")], "m", "x", HOSTS), Job([Identified("i")], "m", "y", HOSTS);
    var s, t := BothRuns(a, b);
    stores := [map[], s, t];
    Runs.TwoSteps(map[], s, t, a, b, MappingCleanUp.SuccessfulRun());
  }

  lemma BothRuns(a: Mappings.Job, b: Mappings.Job) returns (s: Store, t: Store)
    requires a.manager.namespace == "x" && b.manager.namespace == "y"
    ensures MappingSync.SyncedFully(map[], s, a) && MappingSync.SyncedFully(s, t, b)
  {
    var first := MappingTheorems.OrderExists(Mappings.Identifiers(a.forks));
    s := MappingTheorems.RunExists(map[], a, first);
    MappingTheorems.MappingSetIsExact(map[], s, a);
    OthersAccepted(a, b, s);
    var second := MappingTheorems.OrderExists(Mappings.Identifiers(b.forks));
    t := MappingTheorems.RunExists(s, b, second);
  }

  lemma OthersAccepted(a: Mappings.Job, b: Mappings.Job, s: Store)
    requires a.manager.namespace == "x" && b.manager.namespace == "y"
    requires forall k :: !MappingSync.Desired(a, k) && !MappingSync.Labelled(map[], a.manager, k) ==> Same(map[], s, k)
    ensures forall k :: MappingSync.Desired(b, k) ==> MappingSync.Accepted(s, b.manager, k)
  {
    forall k | MappingSync.Desired(b, k) ensures MappingSync.Accepted(s, b.manager, k) {
      assert k.namespace == "y" && "x"[0] != "y"[0];
      assert Same(map[], s, k);
    }
  }

  // ---------------------------------------------------------------- kubeforkctl

  /** `a!b` is read as `!b`. */
  lemma StrayNotIsRead()
    ensures Selector.Read("a!b") == Some(Selector.Absent("b"))
    ensures Selector.Printed(Selector.Absent("b")) == "!b" != "a!b"
  {
    assert "a" + "!" + "b" == "a!b";
    SplitOnce("a", "b", "!");
    SplitNever("a!b", "=");
    NoNotEqual();
    assert |"!b"| != |"a!b"|;
  }

  lemma NoNotEqual()
    ensures |Split("a!b", "!=")| == 1
  {
    SepAtIndex("a!b", "!=");
  }

  /** A service for `app: a` previews the deployments labelled `app: b` when asked for those; the controller
      copies none of them for it. */
  lemma ConflictMisleads()
    ensures var sel := LabelSelector(map["app" := "b"], []);
      var d := Object("d", NS, map["app" := "b"], [], DeploymentBody(DeploymentSpec(map["app" := "b"], [])));
      Preview.Conflict(WEB, sel) && Preview.FoundFor(map[KeyOf(d) := d], NS, sel, WEB, d) && !Routable(d, WEB)
  {
    var sel := LabelSelector(map["app" := "b"], []);
    assert "app" in APP && APP["app"] == "a" && "a"[0] != "b"[0];
    assert APP + sel.matchLabels == map["app" := "b"];
  }
}
