/** A small cluster of which the end-to-end theorem speaks: one service, the deployment behind it, a
    manager and a fork of any name. */
module Example {
  import opened Kube
  import opened ResourceName
  import opened Refresh
  import opened RefreshTheorems
  import opened RefreshRetry
  import opened Text
  import opened ForkApp
  import opened Microservice
  import opened ForkRuns
  import opened ForkSettling
  import opened ForkSteady
  import opened EndToEnd
  import VS = VirtualServices

  const NS: string := "n"
  const APP: Labels := map["app" := "a"]

  const WEB: Object := Object("s", NS, APP, [], ServiceBody(ServiceSpec("1", "ClusterIP", [], APP)))
  const RUNNER: Object := Object("d", NS, APP, [], DeploymentBody(DeploymentSpec(APP, [])))
  const MANAGER: Object := Object("m", NS, map[], [], ForkManagerBody(ForkManagerSpec("a", "h", [])))

  const CLUSTER: Store := map[KeyOf(WEB) := WEB, KeyOf(RUNNER) := RUNNER, KeyOf(MANAGER) := MANAGER]

  /** What varies: the fork's name, what its service selector asks for, and its pod template. */
  datatype Variant = Variant(name: string, wanted: Labels, template: Option<PodTemplate>)

  function ForkOf(v: Variant): ForkResource {
    ForkResource(v.name, NS,
      ForkSpec("n/m", "i", None, None, Some(ForkService(Some(LabelSelector(v.wanted, [])))),
               Some(ForkDeployment(Some(LabelSelector(APP, [])), v.template, None))))
  }

  function TheWorld(v: Variant): World {
    World(NS, {"s"}, {ForkOf(v)})
  }

  function Expansion(v: Variant): App {
    App([WEB], [RUNNER], map[], map["d" := ["s"]], "h", ForkOf(v))
  }

  lemma Selections(v: Variant, labels: Labels)
    ensures Matches(ServiceQuery(ForkOf(v)), labels) <==> HasAll(v.wanted, labels)
    ensures Matches(DeploymentQuery(ForkOf(v)), labels) <==> HasAll(APP, labels)
    ensures Matches(IdentifierQuery(ForkOf(v)), labels) <==> IDENTIFIER in labels && labels[IDENTIFIER] == "i"
  {
    assert IDENTIFIER in map[IDENTIFIER := ForkOf(v).spec.identifier];
  }

  lemma CopyNameLength(v: Variant)
    ensures |CopyName("s", ForkOf(v))| == |v.name| + 2
    ensures |CopyKey("s", ForkOf(v)).name| >= 2 && CopyKey("s", ForkOf(v)).name != "s"
  {
    assert |"s"| == 1;
  }

  lemma WorldIsWellFormed(v: Variant)
    ensures WellFormed(TheWorld(v))
  {
    CopyNameLength(v);
  }

  lemma CopiesAreRejected(v: Variant)
    requires v.wanted == APP
    ensures SelectorsReject(TheWorld(v))
  {
    Selections(v, CopyLabels("s", ForkOf(v)));
    assert |IDENTIFIER| > 3 && |ORIGINAL| > 3 && |"app"| == 3 && "app" in APP;
  }

  lemma ManagerIsFound(v: Variant)
    ensures HeaderOf(CLUSTER, ForkOf(v), "h")
  {
    assert "n" + "/" + "m" == "n/m";
    SplitOnce("n", "m", "/");
    assert Split("n/m", "/") == ["n", "m"];
  }

  lemma ClusterKinds(k: Key)
    ensures k in CLUSTER <==> k in {KeyOf(WEB), KeyOf(RUNNER), KeyOf(MANAGER)}
    ensures k in CLUSTER ==> CLUSTER[k].owners == [] && k.kind in {Kind.Service, Kind.Deployment, Kind.ForkManager}
    ensures k in CLUSTER && k.kind == Kind.Service ==> k == KeyOf(WEB)
    ensures k in CLUSTER && k.kind == Kind.Deployment ==> k == KeyOf(RUNNER)
  {}

  lemma ServicesAreRight(v: Variant)
    requires v.wanted == APP || v.wanted == map[]
    ensures Enumerates([WEB], CLUSTER, Kind.Service, Some(NS), ServiceQuery(ForkOf(v)))
  {
    Selections(v, APP);
    forall o ensures o in [WEB] <==> Listed(CLUSTER, Kind.Service, Some(NS), ServiceQuery(ForkOf(v)), o) {
      ClusterKinds(KeyOf(o));
    }
  }

  lemma DeploymentsAreRight(v: Variant)
    ensures forall d :: d in [RUNNER] <==> Candidate(CLUSTER, ForkOf(v), d) && exists svc :: svc in [WEB] && Routable(d, svc)
  {
    Selections(v, APP);
    forall d ensures d in [RUNNER] <==> Candidate(CLUSTER, ForkOf(v), d) && exists svc :: svc in [WEB] && Routable(d, svc) {
      ClusterKinds(KeyOf(d));
      assert WEB in [WEB] && Routable(RUNNER, WEB);
    }
  }

  lemma NothingForked(v: Variant)
    ensures HoldsForked(CLUSTER, ForkOf(v), map[])
  {
    forall n ensures !Forked(CLUSTER, ForkOf(v), n) {
      ClusterKinds(Key(Kind.Service, NS, n));
      Selections(v, APP);
      assert |IDENTIFIER| > 3 && |"app"| == 3;
    }
  }

  lemma RoutesAreRight(v: Variant)
    ensures RoutesOf(Expansion(v), "d") == RoutedFrom([WEB], RUNNER)
  {
    assert RoutesOf(Expansion(v), "d") == {"s"};
    assert WEB in [WEB] && Routable(RUNNER, WEB);
  }

  lemma ExpansionIsRight(v: Variant)
    requires v.wanted == APP || v.wanted == map[]
    ensures Expanded(CLUSTER, ForkOf(v), Expansion(v))
  {
    ManagerIsFound(v);
    ServicesAreRight(v);
    DeploymentsAreRight(v);
    NothingForked(v);
    RoutesAreRight(v);
  }

  lemma ClusterInv(v: Variant)
    ensures Inv(CLUSTER, TheWorld(v))
  {
    forall k: Key | k in CLUSTER ensures CLUSTER[k].owners == [] && !Beside(TheWorld(v), k) { ClusterKinds(k); }
  }

  lemma NothingOwned(p: Parent, list: ObjectList)
    ensures forall k :: !OwnedAt(CLUSTER, k, p, list)
  {
    forall k ensures !OwnedAt(CLUSTER, k, p, list) { ClusterKinds(k); }
  }

  lemma ClusterIsReady(v: Variant)
    requires v.wanted == APP || v.wanted == map[]
    ensures Ready(CLUSTER, ForkOf(v), Expansion(v))
  {
    ExpansionIsRight(v);
    NothingOwned(ForkParent(ForkOf(v)), ObjectList([], Kind.Service, OriginalService));
    NothingOwned(ForkParent(ForkOf(v)), ObjectList([], Kind.VSConfig, ConfigHost));
    NothingOwned(ForkParent(ForkOf(v)), ObjectList([], Kind.DeploymentCopy, NameIdentity));
  }

  lemma SelectsWeb(v: Variant)
    ensures SelectsOthers(Expansion(v)) && !OwnedByParent(WEB, ForkParent(ForkOf(v)))
  {
    CopyNameLength(v);
    assert WEB.owners == [];
  }

  lemma ClusterIsRouted(v: Variant)
    ensures Routed(CLUSTER, ForkOf(v), Expansion(v), WEB)
  {
    NothingOwned(VS.ServiceParent(NS, "s"), VS.VirtualServiceList(NS, "s", []));
    assert |"s"| == 1;
    assert WEB in Expansion(v).services;
  }

  lemma NothingForeign(v: Variant)
    ensures ForeignCopiesApart(CLUSTER, ForkOf(v), Expansion(v))
    ensures Asks(CLUSTER, ForkOf(v), Expansion(v), "s", map["h" := "i"])
  {
    forall k: Key ensures !(k in CLUSTER && (k.kind == Kind.DeploymentCopy || k.kind == Kind.VSConfig)) { ClusterKinds(k); }
  }

  /** Both updates can succeed for a fork of any name, and then its requests reach its copies if and only if
      `s-<name>` fits a label. */
  lemma ExampleIsForked(v: Variant) returns (t: Store, u: Store)
    requires v.wanted == APP && v.template.None?
    ensures BothUpdated(CLUSTER, t, u, ForkOf(v), Expansion(v), "s")
    ensures ReachesCopies(u, ForkOf(v), Expansion(v), WEB, map["h" := "i"]) <==> |v.name| + 2 <= LABEL_LIMIT
  {
    ClusterIsReady(v);
    ClusterIsRouted(v);
    NothingForeign(v);
    CopyNameLength(v);
    SelectsWeb(v);
    t, u := ForkingCanSucceed(CLUSTER, ForkOf(v), Expansion(v), WEB);
    NamesFit();
    CopyNameServed(CLUSTER, t, u, ForkOf(v), Expansion(v), WEB, map["h" := "i"]);
  }

  lemma NamesFit()
    ensures NamesFitLabels(CLUSTER, NS)
  {
    assert |"s"| == 1;
    forall k: Key | k in CLUSTER && k.kind == Kind.Service ensures k == KeyOf(WEB) { ClusterKinds(k); }
  }

  lemma ClusterIsSound(v: Variant)
    requires v.wanted == APP
    ensures Sound(CLUSTER, TheWorld(v))
  {
    WorldIsWellFormed(v);
    CopiesAreRejected(v);
    ClusterInv(v);
    ClusterIsReady(v);
    forall d | HasDeployment(CLUSTER, TheWorld(v), d) ensures d == "d" {
      ClusterKinds(Key(Kind.Deployment, NS, d));
    }
  }

  /** An update of a fork with a short name can succeed, and then no update of it changes anything any more. */
  lemma ExampleSettles(v: Variant) returns (t: Store)
    requires v.wanted == APP && |v.name| + 2 <= LABEL_LIMIT
    ensures Refreshed(CLUSTER, t, ForkParent(ForkOf(v)), Lists(Expansion(v))) && t != CLUSTER
    ensures NothingChanges(t, TheWorld(v), ForkOf(v))
  {
    ExpansionIsRight(v);
    t := UpdateCanSucceed(CLUSTER, ForkOf(v), Expansion(v));
    ClusterIsSound(v);
    NamesOfCopies(v);
    SettledAtOnce(CLUSTER, t, TheWorld(v), Expansion(v));
    FirstUpdateAdds(v, t);
  }

  lemma FirstUpdateAdds(v: Variant, t: Store)
    requires v.wanted == APP && Refreshed(CLUSTER, t, ForkParent(ForkOf(v)), Lists(Expansion(v)))
    ensures t != CLUSTER
  {
    ClusterIsReady(v);
    SelectsWeb(v);
    SelectedAfter(CLUSTER, t, ForkOf(v), Expansion(v));
    assert WEB in Expansion(v).services && Selected(CLUSTER, ForkOf(v), WEB);
    CopyNameLength(v);
    ClusterKinds(CopyKey("s", ForkOf(v)));
  }

  lemma NamesOfCopies(v: Variant)
    requires |v.name| + 2 <= LABEL_LIMIT
    ensures ShortDeploymentNames(Expansion(v))
    ensures forall svc :: svc in Expansion(v).services ==> |CopyName(svc.name, ForkOf(v))| <= LABEL_LIMIT
  {
    assert |"s"| == 1 && |"d"| == 1;
  }

  /** A fork with a short name is reached. */
  lemma ShortNameReached() returns (t: Store, u: Store)
    ensures var v := Variant("f", APP, None);
      BothUpdated(CLUSTER, t, u, ForkOf(v), Expansion(v), "s") && ReachesCopies(u, ForkOf(v), Expansion(v), WEB, map["h" := "i"])
  {
    t, u := ExampleIsForked(Variant("f", APP, None));
    assert |"f"| == 1;
  }

  // ---------------------------------------------------------------- a store that has drifted

  const F: Variant := Variant("f", APP, None)

  const OWNERS: seq<OwnerRef> := [ControllerRef(ForkParent(ForkOf(F)))]

  function OldLabels(service: string): Labels {
    map[ORIGINAL := service, IDENTIFIER := "old"]
  }

  /** A copy made when the fork had another identifier and the service another port. */
  const OLD_COPY: Object := Object("s-f", NS, OldLabels("s"), OWNERS, ServiceBody(ServiceSpec("9", "ClusterIP", [Port("p", "TCP", None, 80, "http", 0)], map[])))

  /** A copy of a service that is gone. */
  const LOST_COPY: Object := Object("g-f", NS, OldLabels("g"), OWNERS, ServiceBody(ServiceSpec("8", "ClusterIP", [], map[])))

  const OLD_RUNNER: Object := Object("d-f", NS, map[], OWNERS, DeploymentCopyBody(DeploymentCopySpec(3, "d", "f", map[], map[], [])))

  const OLD_CONFIG: Object := Object("s-f", NS, map[], OWNERS, VSConfigBody(VSConfigSpec("s", "s-f", "h", "old")))

  const DRIFTED: Store := CLUSTER[KeyOf(OLD_COPY) := OLD_COPY][KeyOf(LOST_COPY) := LOST_COPY][KeyOf(OLD_RUNNER) := OLD_RUNNER][KeyOf(OLD_CONFIG) := OLD_CONFIG]

  const LEFTOVERS: set<Key> := {KeyOf(OLD_COPY), KeyOf(LOST_COPY), KeyOf(OLD_RUNNER), KeyOf(OLD_CONFIG)}

  lemma DriftedKinds(k: Key)
    ensures k in DRIFTED <==> k in CLUSTER || k in LEFTOVERS
    ensures k in CLUSTER ==> k !in LEFTOVERS && DRIFTED[k] == CLUSTER[k] && k.kind in {Kind.Service, Kind.Deployment, Kind.ForkManager}
    ensures k in LEFTOVERS ==> DRIFTED[k] in {OLD_COPY, LOST_COPY, OLD_RUNNER, OLD_CONFIG} && KeyOf(DRIFTED[k]) == k
  {
    assert |"s"| == 1 && |"s-f"| == 3 && |"g-f"| == 3 && "s-f"[0] != "g-f"[0];
  }

  lemma OldLabelsMatchNothing(service: string)
    ensures !Matches(ServiceQuery(ForkOf(F)), OldLabels(service)) && !Matches(IdentifierQuery(ForkOf(F)), OldLabels(service))
  {
    Selections(F, OldLabels(service));
    assert |IDENTIFIER| > 3 && |ORIGINAL| > 3 && |"app"| == 3 && "app" in APP;
    assert |"old"| != |"i"|;
  }

  /** No leftover is selected or looked up. */
  lemma LeftoversUnseen(k: Key)
    requires k in LEFTOVERS
    ensures !Matches(ServiceQuery(ForkOf(F)), DRIFTED[k].labels) && !Matches(IdentifierQuery(ForkOf(F)), DRIFTED[k].labels)
    ensures k.kind != Kind.Deployment && k.kind != Kind.ForkManager && k.kind != Kind.VirtualService
  {
    DriftedKinds(k);
    OldLabelsMatchNothing("s");
    OldLabelsMatchNothing("g");
    Selections(F, map[]);
    assert "app" in APP;
  }

  lemma DriftedReadsAlike(k: Key)
    ensures k in DRIFTED && k !in CLUSTER ==> k in LEFTOVERS
    ensures k in CLUSTER ==> k in DRIFTED && DRIFTED[k] == CLUSTER[k]
  {
    DriftedKinds(k);
  }

  lemma DriftedServices()
    ensures Enumerates([WEB], DRIFTED, Kind.Service, Some(NS), ServiceQuery(ForkOf(F)))
  {
    ServicesAreRight(F);
    forall o ensures Listed(DRIFTED, Kind.Service, Some(NS), ServiceQuery(ForkOf(F)), o) <==> Listed(CLUSTER, Kind.Service, Some(NS), ServiceQuery(ForkOf(F)), o) {
      DriftedReadsAlike(KeyOf(o));
      if KeyOf(o) in LEFTOVERS { LeftoversUnseen(KeyOf(o)); }
    }
    forall o ensures o in [WEB] <==> Listed(DRIFTED, Kind.Service, Some(NS), ServiceQuery(ForkOf(F)), o) {
      assert o in [WEB] <==> Listed(CLUSTER, Kind.Service, Some(NS), ServiceQuery(ForkOf(F)), o);
    }
  }

  lemma DriftedDeployments()
    ensures forall d :: d in [RUNNER] <==> Candidate(DRIFTED, ForkOf(F), d) && exists svc :: svc in [WEB] && Routable(d, svc)
  {
    DeploymentsAreRight(F);
    forall d ensures Candidate(DRIFTED, ForkOf(F), d) <==> Candidate(CLUSTER, ForkOf(F), d) {
      DriftedReadsAlike(KeyOf(d));
      if KeyOf(d) in LEFTOVERS { LeftoversUnseen(KeyOf(d)); }
    }
  }

  lemma DriftedNotForked()
    ensures HoldsForked(DRIFTED, ForkOf(F), map[])
  {
    NothingForked(F);
    forall n ensures !Forked(DRIFTED, ForkOf(F), n) {
      var k := Key(Kind.Service, NS, n);
      DriftedReadsAlike(k);
      assert !Forked(CLUSTER, ForkOf(F), n);
      if k in LEFTOVERS { LeftoversUnseen(k); }
    }
  }

  lemma DriftedExpansion()
    ensures Expanded(DRIFTED, ForkOf(F), Expansion(F))
  {
    ManagerIsFound(F);
    DriftedReadsAlike(KeyOf(MANAGER));
    DriftedServices();
    DriftedDeployments();
    DriftedNotForked();
    RoutesAreRight(F);
  }

  lemma OwnedIsLeftover(p: Parent, list: ObjectList, k: Key)
    requires OwnedAt(DRIFTED, k, p, list)
    ensures k in LEFTOVERS && DRIFTED[k] in {OLD_COPY, LOST_COPY, OLD_RUNNER, OLD_CONFIG}
  {
    DriftedKinds(k);
    NothingOwned(p, list);
  }

  lemma NamesOfLeftovers()
    ensures OLD_COPY.name == Shorten(CopyName("s", ForkOf(F))) && LOST_COPY.name == Shorten(CopyName("g", ForkOf(F)))
    ensures OriginalService(OLD_COPY) == Ok("s") && OriginalService(LOST_COPY) == Ok("g") && |OLD_RUNNER.name| <= LABEL_LIMIT
  {
    assert "s" + "-" + "f" == "s-f" && "g" + "-" + "f" == "g-f";
  }

  lemma DriftedServiceNames()
    ensures ServicesNamed(DRIFTED, ForkOf(F))
  {
    var p, list := ForkParent(ForkOf(F)), ObjectList([], Kind.Service, OriginalService);
    forall k | OwnedAt(DRIFTED, k, p, list) ensures k.name == Shorten(CopyName(OriginalService(DRIFTED[k]).value, ForkOf(F))) {
      OwnedIsLeftover(p, list, k);
      DriftedKinds(k);
      NamesOfLeftovers();
    }
  }

  lemma DriftedConfigNames()
    ensures ConfigsNamed(DRIFTED, ForkOf(F))
  {
    var p, list := ForkParent(ForkOf(F)), ObjectList([], Kind.VSConfig, ConfigHost);
    forall k | OwnedAt(DRIFTED, k, p, list)
      ensures DRIFTED[k].body.VSConfigBody? && k.name == Shorten(CopyName(DRIFTED[k].body.config.host, ForkOf(F)))
    {
      OwnedIsLeftover(p, list, k);
      DriftedKinds(k);
      NamesOfLeftovers();
    }
  }

  lemma DriftedNames()
    ensures ServicesNamed(DRIFTED, ForkOf(F)) && ConfigsNamed(DRIFTED, ForkOf(F)) && CopiesNamed(DRIFTED, ForkOf(F))
  {
    DriftedServiceNames();
    DriftedConfigNames();
    var p, list := ForkParent(ForkOf(F)), ObjectList([], Kind.DeploymentCopy, NameIdentity);
    forall k | OwnedAt(DRIFTED, k, p, list) ensures |k.name| <= LABEL_LIMIT {
      OwnedIsLeftover(p, list, k);
      NamesOfLeftovers();
    }
  }

  lemma DriftedIsReady()
    ensures Ready(DRIFTED, ForkOf(F), Expansion(F))
  {
    forall k | k in DRIFTED ensures KeyOf(DRIFTED[k]) == k {
      DriftedKinds(k);
      ClusterKinds(k);
    }
    DriftedExpansion();
    DriftedNames();
  }

  lemma DriftedIsRouted()
    ensures Routed(DRIFTED, ForkOf(F), Expansion(F), WEB)
  {
    forall k ensures !VS.Owns(DRIFTED, NS, "s", k) {
      DriftedReadsAlike(k);
      if k in LEFTOVERS { LeftoversUnseen(k); }
      if k in CLUSTER { ClusterKinds(k); }
    }
    assert |"s"| == 1 && WEB in Expansion(F).services;
  }

  lemma DriftedAsks()
    ensures ForeignCopiesApart(DRIFTED, ForkOf(F), Expansion(F))
    ensures Asks(DRIFTED, ForkOf(F), Expansion(F), "s", map["h" := "i"])
  {
    var p := ForkParent(ForkOf(F));
    forall k: Key | k in DRIFTED && (k.kind == Kind.DeploymentCopy || k.kind == Kind.VSConfig) ensures OwnedByParent(DRIFTED[k], p) {
      DriftedKinds(k);
      assert DRIFTED[k].owners == OWNERS;
      SoleOwner(DRIFTED[k], ForkOf(F), ForkOf(F));
    }
  }

  lemma LostIsOwned(list: ObjectList)
    requires list.kind == Kind.Service
    ensures OwnedAt(DRIFTED, KeyOf(LOST_COPY), ForkParent(ForkOf(F)), list)
  {
    DriftedKinds(KeyOf(LOST_COPY));
    SoleOwner(LOST_COPY, ForkOf(F), ForkOf(F));
  }

  lemma LostIsNotWanted()
    requires Writable(ForkParent(ForkOf(F)), ServicesList(Expansion(F)))
    ensures !IsFinalKey(KeyOf(LOST_COPY), ServicesList(Expansion(F)), ForkParent(ForkOf(F)), CanonicalCopyName(ForkOf(F)))
  {
    assert "s" + "-" + "f" == "s-f" && "s-f"[0] != "g-f"[0];
    forall i | 0 <= i < |Expansion(F).services|
      ensures FinalKey(ServicesList(Expansion(F)), i, ForkParent(ForkOf(F)), CanonicalCopyName(ForkOf(F))) == CopyKey("s", ForkOf(F))
    {
      FinalIsCopy(Expansion(F), i);
    }
  }

  lemma LostIsGone(t: Store)
    requires Refreshed(DRIFTED, t, ForkParent(ForkOf(F)), Lists(Expansion(F)))
    ensures KeyOf(LOST_COPY) in DRIFTED && KeyOf(LOST_COPY) !in t
  {
    DriftedIsReady();
    UpdateFrames(DRIFTED, t, ForkOf(F), Expansion(F));
    LostIsOwned(ServicesList(Expansion(F)));
    LostIsNotWanted();
  }

  lemma DriftedCanBeReached() returns (t: Store, u: Store)
    ensures BothUpdated(DRIFTED, t, u, ForkOf(F), Expansion(F), "s") && ReachesCopies(u, ForkOf(F), Expansion(F), WEB, map["h" := "i"])
  {
    DriftedIsReady();
    DriftedIsRouted();
    DriftedAsks();
    SelectsWeb(F);
    NameOfCopy();
    t, u := ForkCanBeReached(DRIFTED, ForkOf(F), Expansion(F), WEB, map["h" := "i"]);
  }

  lemma NameOfCopy()
    ensures |CopyName("s", ForkOf(F))| <= LABEL_LIMIT && TemplateHarmless(Expansion(F))
  {
    CopyNameLength(F);
    assert |"f"| == 1;
  }

  /** The fork's next updates repair all of it: its requests reach its copies, and the copy of the service that is
      gone is deleted. */
  lemma DriftIsRepaired() returns (t: Store, u: Store)
    ensures BothUpdated(DRIFTED, t, u, ForkOf(F), Expansion(F), "s")
    ensures ReachesCopies(u, ForkOf(F), Expansion(F), WEB, map["h" := "i"])
    ensures KeyOf(LOST_COPY) in DRIFTED && KeyOf(LOST_COPY) !in t
  {
    t, u := DriftedCanBeReached();
    LostIsGone(t);
  }
}
