/** What a run of the mapping updater means: the exact set of mappings, when the iteration order
    matters, what a failed run leaves, and cleaning up after a fork through all managers. */
module MappingTheorems {
  import opened Kube
  import opened RefreshTheorems
  import opened Mappings
  import opened MappingSync

  // ---------------------------------------------------------------- the last writer of a key

  /** The last upstream that has this key for the identifier. */
  function LastUpstream(m: Manager, id: string, ups: seq<Upstream>, k: Key): Option<Upstream> {
    if ups == [] then None
    else
      var up := ups[|ups| - 1];
      if MappingKey(m, up.host, id) == k then Some(up) else LastUpstream(m, id, ups[..|ups| - 1], k)
  }

  /** What one identifier writes at a key. */
  ghost function ContentAt(job: Job, id: string, k: Key): Option<MappingSpec> {
    match LastUpstream(job.manager, id, job.manager.spec.upstreams, k)
    case None => None
    case Some(up) => Some(Content(job, id, up))
  }

  /** What a run over the identifiers in this order leaves at a key. */
  ghost function LastContent(job: Job, order: seq<string>, k: Key): Option<MappingSpec> {
    if order == [] then None
    else
      var last := ContentAt(job, order[|order| - 1], k);
      if last.Some? then last else LastContent(job, order[..|order| - 1], k)
  }

  /** `t` has at `k` what is written over `s`, if anything is. */
  ghost predicate HasContent(s: Store, t: Store, m: Manager, k: Key, content: Option<MappingSpec>) {
    match content
    case None => Same(s, t, k)
    case Some(spec) => k in t && t[k] == MappingLeft(s, m, k, spec)
  }

  lemma WriteLast(s: Store, job: Job, pairs: seq<Pair>, pr: Pair)
    ensures WriteAll(s, job, pairs + [pr]) == WritePair(WriteAll(s, job, pairs), job, pr)
  {
    assert (pairs + [pr])[..|pairs|] == pairs;
  }

  /** Writing one identifier's pairs after others. */
  lemma {:induction false} IdentifierWrites(s: Store, job: Job, before: seq<Pair>, id: string, ups: seq<Upstream>, k: Key,
                                            content: Option<MappingSpec>)
    requires HasContent(s, WriteAll(s, job, before), job.manager, k, content)
    ensures var up := LastUpstream(job.manager, id, ups, k);
      HasContent(s, WriteAll(s, job, before + PairsOf(id, ups)), job.manager, k,
                 if up.None? then content else Some(Content(job, id, up.value)))
  {
    if ups == [] {
      assert PairsOf(id, ups) == [] && before + [] == before;
    } else {
      var fewer, pr := ups[..|ups| - 1], Pair(id, ups[|ups| - 1]);
      IdentifierWrites(s, job, before, id, fewer, k, content);
      OneMoreWrite(s, job, before, PairsOf(id, fewer), pr);
      LastPair(id, ups);
      var up := LastUpstream(job.manager, id, fewer, k);
      OneMoreContent(s, WriteAll(s, job, before + PairsOf(id, fewer)), job, pr, k,
                     if up.None? then content else Some(Content(job, id, up.value)));
    }
  }

  lemma OneMoreContent(s: Store, t: Store, job: Job, pr: Pair, k: Key, content: Option<MappingSpec>)
    requires HasContent(s, t, job.manager, k, content)
    ensures HasContent(s, t[PairKey(job.manager, pr) := Landed(s, job, pr)], job.manager, k,
                       if PairKey(job.manager, pr) == k then Some(Content(job, pr.id, pr.upstream)) else content)
  {}

  lemma LastPair(id: string, ups: seq<Upstream>)
    requires ups != []
    ensures PairsOf(id, ups) == PairsOf(id, ups[..|ups| - 1]) + [Pair(id, ups[|ups| - 1])]
  {}

  lemma OneMoreWrite(s: Store, job: Job, before: seq<Pair>, rest: seq<Pair>, pr: Pair)
    ensures WriteAll(s, job, before + (rest + [pr])) == WriteAll(s, job, before + rest)[PairKey(job.manager, pr) := Landed(s, job, pr)]
  {
    assert before + (rest + [pr]) == (before + rest) + [pr];
    WriteLast(s, job, before + rest, pr);
    LandedAnyway(s, job, before + rest, pr);
  }

  lemma {:induction false} OrderWrites(s: Store, job: Job, order: seq<string>, k: Key)
    ensures HasContent(s, WriteAll(s, job, Pairs(order, job.manager.spec.upstreams)), job.manager, k, LastContent(job, order, k))
  {
    if order != [] {
      var n, ups := |order| - 1, job.manager.spec.upstreams;
      OrderWrites(s, job, order[..n], k);
      IdentifierWrites(s, job, Pairs(order[..n], ups), order[n], ups, k, LastContent(job, order[..n], k));
    }
  }

  lemma {:induction false} LastUpstreamWhen(m: Manager, id: string, ups: seq<Upstream>, k: Key)
    ensures LastUpstream(m, id, ups, k).Some? <==> exists i :: 0 <= i < |ups| && k == MappingKey(m, ups[i].host, id)
  {
    if ups != [] {
      LastUpstreamWhen(m, id, ups[..|ups| - 1], k);
      if LastUpstream(m, id, ups[..|ups| - 1], k).Some? {
        var i :| 0 <= i < |ups[..|ups| - 1]| && k == MappingKey(m, ups[..|ups| - 1][i].host, id);
        assert k == MappingKey(m, ups[i].host, id);
      }
    }
  }

  lemma {:induction false} LastContentWhen(job: Job, order: seq<string>, k: Key)
    ensures LastContent(job, order, k).Some? <==> exists id :: id in order && ContentAt(job, id, k).Some?
  {
    if order != [] {
      LastContentWhen(job, order[..|order| - 1], k);
      assert order[|order| - 1] in order;
    }
  }

  /** A key is desired exactly when some identifier writes it. */
  lemma DesiredWhen(job: Job, order: seq<string>, k: Key)
    requires Orders(order, Identifiers(job.forks))
    ensures Desired(job, k) <==> LastContent(job, order, k).Some?
  {
    LastContentWhen(job, order, k);
    forall id ensures ContentAt(job, id, k).Some? <==>
        exists i :: 0 <= i < |job.manager.spec.upstreams| && k == MappingKey(job.manager, job.manager.spec.upstreams[i].host, id)
    {
      LastUpstreamWhen(job.manager, id, job.manager.spec.upstreams, k);
    }
  }

  // ---------------------------------------------------------------- the exact set

  /** What a successful run leaves, key by key. */
  ghost predicate Outcome(s: Store, t: Store, job: Job, order: seq<string>) {
    forall k :: if k in StaleKeys(s, job) then k !in t else HasContent(s, t, job.manager, k, LastContent(job, order, k))
  }

  lemma RunOutcome(s: Store, t: Store, job: Job, order: seq<string>)
    requires Orders(order, Identifiers(job.forks))
    requires t == WriteAll(s, job, Pairs(order, job.manager.spec.upstreams)) - StaleKeys(s, job)
    ensures Outcome(s, t, job, order)
  {
    forall k | k !in StaleKeys(s, job) ensures HasContent(s, t, job.manager, k, LastContent(job, order, k)) {
      OrderWrites(s, job, order, k);
    }
  }

  lemma FullRun(s: Store, t: Store, job: Job) returns (order: seq<string>)
    requires SyncedFully(s, t, job)
    ensures Orders(order, Identifiers(job.forks)) && Outcome(s, t, job, order)
    ensures t == WriteAll(s, job, Pairs(order, job.manager.spec.upstreams)) - StaleKeys(s, job)
    ensures forall k :: Desired(job, k) ==> Accepted(s, job.manager, k)
  {
    order :| Orders(order, Identifiers(job.forks)) && Synced(s, t, job, order, |Pairs(order, job.manager.spec.upstreams)|, StaleKeys(s, job));
    var pairs := Pairs(order, job.manager.spec.upstreams);
    assert pairs[..|pairs|] == pairs;
    RunOutcome(s, t, job, order);
    forall k | Desired(job, k) ensures Accepted(s, job.manager, k) {
      WritesDesired(job, order, k);
      var i :| 0 <= i < |pairs| && PairKey(job.manager, pairs[i]) == k;
    }
  }

  /** The mappings that carry the manager's name are exactly the desired ones. */
  ghost predicate Exact(t: Store, job: Job) {
    forall k :: Labelled(t, job.manager, k) <==> Desired(job, k)
  }

  lemma CarriesLabel(m: Manager, labels: map<string, string>)
    ensures Matches(LabelQuery(m), labels) <==> MANAGER_LABEL in labels && labels[MANAGER_LABEL] == m.name
  {
    var wanted := map[MANAGER_LABEL := m.name];
    assert MANAGER_LABEL in wanted;
  }

  /** A successful run leaves exactly the desired mappings under the manager's label, in all
      namespaces and even when keys collide, and leaves alone what is neither labelled nor desired. */
  lemma MappingSetIsExact(s: Store, t: Store, job: Job)
    requires SyncedFully(s, t, job)
    ensures Exact(t, job)
    ensures forall k :: !Desired(job, k) && !Labelled(s, job.manager, k) ==> Same(s, t, k)
  {
    var order := FullRun(s, t, job);
    forall k ensures Labelled(t, job.manager, k) <==> Desired(job, k)
             ensures !Desired(job, k) && !Labelled(s, job.manager, k) ==> Same(s, t, k)
    {
      DesiredWhen(job, order, k);
      if Desired(job, k) {
        var spec := LastContent(job, order, k).value;
        CarriesLabel(job.manager, MappingLeft(s, job.manager, k, spec).labels);
      }
    }
  }

  /** The mapping for an identifier and an upstream is stored, field by field. */
  ghost predicate HoldsMapping(s: Store, t: Store, k: Key, job: Job, id: string, up: Upstream) {
    var owner := OwnerRef("fork.k8s.wantedly.com/v1beta1", "ForkManager", job.manager.name, true);
    && k.kind == Kind.Mapping && k.namespace == job.manager.namespace && IsMappingName(k.name, up.host, id)
    && k in t && t[k].name == k.name && t[k].namespace == k.namespace
    && t[k].labels == map["fork.k8s.wantedly.com/manager" := job.manager.name]
    && owner in t[k].owners && (k !in s ==> t[k].owners == [owner])
    && t[k].body.MappingBody? && IsMappingFor(t[k].body.mapping, job, id, up)
  }

  /** What a successful run stores: at every desired key the mapping for some identifier in use and upstream of the
      manager with this key. */
  lemma MappingContents(s: Store, t: Store, job: Job, k: Key)
    requires SyncedFully(s, t, job) && Desired(job, k)
    ensures exists id, up :: id in Identifiers(job.forks) && up in job.manager.spec.upstreams && HoldsMapping(s, t, k, job, id, up)
  {
    var order := FullRun(s, t, job);
    DesiredWhen(job, order, k);
    var id := LastContentFrom(job, order, k);
    var up := LastUpstream(job.manager, id, job.manager.spec.upstreams, k).value;
    LastUpstreamIsOne(job.manager, id, job.manager.spec.upstreams, k);
    ContentIsStored(s, t, job, k, id, up);
  }

  lemma ContentIsStored(s: Store, t: Store, job: Job, k: Key, id: string, up: Upstream)
    requires k in t && t[k] == MappingLeft(s, job.manager, k, Content(job, id, up)) && k == MappingKey(job.manager, up.host, id)
    ensures HoldsMapping(s, t, k, job, id, up)
  {
    ContentFields(job, id, up);
    MappingNameMeaning(job.manager, up.host, id);
    UpsertHolds(OwnersAt(s, k), ManagerRef(job.manager));
  }

  lemma {:induction false} LastUpstreamIsOne(m: Manager, id: string, ups: seq<Upstream>, k: Key)
    requires LastUpstream(m, id, ups, k).Some?
    ensures LastUpstream(m, id, ups, k).value in ups && MappingKey(m, LastUpstream(m, id, ups, k).value.host, id) == k
  {
    var n := |ups| - 1;
    if MappingKey(m, ups[n].host, id) != k { LastUpstreamIsOne(m, id, ups[..n], k); }
  }

  /** The key is that of a mapping for the identifier of some fork and some upstream of the manager. */
  ghost predicate CalledFor(job: Job, k: Key) {
    && k.kind == Kind.Mapping && k.namespace == job.manager.namespace
    && exists f, up :: f in job.forks && up in job.manager.spec.upstreams && IsMappingName(k.name, up.host, f.spec.identifier)
  }

  /** Exactness, told of the store: the mappings of all namespaces that carry the manager's name in their label are those
      at the keys called for. */
  lemma ExactMeaning(t: Store, job: Job)
    ensures Exact(t, job) <==> forall k: Key ::
      (k in t && k.kind == Kind.Mapping && ("fork.k8s.wantedly.com/manager", job.manager.name) in t[k].labels.Items) <==> CalledFor(job, k)
  {
    forall k: Key
      ensures Labelled(t, job.manager, k) <==>
        k in t && k.kind == Kind.Mapping && ("fork.k8s.wantedly.com/manager", job.manager.name) in t[k].labels.Items
      ensures Desired(job, k) <==> CalledFor(job, k)
    {
      if k in t { CarriesLabel(job.manager, t[k].labels); }
      DesiredMeaning(job, k);
    }
  }

  lemma DesiredMeaning(job: Job, k: Key)
    ensures Desired(job, k) <==> CalledFor(job, k)
  {
    var ups := job.manager.spec.upstreams;
    if Desired(job, k) {
      var id, i :| id in Identifiers(job.forks) && 0 <= i < |ups| && k == MappingKey(job.manager, ups[i].host, id);
      var f :| f in job.forks && f.spec.identifier == id;
      MappingNameMeaning(job.manager, ups[i].host, id);
      assert ups[i] in ups && IsMappingName(k.name, ups[i].host, f.spec.identifier);
    }
    if CalledFor(job, k) {
      var f, up :| f in job.forks && up in ups && IsMappingName(k.name, up.host, f.spec.identifier);
      var i :| 0 <= i < |ups| && ups[i] == up;
      NamedAlike(job.manager, k, up.host, f.spec.identifier);
      assert f.spec.identifier in Identifiers(job.forks);
    }
  }

  lemma NamedAlike(m: Manager, k: Key, host: string, id: string)
    requires k.kind == Kind.Mapping && k.namespace == m.namespace && IsMappingName(k.name, host, id)
    ensures k == MappingKey(m, host, id)
  {
    MappingNameMeaning(m, host, id);
    assert k.name == MappingKey(m, host, id).name;
  }

  // ---------------------------------------------------------------- iteration order

  /** Identifiers that share a key write the same there. */
  ghost predicate AgreeOnSharedKeys(job: Job) {
    forall i, j, k | i in Identifiers(job.forks) && j in Identifiers(job.forks)
      :: ContentAt(job, i, k).Some? && ContentAt(job, j, k).Some? ==> ContentAt(job, i, k) == ContentAt(job, j, k)
  }

  /** All successful runs from `s` end alike. */
  ghost predicate OneOutcome(s: Store, job: Job) {
    forall t, u :: SyncedFully(s, t, job) && SyncedFully(s, u, job) ==> t == u
  }

  lemma {:induction false} LastContentFrom(job: Job, order: seq<string>, k: Key) returns (id: string)
    requires LastContent(job, order, k).Some?
    ensures id in order && ContentAt(job, id, k) == LastContent(job, order, k)
  {
    id := order[|order| - 1];
    if ContentAt(job, id, k).None? {
      id := LastContentFrom(job, order[..|order| - 1], k);
    }
  }

  lemma ContentForgetsOrder(job: Job, a: seq<string>, b: seq<string>, k: Key)
    requires AgreeOnSharedKeys(job) && Orders(a, Identifiers(job.forks)) && Orders(b, Identifiers(job.forks))
    ensures LastContent(job, a, k) == LastContent(job, b, k)
  {
    DesiredWhen(job, a, k);
    DesiredWhen(job, b, k);
    if Desired(job, k) {
      var i := LastContentFrom(job, a, k);
      var j := LastContentFrom(job, b, k);
    }
  }

  lemma OutcomesAlike(s: Store, t: Store, u: Store, job: Job, a: seq<string>, b: seq<string>)
    requires Outcome(s, t, job, a) && Outcome(s, u, job, b)
    requires forall k :: LastContent(job, a, k) == LastContent(job, b, k)
    ensures t == u
  {
    forall k ensures Same(t, u, k) {
      if k in StaleKeys(s, job) {} else {
        assert HasContent(s, t, job.manager, k, LastContent(job, a, k));
        assert HasContent(s, u, job.manager, k, LastContent(job, b, k));
      }
    }
    SameEverywhere(t, u);
  }

  lemma SameEverywhere(t: Store, u: Store)
    requires forall k :: Same(t, u, k)
    ensures t == u
  {
    forall k ensures k in t <==> k in u { assert Same(t, u, k); }
    forall k | k in t ensures t[k] == u[k] { assert Same(t, u, k); }
  }

  lemma OrderForgotten(s: Store, t: Store, u: Store, job: Job)
    requires AgreeOnSharedKeys(job) && SyncedFully(s, t, job) && SyncedFully(s, u, job)
    ensures t == u
  {
    var a := FullRun(s, t, job);
    var b := FullRun(s, u, job);
    forall k ensures LastContent(job, a, k) == LastContent(job, b, k) {
      ContentForgetsOrder(job, a, b, k);
    }
    OutcomesAlike(s, t, u, job, a, b);
  }

  lemma OrderExists(ids: set<string>) returns (order: seq<string>)
    ensures Orders(order, ids)
  {
    order := [];
    if ids != {} {
      var id :| id in ids;
      var rest := OrderExists(ids - {id});
      order := rest + [id];
    }
  }

  /** The run over an order, when every desired key is free to be taken. */
  lemma RunExists(s: Store, job: Job, order: seq<string>) returns (t: Store)
    requires Orders(order, Identifiers(job.forks)) && forall k :: Desired(job, k) ==> Accepted(s, job.manager, k)
    ensures SyncedFully(s, t, job) && Outcome(s, t, job, order)
  {
    var pairs := Pairs(order, job.manager.spec.upstreams);
    assert pairs[..|pairs|] == pairs;
    t := WriteAll(s, job, pairs) - StaleKeys(s, job);
    RunOutcome(s, t, job, order);
    forall i | 0 <= i < |pairs| ensures Accepted(s, job.manager, PairKey(job.manager, pairs[i])) {
      assert Writes(job.manager, pairs, PairKey(job.manager, pairs[i]));
      WritesDesired(job, order, PairKey(job.manager, pairs[i]));
    }
    assert Synced(s, t, job, order, |pairs|, StaleKeys(s, job));
  }

  /** Exactly when the iteration order over the groups cannot matter. */
  lemma OrderMattersNot(s: Store, job: Job)
    requires forall k :: Desired(job, k) ==> Accepted(s, job.manager, k)
    ensures OneOutcome(s, job) <==> AgreeOnSharedKeys(job)
  {
    if AgreeOnSharedKeys(job) {
      forall t, u | SyncedFully(s, t, job) && SyncedFully(s, u, job) ensures t == u {
        OrderForgotten(s, t, u, job);
      }
    }
    if OneOutcome(s, job) {
      forall i, j, k | i in Identifiers(job.forks) && j in Identifiers(job.forks)
          && ContentAt(job, i, k).Some? && ContentAt(job, j, k).Some?
        ensures ContentAt(job, i, k) == ContentAt(job, j, k)
      {
        if i != j {
          LastDecides(s, job, i, j, k);
        }
      }
    }
  }

  lemma LastDecides(s: Store, job: Job, i: string, j: string, k: Key)
    requires forall k :: Desired(job, k) ==> Accepted(s, job.manager, k)
    requires OneOutcome(s, job) && i in Identifiers(job.forks) && j in Identifiers(job.forks) && i != j
    requires ContentAt(job, i, k).Some? && ContentAt(job, j, k).Some?
    ensures ContentAt(job, i, k) == ContentAt(job, j, k)
  {
    var t := RunEndingIn(s, job, i, k);
    var u := RunEndingIn(s, job, j, k);
    assert t == u;
  }

  lemma RunEndingIn(s: Store, job: Job, id: string, k: Key) returns (t: Store)
    requires forall k :: Desired(job, k) ==> Accepted(s, job.manager, k)
    requires id in Identifiers(job.forks) && ContentAt(job, id, k).Some?
    ensures SyncedFully(s, t, job)
    ensures k in t && t[k] == MappingLeft(s, job.manager, k, ContentAt(job, id, k).value)
  {
    var order := OrderEndingIn(Identifiers(job.forks), id);
    t := RunExists(s, job, order);
    DesiredIsWritten(s, t, job, order, id, k);
  }

  lemma OrderEndingIn(ids: set<string>, id: string) returns (order: seq<string>)
    requires id in ids
    ensures Orders(order, ids) && order != [] && order[|order| - 1] == id
  {
    var rest := OrderExists(ids - {id});
    order := rest + [id];
  }

  /** The last identifier of the order decides what is at its keys. */
  lemma DesiredIsWritten(s: Store, t: Store, job: Job, order: seq<string>, id: string, k: Key)
    requires Orders(order, Identifiers(job.forks)) && Outcome(s, t, job, order)
    requires order != [] && order[|order| - 1] == id && ContentAt(job, id, k).Some?
    ensures k in t && t[k] == MappingLeft(s, job.manager, k, ContentAt(job, id, k).value)
  {
    DesiredWhen(job, order, k);
    assert HasContent(s, t, job.manager, k, LastContent(job, order, k));
  }

  // ---------------------------------------------------------------- when keys are distinct

  predicate Dotless(s: string) {
    forall i :: 0 <= i < |s| ==> s[i] != '.'
  }

  /** No normalised host, followed by a dash, is a proper prefix of another. */
  ghost predicate PrefixFree(ups: seq<Upstream>) {
    forall a, b :: 0 <= a < |ups| && 0 <= b < |ups| && Dashed(ups[a].host) + "-" <= Dashed(ups[b].host) + "-" ==>
      Dashed(ups[a].host) == Dashed(ups[b].host)
  }

  /** The key tells the identifier and the normalised host. */
  ghost predicate KeysTellApart(m: Manager, ups: seq<Upstream>) {
    forall i, j, a, b | Dotless(i) && Dotless(j) && 0 <= a < |ups| && 0 <= b < |ups|
      :: MappingKey(m, ups[a].host, i) == MappingKey(m, ups[b].host, j) ==> i == j && Dashed(ups[a].host) == Dashed(ups[b].host)
  }

  lemma NameParts(host: string, id: string)
    requires Dotless(id)
    ensures MappingName(host, id) == Dashed(host) + "-" + id
  {}

  lemma EqualJoins(x: string, y: string, i: string, j: string)
    requires x + i == y + j && |x| <= |y|
    ensures x <= y && i == y[|x|..] + j
  {
    assert (x + i)[..|x|] == x && (y + j)[..|x|] == y[..|x|];
    assert (x + i)[|x|..] == i && (y + j)[|x|..] == y[|x|..] + j;
  }

  lemma NoCollision(m: Manager, ups: seq<Upstream>, i: string, j: string, a: nat, b: nat)
    requires PrefixFree(ups) && Dotless(i) && Dotless(j) && a < |ups| && b < |ups|
    requires MappingKey(m, ups[a].host, i) == MappingKey(m, ups[b].host, j)
    ensures i == j && Dashed(ups[a].host) == Dashed(ups[b].host)
  {
    NameParts(ups[a].host, i);
    NameParts(ups[b].host, j);
    var x, y := Dashed(ups[a].host) + "-", Dashed(ups[b].host) + "-";
    if |x| <= |y| { EqualJoins(x, y, i, j); } else { EqualJoins(y, x, j, i); }
    assert x[..|x| - 1] == Dashed(ups[a].host) && y[..|y| - 1] == Dashed(ups[b].host);
  }

  lemma Collision(m: Manager, ups: seq<Upstream>, a: nat, b: nat)
    requires a < |ups| && b < |ups| && Dashed(ups[a].host) + "-" <= Dashed(ups[b].host) + "-"
    requires KeysTellApart(m, ups)
    ensures Dashed(ups[a].host) == Dashed(ups[b].host)
  {
    var x, y := Dashed(ups[a].host) + "-", Dashed(ups[b].host) + "-";
    var i := y[|x|..];
    assert x + i == y && y + "" == y;
    assert Dotless(i) && Dotless("");
    NameParts(ups[a].host, i);
    NameParts(ups[b].host, "");
    assert MappingKey(m, ups[a].host, i) == MappingKey(m, ups[b].host, "");
    assert i == "";
    assert |x| == |y| && x == y;
    assert x[..|x| - 1] == Dashed(ups[a].host) && y[..|y| - 1] == Dashed(ups[b].host);
  }

  /** Keys are distinct for every choice of identifiers without a dot exactly when the
      normalised hosts, each followed by a dash, are free of proper prefixes. */
  lemma KeysDistinctWhen(m: Manager, ups: seq<Upstream>)
    ensures KeysTellApart(m, ups) <==> PrefixFree(ups)
  {
    if PrefixFree(ups) {
      forall i, j, a, b | Dotless(i) && Dotless(j) && 0 <= a < |ups| && 0 <= b < |ups|
          && MappingKey(m, ups[a].host, i) == MappingKey(m, ups[b].host, j)
        ensures i == j && Dashed(ups[a].host) == Dashed(ups[b].host)
      {
        NoCollision(m, ups, i, j, a, b);
      }
    }
    if KeysTellApart(m, ups) {
      forall a, b | 0 <= a < |ups| && 0 <= b < |ups| && Dashed(ups[a].host) + "-" <= Dashed(ups[b].host) + "-"
        ensures Dashed(ups[a].host) == Dashed(ups[b].host)
      {
        Collision(m, ups, a, b);
      }
    }
  }

  /** With such hosts and identifiers the outcome is one function of the forks and the upstreams. */
  lemma DistinctKeysDecide(s: Store, t: Store, u: Store, job: Job)
    requires PrefixFree(job.manager.spec.upstreams) && forall id :: id in Identifiers(job.forks) ==> Dotless(id)
    requires SyncedFully(s, t, job) && SyncedFully(s, u, job)
    ensures t == u
  {
    var m, ups := job.manager, job.manager.spec.upstreams;
    forall i, j, k | i in Identifiers(job.forks) && j in Identifiers(job.forks)
        && ContentAt(job, i, k).Some? && ContentAt(job, j, k).Some?
      ensures ContentAt(job, i, k) == ContentAt(job, j, k)
    {
      LastUpstreamWhen(m, i, ups, k);
      LastUpstreamWhen(m, j, ups, k);
      var a :| 0 <= a < |ups| && k == MappingKey(m, ups[a].host, i);
      var b :| 0 <= b < |ups| && k == MappingKey(m, ups[b].host, j);
      NoCollision(m, ups, i, j, a, b);
    }
    OrderForgotten(s, t, u, job);
  }

  // ---------------------------------------------------------------- failed runs

  /** At every point of a run, finished or failed: every desired mapping there was is still there,
      nothing is deleted before all is written, and only labelled or desired mappings change. */
  lemma NoGap(s: Store, t: Store, job: Job, order: seq<string>, n: nat, dropped: set<Key>)
    requires Synced(s, t, job, order, n, dropped)
    ensures forall k :: Desired(job, k) && k in s ==> k in t
    ensures (exists k :: k in s && k !in t) ==> forall k :: Desired(job, k) ==> k in t
    ensures forall k :: !Desired(job, k) && !Labelled(s, job.manager, k) ==> Same(s, t, k)
  {
    var m, pairs := job.manager, Pairs(order, job.manager.spec.upstreams);
    forall k ensures Desired(job, k) && k in s ==> k in t
             ensures Desired(job, k) && dropped != {} ==> k in t
             ensures k in s && k !in t ==> dropped != {}
             ensures !Desired(job, k) && !Labelled(s, job.manager, k) ==> Same(s, t, k)
    {
      assert dropped != {} ==> pairs[..n] == pairs;
      WritesDesired(job, order, k);
      if Writes(m, pairs[..n], k) {
        var i := LastWriter(m, pairs[..n], k);
        WrittenKey(s, job, pairs[..n], i);
        assert PairKey(m, pairs[i]) == k;
      } else {
        UnwrittenKey(s, job, pairs[..n], k);
      }
    }
  }

  /** What a run has left at a key: as before, or deleted as stale, or written with the manager among the owners. */
  ghost predicate Touched(s: Store, t: Store, job: Job, k: Key) {
    || Same(s, t, k)
    || (k in StaleKeys(s, job) && k !in t)
    || (Desired(job, k) && Accepted(s, job.manager, k) && exists spec :: HasContent(s, t, job.manager, k, Some(spec)))
  }

  lemma PartTouches(s: Store, t: Store, job: Job, k: Key)
    requires SyncedPartly(s, t, job)
    ensures Touched(s, t, job, k)
  {
    var order, n, dropped :| Synced(s, t, job, order, n, dropped);
    RunTouches(s, t, job, order, n, dropped, k);
  }

  lemma RunTouches(s: Store, t: Store, job: Job, order: seq<string>, n: nat, dropped: set<Key>, k: Key)
    requires Synced(s, t, job, order, n, dropped)
    ensures Touched(s, t, job, k)
  {
    var m, pairs := job.manager, Pairs(order, job.manager.spec.upstreams);
    if k !in dropped {
      if Writes(m, pairs[..n], k) {
        var i := LastWriter(m, pairs[..n], k);
        WrittenKey(s, job, pairs[..n], i);
        assert pairs[..n][i] == pairs[i];
        assert Writes(m, pairs, k);
        WritesDesired(job, order, k);
        assert HasContent(s, t, m, k, Some(Content(job, pairs[i].id, pairs[i].upstream)));
      } else {
        UnwrittenKey(s, job, pairs[..n], k);
      }
    }
  }

  /** A touched key looks the same to a later run: as stale, as acceptable, and in its owners. */
  lemma TouchedLooksAlike(s: Store, t: Store, job: Job, k: Key)
    requires Touched(s, t, job, k)
    ensures k in StaleKeys(t, job) ==> k in StaleKeys(s, job)
    ensures k in StaleKeys(s, job) && k !in StaleKeys(t, job) ==> k !in t
    ensures Desired(job, k) && Accepted(t, job.manager, k) ==> Accepted(s, job.manager, k)
    ensures Desired(job, k) ==> Upsert(OwnersAt(t, k), ManagerRef(job.manager)) == Upsert(OwnersAt(s, k), ManagerRef(job.manager))
    ensures !Desired(job, k) && k !in StaleKeys(s, job) ==> Same(s, t, k)
  {
    UpsertHolds(OwnersAt(s, k), ManagerRef(job.manager));
  }

  /** A successful run after a failed one ends as a successful run from the start may. */
  lemma RetryAfterFailure(s: Store, t: Store, u: Store, job: Job)
    requires SyncedPartly(s, t, job) && SyncedFully(t, u, job)
    ensures SyncedFully(s, u, job)
  {
    var order := FullRun(t, u, job);
    forall k ensures Touched(s, t, job, k) { PartTouches(s, t, job, k); }
    forall k | Desired(job, k) ensures Accepted(s, job.manager, k) { TouchedLooksAlike(s, t, job, k); }
    var v := RunExists(s, job, order);
    forall k ensures Same(u, v, k) {
      TouchedLooksAlike(s, t, job, k);
      DesiredWhen(job, order, k);
      EndsAlike(s, t, u, v, job, order, k);
    }
    SameEverywhere(u, v);
  }

  lemma EndsAlike(s: Store, t: Store, u: Store, v: Store, job: Job, order: seq<string>, k: Key)
    requires Outcome(t, u, job, order) && Outcome(s, v, job, order)
    requires Desired(job, k) <==> LastContent(job, order, k).Some?
    requires k in StaleKeys(t, job) ==> k in StaleKeys(s, job)
    requires k in StaleKeys(s, job) && k !in StaleKeys(t, job) ==> k !in t
    requires Desired(job, k) ==> Upsert(OwnersAt(t, k), ManagerRef(job.manager)) == Upsert(OwnersAt(s, k), ManagerRef(job.manager))
    requires !Desired(job, k) && k !in StaleKeys(s, job) ==> Same(s, t, k)
    ensures Same(u, v, k)
  {
    if k !in StaleKeys(t, job) { assert HasContent(t, u, job.manager, k, LastContent(job, order, k)); }
    if k !in StaleKeys(s, job) { assert HasContent(s, v, job.manager, k, LastContent(job, order, k)); }
  }

  /** Running again on its own result changes nothing, when identifiers agree on shared keys. */
  lemma SecondRunChangesNothing(s: Store, t: Store, u: Store, job: Job)
    requires AgreeOnSharedKeys(job) && SyncedFully(s, t, job) && SyncedFully(t, u, job)
    ensures t == u
  {
    FullIsPart(s, t, job);
    RetryAfterFailure(s, t, u, job);
    OrderForgotten(s, t, u, job);
  }

  lemma FullIsPart(s: Store, t: Store, job: Job)
    requires SyncedFully(s, t, job)
    ensures SyncedPartly(s, t, job)
  {}
}
