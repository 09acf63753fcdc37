/** Writing the mappings of a manager, deleting those no longer called for, and doing so for
    all managers. */
module MappingSync {
  import opened Kube
  import opened RefreshTheorems
  import opened ForkApp
  import opened Mappings

  datatype Pair = Pair(id: string, upstream: Upstream)

  function ManagerParent(m: Manager): Parent {
    Parent(SchemeGVK(Kind.ForkManager), Kind.ForkManager, m.namespace, m.name)
  }

  function ManagerRef(m: Manager): OwnerRef {
    ControllerRef(ManagerParent(m))
  }

  function PairKey(m: Manager, pr: Pair): Key {
    MappingKey(m, pr.upstream.host, pr.id)
  }

  // ---------------------------------------------------------------- what is called for

  /** The keys of all pairs of an identifier in use and an upstream. */
  ghost predicate Desired(job: Job, k: Key) {
    exists id, i :: id in Identifiers(job.forks) && 0 <= i < |job.manager.spec.upstreams|
                    && k == MappingKey(job.manager, job.manager.spec.upstreams[i].host, id)
  }

  function LabelQuery(m: Manager): Query {
    By(LabelSelector(map[MANAGER_LABEL := m.name], []))
  }

  /** A mapping that carries the manager's name. */
  ghost predicate Labelled(s: Store, m: Manager, k: Key) {
    k in s && k.kind == Kind.Mapping && Matches(LabelQuery(m), s[k].labels)
  }

  ghost function StaleKeys(s: Store, job: Job): set<Key> {
    set k | k in s && Labelled(s, job.manager, k) && !Desired(job, k)
  }

  // ---------------------------------------------------------------- writing

  ghost function OwnersAt(s: Store, k: Key): seq<OwnerRef> {
    if k in s then s[k].owners else []
  }

  /** No other controller claims the mapping at this key. */
  ghost predicate Accepted(s: Store, m: Manager, k: Key) {
    !ControlledByOther(OwnersAt(s, k), ManagerRef(m))
  }

  /** The mapping left at a key of the manager: all but the owner references is overwritten. */
  ghost function MappingLeft(s: Store, m: Manager, k: Key, spec: MappingSpec): Object {
    Object(k.name, k.namespace, map[MANAGER_LABEL := m.name], Upsert(OwnersAt(s, k), ManagerRef(m)), MappingBody(spec))
  }

  /** The mapping written for a pair. */
  ghost function Landed(s: Store, job: Job, pr: Pair): Object {
    MappingLeft(s, job.manager, PairKey(job.manager, pr), Content(job, pr.id, pr.upstream))
  }

  ghost function WritePair(s: Store, job: Job, pr: Pair): Store {
    s[PairKey(job.manager, pr) := Landed(s, job, pr)]
  }

  ghost function WriteAll(s: Store, job: Job, pairs: seq<Pair>): Store {
    if pairs == [] then s
    else WritePair(WriteAll(s, job, pairs[..|pairs| - 1]), job, pairs[|pairs| - 1])
  }

  function PairsOf(id: string, upstreams: seq<Upstream>): seq<Pair> {
    seq(|upstreams|, i requires 0 <= i < |upstreams| => Pair(id, upstreams[i]))
  }

  /** All pairs, identifier by identifier in the given order. */
  function Pairs(order: seq<string>, upstreams: seq<Upstream>): seq<Pair> {
    if order == [] then []
    else Pairs(order[..|order| - 1], upstreams) + PairsOf(order[|order| - 1], upstreams)
  }

  /** One possible iteration order over the groups. */
  ghost predicate Orders(order: seq<string>, ids: set<string>) {
    (forall id :: id in order <==> id in ids) && forall i, j :: 0 <= i < j < |order| ==> order[i] != order[j]
  }

  /** The groups an iteration has got to. */
  ghost predicate Begins(order: seq<string>, ids: set<string>) {
    (forall id :: id in order ==> id in ids) && forall i, j :: 0 <= i < j < |order| ==> order[i] != order[j]
  }

  /** What a run has done: some of the writes, in order, and after all of them some of the deletions. */
  ghost predicate Synced(s: Store, t: Store, job: Job, order: seq<string>, n: nat, dropped: set<Key>) {
    var pairs := Pairs(order, job.manager.spec.upstreams);
    && Begins(order, Identifiers(job.forks)) && n <= |pairs|
    && dropped <= StaleKeys(s, job) && (dropped != {} ==> n == |pairs| && Orders(order, Identifiers(job.forks)))
    && (forall i :: 0 <= i < n ==> Accepted(s, job.manager, PairKey(job.manager, pairs[i])))
    && t == WriteAll(s, job, pairs[..n]) - dropped
  }

  ghost predicate SyncedFully(s: Store, t: Store, job: Job) {
    exists order :: Orders(order, Identifiers(job.forks)) && Synced(s, t, job, order, |Pairs(order, job.manager.spec.upstreams)|, StaleKeys(s, job))
  }

  ghost predicate SyncedPartly(s: Store, t: Store, job: Job) {
    exists order, n, dropped :: Synced(s, t, job, order, n, dropped)
  }

  // ---------------------------------------------------------------- writes, key by key

  ghost predicate Writes(m: Manager, pairs: seq<Pair>, k: Key) {
    exists i :: 0 <= i < |pairs| && PairKey(m, pairs[i]) == k
  }

  lemma {:induction false} UnwrittenKey(s: Store, job: Job, pairs: seq<Pair>, k: Key)
    requires !Writes(job.manager, pairs, k)
    ensures Same(s, WriteAll(s, job, pairs), k)
  {
    if pairs != [] {
      var n := |pairs| - 1;
      assert forall i :: 0 <= i < n ==> pairs[..n][i] == pairs[i];
      UnwrittenKey(s, job, pairs[..n], k);
    }
  }

  /** The last pair that writes a key decides its content; the owners are those from before
      the run, with the manager added. */
  lemma {:induction false} WrittenKey(s: Store, job: Job, pairs: seq<Pair>, n: nat)
    requires n < |pairs| && forall i :: n < i < |pairs| ==> PairKey(job.manager, pairs[i]) != PairKey(job.manager, pairs[n])
    ensures var k := PairKey(job.manager, pairs[n]);
      k in WriteAll(s, job, pairs) && WriteAll(s, job, pairs)[k] == Landed(s, job, pairs[n])
  {
    var m := |pairs| - 1;
    if n == m {
      LastLands(s, job, pairs);
    } else {
      var rest := pairs[..m];
      assert forall i :: n < i < m ==> rest[i] == pairs[i];
      WrittenKey(s, job, rest, n);
      WriteElsewhere(WriteAll(s, job, rest), job, pairs[m], PairKey(job.manager, pairs[n]));
    }
  }

  lemma LastLands(s: Store, job: Job, pairs: seq<Pair>)
    requires pairs != []
    ensures var last := pairs[|pairs| - 1]; var k := PairKey(job.manager, last);
      k in WriteAll(s, job, pairs) && WriteAll(s, job, pairs)[k] == Landed(s, job, last)
  {
    LandedAnyway(s, job, pairs[..|pairs| - 1], pairs[|pairs| - 1]);
  }

  lemma WriteElsewhere(s: Store, job: Job, pr: Pair, k: Key)
    requires PairKey(job.manager, pr) != k
    ensures Same(s, WritePair(s, job, pr), k)
  {}

  /** What a pair writes does not depend on the writes before it. */
  lemma LandedAnyway(s: Store, job: Job, pairs: seq<Pair>, pr: Pair)
    ensures Landed(WriteAll(s, job, pairs), job, pr) == Landed(s, job, pr)
  {
    OwnersOnce(s, job, pairs, PairKey(job.manager, pr));
  }

  /** Adding the manager to the owners once more changes nothing. */
  lemma {:induction false} OwnersOnce(s: Store, job: Job, pairs: seq<Pair>, k: Key)
    ensures Upsert(OwnersAt(WriteAll(s, job, pairs), k), ManagerRef(job.manager)) == Upsert(OwnersAt(s, k), ManagerRef(job.manager))
  {
    if pairs != [] {
      var n := |pairs| - 1;
      OwnersOnce(s, job, pairs[..n], k);
      UpsertHolds(OwnersAt(s, k), ManagerRef(job.manager));
    }
  }

  lemma {:induction false} LastWriter(m: Manager, pairs: seq<Pair>, k: Key) returns (n: nat)
    requires Writes(m, pairs, k)
    ensures n < |pairs| && PairKey(m, pairs[n]) == k
    ensures forall i :: n < i < |pairs| ==> PairKey(m, pairs[i]) != k
  {
    n := |pairs| - 1;
    if PairKey(m, pairs[n]) != k {
      var i :| 0 <= i < |pairs| && PairKey(m, pairs[i]) == k;
      assert pairs[..n][i] == pairs[i];
      n := LastWriter(m, pairs[..n], k);
    }
  }

  lemma {:induction false} PairIsListed(order: seq<string>, upstreams: seq<Upstream>, a: nat, i: nat) returns (j: nat)
    requires a < |order| && i < |upstreams|
    ensures j < |Pairs(order, upstreams)| && Pairs(order, upstreams)[j] == Pair(order[a], upstreams[i])
  {
    var n := |order| - 1;
    if a == n {
      j := |Pairs(order[..n], upstreams)| + i;
    } else {
      j := PairIsListed(order[..n], upstreams, a, i);
    }
  }

  lemma {:induction false} ListedIsPair(order: seq<string>, upstreams: seq<Upstream>, j: nat) returns (a: nat, i: nat)
    requires j < |Pairs(order, upstreams)|
    ensures a < |order| && i < |upstreams| && Pairs(order, upstreams)[j] == Pair(order[a], upstreams[i])
  {
    var n := |order| - 1;
    var before := Pairs(order[..n], upstreams);
    if j < |before| {
      a, i := ListedIsPair(order[..n], upstreams, j);
    } else {
      a, i := n, j - |before|;
    }
  }

  /** The keys written are the desired ones. */
  lemma WritesDesired(job: Job, order: seq<string>, k: Key)
    requires Begins(order, Identifiers(job.forks))
    ensures Writes(job.manager, Pairs(order, job.manager.spec.upstreams), k) ==> Desired(job, k)
    ensures Orders(order, Identifiers(job.forks)) && Desired(job, k) ==> Writes(job.manager, Pairs(order, job.manager.spec.upstreams), k)
  {
    var ups := job.manager.spec.upstreams;
    if Writes(job.manager, Pairs(order, ups), k) {
      var j :| 0 <= j < |Pairs(order, ups)| && PairKey(job.manager, Pairs(order, ups)[j]) == k;
      var a, i := ListedIsPair(order, ups, j);
      assert order[a] in Identifiers(job.forks);
    }
    if Orders(order, Identifiers(job.forks)) && Desired(job, k) {
      var id, i :| id in Identifiers(job.forks) && 0 <= i < |ups| && k == MappingKey(job.manager, ups[i].host, id);
      var a :| 0 <= a < |order| && order[a] == id;
      var j := PairIsListed(order, ups, a, i);
      assert PairKey(job.manager, Pairs(order, ups)[j]) == k;
    }
  }

  // ---------------------------------------------------------------- the updater

  function AsFork(o: Object): ForkResource
    requires o.body.ForkBody?
  {
    ForkResource(o.name, o.namespace, o.body.fork)
  }

  /** `forks` are all forks of the cluster, in some order. */
  ghost predicate ListsForks(s: Store, forks: seq<ForkResource>) {
    exists items: seq<Object> ::
      Enumerates(items, s, Kind.Fork, None, Everything) && |items| == |forks|
      && forall i :: 0 <= i < |items| ==> items[i].body.ForkBody? && forks[i] == AsFork(items[i])
  }

  /** The forks listed are those stored, in whatever namespace. */
  lemma ListedForksMeaning(s: Store, forks: seq<ForkResource>, f: ForkResource)
    requires WellKeyed(s) && ListsForks(s, forks)
    ensures f in forks <==> Key(Kind.Fork, f.namespace, f.name) in s && s[Key(Kind.Fork, f.namespace, f.name)].body == ForkBody(f.spec)
  {
    var items: seq<Object> :| Enumerates(items, s, Kind.Fork, None, Everything) && |items| == |forks|
      && forall i :: 0 <= i < |items| ==> items[i].body.ForkBody? && forks[i] == AsFork(items[i]);
    var k := Key(Kind.Fork, f.namespace, f.name);
    if k in s && s[k].body == ForkBody(f.spec) {
      assert Listed(s, Kind.Fork, None, Everything, s[k]);
      var i :| 0 <= i < |items| && items[i] == s[k];
      assert forks[i] == f;
    }
    if f in forks {
      var i :| 0 <= i < |forks| && forks[i] == f;
      assert items[i] in items;
    }
  }

  ghost predicate IsManager(s: Store, m: Manager) {
    var k := Key(Kind.ForkManager, m.namespace, m.name);
    k in s && s[k].body == ForkManagerBody(m.spec)
  }

  method ListForks(c: Cluster) returns (r: Result<seq<ForkResource>>)
    requires c.Valid()
    ensures r.Ok? ==> ListsForks(c.store, r.value)
  {
    var listed := c.List(Kind.Fork, None, Everything);
    if listed.Err? { return Err(listed.error); }
    var forks: seq<ForkResource> := [];
    for i := 0 to |listed.value|
      invariant |forks| == i
      invariant forall j :: 0 <= j < i ==> listed.value[j].body.ForkBody? && forks[j] == AsFork(listed.value[j])
    {
      assert listed.value[i] in listed.value;
      forks := forks + [AsFork(listed.value[i])];
    }
    r := Ok(forks);
  }

  method ListCandidates(c: Cluster, m: Manager) returns (r: Result<set<Key>>)
    requires c.Valid()
    ensures r.Ok? ==> forall k :: k in r.value <==> Labelled(c.store, m, k)
  {
    var listed := c.List(Kind.Mapping, None, LabelQuery(m));
    if listed.Err? { return Err(listed.error); }
    var candidates: set<Key> := {};
    for i := 0 to |listed.value|
      invariant forall k :: k in candidates <==> exists j :: 0 <= j < i && KeyOf(listed.value[j]) == k
    {
      candidates := candidates + {KeyOf(listed.value[i])};
    }
    forall k ensures k in candidates <==> Labelled(c.store, m, k) {
      if Labelled(c.store, m, k) {
        assert Listed(c.store, Kind.Mapping, None, LabelQuery(m), c.store[k]);
        var j :| 0 <= j < |listed.value| && listed.value[j] == c.store[k];
      }
      if j :| 0 <= j < |listed.value| && KeyOf(listed.value[j]) == k {
        assert listed.value[j] in listed.value;
      }
    }
    r := Ok(candidates);
  }

  method BuildContent(m: Manager, id: string, up: Upstream, group: seq<ForkResource>) returns (spec: MappingSpec)
    ensures spec == AppliedAll(BaseSpec(m, id, up), group)
  {
    spec := BaseSpec(m, id, up);
    for i := 0 to |group|
      invariant spec == AppliedAll(BaseSpec(m, id, up), group[..i])
    {
      assert group[..i + 1][..i] == group[..i];
      spec := ApplyOptionsToMapping(spec, group[i]);
    }
    assert group[..|group|] == group;
  }

  /** The get, mutate and write of one mapping; `applied` says whether it took effect. */
  method CreateOrUpdate(c: Cluster, job: Job, pr: Pair, group: seq<ForkResource>) returns (r: Result<()>, ghost applied: bool)
    requires c.Valid() && group == WithIdentifier(job.forks, pr.id)
    modifies c
    ensures c.Valid()
    ensures applied ==> Accepted(old(c.store), job.manager, PairKey(job.manager, pr))
    ensures c.store == if applied then WritePair(old(c.store), job, pr) else old(c.store)
    ensures r.Ok? ==> applied
  {
    applied := false;
    var key := PairKey(job.manager, pr);
    var live := c.Get(key);
    if live.Err? { return Err(live.error), false; }
    var spec := BuildContent(job.manager, pr.id, pr.upstream, group);
    var owners := SetController(ManagerParent(job.manager), key.namespace, if live.value.Some? then live.value.value.owners else []);
    if owners.Err? { return Err(owners.error), false; }
    var o := Object(key.name, key.namespace, map[MANAGER_LABEL := job.manager.name], owners.value, MappingBody(spec));
    assert o == Landed(c.store, job, pr);
    if live.value == Some(o) { return Ok(()), true; }
    r := c.Put(o);
    applied := r.Ok? || c.store != old(c.store);
  }

  /** The writes of the first pairs have been done, from `start`. */
  ghost predicate Written(start: Store, now: Store, job: Job, pairs: seq<Pair>) {
    && now == WriteAll(start, job, pairs)
    && forall i :: 0 <= i < |pairs| ==> Accepted(start, job.manager, PairKey(job.manager, pairs[i]))
  }

  lemma WrittenMore(start: Store, now: Store, job: Job, pairs: seq<Pair>, pr: Pair)
    requires Written(start, now, job, pairs) && Accepted(now, job.manager, PairKey(job.manager, pr))
    ensures Written(start, WritePair(now, job, pr), job, pairs + [pr])
  {
    var k := PairKey(job.manager, pr);
    assert (pairs + [pr])[..|pairs|] == pairs;
    if Writes(job.manager, pairs, k) {
      var i :| 0 <= i < |pairs| && PairKey(job.manager, pairs[i]) == k;
    } else {
      UnwrittenKey(start, job, pairs, k);
    }
  }

  /** `left` holds the candidates that none of the pairs writes. */
  ghost predicate Spared(m: Manager, pairs: seq<Pair>, candidates: set<Key>, left: set<Key>) {
    forall k :: k in left <==> k in candidates && !Writes(m, pairs, k)
  }

  /** The inner loop: the upstreams of one identifier. */
  method SyncIdentifier(c: Cluster, job: Job, id: string, group: seq<ForkResource>, candidates: set<Key>,
                        ghost start: Store, ghost before: seq<Pair>)
    returns (r: Result<()>, left: set<Key>, ghost done: nat)
    requires c.Valid() && group == WithIdentifier(job.forks, id)
    requires Written(start, c.store, job, before)
    modifies c
    ensures c.Valid() && done <= |job.manager.spec.upstreams|
    ensures Written(start, c.store, job, before + PairsOf(id, job.manager.spec.upstreams)[..done])
    ensures r.Ok? ==> done == |job.manager.spec.upstreams|
    ensures r.Ok? ==> Spared(job.manager, PairsOf(id, job.manager.spec.upstreams), candidates, left)
  {
    left, done := candidates, 0;
    var ups := job.manager.spec.upstreams;
    ghost var mine := PairsOf(id, ups);
    assert before + mine[..0] == before;
    for i := 0 to |ups|
      invariant c.Valid() && done == i
      invariant Written(start, c.store, job, before + mine[..i])
      invariant Spared(job.manager, mine[..i], candidates, left)
    {
      ghost var applied;
      r, left, applied := SyncPair(c, job, Pair(id, ups[i]), group, candidates, left, start, before, mine, i);
      if applied { done := i + 1; }
      if r.Err? { return; }
    }
    assert mine[..|ups|] == mine;
    r := Ok(());
  }

  /** The inner loop's body: one mapping. */
  method SyncPair(c: Cluster, job: Job, pr: Pair, group: seq<ForkResource>, ghost candidates: set<Key>, left: set<Key>,
                  ghost start: Store, ghost before: seq<Pair>, ghost mine: seq<Pair>, ghost i: nat)
    returns (r: Result<()>, rest: set<Key>, ghost applied: bool)
    requires c.Valid() && group == WithIdentifier(job.forks, pr.id) && i < |mine| && pr == mine[i]
    requires Written(start, c.store, job, before + mine[..i]) && Spared(job.manager, mine[..i], candidates, left)
    modifies c
    ensures c.Valid() && (r.Ok? ==> applied)
    ensures Written(start, c.store, job, before + mine[..if applied then i + 1 else i])
    ensures Spared(job.manager, mine[..i + 1], candidates, rest)
  {
    NextPair(start, c.store, job, before, mine, i);
    rest := left - {MappingKey(job.manager, pr.upstream.host, pr.id)};
    r, applied := CreateOrUpdate(c, job, pr, group);
  }

  lemma NextPair(start: Store, now: Store, job: Job, before: seq<Pair>, mine: seq<Pair>, i: nat)
    requires i < |mine| && Written(start, now, job, before + mine[..i])
    ensures Accepted(now, job.manager, PairKey(job.manager, mine[i])) ==>
      Written(start, WritePair(now, job, mine[i]), job, before + mine[..i + 1])
    ensures forall k :: Writes(job.manager, mine[..i + 1], k) <==> Writes(job.manager, mine[..i], k) || k == PairKey(job.manager, mine[i])
  {
    OneMorePair(before, mine, i);
    if Accepted(now, job.manager, PairKey(job.manager, mine[i])) {
      WrittenMore(start, now, job, before + mine[..i], mine[i]);
    }
    WritesMore(job.manager, mine[..i], mine[i]);
  }

  lemma OneMorePair(before: seq<Pair>, mine: seq<Pair>, i: nat)
    requires i < |mine|
    ensures mine[..i + 1] == mine[..i] + [mine[i]]
    ensures before + mine[..i + 1] == (before + mine[..i]) + [mine[i]]
  {}

  lemma WritesMore(m: Manager, pairs: seq<Pair>, pr: Pair)
    ensures forall k :: Writes(m, pairs + [pr], k) <==> Writes(m, pairs, k) || k == PairKey(m, pr)
  {
    forall k ensures Writes(m, pairs + [pr], k) <==> Writes(m, pairs, k) || k == PairKey(m, pr) {
      if i :| 0 <= i < |pairs| && PairKey(m, pairs[i]) == k { assert PairKey(m, (pairs + [pr])[i]) == k; }
      assert PairKey(m, (pairs + [pr])[|pairs|]) == PairKey(m, pr);
    }
  }

  lemma WritesAppend(m: Manager, a: seq<Pair>, b: seq<Pair>, k: Key)
    ensures Writes(m, a + b, k) <==> Writes(m, a, k) || Writes(m, b, k)
  {
    if i :| 0 <= i < |a| && PairKey(m, a[i]) == k { assert PairKey(m, (a + b)[i]) == k; }
    if i :| 0 <= i < |b| && PairKey(m, b[i]) == k { assert PairKey(m, (a + b)[|a| + i]) == k; }
  }

  /** The outer loop, over the groups in any order. */
  method SyncAll(c: Cluster, job: Job, candidates: set<Key>)
    returns (r: Result<()>, left: set<Key>, ghost order: seq<string>, ghost done: nat)
    requires c.Valid()
    modifies c
    ensures c.Valid()
    ensures Begins(order, Identifiers(job.forks)) && done <= |Pairs(order, job.manager.spec.upstreams)|
    ensures Written(old(c.store), c.store, job, Pairs(order, job.manager.spec.upstreams)[..done])
    ensures r.Ok? ==> Orders(order, Identifiers(job.forks)) && done == |Pairs(order, job.manager.spec.upstreams)|
    ensures r.Ok? ==> Spared(job.manager, Pairs(order, job.manager.spec.upstreams), candidates, left)
  {
    left, order, done := candidates, [], 0;
    var groups := GroupForksByIdentifier(job.forks);
    var todo := groups.Keys;
    StartOfRun(c.store, job, candidates);
    while todo != {}
      invariant c.Valid() && todo <= groups.Keys
      invariant Orders(order, groups.Keys - todo)
      invariant Progress(old(c.store), c.store, job, order, candidates, left)
    {
      var id :| id in todo;
      ghost var step;
      ghost var leftBefore := left;
      r, left, step := SyncIdentifier(c, job, id, groups[id], left, old(c.store), Pairs(order, job.manager.spec.upstreams));
      if r.Err? {
        order, done := Stopped(old(c.store), c.store, job, order, id, step);
        return;
      }
      GroupDone(old(c.store), c.store, job, order, id, candidates, leftBefore, left);
      order, todo := order + [id], todo - {id};
    }
    done := |Pairs(order, job.manager.spec.upstreams)|;
    assert Pairs(order, job.manager.spec.upstreams)[..done] == Pairs(order, job.manager.spec.upstreams);
    assert groups.Keys - todo == Identifiers(job.forks);
    r := Ok(());
  }

  /** After the groups in `order`: their pairs are written, and `left` holds the candidates not written. */
  ghost predicate Progress(start: Store, now: Store, job: Job, order: seq<string>, candidates: set<Key>, left: set<Key>) {
    var pairs := Pairs(order, job.manager.spec.upstreams);
    Written(start, now, job, pairs) && Spared(job.manager, pairs, candidates, left)
  }

  lemma StartOfRun(start: Store, job: Job, candidates: set<Key>)
    ensures Progress(start, start, job, [], candidates, candidates)
  {}

  lemma GroupDone(start: Store, now: Store, job: Job, order: seq<string>, id: string,
                  candidates: set<Key>, before: set<Key>, left: set<Key>)
    requires Spared(job.manager, Pairs(order, job.manager.spec.upstreams), candidates, before)
    requires Spared(job.manager, PairsOf(id, job.manager.spec.upstreams), before, left)
    requires Written(start, now, job, Pairs(order, job.manager.spec.upstreams) + PairsOf(id, job.manager.spec.upstreams)[..|job.manager.spec.upstreams|])
    ensures Progress(start, now, job, order + [id], candidates, left)
  {
    GroupMore(job.manager, order, id, job.manager.spec.upstreams);
    var mine := PairsOf(id, job.manager.spec.upstreams);
    assert mine[..|job.manager.spec.upstreams|] == mine;
  }

  lemma Stopped(start: Store, now: Store, job: Job, order: seq<string>, id: string, step: nat)
    returns (longer: seq<string>, done: nat)
    requires Begins(order, Identifiers(job.forks)) && id in Identifiers(job.forks) && id !in order
    requires step <= |job.manager.spec.upstreams|
    requires Written(start, now, job, Pairs(order, job.manager.spec.upstreams) + PairsOf(id, job.manager.spec.upstreams)[..step])
    ensures Begins(longer, Identifiers(job.forks)) && done <= |Pairs(longer, job.manager.spec.upstreams)|
    ensures Written(start, now, job, Pairs(longer, job.manager.spec.upstreams)[..done])
  {
    var ups := job.manager.spec.upstreams;
    longer, done := order + [id], |Pairs(order, ups)| + step;
    GroupMore(job.manager, order, id, ups);
    assert Pairs(longer, ups)[..done] == Pairs(order, ups) + PairsOf(id, ups)[..step];
  }

  lemma GroupMore(m: Manager, order: seq<string>, id: string, ups: seq<Upstream>)
    ensures Pairs(order + [id], ups) == Pairs(order, ups) + PairsOf(id, ups)
    ensures forall k :: Writes(m, Pairs(order + [id], ups), k) <==> Writes(m, Pairs(order, ups), k) || Writes(m, PairsOf(id, ups), k)
  {
    assert (order + [id])[..|order|] == order;
    forall k ensures Writes(m, Pairs(order + [id], ups), k) <==> Writes(m, Pairs(order, ups), k) || Writes(m, PairsOf(id, ups), k) {
      WritesAppend(m, Pairs(order, ups), PairsOf(id, ups), k);
    }
  }

  /** The deletions, in any order. */
  method DeleteAll(c: Cluster, stale: set<Key>) returns (r: Result<()>, ghost dropped: set<Key>)
    requires c.Valid()
    modifies c
    ensures c.Valid() && dropped <= stale
    ensures c.store == old(c.store) - dropped
    ensures r.Ok? ==> dropped == stale
  {
    dropped := {};
    var todo := stale;
    while todo != {}
      invariant c.Valid() && todo <= stale && dropped == stale - todo
      invariant c.store == old(c.store) - dropped
    {
      var k :| k in todo;
      ghost var before := c.store;
      r := c.Delete(k);
      if r.Err? {
        if c.store != before { dropped := dropped + {k}; }
        return;
      }
      dropped := dropped + {k};
      todo := todo - {k};
    }
    r := Ok(());
  }

  /** `mappingUpdater.Update`. */
  method Update(c: Cluster, namespace: string, name: string) returns (r: Result<()>, ghost job: Option<Job>)
    requires c.Valid()
    modifies c
    ensures c.Valid()
    ensures job.None? ==> r.Err? && c.store == old(c.store)
    ensures job.Some? ==>
      && job.value.manager.namespace == namespace && job.value.manager.name == name
      && IsManager(old(c.store), job.value.manager) && ListsForks(old(c.store), job.value.forks)
      && if r.Ok? then SyncedFully(old(c.store), c.store, job.value) else SyncedPartly(old(c.store), c.store, job.value)
  {
    job := None;
    var found := c.Get(Key(Kind.ForkManager, namespace, name));
    if found.Err? { return Err(found.error), job; }
    if found.value.None? { return Err(NotFound), job; }
    assert KeyOf(found.value.value) == Key(Kind.ForkManager, namespace, name);
    var m := Manager(name, namespace, found.value.value.body.manager);
    var forks := ListForks(c);
    if forks.Err? { return Err(forks.error), job; }
    var candidates := ListCandidates(c, m);
    if candidates.Err? { return Err(candidates.error), job; }
    var theJob := Job(m, forks.value);
    job := Some(theJob);
    r := Sync(c, theJob, candidates.value);
  }

  /** The writes and then the deletions of one run. */
  method Sync(c: Cluster, job: Job, candidates: set<Key>) returns (r: Result<()>)
    requires c.Valid() && forall k :: k in candidates <==> Labelled(c.store, job.manager, k)
    modifies c
    ensures c.Valid()
    ensures if r.Ok? then SyncedFully(old(c.store), c.store, job) else SyncedPartly(old(c.store), c.store, job)
  {
    ghost var order, done, dropped;
    var left;
    r, left, order, done := SyncAll(c, job, candidates);
    if r.Err? {
      WritesAreSynced(old(c.store), c.store, job, order, done);
      return;
    }
    LeftIsStale(old(c.store), job, order, candidates, left);
    ghost var written := c.store;
    r, dropped := DeleteAll(c, left);
    DropsAreSynced(old(c.store), written, job, order, dropped);
  }

  lemma WritesAreSynced(s: Store, t: Store, job: Job, order: seq<string>, n: nat)
    requires Begins(order, Identifiers(job.forks)) && n <= |Pairs(order, job.manager.spec.upstreams)|
    requires Written(s, t, job, Pairs(order, job.manager.spec.upstreams)[..n])
    ensures SyncedPartly(s, t, job)
  {
    var pairs := Pairs(order, job.manager.spec.upstreams);
    assert forall i :: 0 <= i < n ==> pairs[..n][i] == pairs[i];
    assert t - {} == t;
    assert Synced(s, t, job, order, n, {});
  }

  lemma DropsAreSynced(s: Store, t: Store, job: Job, order: seq<string>, dropped: set<Key>)
    requires Orders(order, Identifiers(job.forks)) && dropped <= StaleKeys(s, job)
    requires Written(s, t, job, Pairs(order, job.manager.spec.upstreams)[..|Pairs(order, job.manager.spec.upstreams)|])
    ensures SyncedPartly(s, t - dropped, job)
    ensures dropped == StaleKeys(s, job) ==> SyncedFully(s, t - dropped, job)
  {
    var pairs := Pairs(order, job.manager.spec.upstreams);
    assert pairs[..|pairs|] == pairs;
    assert Synced(s, t - dropped, job, order, |pairs|, dropped);
  }

  lemma LeftIsStale(s: Store, job: Job, order: seq<string>, candidates: set<Key>, left: set<Key>)
    requires Orders(order, Identifiers(job.forks)) && forall k :: k in candidates <==> Labelled(s, job.manager, k)
    requires Spared(job.manager, Pairs(order, job.manager.spec.upstreams), candidates, left)
    ensures left == StaleKeys(s, job)
  {
    forall k ensures k in left <==> k in StaleKeys(s, job) {
      WritesDesired(job, order, k);
    }
  }
}
