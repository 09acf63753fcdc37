/** The mapping updater: one Ambassador mapping for each upstream of a manager and each identifier
    in use, with the options of the forks that share the identifier merged. */
module Mappings {
  import opened Kube
  import opened Text
  import opened ForkApp

  const MANAGER_LABEL: string := "fork.k8s.wantedly.com/manager"

  datatype Manager = Manager(name: string, namespace: string, spec: ForkManagerSpec)

  /** One run: the manager and the forks of the cluster, in the order they were listed. */
  datatype Job = Job(manager: Manager, forks: seq<ForkResource>)

  // ---------------------------------------------------------------- keys

  /** `strings.ReplaceAll(s, ".", "-")`. */
  function Dashed(s: string): (r: string)
    ensures |r| == |s|
  {
    seq(|s|, i requires 0 <= i < |s| => if s[i] == '.' then '-' else s[i])
  }

  function MappingName(host: string, identifier: string): string {
    Dashed(host + "-" + identifier)
  }

  function MappingKey(m: Manager, host: string, identifier: string): Key {
    Key(Kind.Mapping, m.namespace, MappingName(host, identifier))
  }

  /** The name of a mapping: the host, a dash and the identifier, with a dash for every dot. */
  ghost predicate IsMappingName(name: string, host: string, identifier: string) {
    var plain := host + "-" + identifier;
    |name| == |plain| && forall i :: 0 <= i < |plain| ==> name[i] == if plain[i] == '.' then '-' else plain[i]
  }

  lemma MappingNameMeaning(m: Manager, host: string, identifier: string)
    ensures var k := MappingKey(m, host, identifier);
      k.kind == Kind.Mapping && k.namespace == m.namespace && IsMappingName(k.name, host, identifier)
  {}

  // ---------------------------------------------------------------- grouping forks

  function WithIdentifier(forks: seq<ForkResource>, id: string): seq<ForkResource> {
    if forks == [] then []
    else
      var rest := WithIdentifier(forks[..|forks| - 1], id);
      var f := forks[|forks| - 1];
      if f.spec.identifier == id then rest + [f] else rest
  }

  function Identifiers(forks: seq<ForkResource>): set<string> {
    set f | f in forks :: f.spec.identifier
  }

  /** `groupForksByIdentifier`: every fork once, in its group, in order. */
  method GroupForksByIdentifier(forks: seq<ForkResource>) returns (res: map<string, seq<ForkResource>>)
    ensures res.Keys == Identifiers(forks)
    ensures forall id :: id in res ==> res[id] == WithIdentifier(forks, id)
  {
    res := map[];
    for i := 0 to |forks|
      invariant res.Keys == Identifiers(forks[..i])
      invariant forall id :: (id in res ==> res[id] == WithIdentifier(forks[..i], id)) && (id !in res ==> WithIdentifier(forks[..i], id) == [])
    {
      var f := forks[i];
      assert forks[..i + 1] == forks[..i] + [f];
      assert forks[..i + 1][..i] == forks[..i];
      if f.spec.identifier !in res {
        res := res[f.spec.identifier := []];
      }
      res := res[f.spec.identifier := res[f.spec.identifier] + [f]];
    }
    assert forks[..|forks|] == forks;
  }

  /** Grouping keeps every fork exactly once: a fork is in the group of its identifier as often as it
      was in the list, and in no other group. */
  lemma {:induction false} GroupingConserves(forks: seq<ForkResource>, id: string, f: ForkResource)
    ensures multiset(WithIdentifier(forks, id))[f] == if f.spec.identifier == id then multiset(forks)[f] else 0
  {
    if forks != [] {
      var n := |forks| - 1;
      assert forks == forks[..n] + [forks[n]];
      GroupingConserves(forks[..n], id, f);
    }
  }

  /** How many of the first `n` forks have the identifier. */
  function Before(forks: seq<ForkResource>, n: nat, id: string): nat
    requires n <= |forks|
  {
    if n == 0 then 0 else Before(forks, n - 1, id) + if forks[n - 1].spec.identifier == id then 1 else 0
  }

  /** A group holds its forks in the order of the list: each stands where the number of those before it says. */
  lemma {:induction false} GroupsKeepOrder(forks: seq<ForkResource>, id: string, i: nat)
    ensures |WithIdentifier(forks, id)| == Before(forks, |forks|, id)
    ensures i < |forks| && forks[i].spec.identifier == id ==>
      Before(forks, i, id) < |WithIdentifier(forks, id)| && WithIdentifier(forks, id)[Before(forks, i, id)] == forks[i]
    ensures i < |forks| && forks[i].spec.identifier == id ==>
      forall j :: i < j < |forks| && forks[j].spec.identifier == id ==> Before(forks, i, id) < Before(forks, j, id)
  {
    if forks != [] {
      var n := |forks| - 1;
      GroupsKeepOrder(forks[..n], id, i);
      SameBefore(forks, n, id);
      if i < n && forks[n].spec.identifier == id && forks[i].spec.identifier == id {
        GroupsKeepOrder(forks[..n], id, i);
      }
      BeforeGrows(forks, id, i);
    }
  }

  lemma {:induction false} SameBefore(forks: seq<ForkResource>, n: nat, id: string)
    requires n <= |forks|
    ensures forall m: nat :: m <= n ==> Before(forks[..n], m, id) == Before(forks, m, id)
  {
    forall m: nat | m <= n ensures Before(forks[..n], m, id) == Before(forks, m, id) { SameBeforeAt(forks, n, m, id); }
  }

  lemma {:induction false} SameBeforeAt(forks: seq<ForkResource>, n: nat, m: nat, id: string)
    requires m <= n <= |forks|
    ensures Before(forks[..n], m, id) == Before(forks, m, id)
  {
    if m > 0 { SameBeforeAt(forks, n, m - 1, id); }
  }

  lemma {:induction false} BeforeGrows(forks: seq<ForkResource>, id: string, i: nat)
    ensures i < |forks| && forks[i].spec.identifier == id ==> forall j :: i < j <= |forks| ==> Before(forks, i, id) < Before(forks, j, id)
  {
    if i < |forks| && forks[i].spec.identifier == id {
      forall j | i < j <= |forks| ensures Before(forks, i, id) < Before(forks, j, id) { GrowsTo(forks, id, i, j); }
    }
  }

  lemma {:induction false} GrowsTo(forks: seq<ForkResource>, id: string, i: nat, j: nat)
    requires i < j <= |forks| && forks[i].spec.identifier == id
    ensures Before(forks, i, id) < Before(forks, j, id)
  {
    if i + 1 < j { GrowsTo(forks, id, i, j - 1); }
  }

  // ---------------------------------------------------------------- merging options

  /** One fork's options on top of what is there.  The upgrades are merged inside the loop over the
      headers, so they count only if the fork adds at least one header. */
  ghost function Applied(spec: MappingSpec, f: ForkResource): MappingSpec {
    match f.spec.gatewayOptions
    case None => spec
    case Some(o) =>
      if o.addRequestHeaders == map[] then spec
      else spec.(addRequestHeaders := spec.addRequestHeaders + o.addRequestHeaders,
                 allowUpgrade := Ascending(Elements(spec.allowUpgrade) + Elements(o.allowUpgrade)))
  }

  ghost function AppliedAll(spec: MappingSpec, forks: seq<ForkResource>): MappingSpec {
    if forks == [] then spec
    else Applied(AppliedAll(spec, forks[..|forks| - 1]), forks[|forks| - 1])
  }

  /** `sets.String.List`. */
  method SortedList(s: set<string>) returns (r: seq<string>)
    ensures r == Ascending(s)
  {
    var items: seq<string> := [];
    var todo := s;
    while todo != {}
      invariant todo <= s
      invariant forall x :: x in items <==> x in s - todo
      invariant DistinctKeys(items, x => x)
    {
      var x :| x in todo;
      assert forall j :: 0 <= j < |items| ==> items[j] in items;
      items := items + [x];
      todo := todo - {x};
    }
    r := Sort(items, x => x);
    MultisetKeepsDistinct(items, r, x => x);
    SortedDistinctIsStrict(r);
    assert s - todo == s;
    forall x ensures x in r <==> x in s {
      assert x in multiset(r) <==> x in multiset(items);
      assert x in items <==> x in s;
    }
    StrictlySortedUnique(r, Ascending(s));
  }

  method InsertAll(s: set<string>, extra: seq<string>) returns (r: set<string>)
    ensures r == s + Elements(extra)
  {
    r := s;
    for i := 0 to |extra|
      invariant r == s + Elements(extra[..i])
    {
      assert extra[..i + 1] == extra[..i] + [extra[i]];
      r := r + {extra[i]};
    }
    assert extra[..|extra|] == extra;
  }

  method MergeUpgrades(current: seq<string>, extra: seq<string>) returns (r: seq<string>)
    ensures r == Ascending(Elements(current) + Elements(extra))
  {
    var upgrades := InsertAll(Elements(current), extra);
    r := SortedList(upgrades);
  }

  /** Merging the same upgrades again changes nothing. */
  lemma MergedTwice(base: set<string>, extra: set<string>)
    ensures Ascending(Elements(Ascending(base + extra)) + extra) == Ascending(base + extra)
  {
    assert Elements(Ascending(base + extra)) == base + extra;
    assert base + extra + extra == base + extra;
  }

  /** `applyOptionsToMapping`, for any iteration order over the headers. */
  method ApplyOptionsToMapping(spec: MappingSpec, f: ForkResource) returns (r: MappingSpec)
    ensures r == Applied(spec, f)
  {
    if f.spec.gatewayOptions.None? { return spec; }
    var o := f.spec.gatewayOptions.value;
    var headers, allow := AddHeaders(spec.addRequestHeaders, spec.allowUpgrade, o);
    r := spec.(addRequestHeaders := headers, allowUpgrade := allow);
  }

  /** The loop over the headers, with the merge of the upgrades inside. */
  method AddHeaders(base: map<string, string>, current: seq<string>, o: GatewayOptions)
    returns (headers: map<string, string>, allow: seq<string>)
    ensures headers == base + o.addRequestHeaders
    ensures allow == if o.addRequestHeaders == map[] then current else Ascending(Elements(current) + Elements(o.allowUpgrade))
  {
    headers, allow := base, current;
    var todo := o.addRequestHeaders.Keys;
    ghost var merged := Ascending(Elements(current) + Elements(o.allowUpgrade));
    ghost var begun := false;
    assert base + (o.addRequestHeaders - todo) == base;
    while todo != {}
      invariant todo <= o.addRequestHeaders.Keys
      invariant headers == base + (o.addRequestHeaders - todo)
      invariant begun <==> todo != o.addRequestHeaders.Keys
      invariant allow == if begun then merged else current
    {
      var k :| k in todo;
      MergedTwice(Elements(current), Elements(o.allowUpgrade));
      OneMoreHeader(base, o.addRequestHeaders, todo, k);
      headers := headers[k := o.addRequestHeaders[k]];
      allow := MergeUpgrades(allow, o.allowUpgrade);
      todo := todo - {k};
      begun := true;
    }
    assert o.addRequestHeaders - todo == o.addRequestHeaders;
    assert begun <==> o.addRequestHeaders != map[];
  }

  lemma OneMoreHeader(base: map<string, string>, extra: map<string, string>, todo: set<string>, k: string)
    requires k in todo && todo <= extra.Keys
    ensures (base + (extra - todo))[k := extra[k]] == base + (extra - (todo - {k}))
  {}

  /** The upgrades of the forks that add a header. */
  ghost function Upgrades(forks: seq<ForkResource>): set<string> {
    set f, x | f in forks && f.spec.gatewayOptions.Some? && f.spec.gatewayOptions.value.addRequestHeaders != map[]
               && x in f.spec.gatewayOptions.value.allowUpgrade :: x
  }

  lemma UpgradesSplit(forks: seq<ForkResource>, f: ForkResource)
    ensures Upgrades(forks + [f]) == Upgrades(forks) + Upgrades([f])
  {
    assert forall g :: g in forks + [f] <==> g in forks || g == f;
  }

  /** The headers the forks add, the last fork winning. */
  function AddedHeaders(forks: seq<ForkResource>): map<string, string> {
    if forks == [] then map[]
    else
      var before, f := AddedHeaders(forks[..|forks| - 1]), forks[|forks| - 1];
      if f.spec.gatewayOptions.None? then before else before + f.spec.gatewayOptions.value.addRequestHeaders
  }

  /** The i-th fork of the list has the identifier and adds the header. */
  predicate Adds(forks: seq<ForkResource>, i: nat, id: string, header: string) {
    i < |forks| && forks[i].spec.identifier == id && forks[i].spec.gatewayOptions.Some?
    && header in forks[i].spec.gatewayOptions.value.addRequestHeaders
  }

  ghost predicate AddsLast(forks: seq<ForkResource>, i: nat, id: string, header: string) {
    Adds(forks, i, id, header) && forall j: nat :: i < j < |forks| ==> !Adds(forks, j, id, header)
  }

  /** Of the forks of an identifier the last one in the list that adds a header decides its value. */
  lemma {:induction false} LastForkWins(forks: seq<ForkResource>, id: string, header: string)
    ensures forall i: nat :: AddsLast(forks, i, id, header) ==>
      header in AddedHeaders(WithIdentifier(forks, id))
      && AddedHeaders(WithIdentifier(forks, id))[header] == forks[i].spec.gatewayOptions.value.addRequestHeaders[header]
    ensures header in AddedHeaders(WithIdentifier(forks, id)) <==> exists i: nat :: AddsLast(forks, i, id, header)
    ensures (exists i: nat :: Adds(forks, i, id, header)) <==> exists i: nat :: AddsLast(forks, i, id, header)
  {
    if forks != [] {
      var n := |forks| - 1;
      LastForkWins(forks[..n], id, header);
      if Adds(forks, n, id, header) {
        assert AddsLast(forks, n, id, header);
        forall i: nat | AddsLast(forks, i, id, header) ensures i == n {}
      } else {
        NotAddedLast(forks, n, id, header);
      }
    }
  }

  lemma NotAddedLast(forks: seq<ForkResource>, n: nat, id: string, header: string)
    requires n + 1 == |forks| && !Adds(forks, n, id, header)
    ensures forall i: nat :: Adds(forks, i, id, header) <==> Adds(forks[..n], i, id, header)
    ensures forall i: nat :: AddsLast(forks, i, id, header) <==> AddsLast(forks[..n], i, id, header)
  {
    forall i: nat ensures Adds(forks, i, id, header) <==> Adds(forks[..n], i, id, header) {}
    forall i: nat ensures AddsLast(forks, i, id, header) <==> AddsLast(forks[..n], i, id, header) {}
  }

  /** The i-th fork of the list has the identifier, adds some header, and asks for the upgrade. */
  predicate Asks(forks: seq<ForkResource>, i: nat, id: string, upgrade: string) {
    i < |forks| && forks[i].spec.identifier == id && forks[i].spec.gatewayOptions.Some?
    && forks[i].spec.gatewayOptions.value.addRequestHeaders != map[] && upgrade in forks[i].spec.gatewayOptions.value.allowUpgrade
  }

  lemma {:induction false} UpgradesMeaning(forks: seq<ForkResource>, id: string, upgrade: string)
    ensures upgrade in Upgrades(WithIdentifier(forks, id)) <==> exists i: nat :: Asks(forks, i, id, upgrade)
  {
    if forks != [] {
      var n := |forks| - 1;
      UpgradesMeaning(forks[..n], id, upgrade);
      if forks[n].spec.identifier == id {
        var rest := WithIdentifier(forks[..n], id);
        UpgradesSplit(rest, forks[n]);
        assert upgrade in Upgrades([forks[n]]) <==> Asks(forks, n, id, upgrade) by { assert forks[n] in [forks[n]]; }
      }
      forall i: nat | i < n ensures Asks(forks, i, id, upgrade) <==> Asks(forks[..n], i, id, upgrade) {}
    }
  }

  lemma {:induction false} OnlyOptionsChange(spec: MappingSpec, forks: seq<ForkResource>)
    ensures var r := AppliedAll(spec, forks);
      r == spec.(addRequestHeaders := r.addRequestHeaders, allowUpgrade := r.allowUpgrade)
    ensures AppliedAll(spec, forks).addRequestHeaders == spec.addRequestHeaders + AddedHeaders(forks)
  {
    if forks != [] {
      OnlyOptionsChange(spec, forks[..|forks| - 1]);
    }
  }

  lemma {:induction false} MergedUpgrades(spec: MappingSpec, forks: seq<ForkResource>)
    requires StrictlySorted(spec.allowUpgrade)
    ensures StrictlySorted(AppliedAll(spec, forks).allowUpgrade)
    ensures Elements(AppliedAll(spec, forks).allowUpgrade) == Elements(spec.allowUpgrade) + Upgrades(forks)
  {
    if forks == [] {
      assert Upgrades(forks) == {};
    } else {
      var n := |forks| - 1;
      MergedUpgrades(spec, forks[..n]);
      assert forks == forks[..n] + [forks[n]];
      UpgradesSplit(forks[..n], forks[n]);
      LastOptions(AppliedAll(spec, forks[..n]), forks[n]);
    }
  }

  /** Option merging: the headers are last-fork-wins over the base, and the upgrades, when the base list
      is strictly sorted, are the strictly sorted union of the base and the counted upgrades. */
  lemma MergedOptions(spec: MappingSpec, forks: seq<ForkResource>)
    requires StrictlySorted(spec.allowUpgrade)
    ensures AppliedAll(spec, forks) == spec.(
      addRequestHeaders := spec.addRequestHeaders + AddedHeaders(forks),
      allowUpgrade := Ascending(Elements(spec.allowUpgrade) + Upgrades(forks)))
  {
    OnlyOptionsChange(spec, forks);
    MergedUpgrades(spec, forks);
    StrictlySortedUnique(AppliedAll(spec, forks).allowUpgrade, Ascending(Elements(spec.allowUpgrade) + Upgrades(forks)));
  }

  lemma LastOptions(spec: MappingSpec, f: ForkResource)
    requires StrictlySorted(spec.allowUpgrade)
    ensures StrictlySorted(Applied(spec, f).allowUpgrade)
    ensures Elements(Applied(spec, f).allowUpgrade) == Elements(spec.allowUpgrade) + Upgrades([f])
  {
    if f.spec.gatewayOptions.Some? && f.spec.gatewayOptions.value.addRequestHeaders != map[] {
      assert f in [f];
      assert Upgrades([f]) == Elements(f.spec.gatewayOptions.value.allowUpgrade);
    } else {
      assert Upgrades([f]) == {};
    }
  }

  /** The merged upgrades do not depend on the order of the forks. */
  lemma UpgradesForgetOrder(spec: MappingSpec, forks: seq<ForkResource>, others: seq<ForkResource>)
    requires StrictlySorted(spec.allowUpgrade) && multiset(forks) == multiset(others)
    ensures AppliedAll(spec, forks).allowUpgrade == AppliedAll(spec, others).allowUpgrade
  {
    MergedOptions(spec, forks);
    MergedOptions(spec, others);
    assert forall f :: f in forks <==> f in others by {
      forall f ensures f in forks <==> f in others { assert f in multiset(forks) <==> f in multiset(others); }
    }
    assert Upgrades(forks) == Upgrades(others);
  }

  // ---------------------------------------------------------------- the content of a mapping

  function TrimPort(target: string): string {
    Split(target, ":")[0]
  }

  /** What `trimPort` leaves: all that stands before the first colon. */
  lemma TrimPortMeaning(target: string)
    ensures TrimPort(target) <= target && Lacks(TrimPort(target), ':')
    ensures TrimPort(target) == target || target[|TrimPort(target)|] == ':'
  {
    FirstIndex(target, ":");
    SepAtIndex(target, ":");
    forall j | 0 <= j < |TrimPort(target)| ensures TrimPort(target)[j] != ':' {
      assert !(":" <= target[j..]);
    }
  }

  function BaseSpec(m: Manager, id: string, up: Upstream): MappingSpec {
    MappingSpec(
      map[m.spec.headerKey := id, "x-forwarded-host" := "%REQ(:authority)%"],
      ["websocket"], [m.spec.ambassadorID], id + "." + up.host, "/", "",
      if up.original == "" then "https://" + up.host else up.original,
      if up.original == "" then "" else if up.hostRewrite != "" then up.hostRewrite else TrimPort(up.original),
      90000)
  }

  /** The spec written for an identifier and an upstream. */
  ghost function Content(job: Job, id: string, up: Upstream): MappingSpec {
    AppliedAll(BaseSpec(job.manager, id, up), WithIdentifier(job.forks, id))
  }

  /** `part` is all of `s` that stands before the first colon. */
  ghost predicate BeforeColon(part: string, s: string) {
    part <= s && Lacks(part, ':') && (part == s || s[|part|] == ':')
  }

  /** The upstream of a mapping: its service, and the host it is rewritten to, if any. */
  ghost predicate ServedBy(c: MappingSpec, up: Upstream) {
    && c.service == (if up.original == "" then "https://" + up.host else up.original)
    && (up.original == "" ==> c.hostRewrite == "")
    && (up.original != "" && up.hostRewrite != "" ==> c.hostRewrite == up.hostRewrite)
    && (up.original != "" && up.hostRewrite == "" ==> BeforeColon(c.hostRewrite, up.original))
  }

  /** The headers of a mapping: those forks of the identifier add, the last one deciding; else the forwarded host and
      the identifier under the manager's header. */
  ghost predicate HeadersFrom(c: MappingSpec, m: Manager, forks: seq<ForkResource>, id: string) {
    forall h ::
      && (h in c.addRequestHeaders <==> h == m.spec.headerKey || h == "x-forwarded-host" || exists i: nat :: Adds(forks, i, id, h))
      && (forall i: nat :: AddsLast(forks, i, id, h) ==> c.addRequestHeaders[h] == forks[i].spec.gatewayOptions.value.addRequestHeaders[h])
      && ((forall i: nat :: !Adds(forks, i, id, h)) && h in c.addRequestHeaders ==>
            c.addRequestHeaders[h] == if h == "x-forwarded-host" then "%REQ(:authority)%" else id)
  }

  /** The upgrades of a mapping, in order: websocket, and those of forks of the identifier that add a header. */
  ghost predicate UpgradesFrom(c: MappingSpec, forks: seq<ForkResource>, id: string) {
    StrictlySorted(c.allowUpgrade) && forall u :: u in c.allowUpgrade <==> u == "websocket" || exists i: nat :: Asks(forks, i, id, u)
  }

  /** The mapping for an identifier and an upstream, field by field, over the whole list of forks. */
  ghost predicate IsMappingFor(c: MappingSpec, job: Job, id: string, up: Upstream) {
    && c.host == id + "." + up.host && c.prefix == "/" && c.rewrite == "" && c.timeoutMs == 90000
    && c.ambassadorID == [job.manager.spec.ambassadorID]
    && ServedBy(c, up) && HeadersFrom(c, job.manager, job.forks, id) && UpgradesFrom(c, job.forks, id)
  }

  lemma ContentFields(job: Job, id: string, up: Upstream)
    ensures IsMappingFor(Content(job, id, up), job, id, up)
  {
    var base := BaseSpec(job.manager, id, up);
    assert StrictlySorted(base.allowUpgrade);
    MergedOptions(base, WithIdentifier(job.forks, id));
    TrimPortMeaning(up.original);
    ContentHeaders(job, id, up);
    ContentUpgrades(job, id, up);
  }

  lemma ContentHeaders(job: Job, id: string, up: Upstream)
    ensures HeadersFrom(Content(job, id, up), job.manager, job.forks, id)
  {
    var base, c := BaseSpec(job.manager, id, up), Content(job, id, up);
    OnlyOptionsChange(base, WithIdentifier(job.forks, id));
    forall h
      ensures h in c.addRequestHeaders <==> h == job.manager.spec.headerKey || h == "x-forwarded-host" || exists i: nat :: Adds(job.forks, i, id, h)
      ensures forall i: nat :: AddsLast(job.forks, i, id, h) ==>
        c.addRequestHeaders[h] == job.forks[i].spec.gatewayOptions.value.addRequestHeaders[h]
      ensures (forall i: nat :: !Adds(job.forks, i, id, h)) && h in c.addRequestHeaders ==>
        c.addRequestHeaders[h] == if h == "x-forwarded-host" then "%REQ(:authority)%" else id
    {
      LastForkWins(job.forks, id, h);
    }
  }

  lemma ContentUpgrades(job: Job, id: string, up: Upstream)
    ensures UpgradesFrom(Content(job, id, up), job.forks, id)
  {
    var base := BaseSpec(job.manager, id, up);
    assert StrictlySorted(base.allowUpgrade);
    MergedUpgrades(base, WithIdentifier(job.forks, id));
    forall u ensures u in Content(job, id, up).allowUpgrade <==> u == "websocket" || exists i: nat :: Asks(job.forks, i, id, u) {
      UpgradesMeaning(job.forks, id, u);
      assert u in Elements(base.allowUpgrade) <==> u == "websocket";
      assert u in Content(job, id, up).allowUpgrade <==> u in Elements(Content(job, id, up).allowUpgrade);
    }
  }

  /** What ends up in a mapping: its own host and service, a rewritten host when the upstream names
      an original service that has a host, the header that carries the identifier
      unless a fork overrides it, and websocket with the counted upgrades of the group, in order. */
  lemma ContentMeaning(job: Job, id: string, up: Upstream)
    ensures var c := Content(job, id, up); var group := WithIdentifier(job.forks, id);
      && c.host == id + "." + up.host
      && (if up.original == "" then c.service == "https://" + up.host else c.service == up.original)
      && (c.hostRewrite == "" <==> up.original == "" || (up.hostRewrite == "" && up.original[0] == ':'))
      && (c.hostRewrite != "" ==> c.hostRewrite == if up.hostRewrite != "" then up.hostRewrite else TrimPort(up.original))
      && c.allowUpgrade == Ascending({"websocket"} + Upgrades(group))
      && c.addRequestHeaders == BaseSpec(job.manager, id, up).addRequestHeaders + AddedHeaders(group)
      && (job.manager.spec.headerKey !in AddedHeaders(group) && job.manager.spec.headerKey != "x-forwarded-host" ==>
            job.manager.spec.headerKey in c.addRequestHeaders && c.addRequestHeaders[job.manager.spec.headerKey] == id)
  {
    var base := BaseSpec(job.manager, id, up);
    assert StrictlySorted(base.allowUpgrade);
    assert Elements(base.allowUpgrade) == {"websocket"};
    TrimPortMeaning(up.original);
    MergedOptions(base, WithIdentifier(job.forks, id));
  }
}
