/** Compiling VSConfigs to the first-match route list of a VirtualService. */
module Routing {
  import opened Kube
  import opened Text

  /** A VSConfig as the compiler sees it; names are unique in a namespace. */
  datatype Config = Config(name: string, spec: VSConfigSpec)

  function NameOf(c: Config): string {
    c.name
  }

  predicate Applies(c: Config, service: string) {
    c.spec.host == service && c.spec.headerValue != ""
  }

  function RouteOf(c: Config): HTTPRoute {
    HTTPRoute([map[c.spec.headerName := c.spec.headerValue]], [c.spec.service])
  }

  function DefaultRoute(service: string): HTTPRoute {
    HTTPRoute([], [service])
  }

  function ConfigRoutes(configs: seq<Config>, service: string): seq<HTTPRoute> {
    if configs == [] then []
    else (if Applies(configs[0], service) then [RouteOf(configs[0])] else [])
         + ConfigRoutes(configs[1..], service)
  }

  /** The routes of a service, the default last. */
  function Table(configs: seq<Config>, service: string): seq<HTTPRoute> {
    ConfigRoutes(configs, service) + [DefaultRoute(service)]
  }

  /** `vsLister.buildHTTPRoutes`. */
  method BuildHTTPRoutes(sortedConfigs: seq<Config>, service: string) returns (routes: seq<HTTPRoute>)
    ensures routes == Table(sortedConfigs, service)
  {
    routes := [];
    for i := 0 to |sortedConfigs|
      invariant routes + ConfigRoutes(sortedConfigs[i..], service) == ConfigRoutes(sortedConfigs, service)
    {
      var config := sortedConfigs[i];
      assert sortedConfigs[i..][1..] == sortedConfigs[i + 1..];
      if config.spec.host != service || config.spec.headerValue == "" {
        continue;
      }
      routes := routes + [HTTPRoute([map[config.spec.headerName := config.spec.headerValue]], [config.spec.service])];
    }
    routes := routes + [HTTPRoute([], [service])];
  }

  // ---------------------------------------------------------------- evaluation

  predicate RouteMatches(r: HTTPRoute, headers: map<string, string>) {
    r.matches == [] || exists i :: 0 <= i < |r.matches| && HasAll(r.matches[i], headers)
  }

  /** The proxy takes the first route that matches. */
  function FirstMatch(routes: seq<HTTPRoute>, headers: map<string, string>): seq<string> {
    if routes == [] then []
    else if RouteMatches(routes[0], headers) then routes[0].destinations
    else FirstMatch(routes[1..], headers)
  }

  /** The config sends requests with these headers somewhere. */
  predicate Hits(c: Config, service: string, headers: map<string, string>) {
    Applies(c, service) && c.spec.headerName in headers && headers[c.spec.headerName] == c.spec.headerValue
  }

  lemma RouteOfMatches(c: Config, headers: map<string, string>)
    ensures RouteMatches(RouteOf(c), headers) <==>
      c.spec.headerName in headers && headers[c.spec.headerName] == c.spec.headerValue
  {
    var only := map[c.spec.headerName := c.spec.headerValue];
    assert RouteOf(c).matches == [only] && c.spec.headerName in only;
    if c.spec.headerName in headers && headers[c.spec.headerName] == c.spec.headerValue {
      assert HasAll(RouteOf(c).matches[0], headers);
    }
  }

  /** The first config either puts its route in front or leaves the list as it is. */
  lemma FirstMatchCons(configs: seq<Config>, service: string, headers: map<string, string>, rest: seq<HTTPRoute>)
    requires configs != []
    ensures FirstMatch(ConfigRoutes(configs, service) + rest, headers) ==
      if Hits(configs[0], service, headers) then [configs[0].spec.service]
      else FirstMatch(ConfigRoutes(configs[1..], service) + rest, headers)
  {
    var tail := ConfigRoutes(configs[1..], service) + rest;
    var all := ConfigRoutes(configs, service) + rest;
    RouteOfMatches(configs[0], headers);
    if Applies(configs[0], service) {
      assert all == [RouteOf(configs[0])] + tail;
      assert all[1..] == tail;
    } else {
      assert all == tail;
    }
  }

  lemma {:induction false} NoHitFallsThrough(configs: seq<Config>, service: string, headers: map<string, string>, rest: seq<HTTPRoute>)
    requires forall c :: c in configs ==> !Hits(c, service, headers)
    ensures FirstMatch(ConfigRoutes(configs, service) + rest, headers) == FirstMatch(rest, headers)
  {
    if configs == [] {
      assert ConfigRoutes(configs, service) + rest == rest;
    } else {
      FirstMatchCons(configs, service, headers, rest);
      NoHitFallsThrough(configs[1..], service, headers, rest);
    }
  }

  lemma {:induction false} FirstHitWins(configs: seq<Config>, service: string, headers: map<string, string>, n: nat, rest: seq<HTTPRoute>)
    requires n < |configs| && Hits(configs[n], service, headers)
    requires forall i :: 0 <= i < n ==> !Hits(configs[i], service, headers)
    ensures FirstMatch(ConfigRoutes(configs, service) + rest, headers) == [configs[n].spec.service]
  {
    FirstMatchCons(configs, service, headers, rest);
    if n > 0 {
      FirstHitWins(configs[1..], service, headers, n - 1, rest);
    }
  }

  /** `c` is the smallest-named of the configs that hit. */
  ghost predicate Winner(c: Config, configs: seq<Config>, service: string, headers: map<string, string>) {
    c in configs && Hits(c, service, headers)
    && forall d :: d in configs && Hits(d, service, headers) ==> d == c || Below(c.name, d.name)
  }

  /** Route table meaning: evaluating the list by first match is looking up the smallest-named
      config that hits, and the service itself when there is none. */
  lemma TableMeaning(configs: seq<Config>, service: string, headers: map<string, string>)
    requires SortedBy(configs, NameOf) && DistinctKeys(configs, NameOf)
    ensures forall c :: Winner(c, configs, service, headers) ==> FirstMatch(Table(configs, service), headers) == [c.spec.service]
    ensures (exists c :: Winner(c, configs, service, headers)) <==> (exists c :: c in configs && Hits(c, service, headers))
    ensures (forall c :: c in configs ==> !Hits(c, service, headers)) ==> FirstMatch(Table(configs, service), headers) == [service]
  {
    if forall c :: c in configs ==> !Hits(c, service, headers) {
      NoHitFallsThrough(configs, service, headers, [DefaultRoute(service)]);
    } else {
      var n := FirstHit(configs, service, headers);
      FirstHitWins(configs, service, headers, n, [DefaultRoute(service)]);
      FirstHitIsWinner(configs, service, headers, n);
      forall c | Winner(c, configs, service, headers) ensures c == configs[n] {
        if c != configs[n] {
          assert Below(c.name, configs[n].name) && Below(configs[n].name, c.name);
          BelowTransitive(c.name, configs[n].name, c.name);
          BelowIrreflexive(c.name);
        }
      }
    }
  }

  lemma FirstHit(configs: seq<Config>, service: string, headers: map<string, string>) returns (n: nat)
    requires exists c :: c in configs && Hits(c, service, headers)
    ensures n < |configs| && Hits(configs[n], service, headers)
    ensures forall i :: 0 <= i < n ==> !Hits(configs[i], service, headers)
  {
    var c :| c in configs && Hits(c, service, headers);
    n := 0;
    while !Hits(configs[n], service, headers)
      invariant n < |configs|
      invariant forall i :: 0 <= i < n ==> !Hits(configs[i], service, headers)
      decreases |configs| - n
    {
      assert c in configs[n + 1..] by {
        var m :| 0 <= m < |configs| && configs[m] == c;
        assert m > n;
        assert configs[n + 1..][m - n - 1] == c;
      }
      n := n + 1;
    }
  }

  lemma FirstHitIsWinner(configs: seq<Config>, service: string, headers: map<string, string>, n: nat)
    requires SortedBy(configs, NameOf) && DistinctKeys(configs, NameOf)
    requires n < |configs| && Hits(configs[n], service, headers)
    requires forall i :: 0 <= i < n ==> !Hits(configs[i], service, headers)
    ensures Winner(configs[n], configs, service, headers)
  {
    forall d | d in configs && Hits(d, service, headers) && d != configs[n] ensures Below(configs[n].name, d.name) {
      var m :| 0 <= m < |configs| && configs[m] == d;
      assert n < m && NameOf(configs[n]) != NameOf(configs[m]);
      assert !Below(NameOf(configs[m]), NameOf(configs[n]));
      BelowTotal(configs[n].name, d.name);
    }
  }

  /** A VirtualService is emitted exactly when some config applies to the service. */
  lemma {:induction false} TableHasRoutes(configs: seq<Config>, service: string)
    ensures |Table(configs, service)| > 1 <==> exists c :: c in configs && Applies(c, service)
  {
    if configs != [] {
      TableHasRoutes(configs[1..], service);
      assert forall c :: c in configs <==> c == configs[0] || c in configs[1..];
    }
  }

  // ---------------------------------------------------------------- independence of order

  /** The configs of a namespace, by name. */
  type Configs = map<string, VSConfigSpec>

  ghost function Sorted(configs: Configs): (r: seq<Config>)
    ensures SortedBy(r, NameOf) && DistinctKeys(r, NameOf)
    ensures forall c :: c in r <==> c.name in configs && configs[c.name] == c.spec
  {
    var names := Ascending(configs.Keys);
    StrictlySortedIsSorted(names);
    var r := seq(|names|, i requires 0 <= i < |names| => Config(names[i], configs[names[i]]));
    assert forall c: Config :: c.name in configs && configs[c.name] == c.spec ==> c in r by {
      forall c: Config | c.name in configs && configs[c.name] == c.spec ensures c in r {
        var i :| 0 <= i < |names| && names[i] == c.name;
        assert r[i] == c;
      }
    }
    r
  }

  /** The config of this name sends a request with these headers away from the service: it is for the service, and
      its header has its value, which is not empty. */
  ghost predicate Sends(configs: Configs, n: string, service: string, headers: map<string, string>) {
    && n in configs && configs[n].host == service && configs[n].headerValue != ""
    && (configs[n].headerName, configs[n].headerValue) in headers.Items
  }

  ghost predicate SendsFirst(configs: Configs, n: string, service: string, headers: map<string, string>) {
    Sends(configs, n, service, headers) && forall m :: Sends(configs, m, service, headers) ==> m == n || Below(n, m)
  }

  /** Where the routes for the configs of a namespace lead: to the service of the smallest-named config that sends
      the request away, else to the service itself; and there are routes besides the default if and only if some
      config is for the service and has a value. */
  lemma LookupMeaning(configs: Configs, service: string, headers: map<string, string>)
    ensures forall n :: SendsFirst(configs, n, service, headers) ==> FirstMatch(Table(Sorted(configs), service), headers) == [configs[n].service]
    ensures (forall n :: !SendsFirst(configs, n, service, headers)) ==> FirstMatch(Table(Sorted(configs), service), headers) == [service]
    ensures (exists n :: SendsFirst(configs, n, service, headers)) <==> exists n :: Sends(configs, n, service, headers)
    ensures |Table(Sorted(configs), service)| > 1 <==> exists n :: n in configs && configs[n].host == service && configs[n].headerValue != ""
  {
    SomeoneFirst(configs, service, headers);
    if n :| SendsFirst(configs, n, service, headers) {
      LedByFirst(configs, n, service, headers);
      forall m | SendsFirst(configs, m, service, headers) ensures m == n { OneFirst(configs, n, m, service, headers); }
    } else {
      LedHome(configs, service, headers);
    }
    RoutesWhen(configs, service);
  }

  lemma OneFirst(configs: Configs, n: string, m: string, service: string, headers: map<string, string>)
    requires SendsFirst(configs, n, service, headers) && SendsFirst(configs, m, service, headers)
    ensures m == n
  {
    if m != n {
      BelowTransitive(n, m, n);
      BelowIrreflexive(n);
    }
  }

  lemma LedByFirst(configs: Configs, n: string, service: string, headers: map<string, string>)
    requires SendsFirst(configs, n, service, headers)
    ensures FirstMatch(Table(Sorted(configs), service), headers) == [configs[n].service]
  {
    SendersWin(configs, service, headers);
    TableMeaning(Sorted(configs), service, headers);
    assert Winner(Config(n, configs[n]), Sorted(configs), service, headers);
  }

  lemma LedHome(configs: Configs, service: string, headers: map<string, string>)
    requires forall n :: !Sends(configs, n, service, headers)
    ensures FirstMatch(Table(Sorted(configs), service), headers) == [service]
  {
    TableMeaning(Sorted(configs), service, headers);
    forall c: Config | c in Sorted(configs) ensures !Hits(c, service, headers) { assert !Sends(configs, c.name, service, headers); }
  }

  lemma SomeoneFirst(configs: Configs, service: string, headers: map<string, string>)
    ensures (exists n :: SendsFirst(configs, n, service, headers)) <==> exists n :: Sends(configs, n, service, headers)
  {
    SendersWin(configs, service, headers);
    TableMeaning(Sorted(configs), service, headers);
    if n :| Sends(configs, n, service, headers) {
      var c :| Winner(c, Sorted(configs), service, headers);
      assert SendsFirst(configs, c.name, service, headers);
    }
  }

  lemma RoutesWhen(configs: Configs, service: string)
    ensures |Table(Sorted(configs), service)| > 1 <==> exists n :: n in configs && configs[n].host == service && configs[n].headerValue != ""
  {
    TableHasRoutes(Sorted(configs), service);
    if n :| n in configs && configs[n].host == service && configs[n].headerValue != "" {
      assert Config(n, configs[n]) in Sorted(configs) && Applies(Config(n, configs[n]), service);
    }
    if c :| c in Sorted(configs) && Applies(c, service) { assert c.name in configs && configs[c.name] == c.spec; }
  }

  lemma SendersWin(configs: Configs, service: string, headers: map<string, string>)
    ensures forall n :: SendsFirst(configs, n, service, headers) <==> n in configs && Winner(Config(n, configs[n]), Sorted(configs), service, headers)
    ensures forall c :: Winner(c, Sorted(configs), service, headers) ==> SendsFirst(configs, c.name, service, headers)
    ensures (exists c :: c in Sorted(configs) && Hits(c, service, headers)) <==> exists n :: Sends(configs, n, service, headers)
  {
    var sorted := Sorted(configs);
    forall c: Config | c in sorted ensures c == Config(c.name, configs[c.name]) {}
    forall n | n in configs ensures Config(n, configs[n]) in sorted {}
    if n :| Sends(configs, n, service, headers) { assert Config(n, configs[n]) in sorted; }
    forall n | n in configs ensures SendsFirst(configs, n, service, headers) <==> Winner(Config(n, configs[n]), sorted, service, headers) {
      if Winner(Config(n, configs[n]), sorted, service, headers) {
        forall m | Sends(configs, m, service, headers) ensures m == n || Below(n, m) { assert Config(m, configs[m]) in sorted; }
      }
    }
  }

  /** `listed` is some arrangement of the configs. */
  ghost predicate Arranges(listed: seq<Config>, configs: Configs) {
    DistinctKeys(listed, NameOf) && forall c :: c in listed <==> c.name in configs && configs[c.name] == c.spec
  }

  /** Every arrangement of the configs sorts to the same list, so the route table depends on the
      set of configs alone. */
  lemma SortingForgetsOrder(listed: seq<Config>, sorted: seq<Config>, configs: Configs)
    requires Arranges(listed, configs)
    requires SortedBy(sorted, NameOf) && multiset(sorted) == multiset(listed)
    ensures sorted == Sorted(configs)
  {
    MultisetKeepsDistinct(listed, sorted, NameOf);
    forall c ensures c in sorted <==> c in listed {
      assert c in multiset(sorted) <==> c in multiset(listed);
    }
    SortedUnique(sorted, Sorted(configs), NameOf);
  }

  /** Only the configs that apply to a service matter to its table. */
  lemma TableDependsOnApplying(a: Configs, b: Configs, service: string)
    requires forall n :: n in a && Applies(Config(n, a[n]), service) ==> n in b && b[n] == a[n]
    requires forall n :: n in b && Applies(Config(n, b[n]), service) ==> n in a && a[n] == b[n]
    ensures Table(Sorted(a), service) == Table(Sorted(b), service)
  {
    KeepApplying(Sorted(a), service);
    KeepApplying(Sorted(b), service);
    forall c: Config ensures c in Applying(Sorted(a), service) <==> c in Applying(Sorted(b), service) {
      assert c == Config(c.name, c.spec);
    }
    SortedUnique(Applying(Sorted(a), service), Applying(Sorted(b), service), NameOf);
  }

  ghost function Applying(configs: seq<Config>, service: string): seq<Config> {
    if configs == [] then []
    else (if Applies(configs[0], service) then [configs[0]] else []) + Applying(configs[1..], service)
  }

  lemma {:induction false} KeepMembers(configs: seq<Config>, service: string)
    ensures forall c :: c in Applying(configs, service) <==> c in configs && Applies(c, service)
  {
    if configs != [] {
      KeepMembers(configs[1..], service);
    }
  }

  lemma {:induction false} KeepRoutes(configs: seq<Config>, service: string)
    ensures ConfigRoutes(configs, service) == ConfigRoutes(Applying(configs, service), service)
  {
    if configs != [] {
      KeepRoutes(configs[1..], service);
      var kept := Applying(configs, service);
      if Applies(configs[0], service) {
        assert kept[1..] == Applying(configs[1..], service);
      } else {
        assert kept == Applying(configs[1..], service);
      }
    }
  }

  lemma {:induction false} KeepOrder(configs: seq<Config>, service: string)
    requires SortedBy(configs, NameOf) && DistinctKeys(configs, NameOf)
    ensures SortedBy(Applying(configs, service), NameOf) && DistinctKeys(Applying(configs, service), NameOf)
  {
    if configs != [] {
      var tail := configs[1..];
      KeepOrder(tail, service);
      if Applies(configs[0], service) {
        KeepMembers(tail, service);
        HeadBelow(configs[0], Applying(tail, service), configs);
      }
    }
  }

  lemma HeadBelow(head: Config, rest: seq<Config>, configs: seq<Config>)
    requires SortedBy(configs, NameOf) && DistinctKeys(configs, NameOf)
    requires configs != [] && head == configs[0] && forall c :: c in rest ==> c in configs[1..]
    requires SortedBy(rest, NameOf) && DistinctKeys(rest, NameOf)
    ensures SortedBy([head] + rest, NameOf) && DistinctKeys([head] + rest, NameOf)
  {
    forall j | 0 <= j < |rest| ensures NameOf(rest[j]) != NameOf(head) && !Below(NameOf(rest[j]), NameOf(head)) {
      assert rest[j] in rest;
      var m :| 0 <= m < |configs[1..]| && configs[1..][m] == rest[j];
      assert configs[m + 1] == rest[j];
    }
  }

  lemma KeepApplying(configs: seq<Config>, service: string)
    requires SortedBy(configs, NameOf) && DistinctKeys(configs, NameOf)
    ensures var kept := Applying(configs, service);
      && SortedBy(kept, NameOf) && DistinctKeys(kept, NameOf)
      && (forall c :: c in kept <==> c in configs && Applies(c, service))
      && ConfigRoutes(configs, service) == ConfigRoutes(kept, service)
  {
    KeepMembers(configs, service);
    KeepRoutes(configs, service);
    KeepOrder(configs, service);
  }

  lemma {:induction false} OneRouteEach(configs: seq<Config>, service: string)
    ensures |ConfigRoutes(configs, service)| == |Applying(configs, service)|
  {
    if configs != [] {
      OneRouteEach(configs[1..], service);
    }
  }

  lemma {:induction false} LengthIsSize(configs: seq<Config>)
    requires DistinctKeys(configs, NameOf)
    ensures |configs| == |set c | c in configs|
  {
    if configs != [] {
      LengthIsSize(configs[1..]);
      forall i | 0 < i < |configs| ensures configs[i] != configs[0] {
        assert NameOf(configs[0]) != NameOf(configs[i]);
      }
      assert (set c | c in configs) == (set c | c in configs[1..]) + {configs[0]};
    }
  }

  /** Taking away a config that applies takes exactly one route away. */
  lemma OneRouteLess(a: Configs, b: Configs, name: string, service: string)
    requires name in a && Applies(Config(name, a[name]), service)
    requires name !in b || !Applies(Config(name, b[name]), service)
    requires forall n :: n != name ==> (n in a <==> n in b) && (n in a ==> a[n] == b[n])
    ensures |Table(Sorted(a), service)| == |Table(Sorted(b), service)| + 1
  {
    var x, y := Applying(Sorted(a), service), Applying(Sorted(b), service);
    KeepApplying(Sorted(a), service);
    KeepApplying(Sorted(b), service);
    OneRouteEach(Sorted(a), service);
    OneRouteEach(Sorted(b), service);
    var gone := Config(name, a[name]);
    forall c: Config ensures c in x <==> c == gone || c in y {
      assert c == Config(c.name, c.spec);
    }
    OneMemberLess(x, y, gone);
  }

  lemma OneMemberLess(x: seq<Config>, y: seq<Config>, gone: Config)
    requires DistinctKeys(x, NameOf) && DistinctKeys(y, NameOf)
    requires gone !in y && forall c :: c in x <==> c == gone || c in y
    ensures |x| == |y| + 1
  {
    LengthIsSize(x);
    LengthIsSize(y);
    assert (set c | c in x) == (set c | c in y) + {gone};
  }
}
