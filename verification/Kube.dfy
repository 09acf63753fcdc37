/** The cluster the controller works on: objects, label selectors, owner references
    and an API whose calls may fail, before or after they took effect. */
module Kube {

  datatype Option<+T> = None | Some(value: T)

  datatype Error =
    | ApiFailure
    | NotFound
    | AlreadyOwned
    | NamespaceMismatch
    | IdentityUnknown
    | MalformedManager
    | InvalidLabelOption
    | NilMapWrite
    | InvalidSelector

  datatype Result<+T> = Ok(value: T) | Err(error: Error)

  // ---------------------------------------------------------------- labels

  type Labels = map<string, string>

  datatype Operator = In | NotIn | Exists | DoesNotExist

  datatype Requirement = Requirement(key: string, operator: Operator, values: seq<string>)

  datatype LabelSelector = LabelSelector(matchLabels: Labels, matchExpressions: seq<Requirement>)

  /** What a list call filters by: `labels.Everything()`, `labels.Nothing()` or requirements. */
  datatype Query = Everything | Nothing | By(selector: LabelSelector)

  predicate Meets(r: Requirement, labels: Labels) {
    match r.operator
    case In => r.key in labels && labels[r.key] in r.values
    case NotIn => r.key !in labels || labels[r.key] !in r.values
    case Exists => r.key in labels
    case DoesNotExist => r.key !in labels
  }

  predicate HasAll(wanted: Labels, labels: Labels) {
    forall k :: k in wanted ==> k in labels && labels[k] == wanted[k]
  }

  predicate Selects(s: LabelSelector, labels: Labels) {
    HasAll(s.matchLabels, labels)
    && forall i :: 0 <= i < |s.matchExpressions| ==> Meets(s.matchExpressions[i], labels)
  }

  /** `metav1.LabelSelectorAsSelector`: a nil selector matches nothing. */
  function AsQuery(s: Option<LabelSelector>): Query {
    match s
    case None => Nothing
    case Some(sel) => By(sel)
  }

  predicate Matches(q: Query, labels: Labels) {
    match q
    case Everything => true
    case Nothing => false
    case By(s) => Selects(s, labels)
  }

  /** Each operator and its opposite: exactly one of the two holds of any labels. */
  lemma MeetsOpposites(key: string, values: seq<string>, labels: Labels)
    ensures Meets(Requirement(key, In, values), labels) <==> !Meets(Requirement(key, NotIn, values), labels)
    ensures Meets(Requirement(key, Exists, values), labels) <==> !Meets(Requirement(key, DoesNotExist, values), labels)
    ensures Meets(Requirement(key, Exists, values), labels) <==> exists v :: (key, v) in labels.Items
    ensures Meets(Requirement(key, In, values), labels) <==> exists i :: 0 <= i < |values| && (key, values[i]) in labels.Items
  {
    if key in labels { assert (key, labels[key]) in labels.Items; }
  }

  // ---------------------------------------------------------------- objects

  datatype Kind =
    | Service | Deployment | DeploymentCopy | VSConfig | VirtualService
    | Mapping | Fork | ForkManager

  datatype GVK = GVK(apiVersion: string, kind: string)

  /** The group, version and kind registered in the scheme. */
  function SchemeGVK(k: Kind): GVK {
    match k
    case Service => GVK("v1", "Service")
    case Deployment => GVK("apps/v1", "Deployment")
    case DeploymentCopy => GVK("duplication.k8s.wantedly.com/v1beta1", "DeploymentCopy")
    case VSConfig => GVK("fork.k8s.wantedly.com/v1beta1", "VSConfig")
    case VirtualService => GVK("networking.istio.io/v1beta1", "VirtualService")
    case Mapping => GVK("getambassador.io/v2", "Mapping")
    case Fork => GVK("fork.k8s.wantedly.com/v1beta1", "Fork")
    case ForkManager => GVK("fork.k8s.wantedly.com/v1beta1", "ForkManager")
  }

  datatype OwnerRef = OwnerRef(apiVersion: string, kind: string, name: string, controller: bool)

  datatype Port = Port(name: string, protocol: string, appProtocol: Option<string>,
                       port: int, targetPort: string, nodePort: int)

  datatype ServiceSpec = ServiceSpec(clusterIP: string, serviceType: string,
                                     ports: seq<Port>, selector: Labels)

  datatype Container = Container(name: string, image: string, env: seq<(string, string)>)

  datatype DeploymentSpec = DeploymentSpec(podLabels: Labels, containers: seq<Container>)

  datatype DeploymentCopySpec = DeploymentCopySpec(
    replicas: int, targetDeploymentName: string, nameSuffix: string,
    customLabels: Labels, customAnnotations: Labels, targetContainers: seq<Container>)

  datatype VSConfigSpec = VSConfigSpec(host: string, service: string,
                                       headerName: string, headerValue: string)

  /** `matches` is a disjunction of header conjunctions; an empty list matches everything. */
  datatype HTTPRoute = HTTPRoute(matches: seq<map<string, string>>, destinations: seq<string>)

  datatype VirtualServiceSpec = VirtualServiceSpec(hosts: seq<string>, http: seq<HTTPRoute>)

  datatype MappingSpec = MappingSpec(
    addRequestHeaders: map<string, string>, allowUpgrade: seq<string>, ambassadorID: seq<string>,
    host: string, prefix: string, rewrite: string, service: string, hostRewrite: string,
    timeoutMs: int)

  datatype GatewayOptions = GatewayOptions(addRequestHeaders: map<string, string>,
                                           allowUpgrade: seq<string>)

  /** A pod template; its metadata is taken to be present. */
  datatype PodTemplate = PodTemplate(labels: Labels, annotations: Labels, containers: seq<Container>)

  datatype ForkDeployment = ForkDeployment(selector: Option<LabelSelector>,
                                           template: Option<PodTemplate>, replicas: Option<int>)

  datatype ForkService = ForkService(selector: Option<LabelSelector>)

  datatype ForkSpec = ForkSpec(
    manager: string, identifier: string, deadline: Option<int>,
    gatewayOptions: Option<GatewayOptions>,
    services: Option<ForkService>, deployments: Option<ForkDeployment>)

  datatype Upstream = Upstream(host: string, original: string, hostRewrite: string)

  datatype ForkManagerSpec = ForkManagerSpec(ambassadorID: string, headerKey: string,
                                             upstreams: seq<Upstream>)

  datatype Body =
    | ServiceBody(service: ServiceSpec)
    | DeploymentBody(deployment: DeploymentSpec)
    | DeploymentCopyBody(copy: DeploymentCopySpec)
    | VSConfigBody(config: VSConfigSpec)
    | VirtualServiceBody(virtualService: VirtualServiceSpec)
    | MappingBody(mapping: MappingSpec)
    | ForkBody(fork: ForkSpec)
    | ForkManagerBody(manager: ForkManagerSpec)

  datatype Object = Object(name: string, namespace: string, labels: Labels,
                           owners: seq<OwnerRef>, body: Body)

  function KindOf(b: Body): Kind {
    match b
    case ServiceBody(_) => Service
    case DeploymentBody(_) => Deployment
    case DeploymentCopyBody(_) => DeploymentCopy
    case VSConfigBody(_) => VSConfig
    case VirtualServiceBody(_) => VirtualService
    case MappingBody(_) => Mapping
    case ForkBody(_) => Fork
    case ForkManagerBody(_) => ForkManager
  }

  datatype Key = Key(kind: Kind, namespace: string, name: string)

  function KeyOf(o: Object): Key {
    Key(KindOf(o.body), o.namespace, o.name)
  }

  type Store = map<Key, Object>

  /** Every object is stored under its own kind, namespace and name. */
  ghost predicate WellKeyed(s: Store) {
    forall k :: k in s ==> KeyOf(s[k]) == k
  }

  // ---------------------------------------------------------------- owners

  /** An object in the role of an owner, with the type its own metadata reports. */
  datatype Parent = Parent(reported: GVK, kind: Kind, namespace: string, name: string)

  /** The parent reports the type the scheme gives it. */
  predicate Typed(p: Parent) {
    p.reported == SchemeGVK(p.kind)
  }

  function ControllerRef(p: Parent): OwnerRef {
    OwnerRef(SchemeGVK(p.kind).apiVersion, SchemeGVK(p.kind).kind, p.name, true)
  }

  predicate SameReferent(a: OwnerRef, b: OwnerRef) {
    a.apiVersion == b.apiVersion && a.kind == b.kind && a.name == b.name
  }

  function Upsert(owners: seq<OwnerRef>, ref: OwnerRef): seq<OwnerRef> {
    if owners == [] then [ref]
    else if SameReferent(owners[0], ref) then [ref] + owners[1..]
    else [owners[0]] + Upsert(owners[1..], ref)
  }

  /** The first controller among the owners belongs to someone else. */
  predicate ControlledByOther(owners: seq<OwnerRef>, ref: OwnerRef) {
    owners != []
    && if owners[0].controller then !SameReferent(owners[0], ref)
       else ControlledByOther(owners[1..], ref)
  }

  /** `controllerutil.SetControllerReference`: the owner list it leaves, or its error. */
  function SetController(p: Parent, namespace: string, owners: seq<OwnerRef>): Result<seq<OwnerRef>> {
    if p.namespace != "" && namespace != p.namespace then Err(NamespaceMismatch)
    else if ControlledByOther(owners, ControllerRef(p)) then Err(AlreadyOwned)
    else Ok(Upsert(owners, ControllerRef(p)))
  }

  lemma {:induction false} UpsertHolds(owners: seq<OwnerRef>, ref: OwnerRef)
    ensures ref in Upsert(owners, ref)
    ensures Upsert(Upsert(owners, ref), ref) == Upsert(owners, ref)
  {
    if owners != [] && !SameReferent(owners[0], ref) {
      UpsertHolds(owners[1..], ref);
      assert Upsert(owners, ref)[1..] == Upsert(owners[1..], ref);
    }
  }

  lemma {:induction false} UpsertControlled(owners: seq<OwnerRef>, ref: OwnerRef)
    requires ref.controller && !ControlledByOther(owners, ref)
    ensures !ControlledByOther(Upsert(owners, ref), ref)
  {
    if owners != [] && !SameReferent(owners[0], ref) {
      UpsertControlled(owners[1..], ref);
      assert Upsert(owners, ref)[1..] == Upsert(owners[1..], ref);
    }
  }

  /** The first of the owners that refers to the same object. */
  ghost predicate RefersFirst(owners: seq<OwnerRef>, i: nat, ref: OwnerRef) {
    i < |owners| && SameObject(owners[i], ref) && forall j :: 0 <= j < i ==> !SameObject(owners[j], ref)
  }

  predicate SameObject(a: OwnerRef, b: OwnerRef) {
    (a.apiVersion, a.kind, a.name) == (b.apiVersion, b.kind, b.name)
  }

  /** What setting a controller leaves of the owners: the first reference to the parent is replaced by the
      controller's, all others stay where they are, and without one the controller's is appended. */
  lemma {:induction false} UpsertMeaning(owners: seq<OwnerRef>, ref: OwnerRef)
    ensures forall i: nat :: RefersFirst(owners, i, ref) ==> Upsert(owners, ref) == owners[i := ref]
    ensures (forall i: nat :: !RefersFirst(owners, i, ref)) ==> Upsert(owners, ref) == owners + [ref]
    ensures (exists i: nat :: RefersFirst(owners, i, ref)) <==> exists o :: o in owners && SameObject(o, ref)
  {
    if owners != [] {
      var rest := owners[1..];
      UpsertMeaning(rest, ref);
      if SameObject(owners[0], ref) {
        assert RefersFirst(owners, 0, ref);
      } else {
        forall i: nat | RefersFirst(owners, i, ref) ensures i > 0 && RefersFirst(rest, i - 1, ref) {}
        forall i: nat | RefersFirst(rest, i, ref) ensures RefersFirst(owners, i + 1, ref) {
          forall j | 0 <= j < i + 1 ensures !SameObject(owners[j], ref) { if j > 0 { assert owners[j] == rest[j - 1]; } }
        }
        assert owners == [owners[0]] + rest;
      }
    }
  }

  /** When a parent is accepted: it is in the same namespace or in none, and the first controller among the
      owners, if there is one, is the parent. */
  lemma {:induction false} AcceptedParent(p: Parent, namespace: string, owners: seq<OwnerRef>)
    ensures SetController(p, namespace, owners).Ok? <==>
      (p.namespace == "" || p.namespace == namespace)
      && forall i :: 0 <= i < |owners| && owners[i].controller && (forall j :: 0 <= j < i ==> !owners[j].controller) ==>
           SameObject(owners[i], ControllerRef(p))
  {
    FirstController(owners, ControllerRef(p));
  }

  lemma {:induction false} FirstController(owners: seq<OwnerRef>, ref: OwnerRef)
    ensures ControlledByOther(owners, ref) <==>
      exists i :: 0 <= i < |owners| && owners[i].controller && (forall j :: 0 <= j < i ==> !owners[j].controller) && !SameObject(owners[i], ref)
  {
    if owners != [] && !owners[0].controller {
      var rest := owners[1..];
      FirstController(rest, ref);
      if i :| 0 <= i < |rest| && rest[i].controller && (forall j :: 0 <= j < i ==> !rest[j].controller) && !SameObject(rest[i], ref) {
        assert owners[i + 1] == rest[i];
        forall j | 0 <= j < i + 1 ensures !owners[j].controller { if j > 0 { assert owners[j] == rest[j - 1]; } }
      }
      if i :| 0 <= i < |owners| && owners[i].controller && (forall j :: 0 <= j < i ==> !owners[j].controller) && !SameObject(owners[i], ref) {
        assert rest[i - 1] == owners[i];
        forall j | 0 <= j < i - 1 ensures !rest[j].controller { assert rest[j] == owners[j + 1]; }
      }
    }
  }

  // ---------------------------------------------------------------- the API

  /** `o` is one of the objects a list call returns. */
  predicate Listed(s: Store, kind: Kind, namespace: Option<string>, q: Query, o: Object) {
    KeyOf(o) in s && s[KeyOf(o)] == o && KindOf(o.body) == kind
    && (namespace.Some? ==> o.namespace == namespace.value)
    && Matches(q, o.labels)
  }

  /** `items` is one possible answer of a list call: the right objects, once each, in any order. */
  ghost predicate Enumerates(items: seq<Object>, s: Store, kind: Kind,
                             namespace: Option<string>, q: Query) {
    (forall o :: o in items <==> Listed(s, kind, namespace, q, o))
    && forall i, j :: 0 <= i < j < |items| ==> items[i] != items[j]
  }

  lemma EnumeratedKeysDistinct(items: seq<Object>, s: Store, kind: Kind,
                               namespace: Option<string>, q: Query)
    requires Enumerates(items, s, kind, namespace, q)
    ensures forall i, j :: 0 <= i < j < |items| ==> KeyOf(items[i]) != KeyOf(items[j])
  {
    forall i, j | 0 <= i < j < |items| ensures KeyOf(items[i]) != KeyOf(items[j]) {
      assert items[i] in items && items[j] in items;
    }
  }

  /** `items` are the stored objects under the given keys, once each, in some order. */
  ghost predicate Fetches(items: seq<Object>, s: Store, found: set<Key>) {
    (forall o :: o in items <==> KeyOf(o) in found && KeyOf(o) in s && s[KeyOf(o)] == o)
    && forall i, j :: 0 <= i < j < |items| ==> items[i] != items[j]
  }

  ghost function Fetched(s: Store, found: set<Key>): (items: seq<Object>)
    requires found <= s.Keys
    ensures WellKeyed(s) ==> Fetches(items, s, found)
  {
    if found == {} then [] else var k :| k in found; [s[k]] + Fetched(s, found - {k})
  }

  /** Some answer a list call may give. */
  ghost function SomeAnswer(s: Store, kind: Kind, namespace: Option<string>, q: Query): (items: seq<Object>)
    ensures WellKeyed(s) ==> Enumerates(items, s, kind, namespace, q)
  {
    Fetched(s, set k | k in s && Listed(s, kind, namespace, q, s[k]) && KeyOf(s[k]) == k)
  }

  /** What can happen to one request. `Lost` took effect, but the caller sees an error. */
  datatype Fate = Served | Refused | Lost

  class Cluster {
    var store: Store

    ghost predicate Valid()
      reads this
    {
      WellKeyed(store)
    }

    constructor (s: Store)
      requires WellKeyed(s)
      ensures Valid() && store == s
    {
      store := s;
    }

    /** `Ok(None)` is the not-found answer. */
    method Get(key: Key) returns (r: Result<Option<Object>>)
      ensures r.Ok? ==> r.value == if key in store then Some(store[key]) else None
    {
      var fate: Fate := *;
      if fate != Served { return Err(ApiFailure); }
      r := Ok(if key in store then Some(store[key]) else None);
    }

    method List(kind: Kind, namespace: Option<string>, q: Query) returns (r: Result<seq<Object>>)
      requires Valid()
      ensures r.Ok? ==> Enumerates(r.value, store, kind, namespace, q)
    {
      var fate: Fate := *;
      if fate != Served { return Err(ApiFailure); }
      var found := set k | k in store && Listed(store, kind, namespace, q, store[k]);
      var items := Fetch(found);
      r := Ok(items);
    }

    /** The stored objects under the given keys, in some order. */
    method Fetch(found: set<Key>) returns (items: seq<Object>)
      requires Valid() && found <= store.Keys
      ensures Fetches(items, store, found)
    {
      var todo := found;
      items := [];
      while todo != {}
        invariant todo <= found && Fetches(items, store, found - todo)
      {
        var k :| k in todo;
        assert KeyOf(store[k]) == k;
        items := items + [store[k]];
        todo := todo - {k};
      }
    }

    /** Create, or update when the key is taken. */
    method Put(o: Object) returns (r: Result<()>)
      requires Valid()
      modifies this
      ensures Valid()
      ensures store == old(store)[KeyOf(o) := o] || (r.Err? && store == old(store))
    {
      var fate: Fate := *;
      if fate == Refused { return Err(ApiFailure); }
      store := store[KeyOf(o) := o];
      r := if fate == Lost then Err(ApiFailure) else Ok(());
    }

    method Delete(key: Key) returns (r: Result<()>)
      requires Valid()
      modifies this
      ensures Valid()
      ensures store == old(store) - {key} || (r.Err? && store == old(store))
      ensures r.Ok? ==> key in old(store)
    {
      var fate: Fate := *;
      if fate == Refused { return Err(ApiFailure); }
      if key !in store { return Err(NotFound); }
      store := store - {key};
      r := if fate == Lost then Err(ApiFailure) else Ok(());
    }
  }
}
