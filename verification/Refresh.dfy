/** The generic refresher: given a parent and the objects it should own, delete the owned
    objects that are no longer wanted, then create or update the wanted ones. */
module Refresh {
  import opened Kube
  import opened ResourceName

  datatype ObjectList = ObjectList(items: seq<Object>, kind: Kind,
                                   identity: Object -> Result<string>)

  // ---------------------------------------------------------------- the plan of a run

  /** What a run does with one object it looks at.  `Abort` ends the run with an error that
      no API call caused. */
  datatype Step = Skip | Remove(key: Key) | Put(content: Object) | Abort

  predicate OwnedByParent(o: Object, p: Parent) {
    exists i :: 0 <= i < |o.owners| && o.owners[i].name == p.name
                && o.owners[i].apiVersion == p.reported.apiVersion && o.owners[i].kind == p.reported.kind
  }

  /** Ownership needs a reference with the parent's version, kind and name; whether it is the controller's does not matter. */
  lemma OwnershipMeaning(o: Object, p: Parent)
    ensures OwnedByParent(o, p) <==> exists c: bool :: OwnerRef(p.reported.apiVersion, p.reported.kind, p.name, c) in o.owners
  {
    if i :| 0 <= i < |o.owners| && o.owners[i].name == p.name && o.owners[i].apiVersion == p.reported.apiVersion && o.owners[i].kind == p.reported.kind {
      assert o.owners[i] == OwnerRef(p.reported.apiVersion, p.reported.kind, p.name, o.owners[i].controller);
    }
  }

  predicate Identified(items: seq<Object>, identity: Object -> Result<string>) {
    forall i :: 0 <= i < |items| ==> identity(items[i]).Ok?
  }

  /** `id` is the identity of one of the items. */
  predicate Wanted(id: string, list: ObjectList) {
    exists i :: 0 <= i < |list.items| && list.identity(list.items[i]) == Ok(id)
  }

  function DeleteStep(o: Object, p: Parent, list: ObjectList): Step {
    if !OwnedByParent(o, p) then Skip
    else match list.identity(o)
      case Err(_) => Abort
      case Ok(id) => if Wanted(id, list) then Skip else Remove(KeyOf(o))
  }

  /** The live object of each wanted identity; the last one listed wins. */
  function Existing(listing: seq<Object>, p: Parent, list: ObjectList): map<string, Object> {
    if listing == [] then map[]
    else
      var o := listing[|listing| - 1];
      var before := Existing(listing[..|listing| - 1], p, list);
      match list.identity(o)
      case Err(_) => before
      case Ok(id) => if OwnedByParent(o, p) && Wanted(id, list) then before[id := o] else before
  }

  /** The name of an object that is created. */
  function FreshName(o: Object, id: string, p: Parent): string {
    if o.name != "" then Shorten(o.name) else Compose(id, p.name)
  }

  function ChosenName(o: Object, id: string, p: Parent, existing: map<string, Object>): string {
    if id in existing then existing[id].name else FreshName(o, id, p)
  }

  /** The desired object under its final name, in the parent's namespace, owned by it. */
  function Landed(o: Object, name: string, owners: seq<OwnerRef>, p: Parent): Object {
    o.(name := name, namespace := p.namespace, owners := owners)
  }

  function WriteStep(o: Object, p: Parent, list: ObjectList, existing: map<string, Object>): Step {
    match list.identity(o)
    case Err(_) => Abort
    case Ok(id) =>
      match SetController(p, o.namespace, o.owners)
      case Err(_) => Abort
      case Ok(owners) => Put(Landed(o, ChosenName(o, id, p, existing), owners, p))
  }

  /** Everything a run does, once the list call has answered with `listing`. */
  function Plan(listing: seq<Object>, p: Parent, list: ObjectList): seq<Step> {
    if !Identified(list.items, list.identity) then [Abort]
    else Deletions(listing, p, list) + Writes(p, list, Existing(listing, p, list))
  }

  function Deletions(listing: seq<Object>, p: Parent, list: ObjectList): seq<Step> {
    seq(|listing|, i requires 0 <= i < |listing| => DeleteStep(listing[i], p, list))
  }

  function Writes(p: Parent, list: ObjectList, existing: map<string, Object>): seq<Step> {
    seq(|list.items|, i requires 0 <= i < |list.items| => WriteStep(list.items[i], p, list, existing))
  }

  function Apply(s: Store, step: Step): Store {
    match step
    case Skip => s
    case Remove(k) => s - {k}
    case Put(o) => s[KeyOf(o) := o]
    case Abort => s
  }

  /** The store after the given steps, first one first. */
  function Run(s: Store, steps: seq<Step>): Store {
    if steps == [] then s
    else Apply(Run(s, steps[..|steps| - 1]), steps[|steps| - 1])
  }

  predicate Completes(steps: seq<Step>) {
    forall i :: 0 <= i < |steps| ==> !steps[i].Abort?
  }

  // ---------------------------------------------------------------- the run itself

  /** `refresher.Refresh`.  `listing` is the answer of the list call, `done` counts the steps of
      the plan that took effect: all of them after a success, some prefix after an error. */
  method Refresh(c: Cluster, p: Parent, list: ObjectList)
    returns (r: Result<()>, ghost listing: seq<Object>, ghost done: nat)
    requires c.Valid()
    modifies c
    ensures c.Valid()
    ensures Enumerates(listing, old(c.store), list.kind, Some(p.namespace), Everything)
    ensures done <= |Plan(listing, p, list)|
    ensures c.store == Run(old(c.store), Plan(listing, p, list)[..done])
    ensures Completes(Plan(listing, p, list)[..done])
    ensures r.Ok? ==> done == |Plan(listing, p, list)|
  {
    var existing;
    r, existing, listing, done := HandleExisting(c, p, list);
    if r.Err? { return; }

    PlanShape(listing, p, list);
    r, done := WriteItems(c, p, list, existing, old(c.store), Plan(listing, p, list), done);
  }

  /** The plan ends with the writes of all items. */
  ghost predicate WritesFrom(plan: seq<Step>, from: nat, p: Parent, list: ObjectList, existing: map<string, Object>) {
    && |plan| == from + |list.items|
    && forall i :: 0 <= i < |list.items| ==> plan[from + i] == WriteStep(list.items[i], p, list, existing)
  }

  /** The loop over the desired objects: the steps of `plan` from `from` on. */
  method WriteItems(c: Cluster, p: Parent, list: ObjectList, existing: map<string, Object>,
                    ghost start: Store, ghost plan: seq<Step>, ghost from: nat)
    returns (r: Result<()>, ghost done: nat)
    requires c.Valid()
    requires WritesFrom(plan, from, p, list, existing)
    requires c.store == Run(start, plan[..from]) && Completes(plan[..from])
    modifies c
    ensures c.Valid()
    ensures done <= |plan| && c.store == Run(start, plan[..done]) && Completes(plan[..done])
    ensures r.Ok? ==> done == |plan|
  {
    r, done := Ok(()), from;
    for i := 0 to |list.items|
      invariant c.Valid() && done == from + i && r.Ok?
      invariant c.store == Run(start, plan[..done]) && Completes(plan[..done])
    {
      RunOneMore(start, plan, done);
      ghost var applied;
      r, applied := WriteItem(c, list.items[i], p, list, existing);
      if applied { done := done + 1; }
      if r.Err? { return; }
    }
  }

  lemma PlanShape(listing: seq<Object>, p: Parent, list: ObjectList)
    requires Identified(list.items, list.identity)
    ensures var plan := Plan(listing, p, list);
      && WritesFrom(plan, |listing|, p, list, Existing(listing, p, list))
      && (forall i :: 0 <= i < |listing| ==> plan[i] == DeleteStep(listing[i], p, list))
  {
    PlanLength(listing, p, list);
    PlannedDeletes(listing, p, list);
    PlannedWrites(listing, p, list);
  }

  lemma PlannedDeletes(listing: seq<Object>, p: Parent, list: ObjectList)
    requires Identified(list.items, list.identity)
    ensures |Plan(listing, p, list)| >= |listing|
    ensures forall i :: 0 <= i < |listing| ==> Plan(listing, p, list)[i] == DeleteStep(listing[i], p, list)
  {}

  lemma PlannedWrites(listing: seq<Object>, p: Parent, list: ObjectList)
    requires Identified(list.items, list.identity)
    ensures WritesFrom(Plan(listing, p, list), |listing|, p, list, Existing(listing, p, list))
  {}

  lemma PlanLength(listing: seq<Object>, p: Parent, list: ObjectList)
    requires Identified(list.items, list.identity)
    ensures |Plan(listing, p, list)| == |listing| + |list.items|
  {}

  lemma RunOneMore(s: Store, steps: seq<Step>, n: nat)
    requires n < |steps|
    ensures Run(s, steps[..n + 1]) == Apply(Run(s, steps[..n]), steps[n])
    ensures Completes(steps[..n]) && !steps[n].Abort? ==> Completes(steps[..n + 1])
  {
    assert steps[..n + 1][..n] == steps[..n];
    assert steps[..n + 1] == steps[..n] + [steps[n]];
  }

  method PickName(o: Object, id: string, p: Parent, existing: map<string, Object>) returns (name: string)
    ensures name == ChosenName(o, id, p, existing)
  {
    if id in existing {
      name := existing[id].name;
    } else if o.name != "" {
      name := o.name;
      if LABEL_LIMIT < |name| { name := name[..LABEL_LIMIT]; }
    } else {
      name := Compose(id, p.name);
    }
  }

  /** One turn of the loop over the desired objects; `applied` says whether it took effect. */
  method WriteItem(c: Cluster, o: Object, p: Parent, list: ObjectList, existing: map<string, Object>)
    returns (r: Result<()>, ghost applied: bool)
    requires c.Valid()
    modifies c
    ensures c.Valid()
    ensures applied ==> WriteStep(o, p, list, existing).Put?
    ensures c.store == if applied then Apply(old(c.store), WriteStep(o, p, list, existing)) else old(c.store)
    ensures r.Ok? ==> applied
  {
    applied := false;
    var id := list.identity(o);
    if id.Err? { return Err(id.error), false; }
    var name := PickName(o, id.value, p, existing);
    r := CreateOrUpdate(c, o, name, p);
    applied := r.Ok? || c.store != old(c.store);
  }

  /** The get, mutate and write of one desired object. */
  method CreateOrUpdate(c: Cluster, o: Object, name: string, p: Parent) returns (r: Result<()>)
    requires c.Valid()
    modifies c
    ensures c.Valid()
    ensures var owners := SetController(p, o.namespace, o.owners);
      if owners.Err? then r.Err? && c.store == old(c.store)
      else
        var landed := Landed(o, name, owners.value, p);
        c.store == old(c.store)[KeyOf(landed) := landed] || (r.Err? && c.store == old(c.store))
  {
    var live := c.Get(Key(KindOf(o.body), p.namespace, name));
    if live.Err? { return Err(live.error); }
    // the mutation overwrites all of the live object, then puts name and namespace back
    var owners := SetController(p, o.namespace, o.owners);
    if owners.Err? { return Err(owners.error); }
    var landed := Landed(o, name, owners.value, p);
    if live.value == Some(landed) { return Ok(()); }
    r := c.Put(landed);
  }

  method CollectIds(list: ObjectList) returns (r: Result<set<string>>)
    ensures r.Ok? <==> Identified(list.items, list.identity)
    ensures r.Ok? ==> forall id :: id in r.value <==> Wanted(id, list)
  {
    var desiredIds: set<string> := {};
    for i := 0 to |list.items|
      invariant Identified(list.items[..i], list.identity)
      invariant forall id :: id in desiredIds <==> exists j :: 0 <= j < i && list.identity(list.items[j]) == Ok(id)
    {
      var id := list.identity(list.items[i]);
      if id.Err? { return Err(id.error); }
      desiredIds := desiredIds + {id.value};
    }
    r := Ok(desiredIds);
  }

  /** The steps delete objects or skip them: nothing is written. */
  ghost predicate OnlyDeletes(steps: seq<Step>) {
    forall i :: 0 <= i < |steps| ==> steps[i].Skip? || steps[i].Remove?
  }

  method HandleExisting(c: Cluster, p: Parent, list: ObjectList)
    returns (r: Result<()>, existing: map<string, Object>, ghost listing: seq<Object>, ghost done: nat)
    requires c.Valid()
    modifies c
    ensures c.Valid()
    ensures Enumerates(listing, old(c.store), list.kind, Some(p.namespace), Everything)
    ensures done <= |Plan(listing, p, list)|
    ensures c.store == Run(old(c.store), Plan(listing, p, list)[..done])
    ensures Completes(Plan(listing, p, list)[..done])
    ensures OnlyDeletes(Plan(listing, p, list)[..done]) && done <= |listing|
    ensures r.Ok? ==> Identified(list.items, list.identity) && done == |listing|
    ensures r.Ok? ==> existing == Existing(listing, p, list)
  {
    existing, done := map[], 0;
    listing := SomeAnswer(c.store, list.kind, Some(p.namespace), Everything);
    assert Plan(listing, p, list)[..0] == [];
    var desiredIds := CollectIds(list);
    if desiredIds.Err? { return Err(desiredIds.error), existing, listing, 0; }
    var current := c.List(list.kind, Some(p.namespace), Everything);
    if current.Err? { return Err(current.error), existing, listing, 0; }
    listing := current.value;
    PlanShape(listing, p, list);
    assert Plan(listing, p, list)[..0] == [];
    r, existing, done := SortExisting(c, p, list, desiredIds.value, current.value, c.store, Plan(listing, p, list));
    DeletesFirst(listing, p, list, done);
  }

  lemma DeletesFirst(listing: seq<Object>, p: Parent, list: ObjectList, done: nat)
    requires Identified(list.items, list.identity) && done <= |listing| && done <= |Plan(listing, p, list)|
    requires Completes(Plan(listing, p, list)[..done])
    ensures OnlyDeletes(Plan(listing, p, list)[..done])
  {
    PlannedDeletes(listing, p, list);
    forall i | 0 <= i < done ensures Plan(listing, p, list)[..done][i].Skip? || Plan(listing, p, list)[..done][i].Remove? {
      assert !Plan(listing, p, list)[..done][i].Abort?;
    }
  }

  /** The loop over the listed objects: keep the wanted ones, delete the others the parent owns. */
  method SortExisting(c: Cluster, p: Parent, list: ObjectList, desiredIds: set<string>,
                      listing: seq<Object>, ghost start: Store, ghost plan: seq<Step>)
    returns (r: Result<()>, existing: map<string, Object>, ghost done: nat)
    requires c.Valid() && c.store == start
    requires forall id :: id in desiredIds <==> Wanted(id, list)
    requires |plan| >= |listing|
    requires forall i :: 0 <= i < |listing| ==> plan[i] == DeleteStep(listing[i], p, list)
    modifies c
    ensures c.Valid()
    ensures done <= |listing| && c.store == Run(start, plan[..done]) && Completes(plan[..done])
    ensures r.Ok? ==> done == |listing| && existing == Existing(listing, p, list)
  {
    existing, done := map[], 0;
    for i := 0 to |listing|
      invariant c.Valid() && done == i
      invariant c.store == Run(start, plan[..i]) && Completes(plan[..i])
      invariant existing == Existing(listing[..i], p, list)
    {
      var o := listing[i];
      RunOneMore(start, plan, i);
      assert listing[..i + 1][..i] == listing[..i];
      if !OwnedByParent(o, p) {
        done := i + 1;
        continue;
      }
      var id := list.identity(o);
      if id.Err? { return Err(id.error), existing, i; }
      if id.value in desiredIds {
        existing := existing[id.value := o];
        done := i + 1;
        continue;
      }
      var deleted := c.Delete(KeyOf(o));
      if deleted.Err? {
        done := if c.store == Run(start, plan[..i]) then i else i + 1;
        return Err(deleted.error), existing, done;
      }
      done := i + 1;
    }
    assert listing[..|listing|] == listing;
    r := Ok(());
  }
}
