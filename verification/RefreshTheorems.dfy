/** What runs of the refresher achieve: convergence, framing, retry and repetition. */
module RefreshTheorems {
  import opened Kube
  import opened ResourceName
  import opened Refresh

  // ---------------------------------------------------------------- vocabulary

  ghost predicate InScope(k: Key, p: Parent, list: ObjectList) {
    k.kind == list.kind && k.namespace == p.namespace
  }

  /** The object at `k` is one the parent owns. */
  ghost predicate OwnedAt(s: Store, k: Key, p: Parent, list: ObjectList) {
    k in s && InScope(k, p, list) && OwnedByParent(s[k], p)
  }

  /** The object at `k` is owned, but its identity is not wanted any more. */
  ghost predicate Stale(s: Store, k: Key, p: Parent, list: ObjectList) {
    OwnedAt(s, k, p, list) && list.identity(s[k]).Ok? && !Wanted(list.identity(s[k]).value, list)
  }

  /** The items can be written at all: identities known, right kind, owner reference accepted. */
  ghost predicate Writable(p: Parent, list: ObjectList) {
    forall i :: 0 <= i < |list.items| ==>
      && list.identity(list.items[i]).Ok?
      && KindOf(list.items[i].body) == list.kind
      && SetController(p, list.items[i].namespace, list.items[i].owners).Ok?
  }

  /** Every object the parent owns tells its identity. */
  ghost predicate Readable(s: Store, p: Parent, list: ObjectList) {
    forall k :: OwnedAt(s, k, p, list) ==> list.identity(s[k]).Ok?
  }

  ghost predicate DistinctIds(list: ObjectList) {
    forall i, j :: 0 <= i < j < |list.items| ==>
      list.identity(list.items[i]) != list.identity(list.items[j])
  }

  ghost function Id(list: ObjectList, i: nat): string
    requires i < |list.items| && list.identity(list.items[i]).Ok?
  {
    list.identity(list.items[i]).value
  }

  /** The key the i-th desired object is written to. */
  ghost function Slot(list: ObjectList, i: nat, p: Parent, existing: map<string, Object>): Key
    requires Writable(p, list) && i < |list.items|
  {
    Key(list.kind, p.namespace, ChosenName(list.items[i], Id(list, i), p, existing))
  }

  /** What is written there: the desired content, with the parent as owner. */
  ghost function Delivered(list: ObjectList, i: nat, p: Parent, existing: map<string, Object>): Object
    requires Writable(p, list) && i < |list.items|
  {
    var o := list.items[i];
    Landed(o, ChosenName(o, Id(list, i), p, existing), SetController(p, o.namespace, o.owners).value, p)
  }

  ghost predicate DistinctSlots(list: ObjectList, p: Parent, existing: map<string, Object>)
    requires Writable(p, list)
  {
    forall i, j :: 0 <= i < j < |list.items| ==> Slot(list, i, p, existing) != Slot(list, j, p, existing)
  }

  /** Storing a desired object does not change what it identifies as. */
  ghost predicate IdentitySurvives(list: ObjectList, p: Parent, existing: map<string, Object>)
    requires Writable(p, list)
  {
    forall i :: 0 <= i < |list.items| ==>
      list.identity(Delivered(list, i, p, existing)) == list.identity(list.items[i])
  }

  ghost predicate IsSlot(k: Key, list: ObjectList, p: Parent, existing: map<string, Object>)
    requires Writable(p, list)
  {
    exists i :: 0 <= i < |list.items| && k == Slot(list, i, p, existing)
  }

  /** `listing` is a list answer a run from `s` may get. */
  ghost predicate Answers(listing: seq<Object>, s: Store, p: Parent, list: ObjectList) {
    Enumerates(listing, s, list.kind, Some(p.namespace), Everything)
  }

  // ---------------------------------------------------------------- runs, key by key

  predicate Touches(step: Step, k: Key) {
    (step.Remove? && step.key == k) || (step.Put? && KeyOf(step.content) == k)
  }

  lemma {:induction false} RunUntouched(s: Store, steps: seq<Step>, k: Key)
    requires forall i :: 0 <= i < |steps| ==> !Touches(steps[i], k)
    ensures k in Run(s, steps) <==> k in s
    ensures k in s ==> Run(s, steps)[k] == s[k]
  {
    if steps != [] {
      RunUntouched(s, steps[..|steps| - 1], k);
      assert !Touches(steps[|steps| - 1], k);
    }
  }

  /** The last step that touches a key decides what is there. */
  lemma {:induction false} RunLastTouch(s: Store, steps: seq<Step>, n: nat, k: Key)
    requires n < |steps| && Touches(steps[n], k)
    requires forall i :: n < i < |steps| ==> !Touches(steps[i], k)
    ensures k in Run(s, steps) <==> steps[n].Put?
    ensures steps[n].Put? ==> Run(s, steps)[k] == steps[n].content
  {
    if n < |steps| - 1 {
      RunLastTouch(s, steps[..|steps| - 1], n, k);
      assert !Touches(steps[|steps| - 1], k);
    }
  }

  lemma {:induction false} RunKeepsKeys(s: Store, steps: seq<Step>)
    requires WellKeyed(s)
    ensures WellKeyed(Run(s, steps))
  {
    if steps != [] {
      RunKeepsKeys(s, steps[..|steps| - 1]);
    }
  }

  // ---------------------------------------------------------------- the live objects found

  lemma {:induction false} ExistingSound(listing: seq<Object>, p: Parent, list: ObjectList, id: string)
    requires id in Existing(listing, p, list)
    ensures var o := Existing(listing, p, list)[id];
      o in listing && OwnedByParent(o, p) && list.identity(o) == Ok(id) && Wanted(id, list)
  {
    var n := |listing| - 1;
    if id in Existing(listing[..n], p, list) {
      ExistingSound(listing[..n], p, list, id);
    }
  }

  lemma {:induction false} ExistingComplete(listing: seq<Object>, p: Parent, list: ObjectList, o: Object, id: string)
    requires o in listing && OwnedByParent(o, p) && list.identity(o) == Ok(id) && Wanted(id, list)
    ensures id in Existing(listing, p, list)
  {
    var n := |listing| - 1;
    if o != listing[n] {
      assert listing == listing[..n] + [listing[n]];
      ExistingComplete(listing[..n], p, list, o, id);
    }
  }

  /** The j-th listed object is owned and of this identity. */
  ghost predicate Represents(listing: seq<Object>, j: nat, p: Parent, list: ObjectList, id: string) {
    j < |listing| && OwnedByParent(listing[j], p) && list.identity(listing[j]) == Ok(id)
  }

  ghost predicate RepresentsLast(listing: seq<Object>, j: nat, p: Parent, list: ObjectList, id: string) {
    Represents(listing, j, p, list, id) && forall m: nat :: j < m < |listing| ==> !Represents(listing, m, p, list, id)
  }

  /** The live object of a wanted identity is the last owned one listed. */
  lemma {:induction false} ExistingMeaning(listing: seq<Object>, p: Parent, list: ObjectList, id: string)
    requires Wanted(id, list)
    ensures id in Existing(listing, p, list) <==> exists j: nat :: RepresentsLast(listing, j, p, list, id)
    ensures forall j: nat :: RepresentsLast(listing, j, p, list, id) ==> Existing(listing, p, list)[id] == listing[j]
    ensures (exists j: nat :: Represents(listing, j, p, list, id)) <==> exists j: nat :: RepresentsLast(listing, j, p, list, id)
  {
    if listing != [] {
      var n := |listing| - 1;
      ExistingMeaning(listing[..n], p, list, id);
      if Represents(listing, n, p, list, id) {
        assert RepresentsLast(listing, n, p, list, id);
      } else {
        SameWithoutLast(listing, n, p, list, id);
      }
    }
  }

  lemma SameWithoutLast(listing: seq<Object>, n: nat, p: Parent, list: ObjectList, id: string)
    requires n + 1 == |listing| && !Represents(listing, n, p, list, id)
    ensures forall j: nat :: Represents(listing, j, p, list, id) <==> Represents(listing[..n], j, p, list, id)
    ensures forall j: nat :: RepresentsLast(listing, j, p, list, id) <==> RepresentsLast(listing[..n], j, p, list, id)
  {
    forall j: nat ensures Represents(listing, j, p, list, id) <==> Represents(listing[..n], j, p, list, id) {}
    forall j: nat ensures RepresentsLast(listing, j, p, list, id) <==> RepresentsLast(listing[..n], j, p, list, id) {}
  }

  // ---------------------------------------------------------------- one run, step by step

  lemma PlanStep(s: Store, listing: seq<Object>, p: Parent, list: ObjectList, n: nat)
    requires Answers(listing, s, p, list) && Writable(p, list) && n < |Plan(listing, p, list)|
    ensures var step := Plan(listing, p, list)[n]; var existing := Existing(listing, p, list);
      if n < |listing| then
        step == DeleteStep(listing[n], p, list) && KeyOf(listing[n]) in s && s[KeyOf(listing[n])] == listing[n]
        && InScope(KeyOf(listing[n]), p, list)
      else
        n - |listing| < |list.items| && step == Put(Delivered(list, n - |listing|, p, existing))
        && KeyOf(step.content) == Slot(list, n - |listing|, p, existing)
  {
    PlanShape(listing, p, list);
    if n < |listing| {
      assert listing[n] in listing;
    } else {
      assert list.identity(list.items[n - |listing|]).Ok?;
      assert Plan(listing, p, list)[|listing| + (n - |listing|)] == WriteStep(list.items[n - |listing|], p, list, Existing(listing, p, list));
    }
  }

  /** Which step touches which key: deletions the stale ones, writes their slots. */
  lemma StepTouches(s: Store, listing: seq<Object>, p: Parent, list: ObjectList, n: nat, k: Key)
    requires Answers(listing, s, p, list) && Writable(p, list) && n < |Plan(listing, p, list)|
    ensures var step := Plan(listing, p, list)[n];
      Touches(step, k) <==>
        if n < |listing| then k == KeyOf(listing[n]) && Stale(s, k, p, list)
        else n - |listing| < |list.items| && k == Slot(list, n - |listing|, p, Existing(listing, p, list))
  {
    PlanStep(s, listing, p, list, n);
  }

  /** The key is as it was, or holds a desired object, or is gone because it was stale. */
  ghost predicate KeyOutcome(s: Store, t: Store, p: Parent, list: ObjectList, existing: map<string, Object>, k: Key)
    requires Writable(p, list)
  {
    || ((k in t <==> k in s) && (k in s ==> t[k] == s[k]))
    || (Stale(s, k, p, list) && k !in t)
    || (k in t && exists i :: 0 <= i < |list.items| && k == Slot(list, i, p, existing) && t[k] == Delivered(list, i, p, existing))
  }

  /** A step of a run: it deletes something stale or puts a desired object into its slot. */
  ghost predicate Fits(s: Store, step: Step, p: Parent, list: ObjectList, existing: map<string, Object>)
    requires Writable(p, list)
  {
    && (step.Remove? ==> Stale(s, step.key, p, list))
    && (step.Put? ==>
          exists i | 0 <= i < |list.items| :: KeyOf(step.content) == Slot(list, i, p, existing) && step.content == Delivered(list, i, p, existing))
  }

  lemma StepOutcome(s: Store, t: Store, p: Parent, list: ObjectList, existing: map<string, Object>, step: Step, k: Key)
    requires Writable(p, list) && KeyOutcome(s, t, p, list, existing, k) && Fits(s, step, p, list, existing)
    ensures KeyOutcome(s, Apply(t, step), p, list, existing, k)
  {}

  lemma {:induction false} StepsOutcome(s: Store, steps: seq<Step>, p: Parent, list: ObjectList, existing: map<string, Object>, n: nat, k: Key)
    requires Writable(p, list) && n <= |steps| && forall i :: 0 <= i < n ==> Fits(s, steps[i], p, list, existing)
    ensures KeyOutcome(s, Run(s, steps[..n]), p, list, existing, k)
  {
    if n > 0 {
      StepsOutcome(s, steps, p, list, existing, n - 1, k);
      RunOneMore(s, steps, n - 1);
      StepOutcome(s, Run(s, steps[..n - 1]), p, list, existing, steps[n - 1], k);
    }
  }

  lemma PlanFits(s: Store, listing: seq<Object>, p: Parent, list: ObjectList, n: nat)
    requires Answers(listing, s, p, list) && Writable(p, list) && n < |Plan(listing, p, list)|
    ensures Fits(s, Plan(listing, p, list)[n], p, list, Existing(listing, p, list))
  {
    PlanStep(s, listing, p, list, n);
    var step := Plan(listing, p, list)[n];
    if step.Put? {
      assert n >= |listing|;
    }
  }

  /** After any prefix of a run each key is as it was, or holds a desired object,
      or is gone because it was stale. */
  lemma PrefixOutcome(s: Store, listing: seq<Object>, p: Parent, list: ObjectList, n: nat, k: Key)
    requires Answers(listing, s, p, list) && Writable(p, list)
    requires n <= |Plan(listing, p, list)|
    ensures KeyOutcome(s, Run(s, Plan(listing, p, list)[..n]), p, list, Existing(listing, p, list), k)
  {
    forall i | 0 <= i < n ensures Fits(s, Plan(listing, p, list)[i], p, list, Existing(listing, p, list)) {
      PlanFits(s, listing, p, list, i);
    }
    StepsOutcome(s, Plan(listing, p, list), p, list, Existing(listing, p, list), n, k);
  }

  lemma SlotOutcome(s: Store, listing: seq<Object>, p: Parent, list: ObjectList, i: nat)
    requires Answers(listing, s, p, list) && Writable(p, list) && i < |list.items|
    requires DistinctSlots(list, p, Existing(listing, p, list))
    ensures var t := Run(s, Plan(listing, p, list)); var existing := Existing(listing, p, list);
      var k := Slot(list, i, p, existing);
      k in t && t[k] == Delivered(list, i, p, existing)
  {
    var plan, existing := Plan(listing, p, list), Existing(listing, p, list);
    var k, n := Slot(list, i, p, existing), |listing| + i;
    PlanLength(listing, p, list);
    PlanStep(s, listing, p, list, n);
    forall m | n < m < |plan| ensures !Touches(plan[m], k) {
      StepTouches(s, listing, p, list, m, k);
    }
    RunLastTouch(s, plan, n, k);
  }

  /** The reference a parent leaves on what it owns. */
  function OwnerOf(p: Parent): OwnerRef {
    var gvk := SchemeGVK(p.kind);
    OwnerRef(gvk.apiVersion, gvk.kind, p.name, true)
  }

  /** What a completed run stores for a desired object, field by field: the whole body and all labels, in the parent's
      namespace, under the name of its slot, with the parent among the owners, alone if there were none. */
  lemma StoredAsDesired(s: Store, listing: seq<Object>, p: Parent, list: ObjectList, i: nat)
    requires Answers(listing, s, p, list) && Writable(p, list) && i < |list.items|
    requires DistinctSlots(list, p, Existing(listing, p, list))
    ensures var t := Run(s, Plan(listing, p, list)); var k := Slot(list, i, p, Existing(listing, p, list));
      && k in t && k.kind == list.kind && k.namespace == p.namespace
      && t[k].body == list.items[i].body && t[k].labels == list.items[i].labels
      && t[k].name == k.name && t[k].namespace == p.namespace
      && OwnerOf(p) in t[k].owners && (list.items[i].owners == [] ==> t[k].owners == [OwnerOf(p)])
  {
    SlotOutcome(s, listing, p, list, i);
    UpsertHolds(list.items[i].owners, ControllerRef(p));
  }

  /** The name a desired object is stored under: that of the last owned object listed of its identity; else its own,
      cut to 63 bytes; else one composed of its identity and the parent's name. */
  lemma SlotMeaning(listing: seq<Object>, p: Parent, list: ObjectList, i: nat)
    requires Writable(p, list) && i < |list.items|
    ensures var o, id := list.items[i], list.identity(list.items[i]).value;
      var name := Slot(list, i, p, Existing(listing, p, list)).name;
      && (forall j: nat :: RepresentsLast(listing, j, p, list, id) ==> name == listing[j].name)
      && ((forall j: nat :: !Represents(listing, j, p, list, id)) ==>
            if o.name == "" then name == Compose(id, p.name)
            else name <= o.name && |name| == if |o.name| <= 63 then |o.name| else 63)
  {
    ExistingMeaning(listing, p, list, list.identity(list.items[i]).value);
  }

  lemma StaleOutcome(s: Store, listing: seq<Object>, p: Parent, list: ObjectList, k: Key)
    requires Answers(listing, s, p, list) && Writable(p, list) && WellKeyed(s)
    requires Stale(s, k, p, list) && !IsSlot(k, list, p, Existing(listing, p, list))
    ensures k !in Run(s, Plan(listing, p, list))
  {
    var plan := Plan(listing, p, list);
    PlanLength(listing, p, list);
    assert Listed(s, list.kind, Some(p.namespace), Everything, s[k]);
    var n :| 0 <= n < |listing| && listing[n] == s[k];
    EnumeratedKeysDistinct(listing, s, list.kind, Some(p.namespace), Everything);
    StepTouches(s, listing, p, list, n, k);
    forall m | n < m < |plan| ensures !Touches(plan[m], k) {
      StepTouches(s, listing, p, list, m, k);
    }
    PlanStep(s, listing, p, list, n);
    RunLastTouch(s, plan, n, k);
  }

  lemma RestOutcome(s: Store, listing: seq<Object>, p: Parent, list: ObjectList, k: Key)
    requires Answers(listing, s, p, list) && Writable(p, list)
    requires !Stale(s, k, p, list) && !IsSlot(k, list, p, Existing(listing, p, list))
    ensures var t := Run(s, Plan(listing, p, list));
      (k in t <==> k in s) && (k in s ==> t[k] == s[k])
  {
    var plan := Plan(listing, p, list);
    forall m | 0 <= m < |plan| ensures !Touches(plan[m], k) {
      StepTouches(s, listing, p, list, m, k);
    }
    RunUntouched(s, plan, k);
  }

  // ---------------------------------------------------------------- convergence and frame

  ghost predicate OneKind(list: ObjectList) {
    forall i :: 0 <= i < |list.items| ==> KindOf(list.items[i].body) == list.kind
  }

  /** A run without an `Abort` step met only identifiable objects and acceptable owners. */
  lemma CompletePlanIsSound(s: Store, listing: seq<Object>, p: Parent, list: ObjectList)
    requires Answers(listing, s, p, list) && OneKind(list) && WellKeyed(s)
    requires Completes(Plan(listing, p, list))
    ensures Writable(p, list) && Readable(s, p, list)
  {
    var plan := Plan(listing, p, list);
    assert Identified(list.items, list.identity) by {
      assert |plan| > 0 ==> !plan[0].Abort?;
    }
    PlanShape(listing, p, list);
    forall i | 0 <= i < |list.items| ensures SetController(p, list.items[i].namespace, list.items[i].owners).Ok? {
      assert !plan[|listing| + i].Abort?;
    }
    forall k | OwnedAt(s, k, p, list) ensures list.identity(s[k]).Ok? {
      assert Listed(s, list.kind, Some(p.namespace), Everything, s[k]);
      var m :| 0 <= m < |listing| && listing[m] == s[k];
      assert !plan[m].Abort?;
    }
  }

  lemma DeliveredIsOwned(list: ObjectList, i: nat, p: Parent, existing: map<string, Object>)
    requires Writable(p, list) && i < |list.items| && Typed(p)
    ensures OwnedByParent(Delivered(list, i, p, existing), p)
    ensures list.items[i].owners == [] ==> Delivered(list, i, p, existing).owners == [ControllerRef(p)]
  {
    var owners := SetController(p, list.items[i].namespace, list.items[i].owners).value;
    UpsertHolds(list.items[i].owners, ControllerRef(p));
    var j :| 0 <= j < |owners| && owners[j] == ControllerRef(p);
  }

  /** Some object the parent owns identifies as `id`. */
  ghost predicate Represented(id: string, s: Store, p: Parent, list: ObjectList) {
    exists k :: OwnedAt(s, k, p, list) && list.identity(s[k]) == Ok(id)
  }

  ghost predicate Same(s: Store, t: Store, k: Key) {
    (k in t <==> k in s) && (k in s ==> t[k] == s[k])
  }

  ghost predicate SameKind(s: Store, t: Store, kind: Kind) {
    forall k: Key :: k.kind == kind ==> Same(s, t, k)
  }

  ghost predicate OwnedAlone(t: Store, k: Key, p: Parent) {
    k in t && t[k].owners == [ControllerRef(p)]
  }

  /** What the owner of the list may expect of a run that ends without an error. */
  ghost predicate Reconciled(s: Store, t: Store, p: Parent, list: ObjectList, existing: map<string, Object>)
    requires Writable(p, list)
  {
    && (forall id :: Represented(id, t, p, list) <==> Wanted(id, list))
    && (forall i :: 0 <= i < |list.items| ==>
          Slot(list, i, p, existing) in t && t[Slot(list, i, p, existing)] == Delivered(list, i, p, existing))
    && (forall i :: 0 <= i < |list.items| && list.items[i].owners == [] ==> OwnedAlone(t, Slot(list, i, p, existing), p))
    && (forall k :: !OwnedAt(s, k, p, list) && !IsSlot(k, list, p, existing) ==> Same(s, t, k))
    && Readable(t, p, list)
  }

  /** Where an owned object of the new store comes from. */
  lemma OwnedAfter(s: Store, listing: seq<Object>, p: Parent, list: ObjectList, k: Key)
    requires WellKeyed(s) && Answers(listing, s, p, list) && Writable(p, list) && Readable(s, p, list)
    requires DistinctSlots(list, p, Existing(listing, p, list))
    requires OwnedAt(Run(s, Plan(listing, p, list)), k, p, list)
    ensures var t := Run(s, Plan(listing, p, list)); var existing := Existing(listing, p, list);
      || (exists i :: 0 <= i < |list.items| && k == Slot(list, i, p, existing) && t[k] == Delivered(list, i, p, existing))
      || (!IsSlot(k, list, p, existing) && OwnedAt(s, k, p, list) && t[k] == s[k] && Wanted(list.identity(s[k]).value, list))
  {
    var existing := Existing(listing, p, list);
    if IsSlot(k, list, p, existing) {
      var i :| 0 <= i < |list.items| && k == Slot(list, i, p, existing);
      SlotOutcome(s, listing, p, list, i);
    } else {
      if Stale(s, k, p, list) { StaleOutcome(s, listing, p, list, k); }
      RestOutcome(s, listing, p, list, k);
    }
  }

  lemma DeliveredAlone(t: Store, list: ObjectList, i: nat, p: Parent, existing: map<string, Object>)
    requires Writable(p, list) && i < |list.items| && list.items[i].owners == []
    requires Slot(list, i, p, existing) in t && t[Slot(list, i, p, existing)] == Delivered(list, i, p, existing)
    ensures OwnedAlone(t, Slot(list, i, p, existing), p)
  {}

  /** Refresh converges and frames: if no two desired objects share a slot and storing keeps identities, a run
      that ends without an error leaves the owned identities exactly the wanted ones, each desired object
      stored, with the parent as its only owner if it comes without owners, and everything else alone. */
  lemma RefreshConverges(s: Store, listing: seq<Object>, p: Parent, list: ObjectList)
    requires WellKeyed(s) && Typed(p) && OneKind(list) && Answers(listing, s, p, list)
    requires Completes(Plan(listing, p, list))
    ensures Writable(p, list)
    ensures var existing := Existing(listing, p, list);
      DistinctSlots(list, p, existing) && IdentitySurvives(list, p, existing) ==>
        Reconciled(s, Run(s, Plan(listing, p, list)), p, list, existing)
  {
    CompletePlanIsSound(s, listing, p, list);
    var existing := Existing(listing, p, list);
    if DistinctSlots(list, p, existing) && IdentitySurvives(list, p, existing) {
      OrderlyRunReconciles(s, listing, p, list);
    }
  }

  lemma OrderlyRunReconciles(s: Store, listing: seq<Object>, p: Parent, list: ObjectList)
    requires WellKeyed(s) && Typed(p) && Answers(listing, s, p, list) && Writable(p, list) && Readable(s, p, list)
    requires DistinctSlots(list, p, Existing(listing, p, list)) && IdentitySurvives(list, p, Existing(listing, p, list))
    ensures Reconciled(s, Run(s, Plan(listing, p, list)), p, list, Existing(listing, p, list))
  {
    var t, existing := Run(s, Plan(listing, p, list)), Existing(listing, p, list);
    forall i | 0 <= i < |list.items|
      ensures Slot(list, i, p, existing) in t && t[Slot(list, i, p, existing)] == Delivered(list, i, p, existing)
      ensures OwnedAt(t, Slot(list, i, p, existing), p, list)
      ensures list.items[i].owners == [] ==> OwnedAlone(t, Slot(list, i, p, existing), p)
    {
      SlotOutcome(s, listing, p, list, i);
      DeliveredIsOwned(list, i, p, existing);
      if list.items[i].owners == [] { DeliveredAlone(t, list, i, p, existing); }
    }
    forall k | !OwnedAt(s, k, p, list) && !IsSlot(k, list, p, existing) ensures Same(s, t, k) {
      RestOutcome(s, listing, p, list, k);
    }
    forall k | OwnedAt(t, k, p, list) ensures list.identity(t[k]).Ok? && Wanted(list.identity(t[k]).value, list) {
      OwnedAfter(s, listing, p, list, k);
    }
    forall id | Wanted(id, list) ensures Represented(id, t, p, list) {
      var i :| 0 <= i < |list.items| && list.identity(list.items[i]) == Ok(id);
      assert OwnedAt(t, Slot(list, i, p, existing), p, list);
    }
  }

  /** At most one owned object per identity. */
  ghost predicate Unique(s: Store, p: Parent, list: ObjectList) {
    forall k, l :: OwnedAt(s, k, p, list) && OwnedAt(s, l, p, list) && list.identity(s[k]) == list.identity(s[l]) ==> k == l
  }

  /** An owned object of a wanted identity is the slot of that identity, if it is the only one. */
  lemma UniqueIsSlot(s: Store, listing: seq<Object>, p: Parent, list: ObjectList, k: Key, i: nat)
    requires WellKeyed(s) && Answers(listing, s, p, list) && Writable(p, list) && Unique(s, p, list)
    requires OwnedAt(s, k, p, list) && i < |list.items| && list.identity(s[k]) == Ok(Id(list, i))
    ensures Slot(list, i, p, Existing(listing, p, list)) == k
  {
    var existing, id := Existing(listing, p, list), Id(list, i);
    assert Listed(s, list.kind, Some(p.namespace), Everything, s[k]);
    assert Wanted(id, list);
    ExistingComplete(listing, p, list, s[k], id);
    ExistingSound(listing, p, list, id);
    var o := existing[id];
    assert OwnedAt(s, KeyOf(o), p, list);
  }

  /** With one owned object per identity, all owned objects of the new store are slots. */
  lemma OwnedAreSlots(s: Store, listing: seq<Object>, p: Parent, list: ObjectList, k: Key) returns (i: nat)
    requires WellKeyed(s) && Answers(listing, s, p, list)
    requires Writable(p, list) && Readable(s, p, list) && Unique(s, p, list)
    requires DistinctSlots(list, p, Existing(listing, p, list))
    requires OwnedAt(Run(s, Plan(listing, p, list)), k, p, list)
    ensures i < |list.items| && k == Slot(list, i, p, Existing(listing, p, list))
    ensures Run(s, Plan(listing, p, list))[k] == Delivered(list, i, p, Existing(listing, p, list))
  {
    var existing := Existing(listing, p, list);
    OwnedAfter(s, listing, p, list, k);
    if !IsSlot(k, list, p, existing) {
      i :| 0 <= i < |list.items| && list.identity(list.items[i]) == Ok(list.identity(s[k]).value);
      UniqueIsSlot(s, listing, p, list, k, i);
      assert false;
    }
    i :| 0 <= i < |list.items| && k == Slot(list, i, p, existing);
    SlotOutcome(s, listing, p, list, i);
  }

  lemma OneSlotPerIdentity(list: ObjectList, p: Parent, existing: map<string, Object>, i: nat, j: nat)
    requires Writable(p, list) && DistinctIds(list) && IdentitySurvives(list, p, existing)
    requires i < |list.items| && j < |list.items|
    requires list.identity(Delivered(list, i, p, existing)) == list.identity(Delivered(list, j, p, existing))
    ensures i == j
  {
    assert list.identity(list.items[i]) == list.identity(list.items[j]);
  }

  lemma SameIdentitySameSlot(s: Store, listing: seq<Object>, p: Parent, list: ObjectList, k: Key, l: Key)
    requires WellKeyed(s) && Answers(listing, s, p, list)
    requires Writable(p, list) && Readable(s, p, list) && DistinctIds(list)
    requires DistinctSlots(list, p, Existing(listing, p, list)) && IdentitySurvives(list, p, Existing(listing, p, list))
    requires Unique(s, p, list)
    requires var t := Run(s, Plan(listing, p, list));
      OwnedAt(t, k, p, list) && OwnedAt(t, l, p, list) && list.identity(t[k]) == list.identity(t[l])
    ensures k == l
  {
    var i := OwnedAreSlots(s, listing, p, list, k);
    var j := OwnedAreSlots(s, listing, p, list, l);
    OneSlotPerIdentity(list, p, Existing(listing, p, list), i, j);
  }

  /** Uniqueness per identity is preserved. */
  lemma UniquenessPreserved(s: Store, listing: seq<Object>, p: Parent, list: ObjectList)
    requires WellKeyed(s) && Answers(listing, s, p, list)
    requires Writable(p, list) && Readable(s, p, list) && DistinctIds(list)
    requires DistinctSlots(list, p, Existing(listing, p, list)) && IdentitySurvives(list, p, Existing(listing, p, list))
    requires Unique(s, p, list)
    ensures Unique(Run(s, Plan(listing, p, list)), p, list)
  {
    var t := Run(s, Plan(listing, p, list));
    forall k, l | OwnedAt(t, k, p, list) && OwnedAt(t, l, p, list) && list.identity(t[k]) == list.identity(t[l])
      ensures k == l
    {
      SameIdentitySameSlot(s, listing, p, list, k, l);
    }
  }

  // ---------------------------------------------------------------- running it again

  ghost predicate DeletesNothing(plan: seq<Step>) {
    forall n :: 0 <= n < |plan| ==> !plan[n].Remove?
  }

  /** The step writes what is there already, or does nothing. */
  ghost predicate Rewrites(t: Store, step: Step) {
    step.Skip? || (step.Put? && KeyOf(step.content) in t && t[KeyOf(step.content)] == step.content)
  }

  /** Nothing is stale the second time. */
  lemma SkippedAgain(t: Store, again: seq<Object>, p: Parent, list: ObjectList, n: nat)
    requires Answers(again, t, p, list) && Writable(p, list) && Readable(t, p, list) && n < |again|
    requires forall id :: Represented(id, t, p, list) <==> Wanted(id, list)
    ensures n < |Plan(again, p, list)| && Plan(again, p, list)[n] == Skip
  {
    PlanLength(again, p, list);
    PlanStep(t, again, p, list, n);
    var k := KeyOf(again[n]);
    if OwnedByParent(again[n], p) {
      assert OwnedAt(t, k, p, list);
      assert Represented(list.identity(t[k]).value, t, p, list);
    }
  }

  /** The live object of an item that was delivered is the one delivered. */
  lemma FoundWherePut(t: Store, again: seq<Object>, p: Parent, list: ObjectList, existing: map<string, Object>, i: nat)
    requires WellKeyed(t) && Typed(p) && Answers(again, t, p, list) && Writable(p, list) && i < |list.items| && Unique(t, p, list)
    requires IdentitySurvives(list, p, existing) && KindOf(list.items[i].body) == list.kind
    requires Slot(list, i, p, existing) in t && t[Slot(list, i, p, existing)] == Delivered(list, i, p, existing)
    ensures Slot(list, i, p, Existing(again, p, list)) == Slot(list, i, p, existing)
    ensures Delivered(list, i, p, Existing(again, p, list)) == Delivered(list, i, p, existing)
  {
    DeliveredIsOwned(list, i, p, existing);
    UniqueIsSlot(t, again, p, list, Slot(list, i, p, existing), i);
  }

  /** Each desired object is written as it is. */
  lemma WrittenAgain(t: Store, again: seq<Object>, p: Parent, list: ObjectList, existing: map<string, Object>, n: nat, i: nat)
    requires WellKeyed(t) && Typed(p) && Answers(again, t, p, list) && Writable(p, list) && i < |list.items| && Unique(t, p, list)
    requires IdentitySurvives(list, p, existing) && KindOf(list.items[i].body) == list.kind
    requires Slot(list, i, p, existing) in t && t[Slot(list, i, p, existing)] == Delivered(list, i, p, existing)
    requires |again| <= n < |Plan(again, p, list)| && i == n - |again|
    ensures Rewrites(t, Plan(again, p, list)[n])
  {
    PlanStep(t, again, p, list, n);
    FoundWherePut(t, again, p, list, existing, i);
  }

  /** Refresh is a no-op the second time: it deletes nothing and rewrites every object as it is. */
  lemma RefreshTwice(s: Store, listing: seq<Object>, p: Parent, list: ObjectList, again: seq<Object>)
    requires WellKeyed(s) && Typed(p) && OneKind(list) && Answers(listing, s, p, list)
    requires Completes(Plan(listing, p, list))
    requires Writable(p, list) && DistinctIds(list) && Unique(s, p, list)
    requires DistinctSlots(list, p, Existing(listing, p, list)) && IdentitySurvives(list, p, Existing(listing, p, list))
    requires Answers(again, Run(s, Plan(listing, p, list)), p, list)
    ensures var t := Run(s, Plan(listing, p, list));
      && Completes(Plan(again, p, list)) && DeletesNothing(Plan(again, p, list))
      && Run(t, Plan(again, p, list)) == t
  {
    var t, existing := Run(s, Plan(listing, p, list)), Existing(listing, p, list);
    var plan := Plan(again, p, list);
    CompletePlanIsSound(s, listing, p, list);
    RefreshConverges(s, listing, p, list);
    UniquenessPreserved(s, listing, p, list);
    RunKeepsKeys(s, Plan(listing, p, list));
    AllRewritten(t, again, p, list, existing);
    RunOfRewrites(t, plan);
  }

  lemma AllRewritten(t: Store, again: seq<Object>, p: Parent, list: ObjectList, existing: map<string, Object>)
    requires WellKeyed(t) && Typed(p) && OneKind(list) && Answers(again, t, p, list) && Writable(p, list) && Unique(t, p, list)
    requires IdentitySurvives(list, p, existing) && Readable(t, p, list)
    requires forall id :: Represented(id, t, p, list) <==> Wanted(id, list)
    requires forall i :: 0 <= i < |list.items| ==>
      Slot(list, i, p, existing) in t && t[Slot(list, i, p, existing)] == Delivered(list, i, p, existing)
    ensures forall n :: 0 <= n < |Plan(again, p, list)| ==> Rewrites(t, Plan(again, p, list)[n])
  {
    forall n | 0 <= n < |Plan(again, p, list)| ensures Rewrites(t, Plan(again, p, list)[n]) {
      RewrittenAt(t, again, p, list, existing, n);
    }
  }

  lemma RewrittenAt(t: Store, again: seq<Object>, p: Parent, list: ObjectList, existing: map<string, Object>, n: nat)
    requires WellKeyed(t) && Typed(p) && OneKind(list) && Answers(again, t, p, list) && Writable(p, list) && Unique(t, p, list)
    requires IdentitySurvives(list, p, existing) && Readable(t, p, list) && n < |Plan(again, p, list)|
    requires forall id :: Represented(id, t, p, list) <==> Wanted(id, list)
    requires forall i :: 0 <= i < |list.items| ==>
      Slot(list, i, p, existing) in t && t[Slot(list, i, p, existing)] == Delivered(list, i, p, existing)
    ensures Rewrites(t, Plan(again, p, list)[n])
  {
    PlanLength(again, p, list);
    if n < |again| {
      SkippedAgain(t, again, p, list, n);
    } else {
      WrittenAgain(t, again, p, list, existing, n, n - |again|);
    }
  }

  lemma {:induction false} RunOfRewrites(s: Store, steps: seq<Step>)
    requires forall n :: 0 <= n < |steps| ==> Rewrites(s, steps[n])
    ensures Run(s, steps) == s
  {
    if steps != [] {
      RunOfRewrites(s, steps[..|steps| - 1]);
    }
  }
}
