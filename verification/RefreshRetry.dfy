/** Runs of the refresher that stop half-way, and what repeating them achieves. */
module RefreshRetry {
  import opened Kube
  import opened ResourceName
  import opened Refresh
  import opened RefreshTheorems

  // ---------------------------------------------------------------- any prefix of a run

  /** A run that stopped after some of its steps, or finished. */
  ghost predicate PartialRun(s: Store, t: Store, p: Parent, list: ObjectList) {
    exists listing, n: nat ::
      Answers(listing, s, p, list) && n <= |Plan(listing, p, list)| && t == Run(s, Plan(listing, p, list)[..n])
  }

  ghost predicate CompleteRun(s: Store, t: Store, p: Parent, list: ObjectList) {
    exists listing :: Answers(listing, s, p, list) && Completes(Plan(listing, p, list)) && t == Run(s, Plan(listing, p, list))
  }

  lemma CompleteIsPartial(s: Store, t: Store, p: Parent, list: ObjectList)
    requires CompleteRun(s, t, p, list)
    ensures PartialRun(s, t, p, list)
  {
    var listing :| Answers(listing, s, p, list) && Completes(Plan(listing, p, list)) && t == Run(s, Plan(listing, p, list));
    assert Plan(listing, p, list)[..|Plan(listing, p, list)|] == Plan(listing, p, list);
  }

  /** Nothing but a failing call can stop a run whose items are writable and whose owned objects are readable. */
  lemma NeverAborts(s: Store, listing: seq<Object>, p: Parent, list: ObjectList)
    requires Answers(listing, s, p, list) && Writable(p, list) && Readable(s, p, list)
    ensures Completes(Plan(listing, p, list))
  {
    forall n | 0 <= n < |Plan(listing, p, list)| ensures !Plan(listing, p, list)[n].Abort? {
      PlanStep(s, listing, p, list, n);
      if n < |listing| {
        assert OwnedByParent(listing[n], p) ==> OwnedAt(s, KeyOf(listing[n]), p, list);
      }
    }
  }

  lemma CompleteRunExists(s: Store, p: Parent, list: ObjectList) returns (t: Store)
    requires WellKeyed(s) && Writable(p, list) && Readable(s, p, list)
    ensures WellKeyed(t) && CompleteRun(s, t, p, list)
  {
    var listing := SomeAnswer(s, list.kind, Some(p.namespace), Everything);
    NeverAborts(s, listing, p, list);
    t := Run(s, Plan(listing, p, list));
    RunKeepsKeys(s, Plan(listing, p, list));
  }

  /** However far a run got, it has deleted only stale objects and touched only owned objects and
      slots: a wanted identity is never without the object it had. */
  lemma PartialRunIsSafe(s: Store, listing: seq<Object>, p: Parent, list: ObjectList, n: nat)
    requires WellKeyed(s) && Answers(listing, s, p, list) && Writable(p, list) && Typed(p)
    requires DistinctSlots(list, p, Existing(listing, p, list)) && IdentitySurvives(list, p, Existing(listing, p, list))
    requires n <= |Plan(listing, p, list)|
    ensures var t := Run(s, Plan(listing, p, list)[..n]); var existing := Existing(listing, p, list);
      && (forall k :: OwnedAt(s, k, p, list) && !Stale(s, k, p, list) ==> OwnedAt(t, k, p, list))
      && (forall k :: !OwnedAt(s, k, p, list) && !IsSlot(k, list, p, existing) ==> Same(s, t, k))
      && (forall id :: Wanted(id, list) && Represented(id, s, p, list) && Unique(s, p, list) ==> Represented(id, t, p, list))
  {
    var t, existing := Run(s, Plan(listing, p, list)[..n]), Existing(listing, p, list);
    forall k | !OwnedAt(s, k, p, list) && !IsSlot(k, list, p, existing) ensures Same(s, t, k) {
      PrefixOutcome(s, listing, p, list, n, k);
    }
    forall k | OwnedAt(s, k, p, list) && !Stale(s, k, p, list) ensures OwnedAt(t, k, p, list) {
      KeptObject(s, listing, p, list, n, k);
    }
    forall id | Wanted(id, list) && Represented(id, s, p, list) && Unique(s, p, list)
      ensures Represented(id, t, p, list)
    {
      var k :| OwnedAt(s, k, p, list) && list.identity(s[k]) == Ok(id);
      KeptIdentity(s, listing, p, list, n, k);
    }
  }

  lemma KeptObject(s: Store, listing: seq<Object>, p: Parent, list: ObjectList, n: nat, k: Key)
    requires Answers(listing, s, p, list) && Writable(p, list) && Typed(p)
    requires n <= |Plan(listing, p, list)|
    requires OwnedAt(s, k, p, list) && !Stale(s, k, p, list)
    ensures OwnedAt(Run(s, Plan(listing, p, list)[..n]), k, p, list)
  {
    PrefixOutcome(s, listing, p, list, n, k);
    var t, existing := Run(s, Plan(listing, p, list)[..n]), Existing(listing, p, list);
    if !Same(s, t, k) {
      var i :| 0 <= i < |list.items| && k == Slot(list, i, p, existing) && t[k] == Delivered(list, i, p, existing);
      DeliveredIsOwned(list, i, p, existing);
    }
  }

  lemma KeptIdentity(s: Store, listing: seq<Object>, p: Parent, list: ObjectList, n: nat, k: Key)
    requires WellKeyed(s) && Answers(listing, s, p, list) && Writable(p, list) && Typed(p)
    requires DistinctSlots(list, p, Existing(listing, p, list))
    requires IdentitySurvives(list, p, Existing(listing, p, list)) && Unique(s, p, list)
    requires n <= |Plan(listing, p, list)|
    requires OwnedAt(s, k, p, list) && list.identity(s[k]).Ok? && Wanted(list.identity(s[k]).value, list)
    ensures Represented(list.identity(s[k]).value, Run(s, Plan(listing, p, list)[..n]), p, list)
  {
    var t, existing := Run(s, Plan(listing, p, list)[..n]), Existing(listing, p, list);
    KeptObject(s, listing, p, list, n, k);
    PrefixOutcome(s, listing, p, list, n, k);
    if !Same(s, t, k) {
      var j :| 0 <= j < |list.items| && k == Slot(list, j, p, existing) && t[k] == Delivered(list, j, p, existing);
      var i :| 0 <= i < |list.items| && list.identity(list.items[i]) == Ok(list.identity(s[k]).value);
      UniqueIsSlot(s, listing, p, list, k, i);
      assert i == j;
    }
  }

  // ---------------------------------------------------------------- canonical names

  /** Every owned object carries the canonical name of its identity. */
  ghost predicate Canonical(s: Store, p: Parent, list: ObjectList, canon: string -> string) {
    forall k :: OwnedAt(s, k, p, list) ==> list.identity(s[k]).Ok? && k.name == canon(list.identity(s[k]).value)
  }

  /** New objects get canonical names, different ones for different identities, and storing an
      object under its canonical name keeps its identity. */
  ghost predicate CanonicalList(p: Parent, list: ObjectList, canon: string -> string) {
    && Writable(p, list) && Typed(p)
    && (forall i :: 0 <= i < |list.items| ==> FreshName(list.items[i], Id(list, i), p) == canon(Id(list, i)))
    && (forall i :: 0 <= i < |list.items| ==> list.identity(Final(list, i, p, canon)) == list.identity(list.items[i]))
    && (forall i, j :: 0 <= i < j < |list.items| ==> canon(Id(list, i)) != canon(Id(list, j)))
  }

  /** The i-th desired object as it ends up in the store. */
  ghost function Final(list: ObjectList, i: nat, p: Parent, canon: string -> string): Object
    requires Writable(p, list) && i < |list.items|
  {
    var o := list.items[i];
    Landed(o, canon(Id(list, i)), SetController(p, o.namespace, o.owners).value, p)
  }

  ghost function FinalKey(list: ObjectList, i: nat, p: Parent, canon: string -> string): Key
    requires Writable(p, list) && i < |list.items|
  {
    Key(list.kind, p.namespace, canon(Id(list, i)))
  }

  /** A desired object in the store, field by field. */
  lemma FinalMeaning(list: ObjectList, i: nat, p: Parent, canon: string -> string)
    requires Writable(p, list) && i < |list.items|
    ensures var o, item := Final(list, i, p, canon), list.items[i];
      && o.body == item.body && o.labels == item.labels && o.namespace == p.namespace && o.name == canon(list.identity(item).value)
      && (item.owners == [] ==> o.owners == [OwnerOf(p)])
  {}

  /** From a canonical store the slots do not depend on what the list call answers. */
  lemma CanonicalSlots(s: Store, listing: seq<Object>, p: Parent, list: ObjectList, canon: string -> string, i: nat)
    requires WellKeyed(s) && Answers(listing, s, p, list)
    requires Canonical(s, p, list, canon) && CanonicalList(p, list, canon) && i < |list.items|
    ensures Slot(list, i, p, Existing(listing, p, list)) == FinalKey(list, i, p, canon)
    ensures Delivered(list, i, p, Existing(listing, p, list)) == Final(list, i, p, canon)
  {
    var existing, id := Existing(listing, p, list), Id(list, i);
    if id in existing {
      ExistingSound(listing, p, list, id);
      assert OwnedAt(s, KeyOf(existing[id]), p, list);
    }
  }

  /** Every step of every run keeps the names canonical. */
  lemma CanonicalPreserved(s: Store, t: Store, p: Parent, list: ObjectList, canon: string -> string)
    requires WellKeyed(s) && Canonical(s, p, list, canon) && CanonicalList(p, list, canon)
    requires PartialRun(s, t, p, list)
    ensures WellKeyed(t) && Canonical(t, p, list, canon)
  {
    var listing, n: nat :| Answers(listing, s, p, list) && n <= |Plan(listing, p, list)| && t == Run(s, Plan(listing, p, list)[..n]);
    RunKeepsKeys(s, Plan(listing, p, list)[..n]);
    forall k | OwnedAt(t, k, p, list) ensures list.identity(t[k]).Ok? && k.name == canon(list.identity(t[k]).value) {
      PrefixOutcome(s, listing, p, list, n, k);
      if !Same(s, t, k) {
        var i :| 0 <= i < |list.items| && k == Slot(list, i, p, Existing(listing, p, list)) && t[k] == Delivered(list, i, p, Existing(listing, p, list));
        CanonicalSlots(s, listing, p, list, canon, i);
      }
    }
  }

  // ---------------------------------------------------------------- retry

  ghost predicate IsFinalKey(k: Key, list: ObjectList, p: Parent, canon: string -> string)
    requires Writable(p, list)
  {
    exists i :: 0 <= i < |list.items| && k == FinalKey(list, i, p, canon)
  }

  /** `t` is `s` with the owned objects replaced by exactly the desired ones. */
  ghost predicate Settled(s: Store, t: Store, p: Parent, list: ObjectList, canon: string -> string)
    requires Writable(p, list)
  {
    && (forall i :: 0 <= i < |list.items| ==>
          FinalKey(list, i, p, canon) in t && t[FinalKey(list, i, p, canon)] == Final(list, i, p, canon))
    && (forall k :: !IsFinalKey(k, list, p, canon) ==> if OwnedAt(s, k, p, list) then k !in t else Same(s, t, k))
  }

  lemma SettledUnique(s: Store, t: Store, u: Store, p: Parent, list: ObjectList, canon: string -> string)
    requires Writable(p, list) && Settled(s, t, p, list, canon) && Settled(s, u, p, list, canon)
    ensures t == u
  {
    forall k ensures Same(t, u, k) {
      if IsFinalKey(k, list, p, canon) {
        var i :| 0 <= i < |list.items| && k == FinalKey(list, i, p, canon);
      }
    }
    assert forall k :: k in t <==> k in u by { forall k ensures k in t <==> k in u { assert Same(t, u, k); } }
    assert forall k :: k in t ==> t[k] == u[k] by { forall k | k in t ensures t[k] == u[k] { assert Same(t, u, k); } }
  }

  /** What makes the outcome of runs from a store predictable: the slots do not depend on the list answer, and
      what is owned tells its identity and, if that is wanted, sits at a final key. */
  ghost predicate Orderly(s: Store, p: Parent, list: ObjectList, canon: string -> string) {
    && WellKeyed(s) && Typed(p) && Writable(p, list)
    && (forall i, j :: 0 <= i < j < |list.items| ==> canon(Id(list, i)) != canon(Id(list, j)))
    && (forall k :: OwnedAt(s, k, p, list) ==> list.identity(s[k]).Ok? && (Stale(s, k, p, list) || IsFinalKey(k, list, p, canon)))
    && (forall listing, i :: Answers(listing, s, p, list) && 0 <= i < |list.items| ==>
          Slot(list, i, p, Existing(listing, p, list)) == FinalKey(list, i, p, canon))
  }

  lemma CanonicalIsOrderly(s: Store, p: Parent, list: ObjectList, canon: string -> string)
    requires WellKeyed(s) && Canonical(s, p, list, canon) && CanonicalList(p, list, canon)
    ensures Orderly(s, p, list, canon)
  {
    forall k | OwnedAt(s, k, p, list) ensures Stale(s, k, p, list) || IsFinalKey(k, list, p, canon) {
      CanonicalKeyIsFinal(s, p, list, canon, k);
    }
    forall listing, i | Answers(listing, s, p, list) && 0 <= i < |list.items|
      ensures Slot(list, i, p, Existing(listing, p, list)) == FinalKey(list, i, p, canon)
    {
      CanonicalSlots(s, listing, p, list, canon, i);
    }
  }

  lemma OrderlySlot(s: Store, listing: seq<Object>, p: Parent, list: ObjectList, canon: string -> string, i: nat)
    requires Orderly(s, p, list, canon) && Answers(listing, s, p, list) && i < |list.items|
    ensures Slot(list, i, p, Existing(listing, p, list)) == FinalKey(list, i, p, canon)
    ensures Delivered(list, i, p, Existing(listing, p, list)) == Final(list, i, p, canon)
  {}

  lemma OrderlyElsewhere(s: Store, t: Store, p: Parent, list: ObjectList, canon: string -> string)
    requires Orderly(s, p, list, canon) && WellKeyed(t) && SameKind(s, t, list.kind)
    ensures Orderly(t, p, list, canon)
  {
    forall k | OwnedAt(t, k, p, list) ensures list.identity(t[k]).Ok? && (Stale(t, k, p, list) || IsFinalKey(k, list, p, canon)) {
      assert Same(s, t, k) && OwnedAt(s, k, p, list);
    }
    forall listing, i | Answers(listing, t, p, list) && 0 <= i < |list.items|
      ensures Slot(list, i, p, Existing(listing, p, list)) == FinalKey(list, i, p, canon)
    {
      AnswersElsewhere(s, t, listing, p, list);
      OrderlySlot(s, listing, p, list, canon, i);
    }
  }

  lemma AnswersElsewhere(s: Store, t: Store, listing: seq<Object>, p: Parent, list: ObjectList)
    requires SameKind(s, t, list.kind) && Answers(listing, t, p, list)
    ensures Answers(listing, s, p, list)
  {
    forall o ensures Listed(s, list.kind, Some(p.namespace), Everything, o) <==> Listed(t, list.kind, Some(p.namespace), Everything, o) {
      if KindOf(o.body) == list.kind { assert Same(s, t, KeyOf(o)); }
    }
  }

  /** After any part of a run from an orderly store a key is as it was, or gone because it was stale, or
      holds the desired object of which it is the final key. */
  lemma OrderlyOutcome(s: Store, t: Store, p: Parent, list: ObjectList, canon: string -> string, k: Key)
    requires Orderly(s, p, list, canon) && PartialRun(s, t, p, list)
    ensures Same(s, t, k) || (Stale(s, k, p, list) && k !in t)
      || (k in t && exists i :: 0 <= i < |list.items| && k == FinalKey(list, i, p, canon) && t[k] == Final(list, i, p, canon))
  {
    var listing, n: nat :| Answers(listing, s, p, list) && n <= |Plan(listing, p, list)| && t == Run(s, Plan(listing, p, list)[..n]);
    PrefixOutcome(s, listing, p, list, n, k);
    if i :| 0 <= i < |list.items| && k == Slot(list, i, p, Existing(listing, p, list)) && k in t && t[k] == Delivered(list, i, p, Existing(listing, p, list)) {
      OrderlySlot(s, listing, p, list, canon, i);
    }
  }

  /** A complete run from an orderly store has one outcome, whatever the list order. */
  lemma OrderlyRunSettles(s: Store, t: Store, p: Parent, list: ObjectList, canon: string -> string)
    requires Orderly(s, p, list, canon) && CompleteRun(s, t, p, list)
    ensures Settled(s, t, p, list, canon)
  {
    var listing :| Answers(listing, s, p, list) && Completes(Plan(listing, p, list)) && t == Run(s, Plan(listing, p, list));
    SlotsAreFinal(s, listing, p, list, canon);
    forall i | 0 <= i < |list.items|
      ensures FinalKey(list, i, p, canon) in t && t[FinalKey(list, i, p, canon)] == Final(list, i, p, canon)
    {
      OrderlySlot(s, listing, p, list, canon, i);
      SlotOutcome(s, listing, p, list, i);
    }
    forall k | !IsFinalKey(k, list, p, canon)
      ensures if OwnedAt(s, k, p, list) then k !in t else Same(s, t, k)
    {
      if OwnedAt(s, k, p, list) {
        StaleOutcome(s, listing, p, list, k);
      } else {
        RestOutcome(s, listing, p, list, k);
      }
    }
  }

  lemma SlotsAreFinal(s: Store, listing: seq<Object>, p: Parent, list: ObjectList, canon: string -> string)
    requires Orderly(s, p, list, canon) && Answers(listing, s, p, list)
    ensures DistinctSlots(list, p, Existing(listing, p, list))
    ensures forall k :: IsSlot(k, list, p, Existing(listing, p, list)) <==> IsFinalKey(k, list, p, canon)
  {
    var existing := Existing(listing, p, list);
    forall i | 0 <= i < |list.items| ensures Slot(list, i, p, existing) == FinalKey(list, i, p, canon) {
      OrderlySlot(s, listing, p, list, canon, i);
    }
  }

  /** A complete run from a canonical store has one outcome, whatever the list order. */
  lemma CompleteRunSettles(s: Store, t: Store, p: Parent, list: ObjectList, canon: string -> string)
    requires WellKeyed(s) && Canonical(s, p, list, canon) && CanonicalList(p, list, canon)
    requires CompleteRun(s, t, p, list)
    ensures Settled(s, t, p, list, canon)
  {
    CanonicalIsOrderly(s, p, list, canon);
    OrderlyRunSettles(s, t, p, list, canon);
  }

  /** A canonical owned object of a wanted identity sits at its final key. */
  lemma CanonicalKeyIsFinal(s: Store, p: Parent, list: ObjectList, canon: string -> string, k: Key)
    requires Canonical(s, p, list, canon) && CanonicalList(p, list, canon) && OwnedAt(s, k, p, list)
    ensures Stale(s, k, p, list) || IsFinalKey(k, list, p, canon)
  {
    if Wanted(list.identity(s[k]).value, list) {
      var i :| 0 <= i < |list.items| && list.identity(list.items[i]) == Ok(list.identity(s[k]).value);
      assert k == FinalKey(list, i, p, canon);
    }
  }

  /** The owned objects are exactly the desired ones. */
  ghost predicate Holds(t: Store, p: Parent, list: ObjectList, canon: string -> string)
    requires Writable(p, list)
  {
    && (forall i :: 0 <= i < |list.items| ==>
          FinalKey(list, i, p, canon) in t && t[FinalKey(list, i, p, canon)] == Final(list, i, p, canon))
    && (forall k :: OwnedAt(t, k, p, list) ==> IsFinalKey(k, list, p, canon))
  }

  lemma SettledHolds(s: Store, t: Store, p: Parent, list: ObjectList, canon: string -> string)
    requires Writable(p, list) && Settled(s, t, p, list, canon)
    ensures Holds(t, p, list, canon)
  {
    forall k | OwnedAt(t, k, p, list) ensures IsFinalKey(k, list, p, canon) {
      assert !IsFinalKey(k, list, p, canon) ==> if OwnedAt(s, k, p, list) then k !in t else Same(s, t, k);
    }
  }

  lemma HoldsElsewhere(s: Store, t: Store, p: Parent, list: ObjectList, canon: string -> string)
    requires Writable(p, list) && Holds(s, p, list, canon)
    requires SameKind(s, t, list.kind)
    ensures Holds(t, p, list, canon)
  {
    forall i | 0 <= i < |list.items|
      ensures FinalKey(list, i, p, canon) in t && t[FinalKey(list, i, p, canon)] == Final(list, i, p, canon)
    {
      assert Same(s, t, FinalKey(list, i, p, canon));
    }
    forall k | OwnedAt(t, k, p, list) ensures IsFinalKey(k, list, p, canon) {
      assert Same(s, t, k) && OwnedAt(s, k, p, list);
    }
  }

  /** Of one kind, only what the parent owned and the desired objects' own keys changed. */
  ghost predicate Frames(s: Store, t: Store, p: Parent, list: ObjectList, canon: string -> string)
    requires Writable(p, list)
  {
    forall k: Key :: k.kind == list.kind && !IsFinalKey(k, list, p, canon) ==> if OwnedAt(s, k, p, list) then k !in t else Same(s, t, k)
  }

  lemma FramesAcross(s: Store, m: Store, n: Store, t: Store, p: Parent, list: ObjectList, canon: string -> string)
    requires Writable(p, list) && Settled(m, n, p, list, canon)
    requires SameKind(s, m, list.kind) && SameKind(n, t, list.kind)
    ensures Frames(s, t, p, list, canon)
  {
    forall k: Key | k.kind == list.kind && !IsFinalKey(k, list, p, canon)
      ensures if OwnedAt(s, k, p, list) then k !in t else Same(s, t, k)
    {
      assert Same(s, m, k) && Same(n, t, k);
      assert if OwnedAt(m, k, p, list) then k !in n else Same(m, n, k);
    }
  }

  /** What a run leaves, seen over more steps that keep to other kinds. */
  lemma SettledAcross(s: Store, m: Store, n: Store, t: Store, p: Parent, list: ObjectList, canon: string -> string)
    requires Orderly(m, p, list, canon) && CompleteRun(m, n, p, list)
    requires SameKind(s, m, list.kind) && SameKind(n, t, list.kind)
    ensures Holds(t, p, list, canon) && Frames(s, t, p, list, canon)
  {
    OrderlyRunSettles(m, n, p, list, canon);
    SettledHolds(m, n, p, list, canon);
    HoldsElsewhere(n, t, p, list, canon);
    FramesAcross(s, m, n, t, p, list, canon);
  }

  /** Storing a desired object under its final name does not change what it identifies as. */
  ghost predicate FinalsKeepIdentity(p: Parent, list: ObjectList, canon: string -> string)
    requires Writable(p, list)
  {
    forall i :: 0 <= i < |list.items| ==> list.identity(Final(list, i, p, canon)) == list.identity(list.items[i])
  }

  /** A run, finished or not, over objects that are all in place changes nothing. */
  lemma HeldRunChangesNothing(t: Store, u: Store, p: Parent, list: ObjectList, canon: string -> string)
    requires Orderly(t, p, list, canon) && Holds(t, p, list, canon) && FinalsKeepIdentity(p, list, canon)
    requires PartialRun(t, u, p, list)
    ensures u == t
  {
    var listing, n: nat :| Answers(listing, t, p, list) && n <= |Plan(listing, p, list)| && u == Run(t, Plan(listing, p, list)[..n]);
    forall m | 0 <= m < n ensures Rewrites(t, Plan(listing, p, list)[m]) {
      HeldStepRewrites(t, listing, p, list, canon, m);
    }
    RunOfRewrites(t, Plan(listing, p, list)[..n]);
  }

  lemma HeldStepRewrites(t: Store, listing: seq<Object>, p: Parent, list: ObjectList, canon: string -> string, n: nat)
    requires Orderly(t, p, list, canon) && Holds(t, p, list, canon) && FinalsKeepIdentity(p, list, canon)
    requires Answers(listing, t, p, list) && n < |Plan(listing, p, list)|
    ensures Rewrites(t, Plan(listing, p, list)[n])
  {
    PlanStep(t, listing, p, list, n);
    if n < |listing| {
      if OwnedByParent(listing[n], p) {
        assert OwnedAt(t, KeyOf(listing[n]), p, list);
        var i :| 0 <= i < |list.items| && KeyOf(listing[n]) == FinalKey(list, i, p, canon);
        assert Wanted(Id(list, i), list);
      }
    } else {
      OrderlySlot(t, listing, p, list, canon, n - |listing|);
    }
  }

  /** A complete run over objects that are all in place changes nothing, even if storing shortens their names. */
  lemma HeldRunSettles(t: Store, u: Store, p: Parent, list: ObjectList, canon: string -> string)
    requires Orderly(t, p, list, canon) && Holds(t, p, list, canon) && CompleteRun(t, u, p, list)
    ensures u == t
  {
    OrderlyRunSettles(t, u, p, list, canon);
    SettledUnique(t, t, u, p, list, canon);
  }

  /** A run that stopped half-way changes nothing about where a later run ends. */
  lemma SettledAcrossPartialRun(s: Store, m: Store, t: Store, p: Parent, list: ObjectList, canon: string -> string)
    requires WellKeyed(s) && Canonical(s, p, list, canon) && CanonicalList(p, list, canon)
    requires PartialRun(s, m, p, list) && Settled(m, t, p, list, canon)
    ensures Settled(s, t, p, list, canon)
  {
    var listing, n: nat :| Answers(listing, s, p, list) && n <= |Plan(listing, p, list)| && m == Run(s, Plan(listing, p, list)[..n]);
    forall k | !IsFinalKey(k, list, p, canon)
      ensures if OwnedAt(s, k, p, list) then k !in t else Same(s, t, k)
    {
      PrefixOutcome(s, listing, p, list, n, k);
      if !Same(s, m, k) && k in m {
        var i :| 0 <= i < |list.items| && k == Slot(list, i, p, Existing(listing, p, list)) && m[k] == Delivered(list, i, p, Existing(listing, p, list));
        CanonicalSlots(s, listing, p, list, canon, i);
        assert false;
      }
      assert OwnedAt(m, k, p, list) ==> OwnedAt(s, k, p, list);
    }
  }

  /** Refresh tolerates failure at any call, any number of times: after any sequence of runs that
      stopped anywhere, a run that succeeds ends exactly where one undisturbed run would have. */
  lemma {:induction false} RefreshRetries(runs: seq<Store>, t: Store, undisturbed: Store,
                                          p: Parent, list: ObjectList, canon: string -> string)
    requires runs != [] && WellKeyed(runs[0])
    requires Canonical(runs[0], p, list, canon) && CanonicalList(p, list, canon)
    requires forall i :: 0 <= i < |runs| - 1 ==> PartialRun(runs[i], runs[i + 1], p, list)
    requires CompleteRun(runs[|runs| - 1], t, p, list) && CompleteRun(runs[0], undisturbed, p, list)
    ensures t == undisturbed
  {
    SettledAfterRuns(runs, t, p, list, canon);
    CompleteRunSettles(runs[0], undisturbed, p, list, canon);
    SettledUnique(runs[0], t, undisturbed, p, list, canon);
  }

  lemma {:induction false} SettledAfterRuns(runs: seq<Store>, t: Store, p: Parent, list: ObjectList, canon: string -> string)
    requires runs != [] && WellKeyed(runs[0])
    requires Canonical(runs[0], p, list, canon) && CanonicalList(p, list, canon)
    requires forall i :: 0 <= i < |runs| - 1 ==> PartialRun(runs[i], runs[i + 1], p, list)
    requires CompleteRun(runs[|runs| - 1], t, p, list)
    ensures Settled(runs[0], t, p, list, canon)
    decreases |runs|
  {
    if |runs| == 1 {
      CompleteRunSettles(runs[0], t, p, list, canon);
    } else {
      assert PartialRun(runs[0], runs[0 + 1], p, list);
      CanonicalPreserved(runs[0], runs[1], p, list, canon);
      forall i | 0 <= i < |runs[1..]| - 1 ensures PartialRun(runs[1..][i], runs[1..][i + 1], p, list) {
        assert PartialRun(runs[i + 1], runs[i + 1 + 1], p, list);
      }
      SettledAfterRuns(runs[1..], t, p, list, canon);
      SettledAcrossPartialRun(runs[0], runs[1], t, p, list, canon);
    }
  }

  // ---------------------------------------------------------------- objects identified by their name

  /** Objects that are their own name: the identity of DeploymentCopies. */
  function NameIdentity(o: Object): Result<string> {
    Ok(o.name)
  }

  ghost predicate ShortOwnedNames(s: Store, p: Parent, list: ObjectList) {
    forall k :: OwnedAt(s, k, p, list) ==> |k.name| <= LABEL_LIMIT
  }

  /** Items identified by names that stay apart when they are shortened. */
  ghost predicate NamedList(p: Parent, list: ObjectList) {
    && Writable(p, list) && Typed(p) && list.identity == NameIdentity
    && (forall i :: 0 <= i < |list.items| ==> list.items[i].name != "")
    && (forall i, j :: 0 <= i < j < |list.items| ==> Shorten(list.items[i].name) != Shorten(list.items[j].name))
  }

  function Shortened(): string -> string {
    name => Shorten(name)
  }

  /** Long names are no obstacle to one run: the items are stored under their shortened names. */
  lemma NamedIsOrderly(s: Store, p: Parent, list: ObjectList)
    requires WellKeyed(s) && NamedList(p, list) && ShortOwnedNames(s, p, list)
    ensures Orderly(s, p, list, Shortened())
  {
    forall k | OwnedAt(s, k, p, list) ensures Stale(s, k, p, list) || IsFinalKey(k, list, p, Shortened()) {
      if i :| 0 <= i < |list.items| && list.identity(list.items[i]) == Ok(k.name) {
        assert k == FinalKey(list, i, p, Shortened());
      }
    }
    forall listing, i | Answers(listing, s, p, list) && 0 <= i < |list.items|
      ensures Slot(list, i, p, Existing(listing, p, list)) == FinalKey(list, i, p, Shortened())
    {
      ShortSlot(s, listing, p, list, i);
    }
  }

  /** Every step of every run keeps owned names short. */
  lemma ShortNamesKept(s: Store, t: Store, p: Parent, list: ObjectList)
    requires WellKeyed(s) && NamedList(p, list) && ShortOwnedNames(s, p, list) && PartialRun(s, t, p, list)
    ensures ShortOwnedNames(t, p, list)
  {
    NamedIsOrderly(s, p, list);
    forall k | OwnedAt(t, k, p, list) ensures |k.name| <= LABEL_LIMIT {
      OrderlyOutcome(s, t, p, list, Shortened(), k);
    }
  }

  /** With names as identities a repeated run deletes nothing exactly when every desired name fits a
      label: a longer one is stored shortened, not recognised, deleted and created again. */
  lemma NameIdentityRerun(s: Store, listing: seq<Object>, p: Parent, list: ObjectList, again: seq<Object>)
    requires WellKeyed(s) && Typed(p) && Answers(listing, s, p, list)
    requires Writable(p, list) && list.identity == NameIdentity && DistinctIds(list)
    requires forall i :: 0 <= i < |list.items| ==> list.items[i].name != ""
    requires ShortOwnedNames(s, p, list) && DistinctSlots(list, p, Existing(listing, p, list))
    requires Answers(again, Run(s, Plan(listing, p, list)), p, list)
    ensures DeletesNothing(Plan(again, p, list)) <==> forall i :: 0 <= i < |list.items| ==> |list.items[i].name| <= LABEL_LIMIT
  {
    if i :| 0 <= i < |list.items| && |list.items[i].name| > LABEL_LIMIT {
      LongNameIsDeleted(s, listing, p, list, again, i);
    } else {
      CompleteByName(s, listing, p, list);
      RefreshTwice(s, listing, p, list, again);
    }
  }

  lemma LongNameIsDeleted(s: Store, listing: seq<Object>, p: Parent, list: ObjectList, again: seq<Object>, i: nat)
    requires WellKeyed(s) && Typed(p) && Answers(listing, s, p, list) && Writable(p, list) && list.identity == NameIdentity
    requires forall i :: 0 <= i < |list.items| ==> list.items[i].name != ""
    requires ShortOwnedNames(s, p, list) && DistinctSlots(list, p, Existing(listing, p, list))
    requires Answers(again, Run(s, Plan(listing, p, list)), p, list)
    requires i < |list.items| && |list.items[i].name| > LABEL_LIMIT
    ensures !DeletesNothing(Plan(again, p, list))
  {
    var t, existing := Run(s, Plan(listing, p, list)), Existing(listing, p, list);
    SlotOutcome(s, listing, p, list, i);
    DeliveredIsOwned(list, i, p, existing);
    forall j | 0 <= j < |list.items|
      ensures Slot(list, j, p, existing) == Key(list.kind, p.namespace, Shorten(list.items[j].name))
    {
      ShortSlot(s, listing, p, list, j);
    }
    NotWanted(s, p, list, existing, i);
    RunKeepsKeys(s, Plan(listing, p, list));
    var n := StaleIsDeleted(t, again, p, list, Slot(list, i, p, existing));
    assert Plan(again, p, list)[n].Remove?;
  }

  /** A shortened name is not the name of any item, lest two items share a slot. */
  lemma NotWanted(s: Store, p: Parent, list: ObjectList, existing: map<string, Object>, i: nat)
    requires Writable(p, list) && list.identity == NameIdentity && DistinctSlots(list, p, existing)
    requires forall j :: 0 <= j < |list.items| ==>
      Slot(list, j, p, existing) == Key(list.kind, p.namespace, Shorten(list.items[j].name))
    requires i < |list.items| && |list.items[i].name| > LABEL_LIMIT
    ensures !Wanted(Slot(list, i, p, existing).name, list)
  {
    assert forall j :: 0 <= j < |list.items| && Slot(list, j, p, existing) == Slot(list, i, p, existing) ==> j == i;
  }

  lemma ShortSlot(s: Store, listing: seq<Object>, p: Parent, list: ObjectList, i: nat)
    requires WellKeyed(s) && Answers(listing, s, p, list) && Writable(p, list)
    requires list.identity == NameIdentity && ShortOwnedNames(s, p, list)
    requires i < |list.items| && list.items[i].name != ""
    ensures Slot(list, i, p, Existing(listing, p, list)) == Key(list.kind, p.namespace, Shorten(list.items[i].name))
  {
    var existing, id := Existing(listing, p, list), Id(list, i);
    if id in existing {
      ExistingSound(listing, p, list, id);
      assert OwnedAt(s, KeyOf(existing[id]), p, list);
    }
  }

  lemma StaleIsDeleted(s: Store, listing: seq<Object>, p: Parent, list: ObjectList, k: Key) returns (n: nat)
    requires WellKeyed(s) && Answers(listing, s, p, list) && Writable(p, list) && Stale(s, k, p, list)
    ensures n < |Plan(listing, p, list)| && Plan(listing, p, list)[n] == Remove(k)
  {
    PlanShape(listing, p, list);
    assert Listed(s, list.kind, Some(p.namespace), Everything, s[k]);
    n :| 0 <= n < |listing| && listing[n] == s[k];
  }

  /** A run may stop just after it has deleted a stale object. */
  lemma StaleMayBeGone(s: Store, p: Parent, list: ObjectList, k: Key) returns (t: Store)
    requires WellKeyed(s) && Writable(p, list) && Stale(s, k, p, list)
    ensures PartialRun(s, t, p, list) && k !in t
  {
    var listing := SomeAnswer(s, list.kind, Some(p.namespace), Everything);
    var n := StaleIsDeleted(s, listing, p, list, k);
    var plan := Plan(listing, p, list);
    t := Run(s, plan[..n + 1]);
    RunOneMore(s, plan, n);
  }

  lemma CompleteByName(s: Store, listing: seq<Object>, p: Parent, list: ObjectList)
    requires WellKeyed(s) && Answers(listing, s, p, list) && Writable(p, list)
    requires list.identity == NameIdentity && ShortOwnedNames(s, p, list)
    requires forall i :: 0 <= i < |list.items| ==> 0 < |list.items[i].name| <= LABEL_LIMIT
    ensures Completes(Plan(listing, p, list)) && Unique(s, p, list)
    ensures IdentitySurvives(list, p, Existing(listing, p, list))
  {
    PlanShape(listing, p, list);
    forall n | 0 <= n < |Plan(listing, p, list)| ensures !Plan(listing, p, list)[n].Abort? {
      PlanStep(s, listing, p, list, n);
    }
    forall i | 0 <= i < |list.items|
      ensures list.identity(Delivered(list, i, p, Existing(listing, p, list))) == list.identity(list.items[i])
    {
      ShortSlot(s, listing, p, list, i);
    }
  }
}
