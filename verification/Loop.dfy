/** A level-triggered reconcile loop, on its own: named configs, values held per service that should
    equal `due` of the configs, notifications on their way to a deduplicating queue, and one worker
    that pops a key, looks up what to update, and for each service reads, then writes.
    Any call may fail, before or after it took effect. */
module Loop {

  /** What the worker is doing with the key it popped.  `todo` are the services left to update, the
      first one next; `snapshot` is what it read of the configs for that one. */
  datatype Worker<C> =
    | Idle
    | Popped(key: string)
    | Updating(key: string, todo: seq<string>)
    | Writing(key: string, todo: seq<string>, snapshot: map<string, C>)

  /** `events` are changes whose notification is still on its way to the queue. */
  datatype State<C, V> = State(configs: map<string, C>, held: map<string, V>,
                               events: set<string>, queue: set<string>, worker: Worker<C>)

  /** The fixed services, the service each config name stands for, which configs a name may have,
      and the value the configs call for. */
  datatype Setting<!C, !V> = Setting(services: set<string>, host: string -> string,
                                     fits: (string, C) -> bool, due: (map<string, C>, string) -> V)

  ghost predicate Fitting<C, V>(configs: map<string, C>, w: Setting<C, V>) {
    forall n :: n in configs ==> w.fits(n, configs[n])
  }

  /** The configs agree except perhaps on these names. */
  ghost predicate DifferAt<C(!new)>(a: map<string, C>, b: map<string, C>, names: set<string>) {
    forall n :: n !in names ==> (n in a <==> n in b) && (n in a ==> a[n] == b[n])
  }

  /** Configs matter only to the services their names stand for. */
  ghost predicate Local<C(!new), V>(w: Setting<C, V>) {
    forall a, b, names, s :: Fitting(a, w) && Fitting(b, w) && DifferAt(a, b, names) && (forall n :: n in names ==> w.host(n) != s) ==> w.due(a, s) == w.due(b, s)
  }

  // ---------------------------------------------------------------- steps

  /** Somebody creates, edits or deletes configs. */
  ghost predicate Change<C(!new), V>(st: State<C, V>, st': State<C, V>, w: Setting<C, V>, names: set<string>) {
    && DifferAt(st.configs, st'.configs, names) && Fitting(st'.configs, w)
    && st' == st.(configs := st'.configs, events := st.events + names)
  }

  ghost predicate Deliver<C(!new), V>(st: State<C, V>, st': State<C, V>, name: string) {
    name in st.events && st' == st.(events := st.events - {name}, queue := st.queue + {name})
  }

  ghost predicate Pop<C(!new), V>(st: State<C, V>, st': State<C, V>, name: string) {
    st.worker.Idle? && name in st.queue
    && st' == st.(queue := st.queue - {name}, worker := Popped(name))
  }

  /** An answer of listing the services. */
  ghost predicate ListsServices(todo: seq<string>, services: set<string>) {
    (forall s :: s in todo <==> s in services) && |todo| == |services|
  }

  /** The config is fetched: update its host, or every service when it is gone. */
  ghost predicate Load<C(!new), V>(st: State<C, V>, st': State<C, V>, w: Setting<C, V>, todo: seq<string>) {
    st.worker.Popped? && st' == st.(worker := Updating(st.worker.key, todo))
    && if st.worker.key in st.configs then todo == [w.host(st.worker.key)] else ListsServices(todo, w.services)
  }

  ghost predicate Read<C(!new), V>(st: State<C, V>, st': State<C, V>, w: Setting<C, V>) {
    st.worker.Updating? && st.worker.todo != [] && st.worker.todo[0] in w.services
    && st' == st.(worker := Writing(st.worker.key, st.worker.todo, st.configs))
  }

  /** The held values once the current write has taken effect. */
  ghost function Written<C(!new), V>(st: State<C, V>, w: Setting<C, V>): map<string, V>
    requires st.worker.Writing? && st.worker.todo != []
  {
    st.held[st.worker.todo[0] := w.due(st.worker.snapshot, st.worker.todo[0])]
  }

  ghost predicate Write<C(!new), V>(st: State<C, V>, st': State<C, V>, w: Setting<C, V>) {
    st.worker.Writing? && st.worker.todo != []
    && st' == st.(held := Written(st, w), worker := Updating(st.worker.key, st.worker.todo[1..]))
  }

  ghost predicate Finish<C(!new), V>(st: State<C, V>, st': State<C, V>) {
    st.worker.Updating? && st.worker.todo == [] && st' == st.(worker := Idle)
  }

  /** Some call fails, possibly after it took effect; the key goes back to the queue. */
  ghost predicate Fail<C(!new), V>(st: State<C, V>, st': State<C, V>, w: Setting<C, V>) {
    !st.worker.Idle?
    && (st'.held == st.held || (st.worker.Writing? && st.worker.todo != [] && st'.held == Written(st, w)))
    && st' == st.(held := st'.held, queue := st.queue + {st.worker.key}, worker := Idle)
  }

  /** A step of the controller in which nothing fails. */
  ghost predicate Progress<C(!new), V>(st: State<C, V>, st': State<C, V>, w: Setting<C, V>) {
    || (exists name :: Deliver(st, st', name))
    || (exists name :: Pop(st, st', name))
    || (exists todo :: Load(st, st', w, todo))
    || Read(st, st', w)
    || Write(st, st', w)
    || Finish(st, st')
  }

  ghost predicate Next<C(!new), V>(st: State<C, V>, st': State<C, V>, w: Setting<C, V>) {
    (exists names :: Change(st, st', w, names)) || Progress(st, st', w) || Fail(st, st', w)
  }

  // ---------------------------------------------------------------- the invariant

  ghost predicate Agrees<C, V>(st: State<C, V>, w: Setting<C, V>, service: string) {
    service in st.held && st.held[service] == w.due(st.configs, service)
  }

  /** `key` waits in the queue or is on its way there. */
  ghost predicate Waiting<C, V>(st: State<C, V>, key: string) {
    key in st.events || key in st.queue
  }

  /** The worker holds `key` and has not read the configs for this service yet,
      or what it read is still current. */
  ghost predicate InFlight<C, V>(st: State<C, V>, w: Setting<C, V>, key: string, service: string) {
    match st.worker
    case Idle => false
    case Popped(k) => k == key
    case Updating(k, todo) => k == key && service in todo
    case Writing(k, todo, snapshot) =>
      k == key && todo != [] && (service in todo[1..] || (service == todo[0] && w.due(snapshot, service) == w.due(st.configs, service)))
  }

  ghost predicate Covered<C, V>(st: State<C, V>, w: Setting<C, V>, service: string) {
    exists key :: w.host(key) == service && (Waiting(st, key) || InFlight(st, w, key, service))
  }

  /** What the worker is about to write is current, or the change that made it stale is waiting. */
  ghost predicate SnapshotExcused<C, V>(st: State<C, V>, w: Setting<C, V>) {
    st.worker.Writing? ==>
      st.worker.todo != [] && st.worker.todo[0] in w.services
      && (w.due(st.worker.snapshot, st.worker.todo[0]) == w.due(st.configs, st.worker.todo[0])
          || exists key :: w.host(key) == st.worker.todo[0] && Waiting(st, key))
  }

  ghost predicate Inv<C(!new), V>(st: State<C, V>, w: Setting<C, V>) {
    && Fitting(st.configs, w)
    && SnapshotExcused(st, w)
    && forall s :: s in w.services ==> Agrees(st, w, s) || Covered(st, w, s)
  }

  // ---------------------------------------------------------------- each step keeps it

  lemma ChangeKeepsInv<C(!new), V>(st: State<C, V>, st': State<C, V>, w: Setting<C, V>, names: set<string>)
    requires Local(w) && Inv(st, w) && Change(st, st', w, names)
    ensures Inv(st', w)
  {
    forall key | key in names || Waiting(st, key) ensures Waiting(st', key) {}
    forall s | forall n :: n in names ==> w.host(n) != s ensures w.due(st.configs, s) == w.due(st'.configs, s) {}
    forall s | s in w.services ensures Agrees(st', w, s) || Covered(st', w, s) {
      ChangeCovers(st, st', w, names, s);
    }
  }

  lemma ChangeCovers<C(!new), V>(st: State<C, V>, st': State<C, V>, w: Setting<C, V>, names: set<string>, s: string)
    requires Local(w) && Inv(st, w) && Change(st, st', w, names) && s in w.services
    requires forall key :: key in names || Waiting(st, key) ==> Waiting(st', key)
    requires (forall n :: n in names ==> w.host(n) != s) ==> w.due(st.configs, s) == w.due(st'.configs, s)
    ensures Agrees(st', w, s) || Covered(st', w, s)
  {
    if n :| n in names && w.host(n) == s {
      assert Waiting(st', n);
    } else if !Agrees(st, w, s) {
      var key :| w.host(key) == s && (Waiting(st, key) || InFlight(st, w, key, s));
      assert Waiting(st', key) || InFlight(st', w, key, s);
    }
  }

  /** A service that is covered stays so if its keys keep waiting or being in flight. */
  lemma CoverKept<C(!new), V>(st: State<C, V>, st': State<C, V>, w: Setting<C, V>)
    requires Inv(st, w) && st'.configs == st.configs && SnapshotExcused(st', w)
    requires forall s :: s in w.services && Agrees(st, w, s) ==> Agrees(st', w, s) || Covered(st', w, s)
    requires forall s, key :: s in w.services && w.host(key) == s && (Waiting(st, key) || InFlight(st, w, key, s))
               ==> Waiting(st', key) || InFlight(st', w, key, s) || Agrees(st', w, s) || Covered(st', w, s)
    ensures Inv(st', w)
  {
    forall s | s in w.services ensures Agrees(st', w, s) || Covered(st', w, s) {
      if !Agrees(st, w, s) {
        var key :| w.host(key) == s && (Waiting(st, key) || InFlight(st, w, key, s));
      }
    }
  }

  lemma ProgressKeepsInv<C(!new), V>(st: State<C, V>, st': State<C, V>, w: Setting<C, V>)
    requires Inv(st, w) && Progress(st, st', w)
    ensures Inv(st', w)
  {
    if name :| Deliver(st, st', name) {
      assert forall key :: Waiting(st, key) ==> Waiting(st', key);
    } else if name :| Pop(st, st', name) {
    } else if todo :| Load(st, st', w, todo) {
    } else if Read(st, st', w) {
      assert st.worker.todo == [st.worker.todo[0]] + st.worker.todo[1..];
    } else if Write(st, st', w) {
      WriteCovers(st, st', w);
    }
    CoverKept(st, st', w);
  }

  lemma WriteCovers<C(!new), V>(st: State<C, V>, st': State<C, V>, w: Setting<C, V>)
    requires Inv(st, w) && Write(st, st', w)
    ensures Agrees(st', w, st.worker.todo[0]) || Covered(st', w, st.worker.todo[0])
    ensures forall s :: s != st.worker.todo[0] && Agrees(st, w, s) ==> Agrees(st', w, s)
  {
    var service := st.worker.todo[0];
    if !Agrees(st', w, service) {
      var key :| w.host(key) == service && Waiting(st, key);
      assert Waiting(st', key);
    }
  }

  lemma FailKeepsInv<C(!new), V>(st: State<C, V>, st': State<C, V>, w: Setting<C, V>)
    requires Inv(st, w) && Fail(st, st', w)
    ensures Inv(st', w)
  {
    assert Waiting(st', st.worker.key);
    assert forall key :: Waiting(st, key) ==> Waiting(st', key);
    forall s | s in w.services && Agrees(st, w, s) ensures Agrees(st', w, s) || Covered(st', w, s) {
      if !Agrees(st', w, s) {
        var key :| w.host(key) == s && Waiting(st, key);
        assert Waiting(st', key);
      }
    }
    CoverKept(st, st', w);
  }

  lemma NextKeepsInv<C(!new), V>(st: State<C, V>, st': State<C, V>, w: Setting<C, V>)
    requires Local(w) && Inv(st, w) && Next(st, st', w)
    ensures Inv(st', w)
  {
    if names :| Change(st, st', w, names) {
      ChangeKeepsInv(st, st', w, names);
    } else if Progress(st, st', w) {
      ProgressKeepsInv(st, st', w);
    } else {
      FailKeepsInv(st, st', w);
    }
  }

  // ---------------------------------------------------------------- quiet controllers

  ghost predicate Quiet<C, V>(st: State<C, V>) {
    st.worker.Idle? && st.queue == {} && st.events == {}
  }

  lemma QuietMeansAgreement<C(!new), V>(st: State<C, V>, w: Setting<C, V>)
    requires Inv(st, w) && Quiet(st)
    ensures forall s :: s in w.services ==> Agrees(st, w, s)
  {
    forall s | s in w.services ensures Agrees(st, w, s) {
      assert !Covered(st, w, s);
    }
  }

  // ---------------------------------------------------------------- progress

  ghost function WorkLeft<C>(worker: Worker<C>, services: nat): nat {
    match worker
    case Idle => 0
    case Popped(_) => 2 * services + 4
    case Updating(_, todo) => 2 * |todo| + 1
    case Writing(_, todo, _) => 2 * |todo|
  }

  /** How much the controller still has to do. */
  ghost function Measure<C, V>(st: State<C, V>, w: Setting<C, V>): nat {
    var n := |w.services|;
    (2 * n + 6) * |st.events| + (2 * n + 5) * |st.queue| + WorkLeft(st.worker, n)
  }

  lemma SizeOfUnion<T>(s: set<T>, x: T)
    ensures |s + {x}| <= |s| + 1
  {
    if x in s { assert s + {x} == s; }
  }

  /** Without users and failures every step of the controller leaves less to do. */
  lemma ProgressShrinks<C(!new), V>(st: State<C, V>, st': State<C, V>, w: Setting<C, V>)
    requires Progress(st, st', w)
    ensures Measure(st', w) < Measure(st, w)
  {
    if name :| Deliver(st, st', name) {
      DeliverShrinks(st, st', w, name);
    } else if name :| Pop(st, st', name) {
      PopShrinks(st, st', w, name);
    } else if todo :| Load(st, st', w, todo) {
      assert |todo| <= |w.services| + 1;
    }
  }

  lemma DeliverShrinks<C(!new), V>(st: State<C, V>, st': State<C, V>, w: Setting<C, V>, name: string)
    requires Deliver(st, st', name)
    ensures Measure(st', w) < Measure(st, w)
  {
    SizeOfUnion(st.queue, name);
    assert st.events == st'.events + {name};
    OneFewerEvent(|w.services|, |st'.events|, |st.queue|, |st'.queue|);
  }

  lemma PopShrinks<C(!new), V>(st: State<C, V>, st': State<C, V>, w: Setting<C, V>, name: string)
    requires Pop(st, st', name)
    ensures Measure(st', w) < Measure(st, w)
  {
    assert st.queue == st'.queue + {name};
    OneFewerKey(|w.services|, |st'.queue|);
  }

  lemma OneFewerEvent(n: nat, events: nat, queue: nat, queue': nat)
    requires queue' <= queue + 1
    ensures (2 * n + 6) * events + (2 * n + 5) * queue' < (2 * n + 6) * (events + 1) + (2 * n + 5) * queue
  {
    var k := 2 * n + 5;
    assert (k + 1) * (events + 1) == (k + 1) * events + k + 1;
    assert k * (queue + 1) == k * queue + k;
    Scaled(k, queue', queue + 1);
  }

  lemma OneFewerKey(n: nat, queue: nat)
    ensures (2 * n + 5) * queue + 2 * n + 4 < (2 * n + 5) * (queue + 1)
  {
    assert (2 * n + 5) * (queue + 1) == (2 * n + 5) * queue + 2 * n + 5;
  }

  lemma Scaled(k: nat, a: nat, b: nat)
    requires a <= b
    ensures k * a <= k * b
  {}
}
