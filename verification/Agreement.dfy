/** The VSConfig controller over the cluster store, as a protocol, and its refinement of the
    reconcile loop: each service owns exactly the VirtualService its VSConfigs call for,
    or somebody is still going to look at it. */
module Agreement {
  import opened Kube
  import opened ResourceName
  import opened RefreshTheorems
  import opened RefreshRetry
  import opened Routing
  import opened VirtualServices
  import Loop
  import Runs

  type Worker = Loop.Worker<VSConfigSpec>

  datatype State = State(store: Store, events: set<string>, queue: set<string>, worker: Worker)

  /** One namespace, its fixed services, and the host each config name stands for. */
  datatype Setting = Setting(namespace: string, services: set<string>, host: string -> string)

  ghost function Now(st: State, w: Setting): Configs {
    ConfigsIn(st.store, w.namespace)
  }

  // ---------------------------------------------------------------- steps

  /** Users, and the updates of forks, create, edit or delete configs, whose hosts are the ones their names stand
      for, and notify of them.  They may change any other kind but VirtualServices, and services, as long as none
      comes or goes. */
  ghost predicate Change(st: State, st': State, w: Setting, names: set<string>) {
    && WellKeyed(st'.store) && SameKind(st.store, st'.store, Kind.VirtualService)
    && (forall n :: n !in names ==> Same(st.store, st'.store, Key(Kind.VSConfig, w.namespace, n)))
    && (forall n :: Key(Kind.Service, w.namespace, n) in st'.store <==> Key(Kind.Service, w.namespace, n) in st.store)
    && (forall n :: n in names && n in Now(st', w) ==> Now(st', w)[n].host == w.host(n))
    && st' == st.(store := st'.store, events := st.events + names)
  }

  ghost predicate Deliver(st: State, st': State, name: string) {
    name in st.events && st' == st.(events := st.events - {name}, queue := st.queue + {name})
  }

  ghost predicate Pop(st: State, st': State, name: string) {
    st.worker.Idle? && name in st.queue
    && st' == st.(queue := st.queue - {name}, worker := Loop.Popped(name))
  }

  /** The config is fetched: update the host it names, or every service when it is gone. */
  ghost predicate Load(st: State, st': State, w: Setting, todo: seq<string>) {
    st.worker.Popped? && st' == st.(worker := Loop.Updating(st.worker.key, todo))
    && if st.worker.key in Now(st, w) then todo == [Now(st, w)[st.worker.key].host]
       else Loop.ListsServices(todo, w.services)
  }

  ghost predicate Read(st: State, st': State, w: Setting) {
    st.worker.Updating? && st.worker.todo != [] && Key(Kind.Service, w.namespace, st.worker.todo[0]) in st.store
    && st' == st.(worker := Loop.Writing(st.worker.key, st.worker.todo, Now(st, w)))
  }

  /** What a refresh with the configs read before may do to the store. */
  ghost predicate WritesPart(st: State, t: Store, w: Setting) {
    st.worker.Writing? && st.worker.todo != [] && WellKeyed(t)
    && var service := st.worker.todo[0];
       WritesAtMost(st.store, t, w.namespace, service, Table(Sorted(st.worker.snapshot), service))
  }

  ghost predicate Write(st: State, st': State, w: Setting) {
    WritesPart(st, st'.store, w)
    && Held(st'.store, w.namespace, st.worker.todo[0]) == Called(st.worker.snapshot, w.namespace, st.worker.todo[0])
    && st' == st.(store := st'.store, worker := Loop.Updating(st.worker.key, st.worker.todo[1..]))
  }

  ghost predicate Finish(st: State, st': State) {
    st.worker.Updating? && st.worker.todo == [] && st' == st.(worker := Loop.Idle)
  }

  /** Some call fails, possibly after it took effect; the key goes back to the queue. */
  ghost predicate Fail(st: State, st': State, w: Setting) {
    !st.worker.Idle? && (st'.store == st.store || WritesPart(st, st'.store, w))
    && st' == st.(store := st'.store, queue := st.queue + {st.worker.key}, worker := Loop.Idle)
  }

  ghost predicate Progress(st: State, st': State, w: Setting) {
    || (exists name :: Deliver(st, st', name))
    || (exists name :: Pop(st, st', name))
    || (exists todo :: Load(st, st', w, todo))
    || Read(st, st', w)
    || Write(st, st', w)
    || Finish(st, st')
  }

  ghost predicate Next(st: State, st': State, w: Setting) {
    (exists names :: Change(st, st', w, names)) || Progress(st, st', w) || Fail(st, st', w)
  }

  // ---------------------------------------------------------------- the loop it refines

  ghost function AsLoop(w: Setting): Loop.Setting<VSConfigSpec, Option<Object>> {
    Loop.Setting(w.services, w.host, (n: string, c: VSConfigSpec) => c.host == w.host(n),
                 (configs: Configs, s: string) => Called(configs, w.namespace, s))
  }

  ghost function HeldMap(s: Store, w: Setting): map<string, Option<Object>> {
    map n | n in w.services :: Held(s, w.namespace, n)
  }

  ghost function Abstract(st: State, w: Setting): Loop.State<VSConfigSpec, Option<Object>> {
    Loop.State(Now(st, w), HeldMap(st.store, w), st.events, st.queue, st.worker)
  }

  /** The services are the fixed ones, and the store is tidy. */
  ghost predicate Surroundings(st: State, w: Setting) {
    && WellKeyed(st.store) && Tidy(st.store, w.namespace)
    && (forall n :: n in w.services <==> Key(Kind.Service, w.namespace, n) in st.store)
  }

  lemma ConfigsAreLocal(w: Setting)
    ensures Loop.Local(AsLoop(w))
  {
    var l := AsLoop(w);
    forall a: Configs, b: Configs, names: set<string>, s: string |
      Loop.Fitting(a, l) && Loop.Fitting(b, l) && Loop.DifferAt(a, b, names) && forall n :: n in names ==> l.host(n) != s
      ensures l.due(a, s) == l.due(b, s)
    {
      forall n | n in a && a[n].host == s ensures n in b && b[n] == a[n] {
        assert l.fits(n, a[n]);
      }
      forall n | n in b && b[n].host == s ensures n in a && a[n] == b[n] {
        assert l.fits(n, b[n]);
      }
      TableDependsOnApplying(a, b, s);
    }
  }

  lemma ChangeKeepsHeld(st: State, st': State, w: Setting, names: set<string>, service: string)
    requires Change(st, st', w, names)
    ensures OwnsByName(st.store, w.namespace, service) ==> OwnsByName(st'.store, w.namespace, service)
    ensures Held(st'.store, w.namespace, service) == Held(st.store, w.namespace, service)
  {
    forall k | Owns(st'.store, w.namespace, service, k) ensures Owns(st.store, w.namespace, service, k) && st.store[k] == st'.store[k] {
      assert Same(st.store, st'.store, k);
    }
    assert Same(st.store, st'.store, VSKey(w.namespace, service));
  }

  lemma ServicesKept(st: State, t: Store, w: Setting)
    requires Surroundings(st, w) && WellKeyed(t) && Tidy(t, w.namespace)
    requires forall n :: Same(st.store, t, Key(Kind.Service, w.namespace, n))
    ensures Surroundings(st.(store := t), w)
  {
    forall n ensures n in w.services <==> Key(Kind.Service, w.namespace, n) in t {
      assert Same(st.store, t, Key(Kind.Service, w.namespace, n));
    }
  }

  lemma ChangeSurroundings(st: State, st': State, w: Setting, names: set<string>)
    requires Surroundings(st, w) && Change(st, st', w, names)
    ensures Surroundings(st', w)
  {
    forall n | Key(Kind.Service, w.namespace, n) in st'.store ensures 0 < |n| <= LABEL_LIMIT && OwnsByName(st'.store, w.namespace, n) {
      assert Key(Kind.Service, w.namespace, n) in st.store;
      ChangeKeepsHeld(st, st', w, names, n);
    }
  }

  lemma ChangeOfConfigs(st: State, st': State, w: Setting, names: set<string>)
    requires Change(st, st', w, names)
    ensures Loop.DifferAt(Now(st, w), Now(st', w), names)
  {
    var a, b := Now(st, w), Now(st', w);
    forall n | n !in names ensures (n in a <==> n in b) && (n in a ==> a[n] == b[n]) {
      assert Same(st.store, st'.store, Key(Kind.VSConfig, w.namespace, n));
    }
  }

  lemma ChangeOfHeld(st: State, st': State, w: Setting, names: set<string>)
    requires Change(st, st', w, names)
    ensures Abstract(st', w).held == Abstract(st, w).held
  {
    forall n | n in w.services ensures Held(st'.store, w.namespace, n) == Held(st.store, w.namespace, n) {
      ChangeKeepsHeld(st, st', w, names, n);
    }
  }

  lemma ChangeSimulated(st: State, st': State, w: Setting, names: set<string>)
    requires Loop.Fitting(Now(st, w), AsLoop(w)) && Change(st, st', w, names)
    ensures Loop.Change(Abstract(st, w), Abstract(st', w), AsLoop(w), names)
  {
    ChangeOfConfigs(st, st', w, names);
    ChangeOfHeld(st, st', w, names);
    var l, a, b := AsLoop(w), Now(st, w), Now(st', w);
    forall n | n in b ensures l.fits(n, b[n]) {
      if n !in names { assert n in a && l.fits(n, a[n]); }
    }
  }

  lemma WriteSurroundings(st: State, st': State, w: Setting)
    requires Surroundings(st, w) && WritesPart(st, st'.store, w)
    ensures Surroundings(st.(store := st'.store), w) && Now(st', w) == Now(st, w)
  {
    var service := st.worker.todo[0];
    TidyKept(st.store, st'.store, w.namespace, service, Table(Sorted(st.worker.snapshot), service));
    ConfigsKept(st.store, st'.store, w.namespace, service);
    ServicesKept(st, st'.store, w);
  }

  lemma WriteOfHeld(s: Store, t: Store, w: Setting, service: string, table: seq<HTTPRoute>)
    requires forall n :: n in w.services ==> OwnsByName(s, w.namespace, n)
    requires WritesAtMost(s, t, w.namespace, service, table) && service in w.services
    ensures var before, after := HeldMap(s, w), HeldMap(t, w);
      (after == before || after == before[service := Asked(w.namespace, service, table)])
      && after[service] == Held(t, w.namespace, service)
      && (after[service] == Asked(w.namespace, service, table) ==> after == before[service := Asked(w.namespace, service, table)])
  {
    forall n | n in w.services && n != service ensures Held(t, w.namespace, n) == Held(s, w.namespace, n) {
      OthersKept(s, t, w.namespace, service, table, n);
    }
    HeldAfterWrite(s, t, w.namespace, service, table);
  }

  /** What the loop's write puts into the held values is what the refresh asks for. */
  lemma WrittenIsAsked(st: State, w: Setting)
    requires st.worker.Writing? && st.worker.todo != []
    ensures Loop.Written(Abstract(st, w), AsLoop(w)) == HeldMap(st.store, w)[st.worker.todo[0] :=
      Asked(w.namespace, st.worker.todo[0], Table(Sorted(st.worker.snapshot), st.worker.todo[0]))]
  {}

  lemma ServicesOwnByName(st: State, w: Setting)
    requires Surroundings(st, w)
    ensures forall n :: n in w.services ==> OwnsByName(st.store, w.namespace, n)
  {}

  lemma WriteSimulated(st: State, st': State, w: Setting)
    requires Surroundings(st, w) && WritesPart(st, st'.store, w) && st.worker.todo[0] in w.services
    ensures var a := Abstract(st, w);
      Abstract(st', w).held == a.held || Abstract(st', w).held == Loop.Written(a, AsLoop(w))
    ensures Held(st'.store, w.namespace, st.worker.todo[0]) == Called(st.worker.snapshot, w.namespace, st.worker.todo[0])
      ==> Abstract(st', w).held == Loop.Written(Abstract(st, w), AsLoop(w))
  {
    ServicesOwnByName(st, w);
    WrittenIsAsked(st, w);
    WriteOfHeld(st.store, st'.store, w, st.worker.todo[0], Table(Sorted(st.worker.snapshot), st.worker.todo[0]));
  }

  lemma HeldAfterWrite(s: Store, t: Store, namespace: string, service: string, table: seq<HTTPRoute>)
    requires WritesAtMost(s, t, namespace, service, table)
    ensures Held(t, namespace, service) == Held(s, namespace, service) || Held(t, namespace, service) == Asked(namespace, service, table)
  {
    var asked := Asked(namespace, service, table);
    if asked.Some? {
      assert asked.value.owners[0] == ControllerRef(ServiceParent(namespace, service));
    }
  }

  lemma LoadSimulated(st: State, st': State, w: Setting, todo: seq<string>)
    requires Loop.Fitting(Now(st, w), AsLoop(w)) && Load(st, st', w, todo)
    ensures Loop.Load(Abstract(st, w), Abstract(st', w), AsLoop(w), todo)
  {
    var key := st.worker.key;
    assert key in Now(st, w) ==> AsLoop(w).fits(key, Now(st, w)[key]);
  }

  /** What the worker is about to write is for a service that exists. */
  ghost predicate WriteReady(st: State, w: Setting) {
    st.worker.Writing? ==> st.worker.todo != [] && st.worker.todo[0] in w.services
  }

  lemma WriteIsWrite(st: State, st': State, w: Setting)
    requires Surroundings(st, w) && WriteReady(st, w) && Write(st, st', w)
    ensures Surroundings(st', w) && Loop.Write(Abstract(st, w), Abstract(st', w), AsLoop(w))
  {
    WriteSurroundings(st, st', w);
    WriteSimulated(st, st', w);
  }

  lemma OtherProgressSimulated(st: State, st': State, w: Setting)
    requires Loop.Fitting(Now(st, w), AsLoop(w)) && Progress(st, st', w) && !Write(st, st', w)
    requires forall n :: n in w.services <==> Key(Kind.Service, w.namespace, n) in st.store
    ensures st'.store == st.store && Loop.Progress(Abstract(st, w), Abstract(st', w), AsLoop(w))
  {
    var a, a', l := Abstract(st, w), Abstract(st', w), AsLoop(w);
    if name :| Deliver(st, st', name) {
      assert Loop.Deliver(a, a', name);
    } else if name :| Pop(st, st', name) {
      assert Loop.Pop(a, a', name);
    } else if todo :| Load(st, st', w, todo) {
      LoadSimulated(st, st', w, todo);
    } else if Read(st, st', w) {
      assert Loop.Read(a, a', l);
    } else {
      assert Loop.Finish(a, a');
    }
  }

  lemma ProgressSimulated(st: State, st': State, w: Setting)
    requires Surroundings(st, w) && Loop.Fitting(Now(st, w), AsLoop(w)) && WriteReady(st, w) && Progress(st, st', w)
    ensures Surroundings(st', w) && Loop.Progress(Abstract(st, w), Abstract(st', w), AsLoop(w))
  {
    if Write(st, st', w) {
      WriteIsWrite(st, st', w);
    } else {
      OtherProgressSimulated(st, st', w);
    }
  }

  /** Every step of the controller and its users is a step of the loop. */
  lemma NextSimulated(st: State, st': State, w: Setting)
    requires Surroundings(st, w) && Loop.Inv(Abstract(st, w), AsLoop(w)) && Next(st, st', w)
    ensures Surroundings(st', w) && Loop.Next(Abstract(st, w), Abstract(st', w), AsLoop(w))
  {
    if names :| Change(st, st', w, names) {
      ChangeSurroundings(st, st', w, names);
      ChangeSimulated(st, st', w, names);
    } else if Progress(st, st', w) {
      ProgressSimulated(st, st', w);
    } else {
      if st'.store != st.store {
        WriteSurroundings(st, st', w);
        WriteSimulated(st, st', w);
      }
      assert Loop.Fail(Abstract(st, w), Abstract(st', w), AsLoop(w));
    }
  }

  // ---------------------------------------------------------------- whole runs

  /** The controller has just started: it is notified of every config there is. */
  ghost predicate Started(st: State, w: Setting) {
    && Surroundings(st, w) && st.worker.Idle? && st.queue == {} && st.events == Now(st, w).Keys
    && forall n :: n in Now(st, w) ==> Now(st, w)[n].host == w.host(n)
  }

  /** A stale VirtualService belongs to a service that still has a config. */
  ghost predicate NoOrphans(st: State, w: Setting) {
    forall s :: s in w.services ==>
      VirtualServices.Agrees(st.store, w.namespace, s) || exists n :: n in Now(st, w) && w.host(n) == s
  }

  ghost function NextOf(w: Setting): (State, State) -> bool {
    (st, st') => Next(st, st', w)
  }

  ghost predicate IsRun(run: seq<State>, w: Setting) {
    Runs.IsRun(run, NextOf(w))
  }

  ghost predicate Quiet(st: State) {
    st.worker.Idle? && st.queue == {} && st.events == {}
  }

  /** What the invariant says about the services: in agreement, or a key for their host is waiting,
      or is in the worker's hands before it has read the configs for them. */
  ghost predicate AgreesOrAttended(st: State, w: Setting, service: string) {
    VirtualServices.Agrees(st.store, w.namespace, service) || Loop.Covered(Abstract(st, w), AsLoop(w), service)
  }

  lemma AgreementIsAgreement(st: State, w: Setting, service: string)
    requires Surroundings(st, w) && service in w.services
    ensures Loop.Agrees(Abstract(st, w), AsLoop(w), service) <==> VirtualServices.Agrees(st.store, w.namespace, service)
  {}

  /** At the start the keys that wait are those of the configs there are. */
  lemma AttendedAtStart(st: State, w: Setting, s: string)
    requires Started(st, w)
    ensures Loop.Covered(Abstract(st, w), AsLoop(w), s) <==> exists n :: n in Now(st, w) && w.host(n) == s
  {
    var a, l := Abstract(st, w), AsLoop(w);
    if n :| n in Now(st, w) && w.host(n) == s { assert Loop.Waiting(a, n); }
    if Loop.Covered(a, l, s) {
      var n :| l.host(n) == s && (Loop.Waiting(a, n) || Loop.InFlight(a, l, n, s));
      assert n in Now(st, w);
    }
  }

  /** Starting up establishes the invariant exactly when no service without configs holds a stale
      VirtualService: the controller is told of the configs there are, not of those that went. */
  lemma StartCovers(st: State, w: Setting)
    requires Started(st, w)
    ensures Loop.Inv(Abstract(st, w), AsLoop(w)) <==> NoOrphans(st, w)
  {
    var a, l := Abstract(st, w), AsLoop(w);
    forall s | s in w.services
      ensures Loop.Covered(a, l, s) <==> exists n :: n in Now(st, w) && w.host(n) == s
      ensures Loop.Agrees(a, l, s) <==> VirtualServices.Agrees(st.store, w.namespace, s)
    {
      AttendedAtStart(st, w, s);
      AgreementIsAgreement(st, w, s);
    }
  }

  /** The invariant of the protocol: the fixed services are there, the store is tidy, and the loop's invariant holds. */
  ghost predicate Inv(st: State, w: Setting) {
    Surroundings(st, w) && Loop.Inv(Abstract(st, w), AsLoop(w))
  }

  lemma StepsKeepInv(w: Setting)
    ensures Runs.Keeps(NextOf(w), (st: State) => Inv(st, w))
  {
    forall st, st' | Inv(st, w) && NextOf(w)(st, st') ensures Inv(st', w) {
      NextSimulated(st, st', w);
      ConfigsAreLocal(w);
      Loop.NextKeepsInv(Abstract(st, w), Abstract(st', w), AsLoop(w));
    }
  }

  lemma RunSimulated(run: seq<State>, w: Setting, n: nat)
    requires IsRun(run, w) && Started(run[0], w) && NoOrphans(run[0], w) && n < |run|
    ensures Inv(run[n], w)
  {
    StartCovers(run[0], w);
    StepsKeepInv(w);
    Runs.HoldsAlong(run, NextOf(w), (st: State) => Inv(st, w), 0, n);
  }

  /** VirtualService agreement in every run: whatever users do and whichever calls fail, in each
      state each service owns exactly the VirtualService its configs call for or is attended to,
      so a quiet controller means agreement everywhere. */
  lemma AgreementInEveryRun(run: seq<State>, w: Setting, n: nat)
    requires IsRun(run, w) && Started(run[0], w) && NoOrphans(run[0], w) && n < |run|
    ensures forall s :: s in w.services ==> AgreesOrAttended(run[n], w, s)
    ensures Quiet(run[n]) ==> forall s :: s in w.services ==> VirtualServices.Agrees(run[n].store, w.namespace, s)
  {
    RunSimulated(run, w, n);
    var a, l := Abstract(run[n], w), AsLoop(w);
    if Quiet(run[n]) { Loop.QuietMeansAgreement(a, l); }
    forall s | s in w.services
      ensures AgreesOrAttended(run[n], w, s)
      ensures Quiet(run[n]) ==> VirtualServices.Agrees(run[n].store, w.namespace, s)
    {
      AgreementIsAgreement(run[n], w, s);
    }
  }

  // ---------------------------------------------------------------- coming to rest

  ghost function ProgressOf(w: Setting): (State, State) -> bool {
    (st, st') => Progress(st, st', w)
  }

  ghost function WorkLeft(st: State, w: Setting): nat {
    Loop.Measure(Abstract(st, w), AsLoop(w))
  }

  /** Once users and failures pause, every run of the controller ends: each of its steps leaves
      strictly less to do. */
  lemma {:induction false} UndisturbedRunsEnd(run: seq<State>, w: Setting)
    requires Runs.IsRun(run, ProgressOf(w)) && Inv(run[0], w)
    ensures |run| <= WorkLeft(run[0], w) + 1
    decreases |run|
  {
    if |run| > 1 {
      Runs.TailIsRun(run, ProgressOf(w));
      ProgressShrinks(run[0], run[1], w);
      ProgressKeepsInv(run[0], run[1], w);
      UndisturbedRunsEnd(run[1..], w);
    }
  }

  lemma ProgressKeepsInv(st: State, st': State, w: Setting)
    requires Inv(st, w) && Progress(st, st', w)
    ensures Inv(st', w)
  {
    ProgressSimulated(st, st', w);
    Loop.ProgressKeepsInv(Abstract(st, w), Abstract(st', w), AsLoop(w));
  }

  lemma ProgressShrinks(st: State, st': State, w: Setting)
    requires Surroundings(st, w) && Loop.Fitting(Now(st, w), AsLoop(w)) && WriteReady(st, w) && Progress(st, st', w)
    ensures WorkLeft(st', w) < WorkLeft(st, w)
  {
    ProgressSimulated(st, st', w);
    Loop.ProgressShrinks(Abstract(st, w), Abstract(st', w), AsLoop(w));
  }

  /** The services the worker has on its list exist. */
  ghost predicate Serviceable(st: State, w: Setting) {
    && ((st.worker.Updating? || st.worker.Writing?) ==> forall s :: s in st.worker.todo ==> s in w.services)
    && (st.worker.Writing? ==> st.worker.todo != [])
  }

  /** Every config is for a service that exists, and has the host its name stands for. */
  ghost predicate HostsExist(st: State, w: Setting) {
    forall n :: n in Now(st, w) ==> Now(st, w)[n].host == w.host(n) && w.host(n) in w.services
  }

  /** The controller can go on by itself from here. */
  ghost predicate CanGoOn(st: State, w: Setting) {
    Surroundings(st, w) && Serviceable(st, w) && HostsExist(st, w)
  }

  /** Nothing that waits or is in progress concerns the service. */
  ghost predicate Spared(st: State, w: Setting, s: string) {
    && (forall k :: k in st.events || k in st.queue ==> k in Now(st, w) && w.host(k) != s)
    && match st.worker
       case Idle => true
       case Popped(k) => k in Now(st, w) && w.host(k) != s
       case Updating(_, todo) => s !in todo
       case Writing(_, todo, _) => s !in todo
  }

  /** A step that leaves configs alone, and what services own that it does not concern. */
  ghost predicate StepsAside(st: State, st': State, w: Setting) {
    && Now(st', w) == Now(st, w)
    && forall s :: s in w.services && Spared(st, w, s) ==>
         Spared(st', w, s) && Held(st'.store, w.namespace, s) == Held(st.store, w.namespace, s)
  }

  ghost function Enumeration(s: set<string>): (r: seq<string>)
    ensures Loop.ListsServices(r, s)
  {
    if s == {} then [] else var x: string :| x in s; [x] + Enumeration(s - {x})
  }

  /** A step within the controller: the store is untouched, and what was spared is. */
  lemma InnerStep(st: State, st': State, w: Setting)
    requires CanGoOn(st, w) && st'.store == st.store && Serviceable(st', w)
    requires forall s :: s in w.services && Spared(st, w, s) ==> Spared(st', w, s)
    ensures CanGoOn(st', w) && StepsAside(st, st', w)
  {}

  lemma StillSpared(st: State, st': State, w: Setting, s: string)
    requires st'.store == st.store && Spared(st, w, s)
    requires forall k :: k in st'.events || k in st'.queue ==> k in st.events || k in st.queue
    requires st'.worker.Idle? || (st'.worker.Popped? && (st'.worker.key in st.events || st'.worker.key in st.queue))
    ensures Spared(st', w, s)
  {}

  lemma SparedWithList(st: State, st': State, w: Setting, s: string)
    requires Spared(st, w, s) && st' == st.(worker := st'.worker)
    requires st'.worker.Idle? || ((st'.worker.Updating? || st'.worker.Writing?) && s !in st'.worker.todo)
    ensures Spared(st', w, s)
  {}

  lemma AsideTransitive(a: State, b: State, c: State, w: Setting)
    requires StepsAside(a, b, w) && StepsAside(b, c, w)
    ensures StepsAside(a, c, w)
  {
    forall s | s in w.services && Spared(a, w, s) ensures Spared(c, w, s) && Held(c.store, w.namespace, s) == Held(a.store, w.namespace, s) {
      assert Spared(b, w, s);
    }
  }

  /** A controller that is not quiet can take a step without any call failing. */
  lemma CanProgress(st: State, w: Setting) returns (st': State)
    requires CanGoOn(st, w) && !Quiet(st)
    ensures Progress(st, st', w) && CanGoOn(st', w) && StepsAside(st, st', w)
  {
    match st.worker
    case Idle => st' := CanStart(st, w);
    case Popped(key) => st' := CanLoad(st, w);
    case Updating(key, todo) => st' := CanUpdate(st, w);
    case Writing(key, todo, snapshot) => st' := CanWrite(st, w);
  }

  lemma CanStart(st: State, w: Setting) returns (st': State)
    requires CanGoOn(st, w) && !Quiet(st) && st.worker.Idle?
    ensures Progress(st, st', w) && CanGoOn(st', w) && StepsAside(st, st', w)
  {
    if st.queue != {} {
      var name :| name in st.queue;
      st' := st.(queue := st.queue - {name}, worker := Loop.Popped(name));
      assert Pop(st, st', name);
    } else {
      var name :| name in st.events;
      st' := st.(events := st.events - {name}, queue := st.queue + {name});
      assert Deliver(st, st', name);
    }
    forall s | s in w.services && Spared(st, w, s) ensures Spared(st', w, s) { StillSpared(st, st', w, s); }
    InnerStep(st, st', w);
  }

  lemma CanUpdate(st: State, w: Setting) returns (st': State)
    requires CanGoOn(st, w) && st.worker.Updating?
    ensures Progress(st, st', w) && CanGoOn(st', w) && StepsAside(st, st', w)
  {
    if st.worker.todo == [] {
      st' := st.(worker := Loop.Idle);
      assert Finish(st, st');
    } else {
      st' := st.(worker := Loop.Writing(st.worker.key, st.worker.todo, Now(st, w)));
      assert st.worker.todo[0] in st.worker.todo;
      assert Read(st, st', w);
    }
    forall s | s in w.services && Spared(st, w, s) ensures Spared(st', w, s) { SparedWithList(st, st', w, s); }
    InnerStep(st, st', w);
  }

  lemma CanLoad(st: State, w: Setting) returns (st': State)
    requires CanGoOn(st, w) && st.worker.Popped?
    ensures Progress(st, st', w) && CanGoOn(st', w) && StepsAside(st, st', w)
  {
    var todo := LoadedServices(st, w);
    st' := st.(worker := Loop.Updating(st.worker.key, todo));
    assert Load(st, st', w, todo);
    forall s | s in w.services && Spared(st, w, s) ensures Spared(st', w, s) { SparedWithList(st, st', w, s); }
    InnerStep(st, st', w);
  }

  lemma LoadedServices(st: State, w: Setting) returns (todo: seq<string>)
    requires HostsExist(st, w) && st.worker.Popped?
    ensures if st.worker.key in Now(st, w) then todo == [Now(st, w)[st.worker.key].host] else Loop.ListsServices(todo, w.services)
    ensures forall s :: s in todo ==> s in w.services && !Spared(st, w, s)
  {
    todo := if st.worker.key in Now(st, w) then [Now(st, w)[st.worker.key].host] else Enumeration(w.services);
  }

  lemma CanWrite(st: State, w: Setting) returns (st': State)
    requires CanGoOn(st, w) && st.worker.Writing?
    ensures Progress(st, st', w) && CanGoOn(st', w) && StepsAside(st, st', w)
  {
    var service := st.worker.todo[0];
    assert service in st.worker.todo;
    var table := Table(Sorted(st.worker.snapshot), service);
    var t := RefreshCanSucceed(st.store, w.namespace, service, table);
    st' := st.(store := t, worker := Loop.Updating(st.worker.key, st.worker.todo[1..]));
    RefreshIsWrite(st, st', w);
    WriteSurroundings(st, st', w);
    WriteStepsAside(st, st', w);
    assert forall s :: s in st'.worker.todo ==> s in st.worker.todo;
  }

  /** A refresh that succeeds is a write of the protocol. */
  lemma RefreshIsWrite(st: State, st': State, w: Setting)
    requires Surroundings(st, w) && st.worker.Writing? && st.worker.todo != [] && st.worker.todo[0] in w.services
    requires var service := st.worker.todo[0];
      CompleteRun(st.store, st'.store, ServiceParent(w.namespace, service), VirtualServiceList(w.namespace, service, Table(Sorted(st.worker.snapshot), service)))
    requires st' == st.(store := st'.store, worker := Loop.Updating(st.worker.key, st.worker.todo[1..]))
    ensures Write(st, st', w)
  {
    var service := st.worker.todo[0];
    var table := Table(Sorted(st.worker.snapshot), service);
    CompleteIsPartial(st.store, st'.store, ServiceParent(w.namespace, service), VirtualServiceList(w.namespace, service, table));
    RefreshWritesOneKey(st.store, st'.store, w.namespace, service, table);
    CompleteRefreshDelivers(st.store, st'.store, w.namespace, service, table);
  }

  lemma WriteStepsAside(st: State, st': State, w: Setting)
    requires Surroundings(st, w) && Write(st, st', w) && Now(st', w) == Now(st, w)
    ensures StepsAside(st, st', w)
  {
    var service := st.worker.todo[0];
    forall s | s in w.services && Spared(st, w, s) ensures Spared(st', w, s) && Held(st'.store, w.namespace, s) == Held(st.store, w.namespace, s) {
      assert service in st.worker.todo;
      OthersKept(st.store, st'.store, w.namespace, service, Table(Sorted(st.worker.snapshot), service), s);
      assert forall x :: x in st'.worker.todo ==> x in st.worker.todo;
    }
  }

  /** Left alone, and with calls that succeed, the controller comes to rest. */
  lemma {:induction false} RunsToRest(st: State, w: Setting) returns (run: seq<State>)
    requires CanGoOn(st, w)
    ensures Runs.IsRun(run, ProgressOf(w)) && run[0] == st && |run| <= WorkLeft(st, w) + 1
    ensures Quiet(run[|run| - 1]) && CanGoOn(run[|run| - 1], w) && StepsAside(st, run[|run| - 1], w)
    decreases WorkLeft(st, w)
  {
    if Quiet(st) {
      run := [st];
    } else {
      var st' := CanProgress(st, w);
      GoingOnFits(st, w);
      ProgressShrinks(st, st', w);
      var rest := RunsToRest(st', w);
      run := [st] + rest;
      Runs.LongerRun(st, rest, ProgressOf(w));
      AsideTransitive(st, st', rest[|rest| - 1], w);
    }
  }

  lemma GoingOnFits(st: State, w: Setting)
    requires CanGoOn(st, w)
    ensures Loop.Fitting(Now(st, w), AsLoop(w)) && WriteReady(st, w)
  {
    if st.worker.Writing? { assert st.worker.todo[0] in st.worker.todo; }
  }

  /** Agreement is always within reach: from every reachable state in which each config's host exists, the
      controller left alone comes to rest with every service in agreement.  It must give up what it is doing
      first only if that concerns a service that does not exist. */
  lemma ComesToRest(st: State, w: Setting) returns (run: seq<State>)
    requires Inv(st, w) && HostsExist(st, w)
    ensures IsRun(run, w) && run[0] == st && |run| <= WorkLeft(st, w) + 2 * |w.services| + 7
    ensures if Serviceable(st, w) then Runs.IsRun(run, ProgressOf(w))
            else |run| > 1 && Fail(st, run[1], w) && Runs.IsRun(run[1..], ProgressOf(w))
    ensures Quiet(run[|run| - 1]) && forall s :: s in w.services ==> VirtualServices.Agrees(run[|run| - 1].store, w.namespace, s)
  {
    if Serviceable(st, w) {
      run := RestsInAgreement(st, w);
      ProgressRunIsRun(run, w);
    } else {
      var st' := st.(queue := st.queue + {st.worker.key}, worker := Loop.Idle);
      assert Fail(st, st', w);
      GivingUpKeepsInv(st, st', w);
      GivingUpCosts(st, st', w);
      var rest := RestsInAgreement(st', w);
      run := [st] + rest;
      ProgressRunIsRun(rest, w);
      Runs.LongerRun(st, rest, NextOf(w));
      assert run[1..] == rest;
    }
  }

  lemma GivingUpKeepsInv(st: State, st': State, w: Setting)
    requires Inv(st, w) && Fail(st, st', w)
    ensures Inv(st', w)
  {
    assert NextOf(w)(st, st');
    StepsKeepInv(w);
  }

  lemma GivingUpCosts(st: State, st': State, w: Setting)
    requires !st.worker.Idle? && st' == st.(queue := st.queue + {st.worker.key}, worker := Loop.Idle)
    ensures WorkLeft(st', w) <= WorkLeft(st, w) + 2 * |w.services| + 5
  {
    Loop.SizeOfUnion(st.queue, st.worker.key);
    OneKeyMore(|w.services|, |st.events|, |st.queue|, |st'.queue|);
  }

  lemma OneKeyMore(n: nat, events: nat, queue: nat, queue': nat)
    requires queue' <= queue + 1
    ensures (2 * n + 6) * events + (2 * n + 5) * queue' <= (2 * n + 6) * events + (2 * n + 5) * queue + 2 * n + 5
  {
    var k := 2 * n + 5;
    Loop.Scaled(k, queue', queue + 1);
    assert k * (queue + 1) == k * queue + k;
  }

  lemma RestsInAgreement(st: State, w: Setting) returns (run: seq<State>)
    requires Inv(st, w) && Serviceable(st, w) && HostsExist(st, w)
    ensures Runs.IsRun(run, ProgressOf(w)) && run[0] == st && |run| <= WorkLeft(st, w) + 1
    ensures Quiet(run[|run| - 1]) && forall s :: s in w.services ==> VirtualServices.Agrees(run[|run| - 1].store, w.namespace, s)
  {
    run := RunsToRest(st, w);
    ProgressRunKeepsInv(run, w);
    var last := run[|run| - 1];
    Loop.QuietMeansAgreement(Abstract(last, w), AsLoop(w));
    forall s | s in w.services ensures VirtualServices.Agrees(last.store, w.namespace, s) {
      AgreementIsAgreement(last, w, s);
    }
  }

  lemma ProgressRunKeepsInv(run: seq<State>, w: Setting)
    requires Runs.IsRun(run, ProgressOf(w)) && Inv(run[0], w)
    ensures Inv(run[|run| - 1], w)
  {
    forall st, st' | Inv(st, w) && ProgressOf(w)(st, st') ensures Inv(st', w) {
      ProgressKeepsInv(st, st', w);
    }
    Runs.HoldsAlong(run, ProgressOf(w), (st: State) => Inv(st, w), 0, |run| - 1);
  }

  lemma ProgressRunIsRun(run: seq<State>, w: Setting)
    requires Runs.IsRun(run, ProgressOf(w))
    ensures IsRun(run, w)
  {
    forall i | 0 <= i < |run| - 1 ensures Runs.StepAt(run, NextOf(w), i) {
      assert Runs.StepAt(run, ProgressOf(w), i);
    }
  }

  // ---------------------------------------------------------------- orphans

  /** In every quiet state of every run from here all services agree. */
  ghost predicate QuietMeansAgreement(st: State, w: Setting) {
    forall run: seq<State>, n: nat | n < |run| && IsRun(run, w) && run[0] == st && Quiet(run[n]) ::
      forall s :: s in w.services ==> VirtualServices.Agrees(run[n].store, w.namespace, s)
  }

  lemma NoOrphansMeansAgreement(st: State, w: Setting)
    requires Started(st, w) && NoOrphans(st, w)
    ensures QuietMeansAgreement(st, w)
  {
    forall run: seq<State>, n: nat | n < |run| && IsRun(run, w) && run[0] == st && Quiet(run[n])
      ensures forall s :: s in w.services ==> VirtualServices.Agrees(run[n].store, w.namespace, s)
    {
      AgreementInEveryRun(run, w, n);
    }
  }

  lemma OrphanMeansDisagreement(st: State, w: Setting, s: string)
    requires Started(st, w) && HostsExist(st, w) && s in w.services
    requires !VirtualServices.Agrees(st.store, w.namespace, s) && !exists n :: n in Now(st, w) && w.host(n) == s
    ensures !QuietMeansAgreement(st, w)
  {
    var run := OrphanStays(st, w, s);
    var n := |run| - 1;
    assert n < |run| && IsRun(run, w) && run[0] == st && Quiet(run[n]);
  }

  /** From a fresh start, quiet controllers mean agreement if and only if no service without configs has a
      stale VirtualService: the controller is told of the configs there are, not of those that went while
      it was down, so what they left behind stays. */
  lemma QuietAgreementWhen(st: State, w: Setting)
    requires Started(st, w) && HostsExist(st, w)
    ensures QuietMeansAgreement(st, w) <==> NoOrphans(st, w)
  {
    if NoOrphans(st, w) {
      NoOrphansMeansAgreement(st, w);
    } else {
      var s :| s in w.services && !VirtualServices.Agrees(st.store, w.namespace, s) && !exists n :: n in Now(st, w) && w.host(n) == s;
      OrphanMeansDisagreement(st, w, s);
    }
  }

  /** The controller comes to rest without having looked at the orphan. */
  lemma OrphanStays(st: State, w: Setting, s: string) returns (run: seq<State>)
    requires Started(st, w) && HostsExist(st, w) && s in w.services
    requires !VirtualServices.Agrees(st.store, w.namespace, s) && !exists n :: n in Now(st, w) && w.host(n) == s
    ensures IsRun(run, w) && run[0] == st && Quiet(run[|run| - 1])
    ensures !VirtualServices.Agrees(run[|run| - 1].store, w.namespace, s)
  {
    assert Spared(st, w, s);
    run := RunsToRest(st, w);
    ProgressRunIsRun(run, w);
    var last := run[|run| - 1];
    assert OwnsByName(st.store, w.namespace, s) && OwnsByName(last.store, w.namespace, s);
  }

  // ---------------------------------------------------------------- a config that changes its host

  /** Hosts are taken to be fixed because the controller forgets the old one: when a config of an
      agreeing namespace moves from one host to another and its reconcile succeeds, everything
      agrees again exactly when the move did not matter to the old host. */
  lemma HostMove(s: Store, m: Store, t: Store, namespace: string, name: string)
    requires WellKeyed(s) && WellKeyed(m) && Tidy(s, namespace) && Tidy(m, namespace)
    requires forall n :: Key(Kind.Service, namespace, n) in s ==> VirtualServices.Agrees(s, namespace, n)
    requires forall k :: k != Key(Kind.VSConfig, namespace, name) ==> Same(s, m, k)
    requires name in ConfigsIn(s, namespace) && name in ConfigsIn(m, namespace)
    requires Updated(m, t, namespace, ConfigsIn(m, namespace)[name].host, true)
    ensures var before, after := ConfigsIn(s, namespace)[name], ConfigsIn(m, namespace)[name];
      (forall n :: Key(Kind.Service, namespace, n) in t ==> VirtualServices.Agrees(t, namespace, n))
      <==> before.host == after.host || before.headerValue == "" || Key(Kind.Service, namespace, before.host) !in s
  {
    var a, b := ConfigsIn(s, namespace), ConfigsIn(m, namespace);
    UpdateAgrees(m, t, namespace, b[name].host, true);
    forall n ensures Key(Kind.Service, namespace, n) in t <==> Key(Kind.Service, namespace, n) in s {
      assert Same(m, t, Key(Kind.Service, namespace, n)) && Same(s, m, Key(Kind.Service, namespace, n));
    }
    forall n | n != name ensures (n in a <==> n in b) && (n in a ==> a[n] == b[n]) {
      assert Same(s, m, Key(Kind.VSConfig, namespace, n));
    }
    forall n | Key(Kind.Service, namespace, n) in s && n != b[name].host
      ensures VirtualServices.Agrees(t, namespace, n) <==> n != a[name].host || a[name].headerValue == ""
    {
      HostMoveElsewhere(s, m, t, namespace, name, n);
    }
  }

  lemma HostMoveElsewhere(s: Store, m: Store, t: Store, namespace: string, name: string, service: string)
    requires WellKeyed(m) && Tidy(m, namespace) && VirtualServices.Agrees(s, namespace, service)
    requires forall k :: k != Key(Kind.VSConfig, namespace, name) ==> Same(s, m, k)
    requires name in ConfigsIn(s, namespace) && name in ConfigsIn(m, namespace)
    requires Loop.DifferAt(ConfigsIn(s, namespace), ConfigsIn(m, namespace), {name})
    requires Updated(m, t, namespace, ConfigsIn(m, namespace)[name].host, true)
    requires service != ConfigsIn(m, namespace)[name].host
    ensures VirtualServices.Agrees(t, namespace, service) <==>
      service != ConfigsIn(s, namespace)[name].host || ConfigsIn(s, namespace)[name].headerValue == ""
  {
    HeldElsewhere(s, m, t, namespace, name, ConfigsIn(m, namespace)[name].host, service);
    CalledAfterMove(ConfigsIn(s, namespace), ConfigsIn(m, namespace), namespace, name, service);
  }

  lemma CalledAfterMove(a: Configs, b: Configs, namespace: string, name: string, service: string)
    requires name in a && name in b && Loop.DifferAt(a, b, {name}) && b[name].host != service
    ensures Called(a, namespace, service) == Called(b, namespace, service) <==> !Applies(Config(name, a[name]), service)
  {
    var x, y := Table(Sorted(a), service), Table(Sorted(b), service);
    if Applies(Config(name, a[name]), service) {
      OneRouteLess(a, b, name, service);
      assert Asked(namespace, service, x).value.body.virtualService.http == x;
    } else {
      TableDependsOnApplying(a, b, service);
    }
  }

  lemma HeldBesideConfig(s: Store, m: Store, namespace: string, name: string, service: string)
    requires OwnsByName(s, namespace, service) && forall k :: k != Key(Kind.VSConfig, namespace, name) ==> Same(s, m, k)
    ensures OwnsByName(m, namespace, service) && Held(m, namespace, service) == Held(s, namespace, service)
  {
    forall k | Owns(m, namespace, service, k) ensures Owns(s, namespace, service, k) && s[k] == m[k] {
      assert Same(s, m, k);
    }
    assert Same(s, m, VSKey(namespace, service));
  }

  lemma TidyBesideConfig(s: Store, m: Store, namespace: string, name: string)
    requires Tidy(s, namespace) && forall k :: k != Key(Kind.VSConfig, namespace, name) ==> Same(s, m, k)
    ensures Tidy(m, namespace)
  {
    forall n | Key(Kind.Service, namespace, n) in m ensures 0 < |n| <= LABEL_LIMIT && OwnsByName(m, namespace, n) {
      assert Same(s, m, Key(Kind.Service, namespace, n));
      HeldBesideConfig(s, m, namespace, name, n);
    }
  }

  lemma HeldBesideUpdate(m: Store, t: Store, namespace: string, host: string, service: string)
    requires WellKeyed(m) && Tidy(m, namespace) && Updated(m, t, namespace, host, true)
    requires OwnsByName(m, namespace, service) && service != host
    ensures Held(t, namespace, service) == Held(m, namespace, service) && OwnsByName(t, namespace, service)
    ensures ConfigsIn(t, namespace) == ConfigsIn(m, namespace)
  {
    var table := Table(Sorted(ConfigsIn(m, namespace)), host);
    CompleteIsPartial(m, t, ServiceParent(namespace, host), VirtualServiceList(namespace, host, table));
    RefreshWritesOneKey(m, t, namespace, host, table);
    OthersKept(m, t, namespace, host, table, service);
  }

  lemma HeldElsewhere(s: Store, m: Store, t: Store, namespace: string, name: string, host: string, service: string)
    requires WellKeyed(m) && Tidy(m, namespace) && OwnsByName(s, namespace, service) && service != host
    requires forall k :: k != Key(Kind.VSConfig, namespace, name) ==> Same(s, m, k)
    requires Updated(m, t, namespace, host, true)
    ensures Held(t, namespace, service) == Held(s, namespace, service) && OwnsByName(t, namespace, service)
    ensures ConfigsIn(t, namespace) == ConfigsIn(m, namespace)
  {
    HeldBesideConfig(s, m, namespace, name, service);
    HeldBesideUpdate(m, t, namespace, host, service);
  }

  // ---------------------------------------------------------------- the reconciler and the protocol

  /** What a reconcile leaves to do: nothing, or the key once more. */
  ghost function AfterReconcile(st: State, t: Store, ok: bool): State
    requires st.worker.Popped?
  {
    st.(store := t, worker := Loop.Idle, queue := if ok then st.queue else st.queue + {st.worker.key})
  }

  /** The worker with the first services done. */
  ghost function Doing(st: State, t: Store, todo: seq<string>): State
    requires st.worker.Popped?
  {
    st.(store := t, worker := Loop.Updating(st.worker.key, todo))
  }

  lemma SetSize(names: seq<string>, s: set<string>)
    requires (forall n :: n in names <==> n in s) && forall i, j :: 0 <= i < j < |names| ==> names[i] != names[j]
    ensures |names| == |s|
  {
    if names == [] {
      assert s == {};
    } else {
      var n := |names| - 1;
      assert forall i :: 0 <= i < n ==> names[..n][i] == names[i];
      forall x ensures x in names[..n] <==> x in s - {names[n]} {
        if x in s - {names[n]} { var i :| 0 <= i < |names| && names[i] == x; assert names[..n][i] == x; }
      }
      SetSize(names[..n], s - {names[n]});
    }
  }

  /** One successful update is a read and a write. */
  lemma UpdateIsSteps(st: State, t: Store, w: Setting)
    requires Surroundings(st, w) && st.worker.Updating? && st.worker.todo != []
    requires Updated(st.store, t, w.namespace, st.worker.todo[0], true)
    ensures var read := st.(worker := Loop.Writing(st.worker.key, st.worker.todo, Now(st, w)));
      var done := st.(store := t, worker := Loop.Updating(st.worker.key, st.worker.todo[1..]));
      Read(st, read, w) && Write(read, done, w) && Surroundings(done, w)
  {
    var read := st.(worker := Loop.Writing(st.worker.key, st.worker.todo, Now(st, w)));
    var done := st.(store := t, worker := Loop.Updating(st.worker.key, st.worker.todo[1..]));
    assert st.worker.todo[0] in w.services;
    RefreshIsWrite(read, done, w);
    WriteSurroundings(read, done, w);
  }

  /** A failed update is a failure before it read, or after it read and wrote some of what it should. */
  lemma FailedUpdateIsSteps(st: State, t: Store, w: Setting) returns (run: seq<State>)
    requires Surroundings(st, w) && st.worker.Updating? && st.worker.todo != []
    requires Updated(st.store, t, w.namespace, st.worker.todo[0], false)
    ensures IsRun(run, w) && run[0] == st
    ensures run[|run| - 1] == st.(store := t, worker := Loop.Idle, queue := st.queue + {st.worker.key})
  {
    var failed := st.(store := t, worker := Loop.Idle, queue := st.queue + {st.worker.key});
    if t == st.store {
      StepIsNext(st, failed, w);
      run := [st, failed];
    } else {
      var read := st.(worker := Loop.Writing(st.worker.key, st.worker.todo, Now(st, w)));
      StepIsNext(st, read, w);
      PartIsFailure(read, failed, w);
      StepIsNext(read, failed, w);
      run := [st, read, failed];
    }
  }

  lemma PartIsFailure(read: State, failed: State, w: Setting)
    requires Surroundings(read, w) && read.worker.Writing? && read.worker.todo != [] && read.worker.todo[0] in w.services
    requires var service := read.worker.todo[0];
      PartialRun(read.store, failed.store, ServiceParent(w.namespace, service), VirtualServiceList(w.namespace, service, Table(Sorted(read.worker.snapshot), service)))
    requires failed == read.(store := failed.store, queue := read.queue + {read.worker.key}, worker := Loop.Idle)
    ensures Fail(read, failed, w)
  {
    var service := read.worker.todo[0];
    RefreshWritesOneKey(read.store, failed.store, w.namespace, service, Table(Sorted(read.worker.snapshot), service));
  }

  lemma UpdateIsARun(st: State, t: Store, w: Setting) returns (run: seq<State>)
    requires Surroundings(st, w) && st.worker.Updating? && st.worker.todo != []
    requires Updated(st.store, t, w.namespace, st.worker.todo[0], true)
    ensures var done := st.(store := t, worker := Loop.Updating(st.worker.key, st.worker.todo[1..]));
      IsRun(run, w) && run[0] == st && run[|run| - 1] == done && Surroundings(done, w)
  {
    UpdateIsSteps(st, t, w);
    run := TwoSteps(st, st.(worker := Loop.Writing(st.worker.key, st.worker.todo, Now(st, w))),
                    st.(store := t, worker := Loop.Updating(st.worker.key, st.worker.todo[1..])), w);
  }

  lemma TwoSteps(a: State, b: State, c: State, w: Setting) returns (run: seq<State>)
    requires Read(a, b, w) && Write(b, c, w)
    ensures IsRun(run, w) && run[0] == a && run[|run| - 1] == c
  {
    StepIsNext(a, b, w);
    StepIsNext(b, c, w);
    run := [a, b, c];
  }

  lemma StepIsNext(st: State, st': State, w: Setting)
    requires Read(st, st', w) || Write(st, st', w) || Finish(st, st') || Fail(st, st', w) || exists todo :: Load(st, st', w, todo)
    ensures NextOf(w)(st, st')
  {}

  /** One run after another, the first ending where the second begins. */
  lemma Joined(a: seq<State>, b: seq<State>, w: Setting) returns (run: seq<State>)
    requires IsRun(a, w) && IsRun(b, w) && a[|a| - 1] == b[0]
    ensures IsRun(run, w) && run[0] == a[0] && run[|run| - 1] == b[|b| - 1]
  {
    Runs.JoinedRuns(a, b, NextOf(w));
    run := a + b[1..];
  }

  /** `stores` are the states between successful updates of the services, in order. */
  ghost predicate InTurn(stores: seq<Store>, w: Setting, names: seq<string>) {
    1 <= |stores| <= |names| + 1 && Runs.StepByStep(stores, names[..|stores| - 1], SuccessfulUpdate(w.namespace))
  }

  /** Successful updates of the first services, as a run. */
  lemma {:induction false} UpdatesAreARun(st: State, w: Setting, names: seq<string>, stores: seq<Store>, n: nat) returns (run: seq<State>)
    requires st.worker.Popped? && Surroundings(st, w) && InTurn(stores, w, names) && n < |stores| && stores[0] == st.store
    ensures IsRun(run, w) && run[0] == Doing(st, st.store, names)
    ensures run[|run| - 1] == Doing(st, stores[n], names[n..]) && Surroundings(Doing(st, stores[n], names[n..]), w)
  {
    if n == 0 {
      run := [Doing(st, st.store, names)];
      assert names[0..] == names;
    } else {
      var before := UpdatesAreARun(st, w, names, stores, n - 1);
      var more := NextUpdate(st, w, names, stores, n - 1);
      run := Joined(before, more, w);
    }
  }

  lemma NextUpdate(st: State, w: Setting, names: seq<string>, stores: seq<Store>, n: nat) returns (more: seq<State>)
    requires st.worker.Popped? && InTurn(stores, w, names) && n < |stores| - 1 && Surroundings(Doing(st, stores[n], names[n..]), w)
    ensures IsRun(more, w) && more[0] == Doing(st, stores[n], names[n..])
    ensures more[|more| - 1] == Doing(st, stores[n + 1], names[n + 1..]) && Surroundings(Doing(st, stores[n + 1], names[n + 1..]), w)
  {
    assert names[..|stores| - 1][n] == names[n];
    assert SuccessfulUpdate(w.namespace)(stores[n], stores[n + 1], names[n]);
    assert names[n..][0] == names[n] && names[n..][1..] == names[n + 1..];
    more := UpdateIsARun(Doing(st, stores[n], names[n..]), stores[n + 1], w);
  }

  /** The reconciler is the protocol: whatever a call of it does, failing calls included, is a run of steps
      from the key popped to the key done or back in the queue. */
  lemma ReconcileIsARun(st: State, t: Store, w: Setting, names: seq<string>, stores: seq<Store>, ok: bool) returns (run: seq<State>)
    requires st.worker.Popped? && Surroundings(st, w)
    requires ReconcileDone(st.store, t, w.namespace, st.worker.key, names, stores, ok)
    ensures IsRun(run, w) && run[0] == st && run[|run| - 1] == AfterReconcile(st, t, ok)
  {
    if !ok && t == st.store {
      StepIsNext(st, AfterReconcile(st, t, ok), w);
      run := [st, AfterReconcile(st, t, ok)];
    } else {
      var loaded := LoadIsARun(st, w, names);
      var updates := UpdatesAreARun(st, w, names, stores, |stores| - 1);
      var rest := LastOfReconcile(Doing(st, stores[|stores| - 1], names[|stores| - 1..]), t, w, ok);
      run := Joined(loaded, updates, w);
      run := Joined(run, rest, w);
    }
  }

  lemma LoadIsARun(st: State, w: Setting, names: seq<string>) returns (run: seq<State>)
    requires st.worker.Popped? && Surroundings(st, w)
    requires if st.worker.key in Now(st, w) then names == [Now(st, w)[st.worker.key].host] else NamesServices(names, st.store, w.namespace)
    ensures IsRun(run, w) && run[0] == st && run[|run| - 1] == Doing(st, st.store, names)
  {
    NamesAreLoaded(st, w, names);
    run := [st, Doing(st, st.store, names)];
    assert Load(st, run[1], w, names);
    StepIsNext(st, run[1], w);
  }

  lemma NamesAreLoaded(st: State, w: Setting, names: seq<string>)
    requires st.worker.Popped? && Surroundings(st, w)
    requires if st.worker.key in Now(st, w) then names == [Now(st, w)[st.worker.key].host] else NamesServices(names, st.store, w.namespace)
    ensures if st.worker.key in Now(st, w) then names == [Now(st, w)[st.worker.key].host] else Loop.ListsServices(names, w.services)
  {
    if st.worker.key !in Now(st, w) { SetSize(names, w.services); }
  }

  /** How a reconcile ends: done, or failing at once, or in the next update. */
  lemma LastOfReconcile(st: State, t: Store, w: Setting, ok: bool) returns (run: seq<State>)
    requires Surroundings(st, w) && st.worker.Updating?
    requires if ok then st.worker.todo == [] && t == st.store
             else t == st.store || (st.worker.todo != [] && Updated(st.store, t, w.namespace, st.worker.todo[0], false))
    ensures IsRun(run, w) && run[0] == st
    ensures run[|run| - 1] == st.(store := t, worker := Loop.Idle, queue := if ok then st.queue else st.queue + {st.worker.key})
  {
    if ok {
      var done := st.(worker := Loop.Idle);
      StepIsNext(st, done, w);
      run := [st, done];
    } else if t == st.store {
      var failed := st.(worker := Loop.Idle, queue := st.queue + {st.worker.key});
      StepIsNext(st, failed, w);
      run := [st, failed];
    } else {
      run := FailedUpdateIsSteps(st, t, w);
    }
  }
}
