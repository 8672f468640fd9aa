/** Runs of the build service over restarts: exactly when the served backend is what the active build made, and runs in
    which it is not. */
module RollbackRuns {
  import opened BuildRegistry
  import opened BuildRollback
  import opened GraphProxy
  import opened Options

  /** A process that has just come up, serving anything, on any registry whose active build and parents are on
      record. */
  ghost predicate Start(x: Service) {
    && Healthy(x.rows) && Recorded(x.rows, x.made, x.next)
    && x.proxy.history == [] && x.proxy.backend < x.next && x.holder == Idle && x.swaps == map[]
  }

  lemma StartIsConsistent(x: Service)
    requires Start(x)
    ensures Consistent(x)
  {
    hide Healthy, Recorded;
    assert Stack(x.proxy) == [x.proxy.backend];
  }

  // ---- One step ----

  /** What it takes that after the step the right backend is served. A rollback to a parent must bring back what that
      made, and must not come between a swap and its completion; a build that ends there must have swapped in what the
      active one made; and a restart must come up on that. */
  ghost predicate PutsInSync(x: Service, step: ServiceStep) {
    match step
    case BeginFull(_, _) => InSync(x)
    case SwapFull => true
    case CompleteFull(_) => InSync(x)
    case EndFull => ActiveMade(x, x.proxy.backend)
    case RegisterOther(_, _) => InSync(x)
    case CompleteOther(_, _) => x.holder.SwappedIn? ==> InSync(x)
    case RollbackLast =>
      && (x.holder.SwappedIn? ==> InSync(x))
      && forall a: nat :: IsActiveBuild(x.rows, Some(a)) && x.rows[a].parent.Some? ==>
           !x.holder.SwappedIn? && RollsBackRight(x, x.rows[a].parent.value)
    case Restart(backend) => ActiveMade(x, backend)
  }

  lemma ActiveMadeBy(x: Service, a: nat, backend: nat)
    requires Healthy(x.rows) && IsActiveBuild(x.rows, Some(a))
    ensures ActiveMade(x, backend) <==> a in x.made && x.made[a] == backend
  {
    hide Healthy;
    OneActive(x.rows, a);
  }

  lemma RollbackToParent(x: Service, a: nat)
    requires Consistent(x) && IsActiveBuild(x.rows, Some(a)) && x.rows[a].parent.Some?
    ensures InSync(After(x, RollbackLast)) <==>
            !x.holder.SwappedIn? && RollsBackRight(x, x.rows[a].parent.value)
  {
    hide Healthy, Recorded, Distinct, Stacked, Stack, IsActiveBuild, RolledBackRows, RollsBackRight, ToldParent,
         ActiveMade;
    ActiveIsRow(x.rows, Some(a));
    var p, y := x.rows[a].parent.value, After(x, RollbackLast);
    OneActive(x.rows, a);
    if x.holder.SwappedIn? {
      RollbackLosesSwap(x, a);
    } else {
      RollbackKeeps(x);
      RollbackRestoresIff(x, a, p);
      ActiveMadeBy(y, p, y.proxy.backend);
    }
  }

  lemma RollbackWithoutParent(x: Service)
    requires Consistent(x)
    requires forall a: nat :: IsActiveBuild(x.rows, Some(a)) ==> x.rows[a].parent == None
    ensures InSync(After(x, RollbackLast)) <==> (x.holder.SwappedIn? ==> InSync(x))
  {
    hide Healthy, Recorded, Distinct, Stacked, Stack, IsActiveBuild, RolledBackRows, ToldParent;
    var active, y := ActiveBuild(x.rows), After(x, RollbackLast);
    if active == None {
      NoneActive(x.rows);
    } else {
      RolledBackIs(x.rows, x.made, x.next, active.value);
      NoneActive(y.rows);
    }
  }

  lemma RollbackPutsInSyncIff(x: Service)
    requires Consistent(x)
    ensures InSync(After(x, RollbackLast)) <==> PutsInSync(x, RollbackLast)
  {
    hide Recorded, Distinct, Stacked, Stack, IsActiveBuild, RollsBackRight, After, InSync;
    var active := ActiveBuild(x.rows);
    ActiveIsRow(x.rows, active);
    if active.Some? && x.rows[active.value].parent.Some? {
      OneActive(x.rows, active.value);
      RollbackToParent(x, active.value);
      assert IsActiveBuild(x.rows, Some(active.value));
    } else {
      if active.Some? {
        OneActive(x.rows, active.value);
      } else {
        NoneActive(x.rows);
      }
      RollbackWithoutParent(x);
    }
  }

  /** After a step, in sync or not before, the right backend is served exactly under that condition. */
  lemma StepPutsInSyncIff(x: Service, step: ServiceStep)
    requires Consistent(x) && Enabled(x, step)
    ensures InSync(After(x, step)) <==> PutsInSync(x, step)
  {
    hide Healthy, Recorded, Distinct, Stacked, Stack, IsUnderWay, ActiveMade, Registered, Completed, RollsBackRight,
         IsActiveBuild;
    match step
    case BeginFull(recorded, parent) => BeginKeeps(x, recorded, parent);
    case SwapFull => SwapKeeps(x);
    case CompleteFull(now) => CompleteFullKeeps(x, now);
    case EndFull => EndKeeps(x);
    case RegisterOther(kind, parent) => RegisterKeeps(x, kind, parent);
    case CompleteOther(id, now) => CompleteOtherKeeps(x, id, now);
    case RollbackLast => RollbackPutsInSyncIff(x);
    case Restart(backend) => RestartKeeps(x, backend);
  }

  // ---- Whole runs ----

  ghost predicate IsRun(states: seq<Service>, steps: seq<ServiceStep>) {
    && |states| == |steps| + 1
    && forall i :: 0 <= i < |steps| ==> Enabled(states[i], steps[i]) && states[i + 1] == After(states[i], steps[i])
  }

  lemma {:induction false} RunsAreConsistent(states: seq<Service>, steps: seq<ServiceStep>, k: nat)
    requires IsRun(states, steps) && Start(states[0]) && k < |states|
    ensures Consistent(states[k])
  {
    hide Consistent, After, Start, Enabled;
    if k == 0 {
      StartIsConsistent(states[0]);
    } else {
      RunsAreConsistent(states, steps, k - 1);
      StepKeepsConsistent(states[k - 1], steps[k - 1]);
    }
  }

  /** Over every run of a process and its successors, with rollbacks at any time: after each step the right backend is
      served if and only if that step puts it in sync. */
  lemma ServedIsWhatActiveMadeIff(states: seq<Service>, steps: seq<ServiceStep>, k: nat)
    requires IsRun(states, steps) && Start(states[0]) && k < |steps|
    ensures InSync(states[k + 1]) <==> PutsInSync(states[k], steps[k])
  {
    hide Consistent, After, Start, Enabled, InSync, PutsInSync;
    RunsAreConsistent(states, steps, k);
    StepPutsInSyncIff(states[k], steps[k]);
  }

  /** What spoils it: only rollbacks and restarts that bring up something else, and full builds that end between swap
      and completion. */
  ghost predicate Spoils(x: Service, step: ServiceStep) {
    (step.RollbackLast? || step.Restart? || (step.EndFull? && x.holder.SwappedIn?)) && !PutsInSync(x, step)
  }

  lemma {:induction false} InSyncUntilSpoilt(states: seq<Service>, steps: seq<ServiceStep>, k: nat)
    requires IsRun(states, steps) && Start(states[0]) && InSync(states[0]) && k < |states|
    requires forall i :: 0 <= i < k ==> !Spoils(states[i], steps[i])
    ensures InSync(states[k])
  {
    hide Consistent, After, Start, ActiveMade;
    if k > 0 {
      InSyncUntilSpoilt(states, steps, k - 1);
      assert !Spoils(states[k - 1], steps[k - 1]);
      ServedIsWhatActiveMadeIff(states, steps, k - 1);
    }
  }

  /** A service that starts in sync always serves the right backend if and only if no step spoils it. */
  lemma AlwaysInSyncIff(states: seq<Service>, steps: seq<ServiceStep>)
    requires IsRun(states, steps) && Start(states[0]) && InSync(states[0])
    ensures (forall k :: 0 <= k < |states| ==> InSync(states[k])) <==>
            (forall i :: 0 <= i < |steps| ==> !Spoils(states[i], steps[i]))
  {
    hide After, Start, Enabled, InSync, PutsInSync;
    if forall i :: 0 <= i < |steps| ==> !Spoils(states[i], steps[i]) {
      forall k | 0 <= k < |states|
        ensures InSync(states[k])
      {
        InSyncUntilSpoilt(states, steps, k);
      }
    }
    if forall k :: 0 <= k < |states| ==> InSync(states[k]) {
      forall i | 0 <= i < |steps|
        ensures !Spoils(states[i], steps[i])
      {
        assert InSync(states[i + 1]);
        ServedIsWhatActiveMadeIff(states, steps, i);
      }
    }
  }

  // ---- Runs that go wrong ----

  /** The first process on an empty registry. */
  function Fresh(): Service {
    Service([], Proxy(0, []), map[], 1, Idle, map[])
  }

  ghost predicate EndsIn(states: seq<Service>, steps: seq<ServiceStep>, x: Service) {
    IsRun(states, steps) && states[0] == Fresh() && states[|states| - 1] == x
  }

  ghost predicate Reachable(x: Service) {
    exists states, steps :: EndsIn(states, steps, x)
  }

  lemma FreshIsReachable()
    ensures Start(Fresh()) && Reachable(Fresh())
  {
    assert EndsIn([Fresh()], [], Fresh());
  }

  lemma Reaches(x: Service, step: ServiceStep, y: Service)
    requires Reachable(x) && Enabled(x, step) && y == After(x, step)
    ensures Reachable(y)
  {
    hide After, Enabled;
    var states, steps :| EndsIn(states, steps, x);
    var more, last := states + [y], steps + [step];
    forall i | 0 <= i < |last|
      ensures Enabled(more[i], last[i]) && more[i + 1] == After(more[i], last[i])
    {
      if i < |steps| {
        assert Enabled(states[i], steps[i]) && states[i + 1] == After(states[i], steps[i]);
      }
    }
    assert EndsIn(more, last, y);
  }

  lemma TheActive(rows: seq<Row>, r: Option<nat>)
    requires AtMostOneActive(rows) && IsActiveBuild(rows, r)
    ensures ActiveBuild(rows) == r
  {}

  /** A full build in its three steps. */
  lemma FullBuild(x: Service, parent: Option<nat>, now: nat) returns (y: Service)
    requires Reachable(x) && x.holder == Idle && (parent.Some? ==> parent.value in x.made)
    ensures Reachable(y)
    ensures y == Service(Completed(Registered(x.rows, Both, parent), |x.rows|, now),
                         Swapped(x.proxy, x.next), x.made[|x.rows| := x.next], x.next + 1, Idle,
                         x.swaps[x.next := x.proxy.backend])
  {
    hide Reachable, Registered, Completed, Swapped;
    y := After(x, BeginFull(true, parent));
    Reaches(x, BeginFull(true, parent), y);
    var z := After(y, SwapFull);
    Reaches(y, SwapFull, z);
    y := After(z, CompleteFull(now));
    Reaches(z, CompleteFull(now), y);
  }

  /** A build of another kind in its two steps. */
  lemma OtherBuild(x: Service, kind: Kind, parent: Option<nat>, now: nat) returns (y: Service)
    requires Reachable(x) && kind != Both && (parent.Some? ==> parent.value in x.made)
    ensures Reachable(y)
    ensures y == x.(rows := Completed(Registered(x.rows, kind, parent), |x.rows|, now),
                    made := x.made[|x.rows| := x.proxy.backend])
  {
    hide Reachable, Completed;
    var z := After(x, RegisterOther(kind, parent));
    Reaches(x, RegisterOther(kind, parent), z);
    y := After(z, CompleteOther(|x.rows|, now));
    Reaches(z, CompleteOther(|x.rows|, now), y);
  }

  const OLD1 := Row(None, Both, Superseded, 0)
  const OLD2 := Row(Some(0), Both, Superseded, 1)

  const ONE_BUILD := Service([Row(None, Both, Active, 0)], Proxy(1, [0]), map[0 := 1], 2, Idle, map[1 := 0])
  const TWO_BUILDS := Service([OLD1, Row(Some(0), Both, Active, 1)], Proxy(2, [0, 1]), map[0 := 1, 1 := 2], 3, Idle,
                              map[1 := 0, 2 := 1])

  lemma OneBuild()
    ensures Reachable(ONE_BUILD) && ActiveBuild(ONE_BUILD.rows) == Some(0)
  {
    hide Reachable;
    FreshIsReachable();
    TheActive([], None);
    var y := FullBuild(Fresh(), None, 0);
    assert Completed(Registered([], Both, None), 0, 0) == ONE_BUILD.rows;
    assert Swapped(Fresh().proxy, 1) == ONE_BUILD.proxy;
    TheActive(ONE_BUILD.rows, Some(0));
  }

  lemma TwoBuilds()
    ensures Reachable(TWO_BUILDS) && ActiveBuild(TWO_BUILDS.rows) == Some(1)
  {
    hide Reachable;
    OneBuild();
    var y := FullBuild(ONE_BUILD, Some(0), 1);
    assert Completed(Registered(ONE_BUILD.rows, Both, Some(0)), 1, 1) == TWO_BUILDS.rows;
    assert Swapped(ONE_BUILD.proxy, 2) == TWO_BUILDS.proxy;
    TheActive(TWO_BUILDS.rows, Some(1));
  }

  /** Two full builds, an incremental one and a rollback: the second full build is active again, but what the first one
      made is served. */
  lemma IncrementalBuildMisleadsRollback() returns (x: Service, y: Service)
    ensures Reachable(x) && y == After(x, RollbackLast)
    ensures IsActiveBuild(y.rows, Some(1)) && x.made == map[0 := 1, 1 := 2, 2 := 2] && y.proxy.backend == 1
  {
    hide Reachable;
    TwoBuilds();
    x := OtherBuild(TWO_BUILDS, Incremental, Some(1), 2);
    assert x.rows == [OLD1, OLD2, Row(Some(1), Incremental, Active, 2)];
    TheActive(x.rows, Some(2));
    y := After(x, RollbackLast);
  }

  /** Two full builds, a restart and a rollback: the history is gone, so the first build is active again, but what the
      second one made stays served. */
  lemma RestartMisleadsRollback() returns (x: Service, y: Service)
    ensures Reachable(x) && InSync(x) && y == After(x, RollbackLast)
    ensures |x.rows| == 2 && x.rows[1].kind == Both && IsActiveBuild(x.rows, Some(1)) && IsActiveBuild(y.rows, Some(0))
    ensures x.made == map[0 := 1, 1 := 2] && y.proxy.backend == 2
  {
    hide Reachable;
    TwoBuilds();
    x := TWO_BUILDS.(proxy := Proxy(2, []), swaps := map[]);
    Reaches(TWO_BUILDS, Restart(2), x);
    y := After(x, RollbackLast);
  }

  const GONE2 := Row(Some(0), Both, RolledBackStatus, 1)

  const BEGUN := TWO_BUILDS.(rows := [OLD1, Row(Some(0), Both, Active, 1), Row(Some(1), Both, Building, 0)],
                             holder := Begun(Some(2)))
  const BACK := BEGUN.(rows := [Row(None, Both, Active, 0), GONE2, Row(Some(1), Both, Building, 0)],
                       proxy := Proxy(1, [0]))
  const LATE := Service([OLD1, GONE2, Row(Some(1), Both, Active, 2)], Proxy(3, [0, 1]), map[0 := 1, 1 := 2, 2 := 3], 4,
                        Idle, map[1 := 0, 2 := 1, 3 := 1])

  lemma ThirdBegun()
    ensures Reachable(BEGUN) && ActiveBuild(BEGUN.rows) == Some(1)
  {
    hide Reachable;
    TwoBuilds();
    assert Registered(TWO_BUILDS.rows, Both, Some(1)) == BEGUN.rows;
    Reaches(TWO_BUILDS, BeginFull(true, Some(1)), BEGUN);
    TheActive(BEGUN.rows, Some(1));
  }

  lemma RolledBackWhileBuilding()
    ensures Reachable(BACK)
  {
    hide Reachable;
    ThirdBegun();
    assert RolledBackRows(BEGUN.rows, 1) == BACK.rows;
    assert RolledBack(BEGUN.proxy) == BACK.proxy;
    Reaches(BEGUN, RollbackLast, BACK);
  }

  lemma FinishedLate()
    ensures Reachable(LATE) && ActiveBuild(LATE.rows) == Some(2)
  {
    hide Reachable, Completed;
    RolledBackWhileBuilding();
    var swapped := After(BACK, SwapFull);
    Reaches(BACK, SwapFull, swapped);
    LateRows();
    assert swapped.proxy == LATE.proxy && swapped.swaps == LATE.swaps;
    Reaches(swapped, CompleteFull(2), LATE);
    TheActive(LATE.rows, Some(2));
  }

  lemma LateRows()
    ensures Completed(BACK.rows, 2, 2) == LATE.rows
  {}

  /** A rollback between the registration of a full build and its swap: the build's parent is no longer what it is
      swapped in over, and its own rollback brings back something else. */
  lemma RollbackDuringBuildMisleads()
    ensures Reachable(LATE) && InSync(LATE) && IsActiveBuild(LATE.rows, Some(2))
    ensures var y := After(LATE, RollbackLast); IsActiveBuild(y.rows, Some(1)) && y.proxy.backend == LATE.made[0]
    ensures LATE.made[0] != LATE.made[1]
  {
    hide Reachable;
    FinishedLate();
  }

  const SWAPPED := BEGUN.(proxy := Proxy(3, [0, 1, 2]), next := 4, holder := SwappedIn(Some(2), 3),
                          swaps := map[1 := 0, 2 := 1, 3 := 2])
  const UNDONE := SWAPPED.(rows := BACK.rows, proxy := Proxy(2, [0, 1]))

  lemma UndoneBeforeCompletion()
    ensures Reachable(UNDONE)
  {
    hide Reachable;
    ThirdBegun();
    assert Swapped(BEGUN.proxy, 3) == SWAPPED.proxy;
    Reaches(BEGUN, SwapFull, SWAPPED);
    assert RolledBackRows(SWAPPED.rows, 1) == UNDONE.rows;
    assert RolledBack(SWAPPED.proxy) == UNDONE.proxy;
    Reaches(SWAPPED, RollbackLast, UNDONE);
  }

  /** A rollback between the swap of a full build and its completion: the build becomes active and its parent's backend
      is served. */
  lemma RollbackBeforeCompletionMisleads() returns (y: Service)
    ensures Reachable(UNDONE) && y == After(UNDONE, CompleteFull(2)) && y.holder == Idle
    ensures IsActiveBuild(y.rows, Some(2)) && y.made[2] == 3 && y.proxy.backend == 2
  {
    hide Reachable;
    UndoneBeforeCompletion();
    LateRows();
    y := After(UNDONE, CompleteFull(2));
  }

  const INCREMENTED := Service([OLD1, Row(Some(0), Incremental, Active, 1)], Proxy(1, [0]), map[0 := 1, 1 := 1], 2,
                               Idle, map[1 := 0])
  const BARE := Service([Row(None, Both, Active, 0), Row(Some(0), Incremental, RolledBackStatus, 1)], Proxy(0, []),
                        map[0 := 1, 1 := 1], 2, Idle, map[1 := 0])
  const AGAIN := Service([OLD1, Row(Some(0), Incremental, RolledBackStatus, 1), Row(Some(0), Incremental, Active, 2)],
                         Proxy(0, []), map[0 := 1, 1 := 1, 2 := 0], 2, Idle, map[1 := 0])

  lemma RolledBackTooFar()
    ensures Reachable(BARE) && ActiveBuild(BARE.rows) == Some(0)
  {
    hide Reachable;
    OneBuild();
    var y := OtherBuild(ONE_BUILD, Incremental, Some(0), 1);
    assert y.rows == INCREMENTED.rows && y == INCREMENTED;
    TheActive(INCREMENTED.rows, Some(1));
    assert RolledBackRows(INCREMENTED.rows, 1) == BARE.rows;
    assert RolledBack(INCREMENTED.proxy) == BARE.proxy;
    Reaches(INCREMENTED, RollbackLast, BARE);
    TheActive(BARE.rows, Some(0));
  }

  lemma IncrementedTwice()
    ensures Reachable(AGAIN) && ActiveBuild(AGAIN.rows) == Some(2)
  {
    hide Reachable;
    RolledBackTooFar();
    var y := OtherBuild(BARE, Incremental, Some(0), 2);
    assert y.rows == AGAIN.rows && y == AGAIN;
    TheActive(AGAIN.rows, Some(2));
  }

  /** One full build, an incremental one, a rollback that goes too far back and another incremental build: the history
      is empty and the service in sync again, yet the next rollback makes the full build active and goes on serving
      what was there before it. */
  lemma EmptyHistoryMisleadsRollback()
    ensures Reachable(AGAIN) && InSync(AGAIN) && AGAIN.rows[2].kind == Incremental && AGAIN.proxy.history == []
    ensures var y := After(AGAIN, RollbackLast);
      IsActiveBuild(y.rows, Some(0)) && y.proxy.backend == 0 && AGAIN.made[0] == 1
  {
    hide Reachable;
    IncrementedTwice();
  }

  /** The first build has no parent: rolling it back fails, yet leaves the registry without an active build while the
      proxy goes on serving what that build made. */
  lemma FailedRollbackLeavesNoActive(x: Service, a: nat)
    requires Consistent(x) && IsActiveBuild(x.rows, Some(a)) && x.rows[a].parent == None
    ensures var y := After(x, RollbackLast);
      IsActiveBuild(y.rows, None) && y.proxy == x.proxy
  {
    OneActive(x.rows, a);
  }

  lemma FailedRollbackHappens()
    ensures Reachable(ONE_BUILD) && ONE_BUILD.rows[0].parent == None
    ensures var y := After(ONE_BUILD, RollbackLast);
      IsActiveBuild(y.rows, None) && y.proxy == ONE_BUILD.proxy
  {
    hide Reachable;
    OneBuild();
  }
}
