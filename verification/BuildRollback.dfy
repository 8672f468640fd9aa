/** The registry and the proxy together: what a rollback of the last build brings back. */
module BuildRollback {
  import opened BuildRegistry
  import opened GraphProxy
  import opened Options

  /** How far the full build is that has the rebuild mutex: registered, unless the registry failed, and then swapped
      in. */
  datatype Holder = Idle | Begun(row: Option<nat>) | SwappedIn(row: Option<nat>, backend: nat)

  /** The registry's rows outlive the process, the proxy and its history do not. Backends are numbered as they are
      built, `next` is the first unused number. For the record: `made[b]` is the backend that a full build `b` swapped
      in, or that was served when another build `b` completed, and `swaps[v]` is what was served until this process
      swapped in `v`. */
  datatype Service = Service(rows: seq<Row>, proxy: Proxy<nat>, made: map<nat, nat>, next: nat, holder: Holder,
                             swaps: map<nat, nat>)

  datatype Error = NoActiveBuild | NoParentBuild

  datatype Result = Restored(build: nat, parent: nat) | Failed(error: Error)

  /** `rollback_last_build` */
  method RollbackLastBuild(registry: Registry, proxy: GraphIndexProxy<nat>) returns (r: Result)
    modifies registry, proxy
    ensures IsActiveBuild(old(registry.rows), None) ==>
              r == Failed(NoActiveBuild) && registry.rows == old(registry.rows) && proxy.Now() == old(proxy.Now())
    ensures !IsActiveBuild(old(registry.rows), None) ==>
              exists a: nat ::
                && IsActiveBuild(old(registry.rows), Some(a))
                && registry.rows == RolledBackRows(old(registry.rows), a)
                && match ToldParent(old(registry.rows), a)
                   case None => r == Failed(NoParentBuild) && proxy.Now() == old(proxy.Now())
                   case Some(p) => r == Restored(a, p) && proxy.Now() == RolledBack(old(proxy.Now()))
  {
    var active := registry.GetActiveBuild();
    if active.None? {
      return Failed(NoActiveBuild);
    }
    var parent := registry.RollbackBuild(active.value);
    if parent.None? {
      return Failed(NoParentBuild);
    }
    var gone := proxy.Rollback();
    r := Restored(active.value, parent.value);
  }

  // ---- Steps of the service ----

  /** The active build, if there is one. */
  ghost function ActiveBuild(rows: seq<Row>): (r: Option<nat>)
    ensures IsActiveBuild(rows, r)
  {
    ActiveExists(rows);
    var r :| IsActiveBuild(rows, r);
    r
  }

  lemma {:induction false} ActiveExists(rows: seq<Row>)
    ensures exists r :: IsActiveBuild(rows, r)
  {
    if rows == [] {
      assert IsActiveBuild(rows, None);
    } else {
      var n := |rows| - 1;
      ActiveExists(rows[..n]);
      var r: Option<nat> :| IsActiveBuild(rows[..n], r);
      if rows[n].status == Active && (r == None || rows[r.value].completedAt < rows[n].completedAt) {
        assert IsActiveBuild(rows, Some(n));
      } else {
        assert IsActiveBuild(rows, r);
      }
    }
  }

  /** A full build is registered under the build that was active when it asked, or fails to be, is swapped in and
      completed, and may end at any point before that; a build of another kind is registered and completed; the last
      build is rolled back; or the process restarts and serves `backend`, whichever that is, a half-built one
      included. */
  datatype ServiceStep =
    | BeginFull(recorded: bool, parent: Option<nat>)
    | SwapFull
    | CompleteFull(now: nat)
    | EndFull
    | RegisterOther(kind: Kind, parent: Option<nat>)
    | CompleteOther(id: nat, now: nat)
    | RollbackLast
    | Restart(backend: nat)

  ghost predicate Enabled(x: Service, step: ServiceStep) {
    match step
    case BeginFull(_, parent) => x.holder == Idle && (parent.Some? ==> parent.value in x.made)
    case SwapFull => x.holder.Begun?
    case CompleteFull(_) => x.holder.SwappedIn? && x.holder.row.Some?
    case EndFull => x.holder != Idle
    case RegisterOther(kind, parent) => kind != Both && (parent.Some? ==> parent.value in x.made)
    case CompleteOther(id, _) => id < |x.rows| && x.rows[id].kind != Both && x.rows[id].status == Building
    case RollbackLast => true
    case Restart(_) => true
  }

  ghost function After(x: Service, step: ServiceStep): Service
    requires Enabled(x, step)
  {
    match step
    case BeginFull(recorded, parent) =>
      if recorded then x.(rows := Registered(x.rows, Both, parent), holder := Begun(Some(|x.rows|)))
      else x.(holder := Begun(None))
    case SwapFull =>
      x.(proxy := Swapped(x.proxy, x.next), next := x.next + 1, holder := SwappedIn(x.holder.row, x.next),
         swaps := x.swaps[x.next := x.proxy.backend])
    case CompleteFull(now) =>
      var b := x.holder.row.value;
      x.(rows := Completed(x.rows, b, now), made := x.made[b := x.holder.backend], holder := Idle)
    case EndFull => x.(holder := Idle)
    case RegisterOther(kind, parent) => x.(rows := Registered(x.rows, kind, parent))
    case CompleteOther(id, now) =>
      x.(rows := Completed(x.rows, id, now), made := x.made[id := x.proxy.backend])
    case RollbackLast =>
      (match ActiveBuild(x.rows)
       case None => x
       case Some(a) =>
         x.(rows := RolledBackRows(x.rows, a),
            proxy := if ToldParent(x.rows, a).Some? then RolledBack(x.proxy) else x.proxy))
    case Restart(backend) =>
      x.(proxy := Proxy(backend, []), next := if backend < x.next then x.next else backend + 1, holder := Idle,
         swaps := map[])
  }

  /** The active build, if there is one, made `backend`. */
  ghost predicate ActiveMade(x: Service, backend: nat) {
    forall a: nat :: IsActiveBuild(x.rows, Some(a)) ==> a in x.made && x.made[a] == backend
  }

  /** What is served is what the active build made, or what the full build about to become active has swapped in. */
  ghost predicate InSync(x: Service) {
    if x.holder.SwappedIn? then x.proxy.backend == x.holder.backend else ActiveMade(x, x.proxy.backend)
  }

  /** A rollback to `p` brings back what `p` made: that was served until this process swapped in what is served now, or
      it is served now and this process did not swap it in. */
  ghost predicate RollsBackRight(x: Service, p: nat) {
    p in x.made && x.made[p] == if x.proxy.backend in x.swaps then x.swaps[x.proxy.backend] else x.proxy.backend
  }

  // ---- What every step keeps ----

  /** Completed builds are on record, among them the active one and every parent. */
  ghost predicate Recorded(rows: seq<Row>, made: map<nat, nat>, next: nat) {
    && (forall b :: b in made ==> b < |rows| && made[b] < next && rows[b].status != Building)
    && forall i: nat :: i < |rows| ==>
         && (rows[i].status == Active ==> i in made)
         && (rows[i].parent.Some? ==> rows[i].parent.value in made)
  }

  /** The backends of a process: those it can roll back to, and the served one on top. */
  function Stack(p: Proxy<nat>): seq<nat> {
    p.history + [p.backend]
  }

  ghost predicate Distinct(stack: seq<nat>, next: nat) {
    && (forall i :: 0 <= i < |stack| ==> stack[i] < next)
    && forall i, j :: 0 <= i < j < |stack| ==> stack[i] != stack[j]
  }

  /** Everything but the bottom was swapped in over what lies below it. */
  ghost predicate IsLevel(stack: seq<nat>, swaps: map<nat, nat>, i: nat)
    requires i < |stack|
  {
    if i == 0 then stack[i] !in swaps else stack[i] in swaps && swaps[stack[i]] == stack[i - 1]
  }

  ghost predicate Stacked(stack: seq<nat>, swaps: map<nat, nat>) {
    forall i: nat :: i < |stack| ==> IsLevel(stack, swaps, i)
  }

  /** The full build under way: it can still be completed, and what it swapped in is not below anything. */
  ghost predicate IsUnderWay(x: Service) {
    && (x.holder != Idle && x.holder.row.Some? ==>
          x.holder.row.value < |x.rows|
          && x.rows[x.holder.row.value].kind == Both && x.rows[x.holder.row.value].status == Building)
    && (x.holder.SwappedIn? ==> x.holder.backend in x.swaps && x.holder.backend !in x.proxy.history)
  }

  ghost predicate Consistent(x: Service) {
    && Healthy(x.rows)
    && Recorded(x.rows, x.made, x.next)
    && Distinct(Stack(x.proxy), x.next)
    && Stacked(Stack(x.proxy), x.swaps)
    && (forall v :: v in x.swaps ==> v < x.next)
    && IsUnderWay(x)
  }

  lemma OneActive(rows: seq<Row>, a: nat)
    requires Healthy(rows) && IsActiveBuild(rows, Some(a))
    ensures ActiveBuild(rows) == Some(a) && forall b :: IsActiveBuild(rows, Some(b)) ==> b == a
  {}

  lemma NoneActive(rows: seq<Row>)
    requires IsActiveBuild(rows, None)
    ensures forall a: nat :: !IsActiveBuild(rows, Some(a))
  {}

  lemma ActiveIsRow(rows: seq<Row>, r: Option<nat>)
    requires IsActiveBuild(rows, r)
    ensures r.Some? ==> r.value < |rows| && rows[r.value].status == Active
  {}

  // ---- Rows ----

  lemma RegisteredRows(rows: seq<Row>, made: map<nat, nat>, next: nat, kind: Kind, parent: Option<nat>)
    requires Healthy(rows) && Recorded(rows, made, next) && (parent.Some? ==> parent.value in made)
    ensures var rows' := Registered(rows, kind, parent);
      && Healthy(rows') && Recorded(rows', made, next) && |rows| !in made
      && |rows'| == |rows| + 1 && rows'[|rows|] == Row(parent, kind, Building, 0)
      && forall i :: 0 <= i < |rows| ==> rows'[i] == rows[i]
  {}

  lemma RegisteredActive(rows: seq<Row>, kind: Kind, parent: Option<nat>, a: nat)
    ensures IsActiveBuild(Registered(rows, kind, parent), Some(a)) <==> IsActiveBuild(rows, Some(a))
  {
    var rows' := Registered(rows, kind, parent);
    assert forall i :: 0 <= i < |rows| ==> rows'[i] == rows[i];
  }

  lemma CompletedRows(rows: seq<Row>, made: map<nat, nat>, next: nat, id: nat, now: nat, backend: nat)
    requires Healthy(rows) && Recorded(rows, made, next) && id < |rows| && backend < next
    ensures var rows' := Completed(rows, id, now);
      && Healthy(rows') && Recorded(rows', made[id := backend], next) && |rows'| == |rows|
      && (forall i :: 0 <= i < |rows| ==> rows'[i].kind == rows[i].kind)
      && (forall i :: 0 <= i < |rows| && i != id ==> (rows'[i].status == Building <==> rows[i].status == Building))
      && forall a: nat :: IsActiveBuild(rows', Some(a)) ==> a == id
  {}

  lemma RolledBackRow(rows: seq<Row>, a: nat, i: nat)
    requires a < |rows| && rows[a].status == Active && i < |rows|
    ensures var rows' := RolledBackRows(rows, a);
      && |rows'| == |rows| && rows'[i].parent == rows[i].parent && rows'[i].kind == rows[i].kind
      && (rows'[i].status == Building <==> rows[i].status == Building)
      && (rows'[i].status == Active ==> rows[i].status == Active || rows[a].parent == Some(i))
  {}

  lemma RolledBackRecorded(rows: seq<Row>, made: map<nat, nat>, next: nat, a: nat)
    requires Recorded(rows, made, next) && a < |rows| && rows[a].status == Active
    ensures var rows' := RolledBackRows(rows, a);
      && Recorded(rows', made, next) && |rows'| == |rows|
      && (forall i :: 0 <= i < |rows| ==> rows'[i].kind == rows[i].kind)
      && forall i :: 0 <= i < |rows| ==> (rows'[i].status == Building <==> rows[i].status == Building)
  {
    hide RolledBackRows;
    forall i: nat | i < |rows|
      ensures |RolledBackRows(rows, a)| == |rows| && RolledBackRows(rows, a)[i].parent == rows[i].parent
      ensures RolledBackRows(rows, a)[i].kind == rows[i].kind
      ensures RolledBackRows(rows, a)[i].status == Building <==> rows[i].status == Building
      ensures RolledBackRows(rows, a)[i].status == Active ==> rows[i].status == Active || rows[a].parent == Some(i)
    {
      RolledBackRow(rows, a, i);
    }
    assert rows[a].parent.Some? ==> rows[a].parent.value in made;
  }

  lemma OthersInactive(rows: seq<Row>, a: nat)
    requires Healthy(rows) && IsActiveBuild(rows, Some(a))
    ensures forall i :: 0 <= i < |rows| && i != a ==> rows[i].status != Active
  {}

  lemma ParentRevived(rows: seq<Row>, a: nat)
    requires Healthy(rows) && IsActiveBuild(rows, Some(a))
    requires rows[a].parent.Some? ==> rows[a].parent.value < a && rows[rows[a].parent.value].status != Building
    ensures ToldParent(rows, a) == rows[a].parent && IsActiveBuild(RolledBackRows(rows, a), rows[a].parent)
  {
    OthersInactive(rows, a);
  }

  lemma ParentIsRecorded(rows: seq<Row>, made: map<nat, nat>, next: nat, a: nat)
    requires Healthy(rows) && Recorded(rows, made, next) && a < |rows| && rows[a].parent.Some?
    ensures var p := rows[a].parent.value; p < a && p in made && rows[p].status != Building
  {}

  lemma RolledBackIs(rows: seq<Row>, made: map<nat, nat>, next: nat, a: nat)
    requires Healthy(rows) && Recorded(rows, made, next) && IsActiveBuild(rows, Some(a))
    ensures var rows' := RolledBackRows(rows, a);
      && Healthy(rows') && Recorded(rows', made, next) && |rows'| == |rows|
      && (forall i :: 0 <= i < |rows| ==> rows'[i].kind == rows[i].kind)
      && (forall i :: 0 <= i < |rows| ==> (rows'[i].status == Building <==> rows[i].status == Building))
      && ToldParent(rows, a) == rows[a].parent && IsActiveBuild(rows', rows[a].parent)
  {
    hide Healthy, Recorded, RolledBackRows, ToldParent;
    if rows[a].parent.Some? {
      ParentIsRecorded(rows, made, next, a);
    }
    ParentRevived(rows, a);
    RolledBackRecorded(rows, made, next, a);
    RollBackIsStep(rows, a);
    StepKeepsHealthy(rows, RollBackActive, RolledBackRows(rows, a));
  }

  // ---- The stack ----

  lemma SwapStacks(p: Proxy<nat>, swaps: map<nat, nat>, next: nat)
    requires Distinct(Stack(p), next) && Stacked(Stack(p), swaps) && forall v :: v in swaps ==> v < next
    ensures Distinct(Stack(Swapped(p, next)), next + 1)
    ensures Stacked(Stack(Swapped(p, next)), swaps[next := p.backend])
    ensures next !in Swapped(p, next).history
  {
    var s, swaps' := Stack(p), swaps[next := p.backend];
    assert Stack(Swapped(p, next)) == s + [next] && s[|s| - 1] == p.backend;
    forall i: nat | i < |s|
      ensures IsLevel(s + [next], swaps', i)
    {
      assert IsLevel(s, swaps, i);
    }
  }

  lemma RollbackStacks(p: Proxy<nat>, swaps: map<nat, nat>, next: nat)
    requires Distinct(Stack(p), next) && Stacked(Stack(p), swaps)
    ensures Distinct(Stack(RolledBack(p)), next) && Stacked(Stack(RolledBack(p)), swaps)
    ensures forall v :: v in RolledBack(p).history ==> v in p.history
  {
    if p.history != [] {
      assert Stack(RolledBack(p)) == p.history;
      assert forall i :: 0 <= i < |p.history| ==> p.history[i] == Stack(p)[i];
      forall i: nat | i < |p.history|
        ensures IsLevel(p.history, swaps, i)
      {
        assert IsLevel(Stack(p), swaps, i);
      }
    }
  }

  /** What a rollback uncovers: what the served backend was swapped in over, or nothing new if this process did not swap
      it in. */
  lemma RollbackUncovers(p: Proxy<nat>, swaps: map<nat, nat>)
    requires Stacked(Stack(p), swaps)
    ensures RolledBack(p).backend == if p.backend in swaps then swaps[p.backend] else p.backend
    ensures p.history == [] <==> p.backend !in swaps
  {
    assert IsLevel(Stack(p), swaps, |p.history|);
  }

  lemma TopIsApart(p: Proxy<nat>, next: nat)
    requires Distinct(Stack(p), next)
    ensures p.backend < next && (p.history != [] ==> RolledBack(p).backend != p.backend)
  {
    var s, n := Stack(p), |p.history|;
    assert s[n] == p.backend && (n > 0 ==> s[n - 1] == p.history[n - 1]);
  }

  // ---- Steps ----

  lemma RegisterKeeps(x: Service, kind: Kind, parent: Option<nat>)
    requires Consistent(x) && (parent.Some? ==> parent.value in x.made)
    ensures var y := x.(rows := Registered(x.rows, kind, parent));
      && Consistent(y) && |y.rows| == |x.rows| + 1
      && y.rows[|x.rows|].kind == kind && y.rows[|x.rows|].status == Building
      && forall v :: ActiveMade(y, v) <==> ActiveMade(x, v)
  {
    hide Healthy, Recorded, Distinct, Stacked, IsActiveBuild, Registered;
    RegisteredRows(x.rows, x.made, x.next, kind, parent);
    forall a: nat
      ensures IsActiveBuild(Registered(x.rows, kind, parent), Some(a)) <==> IsActiveBuild(x.rows, Some(a))
    {
      RegisteredActive(x.rows, kind, parent, a);
    }
  }

  lemma BeginKeeps(x: Service, recorded: bool, parent: Option<nat>)
    requires Consistent(x) && Enabled(x, BeginFull(recorded, parent))
    ensures Consistent(After(x, BeginFull(recorded, parent)))
    ensures InSync(After(x, BeginFull(recorded, parent))) <==> InSync(x)
  {
    hide Healthy, Recorded, Distinct, Stacked, IsActiveBuild, Registered;
    RegisterKeeps(x, Both, parent);
  }

  lemma SwapKeeps(x: Service)
    requires Consistent(x) && x.holder.Begun?
    ensures Consistent(After(x, SwapFull)) && InSync(After(x, SwapFull))
  {
    hide Healthy, Distinct, Stacked, Stack, ActiveMade;
    SwapStacks(x.proxy, x.swaps, x.next);
  }

  lemma CompleteKeeps(x: Service, id: nat, now: nat, backend: nat)
    requires Consistent(x) && id < |x.rows| && x.rows[id].status == Building && backend < x.next
    requires x.holder != Idle && x.holder.row.Some? ==> id != x.holder.row.value
    ensures var y := x.(rows := Completed(x.rows, id, now), made := x.made[id := backend]);
      && Consistent(y) && forall v :: ActiveMade(y, v) <==> v == backend
  {
    hide Healthy, Recorded, Distinct, Stacked, IsActiveBuild, Completed;
    CompletedRows(x.rows, x.made, x.next, id, now, backend);
    CompletedIsActive(x.rows, id, now);
  }

  lemma CompletedIsActive(rows: seq<Row>, id: nat, now: nat)
    requires Healthy(rows) && id < |rows|
    ensures IsActiveBuild(Completed(rows, id, now), Some(id))
  {}

  lemma CompleteFullKeeps(x: Service, now: nat)
    requires Consistent(x) && x.holder.SwappedIn? && x.holder.row.Some?
    ensures Consistent(After(x, CompleteFull(now))) && (InSync(After(x, CompleteFull(now))) <==> InSync(x))
  {
    hide Healthy, Recorded, Distinct, Stacked, ActiveMade, Completed;
    CompleteKeeps(x.(holder := Idle), x.holder.row.value, now, x.holder.backend);
  }

  lemma CompleteOtherKeeps(x: Service, id: nat, now: nat)
    requires Consistent(x) && Enabled(x, CompleteOther(id, now))
    ensures Consistent(After(x, CompleteOther(id, now)))
    ensures InSync(After(x, CompleteOther(id, now))) <==> (x.holder.SwappedIn? ==> InSync(x))
  {
    hide Healthy, Recorded, Distinct, Stacked, ActiveMade, Completed;
    TopIsApart(x.proxy, x.next);
    CompleteKeeps(x, id, now, x.proxy.backend);
  }

  lemma EndKeeps(x: Service)
    requires Consistent(x) && x.holder != Idle
    ensures Consistent(After(x, EndFull)) && (InSync(After(x, EndFull)) <==> ActiveMade(x, x.proxy.backend))
  {
    hide Healthy, Recorded, Distinct, Stacked, IsActiveBuild;
  }

  lemma RollbackKeeps(x: Service)
    requires Consistent(x)
    ensures Consistent(After(x, RollbackLast))
  {
    hide Healthy, Recorded, Distinct, Stacked, Stack, IsActiveBuild, RolledBackRows, RolledBack, ToldParent;
    var active := ActiveBuild(x.rows);
    if active.Some? {
      RolledBackIs(x.rows, x.made, x.next, active.value);
      RollbackStacks(x.proxy, x.swaps, x.next);
    }
  }

  lemma RestartKeeps(x: Service, backend: nat)
    requires Consistent(x)
    ensures Consistent(After(x, Restart(backend)))
    ensures InSync(After(x, Restart(backend))) <==> ActiveMade(x, backend)
  {
    hide Healthy, IsActiveBuild;
    assert Stack(Proxy(backend, [])) == [backend];
  }

  /** Every step keeps rows, record and stack as they belong, also a rollback that brings back the wrong backend. */
  lemma StepKeepsConsistent(x: Service, step: ServiceStep)
    requires Consistent(x) && Enabled(x, step)
    ensures Consistent(After(x, step))
  {
    hide Healthy, Recorded, Distinct, Stacked, IsUnderWay, ActiveMade, Registered, Completed, RolledBackRows;
    match step
    case BeginFull(recorded, parent) => BeginKeeps(x, recorded, parent);
    case SwapFull => SwapKeeps(x);
    case CompleteFull(now) => CompleteFullKeeps(x, now);
    case EndFull => EndKeeps(x);
    case RegisterOther(kind, parent) => RegisterKeeps(x, kind, parent);
    case CompleteOther(id, now) => CompleteOtherKeeps(x, id, now);
    case RollbackLast => RollbackKeeps(x);
    case Restart(backend) => RestartKeeps(x, backend);
  }

  // ---- What a rollback brings back ----

  /** Whether or not the service is in sync, the rollback makes the parent active, and what it brings back is what the
      parent made if and only if that was served until this process swapped in what is served now, or is served now and
      was not swapped in by this process. */
  lemma RollbackRestoresIff(x: Service, a: nat, p: nat)
    requires Consistent(x) && IsActiveBuild(x.rows, Some(a)) && x.rows[a].parent == Some(p)
    ensures p in x.made && IsActiveBuild(After(x, RollbackLast).rows, Some(p))
    ensures After(x, RollbackLast).proxy.backend == x.made[p] <==> RollsBackRight(x, p)
  {
    hide Healthy, Recorded, Distinct, Stacked, Stack, RolledBackRows, RolledBack, ToldParent;
    ParentIsRecorded(x.rows, x.made, x.next, a);
    OneActive(x.rows, a);
    RolledBackIs(x.rows, x.made, x.next, a);
    RollbackUncovers(x.proxy, x.swaps);
  }

  /** A build whose parent made what is served: its rollback is right exactly when the history is empty. */
  lemma OtherBuildRollsBackIff(x: Service, a: nat, p: nat)
    requires Consistent(x) && IsActiveBuild(x.rows, Some(a)) && x.rows[a].parent == Some(p)
    requires p in x.made && x.made[p] == x.proxy.backend
    ensures After(x, RollbackLast).proxy.backend == x.made[p] <==> x.proxy.history == []
  {
    hide Healthy, Recorded, Distinct, Stacked, Stack, RolledBackRows, ToldParent, IsActiveBuild;
    OneActive(x.rows, a);
    RolledBackIs(x.rows, x.made, x.next, a);
    TopIsApart(x.proxy, x.next);
  }

  /** Between its swap and its completion a full build's backend is lost to readers by any rollback. */
  lemma RollbackLosesSwap(x: Service, a: nat)
    requires Consistent(x) && x.holder.SwappedIn? && IsActiveBuild(x.rows, Some(a)) && x.rows[a].parent.Some?
    ensures After(x, RollbackLast).proxy.backend != x.holder.backend
  {
    hide Healthy, Recorded, Distinct, Stack, RolledBackRows, ToldParent, IsActiveBuild;
    OneActive(x.rows, a);
    RolledBackIs(x.rows, x.made, x.next, a);
    RollbackUncovers(x.proxy, x.swaps);
  }
}
