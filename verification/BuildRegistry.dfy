/** The build registry: rows with a status and a parent, and the rollback that walks the parents back. */
module BuildRegistry {
  import opened Options

  datatype Status = Building | Active | Superseded | RolledBackStatus

  datatype Kind = Both | Incremental | Semantic

  /** A build is known by its place in the order of registration. */
  datatype Row = Row(parent: Option<nat>, kind: Kind, status: Status, completedAt: nat)

  ghost predicate AtMostOneActive(rows: seq<Row>) {
    forall i, j :: 0 <= i < |rows| && 0 <= j < |rows| && rows[i].status == Active && rows[j].status == Active ==> i == j
  }

  ghost predicate ParentsEarlier(rows: seq<Row>) {
    forall i :: 0 <= i < |rows| && rows[i].parent.Some? ==> rows[i].parent.value < i
  }

  function Registered(rows: seq<Row>, kind: Kind, parent: Option<nat>): seq<Row> {
    rows + [Row(parent, kind, Building, 0)]
  }

  /** The completed build becomes active and every other active one superseded, even when there is no such build. */
  function Completed(rows: seq<Row>, id: nat, now: nat): seq<Row> {
    seq(|rows|, i requires 0 <= i < |rows| =>
      if i == id then rows[i].(status := Active, completedAt := now)
      else if rows[i].status == Active then rows[i].(status := Superseded)
      else rows[i])
  }

  predicate CanRollBack(rows: seq<Row>, id: nat) {
    id < |rows| && (rows[id].status == Active || rows[id].status == Superseded)
  }

  predicate RevivesParent(rows: seq<Row>, id: nat)
    requires id < |rows|
  {
    && rows[id].parent.Some? && rows[id].parent.value < |rows|
    && (rows[id].parent.value == id || rows[rows[id].parent.value].status == Superseded
        || rows[rows[id].parent.value].status == RolledBackStatus)
  }

  function RolledBackRows(rows: seq<Row>, id: nat): seq<Row> {
    if !CanRollBack(rows, id) then rows else
      var marked := rows[id := rows[id].(status := RolledBackStatus)];
      if RevivesParent(rows, id) then marked[rows[id].parent.value := marked[rows[id].parent.value].(status := Active)]
      else marked
  }

  /** The parent row the caller is told about. */
  function ToldParent(rows: seq<Row>, id: nat): Option<nat> {
    if CanRollBack(rows, id) && rows[id].parent.Some? && rows[id].parent.value < |rows| then rows[id].parent else None
  }

  /** `ORDER BY completed_at DESC LIMIT 1` among the active rows. */
  ghost predicate IsActiveBuild(rows: seq<Row>, r: Option<nat>) {
    match r
    case None => forall i :: 0 <= i < |rows| ==> rows[i].status != Active
    case Some(a) =>
      && a < |rows| && rows[a].status == Active
      && forall i :: 0 <= i < |rows| && rows[i].status == Active ==> rows[i].completedAt <= rows[a].completedAt
  }

  class Registry {
    var rows: seq<Row>
    var clock: nat

    constructor ()
      ensures rows == []
    {
      rows, clock := [], 0;
    }

    method RegisterBuild(kind: Kind, parent: Option<nat>) returns (id: nat)
      modifies this
      ensures rows == Registered(old(rows), kind, parent) && id == |old(rows)| && clock == old(clock)
    {
      id := |rows|;
      rows := rows + [Row(parent, kind, Building, 0)];
    }

    method CompleteBuild(id: nat)
      modifies this
      ensures rows == Completed(old(rows), id, old(clock)) && clock == old(clock) + 1
    {
      if id < |rows| {
        rows := rows[id := rows[id].(status := Active, completedAt := clock)];
      }
      rows := seq(|rows|, i requires 0 <= i < |rows| reads this =>
        if rows[i].status == Active && i != id then rows[i].(status := Superseded) else rows[i]);
      clock := clock + 1;
    }

    method GetActiveBuild() returns (r: Option<nat>)
      ensures IsActiveBuild(rows, r)
    {
      r := None;
      for i := 0 to |rows|
        invariant IsActiveBuild(rows[..i], r)
      {
        assert rows[..i + 1] == rows[..i] + [rows[i]];
        if rows[i].status == Active && (r == None || rows[r.value].completedAt < rows[i].completedAt) {
          r := Some(i);
        }
      }
      assert rows[..|rows|] == rows;
    }

    method RollbackBuild(id: nat) returns (parent: Option<nat>)
      modifies this`rows
      ensures rows == RolledBackRows(old(rows), id) && parent == ToldParent(old(rows), id)
    {
      if id >= |rows| {
        return None;
      }
      var build := rows[id];
      if build.status != Active && build.status != Superseded {
        return None;
      }
      rows := rows[id := build.(status := RolledBackStatus)];
      parent := None;
      if build.parent.Some? && build.parent.value < |rows| {
        parent := build.parent;
        var row := rows[parent.value];
        if row.status == Superseded || row.status == RolledBackStatus {
          rows := rows[parent.value := row.(status := Active)];
        }
      }
    }
  }

  // ---- Every run ----

  datatype Step = Register(kind: Kind, parent: Option<nat>) | Complete(id: nat, now: nat) | RollBackActive

  ghost predicate Next(rows: seq<Row>, step: Step, rows': seq<Row>) {
    match step
    case Register(kind, parent) =>
      (parent.Some? ==> parent.value < |rows|) && rows' == Registered(rows, kind, parent)
    case Complete(id, now) => rows' == Completed(rows, id, now)
    case RollBackActive => exists a: nat :: IsActiveBuild(rows, Some(a)) && rows' == RolledBackRows(rows, a)
  }

  ghost predicate Healthy(rows: seq<Row>) {
    AtMostOneActive(rows) && ParentsEarlier(rows)
  }

  lemma StepKeepsHealthy(rows: seq<Row>, step: Step, rows': seq<Row>)
    requires Healthy(rows) && Next(rows, step, rows')
    ensures Healthy(rows')
  {}

  /** The whole of a step for the rows there were: who is active, building or rolled back afterwards, and that parents,
      kinds and completion times stay, but for the build completed. What is left is superseded. */
  lemma StepMeaning(rows: seq<Row>, step: Step, rows': seq<Row>, i: nat)
    requires Healthy(rows) && Next(rows, step, rows') && i < |rows|
    ensures |rows'| == |rows| + (if step.Register? then 1 else 0)
    ensures
      var revived := step.RollBackActive? && rows[i].status != Building
                     && exists a :: 0 <= a < |rows| && rows[a].status == Active && rows[a].parent == Some(i);
      var completed := step.Complete? && step.id == i;
      && (rows'[i].status == Active <==> completed || revived || (step.Register? && rows[i].status == Active))
      && (rows'[i].status == Building <==> rows[i].status == Building && !completed)
      && (rows'[i].status == RolledBackStatus <==>
            if rows[i].status == RolledBackStatus then !completed && !revived
            else rows[i].status == Active && step.RollBackActive?)
      && rows'[i].completedAt == (if completed then step.now else rows[i].completedAt)
      && rows'[i].parent == rows[i].parent && rows'[i].kind == rows[i].kind
  {
    if step.RollBackActive? {
      var a: nat :| IsActiveBuild(rows, Some(a)) && rows' == RolledBackRows(rows, a);
      assert forall j :: 0 <= j < |rows| && rows[j].status == Active ==> j == a;
    }
  }

  /** A new build has the parent and the kind it was given and is being built. */
  lemma NewRow(rows: seq<Row>, step: Step, rows': seq<Row>)
    requires Next(rows, step, rows') && step.Register?
    ensures rows'[|rows|].parent == step.parent && rows'[|rows|].kind == step.kind
    ensures rows'[|rows|].status == Building
  {}

  ghost predicate IsRun(states: seq<seq<Row>>, steps: seq<Step>) {
    && |states| == |steps| + 1 && states[0] == []
    && forall i :: 0 <= i < |steps| ==> Next(states[i], steps[i], states[i + 1])
  }

  /** Over any run at most one build is active and every parent was registered before its child. */
  lemma {:induction false} RunsAreHealthy(states: seq<seq<Row>>, steps: seq<Step>, k: nat)
    requires IsRun(states, steps) && k < |states|
    ensures Healthy(states[k])
  {
    hide Next, Healthy;
    if k == 0 {
      EmptyIsHealthy();
    } else {
      RunsAreHealthy(states, steps, k - 1);
      StepKeepsHealthy(states[k - 1], steps[k - 1], states[k]);
    }
  }

  lemma EmptyIsHealthy()
    ensures Healthy([])
  {}

  /** Rolling back the active build moves the active build back in the order of registration. */
  lemma RollbackGoesBack(rows: seq<Row>, a: nat, b: nat)
    requires Healthy(rows) && IsActiveBuild(rows, Some(a)) && IsActiveBuild(RolledBackRows(rows, a), Some(b))
    ensures b < a && rows[a].parent == Some(b)
  {
    assert forall i :: 0 <= i < |rows| && i != a ==> rows[i].status != Active;
  }

  /** Rolling back the active build again and again, `k` times. */
  ghost predicate RollsBack(states: seq<seq<Row>>, builds: seq<nat>) {
    && |states| == |builds| + 1
    && forall i :: 0 <= i < |builds| ==>
         IsActiveBuild(states[i], Some(builds[i])) && states[i + 1] == RolledBackRows(states[i], builds[i])
  }

  /** Consecutive rollbacks visit ever earlier builds, so there are no more of them than builds up to the first. */
  lemma {:induction false} RollbacksEnd(states: seq<seq<Row>>, builds: seq<nat>, k: nat)
    requires RollsBack(states, builds) && Healthy(states[0]) && k < |builds|
    ensures Healthy(states[k]) && builds[k] + k <= builds[0]
  {
    hide IsActiveBuild, RolledBackRows, Healthy;
    if k > 0 {
      RollbacksEnd(states, builds, k - 1);
      assert IsActiveBuild(states[k - 1], Some(builds[k - 1]));
      RollBackIsStep(states[k - 1], builds[k - 1]);
      StepKeepsHealthy(states[k - 1], RollBackActive, states[k]);
      RollbackGoesBack(states[k - 1], builds[k - 1], builds[k]);
    }
  }

  lemma RollBackIsStep(rows: seq<Row>, a: nat)
    requires IsActiveBuild(rows, Some(a))
    ensures Next(rows, RollBackActive, RolledBackRows(rows, a))
  {}

  /** Rolling back an arbitrary build leaves at most one active exactly when it does not revive the parent of a
      superseded build beside the active one. */
  lemma RollbackStaysSingleIff(rows: seq<Row>, id: nat)
    requires Healthy(rows)
    ensures AtMostOneActive(RolledBackRows(rows, id)) <==>
            !(&& id < |rows| && rows[id].status == Superseded && RevivesParent(rows, id)
              && exists j :: 0 <= j < |rows| && rows[j].status == Active)
  {
    var after := RolledBackRows(rows, id);
    if id < |rows| && rows[id].status == Superseded && RevivesParent(rows, id) {
      var p := rows[id].parent.value;
      assert after[p].status == Active;
      if j :| 0 <= j < |rows| && rows[j].status == Active {
        assert j != p && after[j].status == Active;
      }
    }
  }

  /** If the active build was completed last of all, rolling back another one leaves it the active build, also when that
      makes a second one active; the caller is told of the parent, whether it is revived or not. */
  lemma OtherRollbackKeepsActive(rows: seq<Row>, a: nat, id: nat, r: Option<nat>)
    requires ParentsEarlier(rows) && IsActiveBuild(rows, Some(a)) && id != a
    requires forall i :: 0 <= i < |rows| && i != a ==> rows[i].completedAt < rows[a].completedAt
    ensures IsActiveBuild(RolledBackRows(rows, id), r) <==> r == Some(a)
    ensures id < |rows| && rows[id].status == Superseded ==> ToldParent(rows, id) == rows[id].parent
  {
    assert RolledBackRows(rows, id)[a].status == Active;
  }

  function ThreeBuilds(): seq<Row> {
    [Row(None, Both, Superseded, 0), Row(Some(0), Both, Superseded, 1), Row(Some(1), Both, Active, 2)]
  }

  function ThreeSteps(): seq<Step> {
    [Register(Both, None), Complete(0, 0), Register(Both, Some(0)), Complete(1, 1), Register(Both, Some(1)),
     Complete(2, 2)]
  }

  lemma ThreeBuildsHappen()
    ensures exists states :: IsRun(states, ThreeSteps()) && states[6] == ThreeBuilds()
  {
    var one, two := Row(None, Both, Active, 0), Row(Some(0), Both, Active, 1);
    var states: seq<seq<Row>> := [
      [],
      [Row(None, Both, Building, 0)],
      [one],
      [one, Row(Some(0), Both, Building, 0)],
      [one.(status := Superseded), two],
      [one.(status := Superseded), two, Row(Some(1), Both, Building, 0)],
      ThreeBuilds()];
    assert IsRun(states, ThreeSteps());
  }

  /** Three builds in a chain: rolling back the middle one makes the first active beside the last. */
  lemma TwoActiveBuilds()
    ensures Healthy(ThreeBuilds()) && !AtMostOneActive(RolledBackRows(ThreeBuilds(), 1))
    ensures ToldParent(ThreeBuilds(), 1) == Some(0) && IsActiveBuild(RolledBackRows(ThreeBuilds(), 1), Some(2))
  {
    var rows := ThreeBuilds();
    assert RolledBackRows(rows, 1)[0].status == Active && RolledBackRows(rows, 1)[2].status == Active;
  }
}
