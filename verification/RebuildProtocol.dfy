/** The life of the graph's generations: rebuilds under the mutex, swaps, cleanup threads, incremental updates and
    reads, as steps on one database. */
module RebuildProtocol {
  import opened GraphStatements
  import opened Neo4jStore

  /** Who has the rebuild mutex, and how far it is. */
  datatype Holder =
    | Free
    | Rebuilding(gen: int, plan: seq<Statement>, done: nat)
    | Swapped
    | Syncing

  /** `active` is the generation the proxy serves; `expected` is what the last finished build made of it, with the
      incremental updates since; `cleanups` are the cleanup threads not yet finished, by the generation they spare. */
  datatype State = State(db: Database, active: int, expected: Slice, holder: Holder, cleanups: set<int>)
  {
    function Served(): Slice {
      View(db, active)
    }
  }

  /** A build step and a step of an incremental update are one statement each. With a restart the mutex and the cleanup
      threads are gone, and the proxy takes the highest generation. */
  datatype Step =
    | Begin(upserts: seq<Upsert>, gen: int)
    | BuildOne
    | Swap
    | Release
    | Cleanup(own: int)
    | SyncBegin
    | SyncRemove(gone: set<string>)
    | SyncPut(st: Statement)
    | Restart(gen: int)

  /** One generation changes and the others do not. */
  ghost predicate Becomes(before: Database, after: Database, g: int, s: Slice) {
    View(after, g) == s && OthersKept(before, after, g)
  }

  ghost predicate OnlyLeft(before: Database, after: Database, own: int) {
    View(after, own) == View(before, own) && forall g :: g != own ==> View(after, g) == NOTHING
  }

  ghost predicate Next(x: State, step: Step, y: State) {
    match step
    case Begin(upserts, gen) =>
      && x.holder == Free && IsCurrentGen(x.db, gen - 1)
      && Becomes(x.db, y.db, gen, NOTHING)
      && y == x.(db := y.db, holder := Rebuilding(gen, Statements(upserts), 0))
    case BuildOne =>
      && x.holder.Rebuilding? && x.holder.done < |x.holder.plan|
      && Becomes(x.db, y.db, x.holder.gen, Put(View(x.db, x.holder.gen), x.holder.plan[x.holder.done]))
      && y == x.(db := y.db, holder := x.holder.(done := x.holder.done + 1))
    case Swap =>
      && x.holder.Rebuilding? && x.holder.done == |x.holder.plan|
      && y == x.(active := x.holder.gen, expected := Built(x.holder.plan), holder := Swapped,
                 cleanups := x.cleanups + {x.holder.gen})
    case Release =>
      && x.holder != Free
      && y == x.(holder := Free)
    case Cleanup(own) =>
      && own in x.cleanups
      && OnlyLeft(x.db, y.db, own)
      && y == x.(db := y.db, cleanups := x.cleanups - {own})
    case SyncBegin =>
      && x.holder == Free
      && y == x.(holder := Syncing)
    case SyncRemove(gone) =>
      && x.holder == Syncing
      && Becomes(x.db, y.db, x.active, Without(x.Served(), gone))
      && y == x.(db := y.db, expected := Without(x.expected, gone))
    case SyncPut(st) =>
      && x.holder == Syncing
      && Becomes(x.db, y.db, x.active, Put(x.Served(), st))
      && y == x.(db := y.db, expected := Put(x.expected, st))
    case Restart(gen) =>
      && IsCurrentGen(x.db, gen)
      && y == x.(active := gen, holder := Free, cleanups := {})
  }

  /** The hypotheses: a rebuild begins with no cleanup pending and with something in the live graph; a restart comes
      with something in the live graph and nothing in a later generation. */
  ghost predicate Disciplined(x: State, step: Step) {
    && (step.Begin? ==> x.cleanups == {} && x.Served().ids != {})
    && (step.Restart? ==> x.Served().ids != {} && forall n :: n in x.db.nodes ==> n.gen <= x.active)
  }

  /** Readers see a finished build, the generation being built is apart and intact, and a cleanup thread spares the
      live generation. */
  ghost predicate Safe(x: State) {
    && x.Served() == x.expected
    && x.cleanups <= {x.active}
    && (x.holder.Rebuilding? ==>
          && x.holder.gen != x.active && x.cleanups == {}
          && x.holder.done <= |x.holder.plan| && BeginsWithSymbol(x.holder.plan)
          && View(x.db, x.holder.gen) == Built(x.holder.plan[..x.holder.done])
          && forall n :: n in x.db.nodes ==> n.gen <= x.holder.gen)
  }

  lemma IdOfNode(db: Database, n: Node)
    ensures n in db.nodes ==> n.id in View(db, n.gen).ids
  {}

  lemma GenOfIds(db: Database, g: int) returns (n: Node)
    requires View(db, g).ids != {}
    ensures n in db.nodes && n.gen == g
  {
    var id :| id in View(db, g).ids;
    n :| n in db.nodes && n.gen == g && n.id == id;
  }

  lemma BeginKeepsSafe(x: State, step: Step, y: State)
    requires Safe(x) && Next(x, step, y) && Disciplined(x, step) && step.Begin?
    ensures Safe(y)
  {
    hide View, Put, Statements;
    var n := GenOfIds(x.db, x.active);
    assert y.holder.gen != x.active;
    assert View(y.db, x.active) == View(x.db, x.active);
    BeginStaysBelow(x.db, y.db, step.gen);
    StatementsBegin(step.upserts);
    assert y.holder.plan[..0] == [];
  }

  lemma BeginStaysBelow(before: Database, after: Database, gen: int)
    requires IsCurrentGen(before, gen - 1) && Becomes(before, after, gen, NOTHING)
    ensures forall n :: n in after.nodes ==> n.gen <= gen
  {
    hide View;
    forall n | n in after.nodes
      ensures n.gen <= gen
    {
      IdOfNode(after, n);
      if n.gen != gen {
        assert View(after, n.gen) == View(before, n.gen);
        var m := GenOfIds(before, n.gen);
      }
    }
  }

  lemma BuildOneKeepsSafe(x: State, y: State)
    requires Safe(x) && Next(x, BuildOne, y)
    ensures Safe(y)
  {
    hide View, Put, Statements;
    var h := x.holder;
    assert View(y.db, x.active) == View(x.db, x.active);
    assert h.plan[..h.done + 1][..h.done] == h.plan[..h.done];
    forall n | n in y.db.nodes
      ensures n.gen <= h.gen
    {
      IdOfNode(y.db, n);
      if n.gen != h.gen {
        assert View(y.db, n.gen) == View(x.db, n.gen);
        var m := GenOfIds(x.db, n.gen);
      }
    }
  }

  lemma CleanupKeepsSafe(x: State, step: Step, y: State)
    requires Safe(x) && Next(x, step, y) && step.Cleanup?
    ensures Safe(y) && forall g :: g != y.active ==> View(y.db, g) == NOTHING
  {
    hide View, Put, Statements;
  }

  lemma StepKeepsSafe(x: State, step: Step, y: State)
    requires Safe(x) && Next(x, step, y) && Disciplined(x, step)
    ensures Safe(y)
  {
    hide View, Put, Built, Statements, PutAll;
    match step
    case Begin(_, _) => BeginKeepsSafe(x, step, y);
    case BuildOne => BuildOneKeepsSafe(x, y);
    case Swap =>
      assert x.holder.plan[..|x.holder.plan|] == x.holder.plan;
    case Cleanup(_) => CleanupKeepsSafe(x, step, y);
    case Restart(_) => RestartKeepsServingIff(x, step, y);
    case _ =>
  }

  // ---- Whole runs ----

  /** At start-up the proxy takes the highest generation, and what is there is taken to be finished. */
  ghost predicate Start(x: State) {
    IsCurrentGen(x.db, x.active) && x.expected == x.Served() && x.holder == Free && x.cleanups == {}
  }

  ghost predicate IsRun(states: seq<State>, steps: seq<Step>) {
    && |states| == |steps| + 1
    && forall i :: 0 <= i < |steps| ==> Next(states[i], steps[i], states[i + 1])
  }

  ghost predicate DisciplinedRun(states: seq<State>, steps: seq<Step>)
    requires IsRun(states, steps)
  {
    forall i :: 0 <= i < |steps| ==> Disciplined(states[i], steps[i])
  }

  /** Reads always see a finished build, a generation being built is never damaged, and after a cleanup only the live
      generation is left. */
  lemma {:induction false} RunsAreSafe(states: seq<State>, steps: seq<Step>, k: nat)
    requires IsRun(states, steps) && Start(states[0]) && DisciplinedRun(states, steps) && k < |states|
    ensures Safe(states[k])
    ensures k > 0 && steps[k - 1].Cleanup? ==> forall g :: g != states[k].active ==> View(states[k].db, g) == NOTHING
  {
    hide Next, Disciplined;
    if k > 0 {
      RunsAreSafe(states, steps, k - 1);
      assert Next(states[k - 1], steps[k - 1], states[k]) && Disciplined(states[k - 1], steps[k - 1]);
      StepKeepsSafe(states[k - 1], steps[k - 1], states[k]);
      if steps[k - 1].Cleanup? {
        CleanupKeepsSafe(states[k - 1], steps[k - 1], states[k]);
      }
    } else {
      StartIsSafe(states[0]);
    }
  }

  lemma StartIsSafe(x: State)
    requires Start(x)
    ensures Safe(x)
  {
    hide View;
  }

  // ---- What the hypotheses are for ----

  /** A cleanup thread of an earlier build that runs during a rebuild spares the generation being built exactly when
      nothing has been written to it yet. */
  lemma LateCleanupIsHarmlessIff(x: State, step: Step, y: State)
    requires x.holder.Rebuilding? && x.holder.done <= |x.holder.plan| && BeginsWithSymbol(x.holder.plan)
    requires View(x.db, x.holder.gen) == Built(x.holder.plan[..x.holder.done])
    requires Next(x, step, y) && step.Cleanup? && step.own != x.holder.gen
    ensures View(y.db, y.holder.gen) == Built(y.holder.plan[..y.holder.done]) <==> x.holder.done == 0
  {
    hide View;
    BuiltIsSomething(x.holder.plan[..x.holder.done]);
  }

  /** A rebuild keeps apart from the live generation exactly when the highest generation with a node is not the one just
      before it; an empty live generation is what makes that possible. */
  lemma BeginStaysApartIff(x: State, step: Step, y: State)
    requires Next(x, step, y) && step.Begin?
    ensures y.holder.gen != y.active <==> !IsCurrentGen(x.db, x.active - 1)
    ensures x.Served().ids != {} ==> y.holder.gen != y.active
  {
    hide View;
    if x.Served().ids != {} {
      var n := GenOfIds(x.db, x.active);
    }
  }

  /** A restart keeps serving the live generation exactly when no generation above it has a node. */
  lemma RestartKeepsServingIff(x: State, step: Step, y: State)
    requires Next(x, step, y) && step.Restart? && x.Served().ids != {}
    ensures y.active == x.active <==> forall n :: n in x.db.nodes ==> n.gen <= x.active
  {
    hide View;
    var n := GenOfIds(x.db, x.active);
  }

  /** A restart in the middle of a build serves the part of it that was written. */
  lemma RestartServesHalfBuilt(x: State, step: Step, y: State)
    requires Safe(x) && Next(x, step, y) && step.Restart? && x.holder.Rebuilding? && x.holder.done > 0
    ensures y.active == x.holder.gen && y.Served() == Built(x.holder.plan[..x.holder.done])
  {
    hide View, Built;
    BuiltIsSomething(x.holder.plan[..x.holder.done]);
    var n := GenOfIds(x.db, x.holder.gen);
  }
}
