/** Which steps of the rebuild protocol can spoil what readers see: exactly, for every step and over every run, with no
    discipline about cleanup threads assumed. */
module RebuildReads {
  import opened GraphStatements
  import opened Neo4jStore
  import opened RebuildProtocol

  /** Readers see what the last finished build and the incremental updates since have made. */
  ghost predicate Reads(x: State) {
    x.Served() == x.expected
  }

  ghost predicate AllSound(db: Database) {
    forall g :: Sound(View(db, g))
  }

  // ---- Soundness is kept by every step ----

  lemma BecomesSound(before: Database, after: Database, g: int, s: Slice)
    requires AllSound(before) && Sound(s) && Becomes(before, after, g, s)
    ensures AllSound(after)
  {
    hide View, Sound;
    forall k
      ensures Sound(View(after, k))
    {
      assert k != g ==> View(after, k) == View(before, k);
    }
  }

  lemma OnlyLeftSound(before: Database, after: Database, own: int)
    requires AllSound(before) && OnlyLeft(before, after, own)
    ensures AllSound(after)
  {
    hide View;
    forall k
      ensures Sound(View(after, k))
    {
      assert k != own ==> View(after, k) == NOTHING;
    }
  }

  lemma StepKeepsSound(x: State, step: Step, y: State)
    requires AllSound(x.db) && Next(x, step, y)
    ensures AllSound(y.db)
  {
    hide View, Put, AllSound, Becomes, OnlyLeft, Without, Built;
    match step
    case Begin(_, gen) =>
      BecomesSound(x.db, y.db, gen, NOTHING);
    case BuildOne =>
      SliceIsSound(x.db, x.holder.gen);
      PutIsSound(View(x.db, x.holder.gen), x.holder.plan[x.holder.done]);
      BecomesSound(x.db, y.db, x.holder.gen, Put(View(x.db, x.holder.gen), x.holder.plan[x.holder.done]));
    case Cleanup(own) =>
      OnlyLeftSound(x.db, y.db, own);
    case SyncRemove(gone) =>
      SliceIsSound(x.db, x.active);
      WithoutIsSound(x.Served(), gone);
      BecomesSound(x.db, y.db, x.active, Without(x.Served(), gone));
    case SyncPut(st) =>
      SliceIsSound(x.db, x.active);
      PutIsSound(x.Served(), st);
      BecomesSound(x.db, y.db, x.active, Put(x.Served(), st));
    case _ =>
  }

  lemma SliceIsSound(db: Database, g: int)
    requires AllSound(db)
    ensures Sound(View(db, g))
  {
    hide View;
  }

  lemma WithoutIsSound(s: Slice, gone: set<string>)
    requires Sound(s)
    ensures Sound(Without(s, gone))
  {}

  // ---- One step ----

  /** A rebuild that works on the live generation has not begun to write. */
  ghost predicate LiveIsUntouched(x: State) {
    x.holder.Rebuilding? ==>
      && BeginsWithSymbol(x.holder.plan)
      && (x.holder.gen == x.active ==> x.holder.done == 0 && x.expected == NOTHING)
  }

  /** What a step must not do to readers. */
  ghost predicate Harmless(x: State, step: Step) {
    match step
    case BuildOne => x.holder.Rebuilding? ==> x.holder.gen != x.active
    case Swap => x.holder.Rebuilding? ==> View(x.db, x.holder.gen) == Built(x.holder.plan)
    case Cleanup(own) => own == x.active || x.Served() == NOTHING
    case Restart(gen) => View(x.db, gen) == x.Served()
    case _ => true
  }

  lemma UnusedGenIsEmpty(db: Database, gen: int)
    requires IsCurrentGen(db, gen - 1) && Sound(View(db, gen))
    ensures View(db, gen) == NOTHING
  {
    if View(db, gen).ids != {} {
      var n := GenOfIds(db, gen);
    }
  }

  /** A step keeps readers right exactly when it is harmless: a cleanup spares the live generation or finds it empty, a
      build step works on another generation, a swap brings in a generation that holds its whole build, and a restart
      finds the highest generation like the live one. */
  lemma StepKeepsReadsIff(x: State, step: Step, y: State)
    requires Reads(x) && LiveIsUntouched(x) && AllSound(x.db) && Next(x, step, y)
    ensures Reads(y) <==> Harmless(x, step)
  {
    hide View, Put, Built, AllSound, Without, Statements, PutAll;
    match step
    case Begin(_, gen) =>
      SliceIsSound(x.db, gen);
      UnusedGenIsEmpty(x.db, gen);
      assert gen != x.active ==> View(y.db, x.active) == View(x.db, x.active);
    case BuildOne =>
      assert x.holder.gen != x.active ==> View(y.db, x.active) == View(x.db, x.active);
      if x.holder.gen == x.active {
        FirstIsSeen(x.holder.plan);
      }
    case Cleanup(own) =>
      assert own != x.active ==> View(y.db, x.active) == NOTHING;
    case _ =>
  }

  lemma FirstIsSeen(plan: seq<Statement>)
    requires BeginsWithSymbol(plan) && plan != []
    ensures Put(NOTHING, plan[0]) != NOTHING
  {
    assert plan[0].id in Put(NOTHING, plan[0]).ids;
  }

  /** As long as readers are right, a rebuild has not written to the live generation. */
  lemma StepLeavesLiveUntouched(x: State, step: Step, y: State)
    requires Reads(x) && LiveIsUntouched(x) && AllSound(x.db) && Next(x, step, y) && Reads(y)
    ensures LiveIsUntouched(y)
  {
    hide View, Put, Built, AllSound, Without, Statements, PutAll;
    StepKeepsReadsIff(x, step, y);
    match step
    case Begin(upserts, gen) =>
      StatementsBegin(upserts);
      SliceIsSound(x.db, gen);
      UnusedGenIsEmpty(x.db, gen);
    case _ =>
  }

  // ---- Whole runs ----

  /** How many statements of the rebuild under way the last cleanup since its beginning has wiped out. */
  ghost function Lost(states: seq<State>, steps: seq<Step>, k: nat): nat
    requires IsRun(states, steps) && k < |states|
  {
    if k == 0 then 0 else
      var x := states[k - 1];
      match steps[k - 1]
      case Begin(_, _) => 0
      case Cleanup(own) =>
        if x.holder.Rebuilding? && own != x.holder.gen then x.holder.done else Lost(states, steps, k - 1)
      case _ => Lost(states, steps, k - 1)
  }

  /** The generation being built holds what the statements since the last loss have made. */
  ghost predicate Holds(x: State, lost: nat) {
    x.holder.Rebuilding? ==>
      && lost <= x.holder.done <= |x.holder.plan|
      && View(x.db, x.holder.gen) == Built(x.holder.plan[lost..x.holder.done])
  }

  lemma BuiltMore(plan: seq<Statement>, lost: nat, done: nat)
    requires lost <= done < |plan|
    ensures Built(plan[lost..done + 1]) == Put(Built(plan[lost..done]), plan[done])
    ensures Built(plan[done..done]) == NOTHING
  {
    assert plan[lost..done + 1][..done - lost] == plan[lost..done];
  }

  lemma NothingBuilt(plan: seq<Statement>, done: nat)
    requires done <= |plan|
    ensures Built(plan[done..done]) == NOTHING
  {}

  lemma StepHolds(x: State, step: Step, y: State, lost: nat)
    requires Holds(x, lost) && Next(x, step, y)
    ensures Holds(y, match step
                     case Begin(_, _) => 0
                     case Cleanup(own) =>
                       if x.holder.Rebuilding? && own != x.holder.gen then x.holder.done else lost
                     case _ => lost)
  {
    hide View, Put, Built;
    match step
    case Begin(upserts, _) =>
      NothingBuilt(Statements(upserts), 0);
    case BuildOne =>
      BuiltMore(x.holder.plan, lost, x.holder.done);
    case Cleanup(own) =>
      if x.holder.Rebuilding? && own != x.holder.gen {
        NothingBuilt(x.holder.plan, x.holder.done);
        assert View(y.db, x.holder.gen) == NOTHING;
      }
    case _ =>
  }

  lemma {:induction false} RunHolds(states: seq<State>, steps: seq<Step>, k: nat)
    requires IsRun(states, steps) && Start(states[0]) && AllSound(states[0].db) && k < |states|
    ensures Holds(states[k], Lost(states, steps, k)) && AllSound(states[k].db)
  {
    hide Next, Holds, AllSound;
    if k > 0 {
      RunHolds(states, steps, k - 1);
      StepHolds(states[k - 1], steps[k - 1], states[k], Lost(states, steps, k - 1));
      StepKeepsSound(states[k - 1], steps[k - 1], states[k]);
    } else {
      StartHolds(states[0]);
    }
  }

  lemma StartHolds(x: State)
    requires Start(x)
    ensures Holds(x, 0)
  {
    hide View, Built;
  }

  /** A rebuild that picked the live generation serves readers each stage of itself: whatever its statements have made
      since its beginning, or since a cleanup wiped it. */
  lemma HalfBuiltIsServed(states: seq<State>, steps: seq<Step>, k: nat)
    requires IsRun(states, steps) && Start(states[0]) && AllSound(states[0].db) && k < |states|
    requires states[k].holder.Rebuilding? && states[k].holder.gen == states[k].active
    ensures Lost(states, steps, k) <= states[k].holder.done <= |states[k].holder.plan|
    ensures states[k].Served() == Built(states[k].holder.plan[Lost(states, steps, k)..states[k].holder.done])
  {
    hide View, Built, Next, Start;
    RunHolds(states, steps, k);
  }

  /** A step of a run is harmless; for a swap: the statements since the last loss build the same as the whole
      plan. */
  ghost predicate HarmlessAt(states: seq<State>, steps: seq<Step>, i: nat)
    requires IsRun(states, steps) && i < |steps|
  {
    var x := states[i];
    if steps[i].Swap? then
      x.holder.Rebuilding? && Lost(states, steps, i) <= |x.holder.plan| ==>
        Built(x.holder.plan[Lost(states, steps, i)..]) == Built(x.holder.plan)
    else Harmless(x, steps[i])
  }

  lemma HarmlessSwap(states: seq<State>, steps: seq<Step>, i: nat)
    requires IsRun(states, steps) && Start(states[0]) && AllSound(states[0].db) && i < |steps|
    ensures HarmlessAt(states, steps, i) <==> Harmless(states[i], steps[i])
  {
    hide View, Built, Put, Start, AllSound;
    if steps[i].Swap? {
      RunHolds(states, steps, i);
      assert Next(states[i], steps[i], states[i + 1]);
      var h := states[i].holder;
      var lost := Lost(states, steps, i);
      assert h.plan[lost..h.done] == h.plan[lost..];
    }
  }

  lemma {:induction false} RightRunsLeaveLiveUntouched(states: seq<State>, steps: seq<Step>, k: nat)
    requires IsRun(states, steps) && Start(states[0]) && AllSound(states[0].db) && k < |states|
    requires forall i :: 0 <= i <= k ==> Reads(states[i])
    ensures LiveIsUntouched(states[k])
  {
    hide Reads, Next, AllSound, Holds;
    if k > 0 {
      hide LiveIsUntouched;
      RightRunsLeaveLiveUntouched(states, steps, k - 1);
      RunHolds(states, steps, k - 1);
      StepLeavesLiveUntouched(states[k - 1], steps[k - 1], states[k]);
    }
  }

  /** Over every run, readers are right at every state if and only if every cleanup spares the live generation or finds
      it empty, every build step works on another generation, every swap makes up for what cleanups wiped out, and every
      restart finds the highest generation like the live one. */
  lemma ReadsAreRightIff(states: seq<State>, steps: seq<Step>)
    requires IsRun(states, steps) && Start(states[0]) && AllSound(states[0].db)
    ensures (forall k :: 0 <= k < |states| ==> Reads(states[k])) <==>
            (forall i :: 0 <= i < |steps| ==> HarmlessAt(states, steps, i))
  {
    hide Reads, Harmless, HarmlessAt, Next, AllSound, Holds, LiveIsUntouched, Start;
    if forall k :: 0 <= k < |states| ==> Reads(states[k]) {
      forall i | 0 <= i < |steps|
        ensures HarmlessAt(states, steps, i)
      {
        HarmlessSwap(states, steps, i);
        RunHolds(states, steps, i);
        RightRunsLeaveLiveUntouched(states, steps, i);
        assert Reads(states[i]) && Reads(states[i + 1]);
        StepKeepsReadsIff(states[i], steps[i], states[i + 1]);
      }
    }
    if forall i :: 0 <= i < |steps| ==> HarmlessAt(states, steps, i) {
      forall k | 0 <= k < |states|
        ensures Reads(states[k])
      {
        HarmlessRunReads(states, steps, k);
      }
    }
  }

  lemma {:induction false} HarmlessRunReads(states: seq<State>, steps: seq<Step>, k: nat)
    requires IsRun(states, steps) && Start(states[0]) && AllSound(states[0].db) && k < |states|
    requires forall i :: 0 <= i < |steps| ==> HarmlessAt(states, steps, i)
    ensures forall i :: 0 <= i <= k ==> Reads(states[i])
  {
    hide Harmless, HarmlessAt, Next, AllSound, Holds, View, LiveIsUntouched;
    if k > 0 {
      hide Reads;
      HarmlessRunReads(states, steps, k - 1);
      HarmlessSwap(states, steps, k - 1);
      RunHolds(states, steps, k - 1);
      RightRunsLeaveLiveUntouched(states, steps, k - 1);
      StepKeepsReadsIff(states[k - 1], steps[k - 1], states[k]);
    }
  }

  // ---- Runs in which readers go wrong ----

  ghost predicate EndsIn(states: seq<State>, steps: seq<Step>, x: State) {
    IsRun(states, steps) && Start(states[0]) && AllSound(states[0].db) && states[|states| - 1] == x
  }

  ghost predicate Reachable(x: State) {
    exists states, steps :: EndsIn(states, steps, x)
  }

  lemma Reaches(x: State, step: Step, y: State)
    requires Reachable(x) && Next(x, step, y)
    ensures Reachable(y)
  {
    hide Next, Start, AllSound;
    var states, steps :| EndsIn(states, steps, x);
    var more, last := states + [y], steps + [step];
    forall i | 0 <= i < |last|
      ensures Next(more[i], last[i], more[i + 1])
    {
      if i < |steps| {
        assert Next(states[i], steps[i], states[i + 1]);
      }
    }
    assert EndsIn(more, last, y);
  }

  /** A database with one bare symbol in each of some generations. */
  function At(m: map<int, string>): Database {
    Database(set g | g in m :: Node(m[g], g), {}, {})
  }

  /** What a cleanup leaves of such a database. */
  function Only(m: map<int, string>, own: int): map<int, string> {
    map g | g in m && g == own :: m[g]
  }

  lemma OnlyOfNone(own: int)
    ensures Only(map[], own) == map[]
  {}

  function One(id: string): Slice {
    Slice({id}, {}, {})
  }

  function Add(id: string): Upsert {
    Upsert(id, false, [], [])
  }

  /** The two statements of such an upsert. */
  function Adding(id: string): seq<Statement> {
    [MergeSymbol(id, false), DeleteOutgoing(id)]
  }

  lemma AddingOne(id: string)
    ensures Statements([Add(id)]) == Adding(id)
  {
    assert [Add(id)][1..] == [] && Adding(id) + [] == Adding(id);
  }

  lemma AddingTwo(id: string, other: string)
    ensures Statements([Add(id), Add(other)]) == Adding(id) + Adding(other)
  {
    AddingOne(other);
    assert [Add(id), Add(other)][1..] == [Add(other)];
  }

  lemma ViewAt(m: map<int, string>, g: int)
    ensures View(At(m), g) == if g in m then One(m[g]) else NOTHING
  {
    if g in m {
      assert Node(m[g], g) in At(m).nodes;
    }
  }

  lemma PutOne(id: string)
    ensures Put(NOTHING, MergeSymbol(id, false)) == One(id) && Put(One(id), DeleteOutgoing(id)) == One(id)
    ensures Built(Adding(id)) == One(id)
  {
    PutTwo(NOTHING, MergeSymbol(id, false), DeleteOutgoing(id));
  }

  lemma CurrentAt(m: map<int, string>, g: int)
    requires if m == map[] then g == 0 else g in m && forall k :: k in m ==> k <= g
    ensures IsCurrentGen(At(m), g)
  {
    if g in m {
      assert Node(m[g], g) in At(m).nodes;
    }
    if m == map[] {
      assert At(m).nodes == {};
    }
  }

  lemma AtIsSound(m: map<int, string>)
    ensures AllSound(At(m))
  {
    forall g
      ensures Sound(View(At(m), g))
    {
      ViewAt(m, g);
    }
  }

  lemma StartAt(m: map<int, string>, g: int) returns (x: State)
    requires if m == map[] then g == 0 else g in m && forall k :: k in m ==> k <= g
    ensures x == State(At(m), g, if g in m then One(m[g]) else NOTHING, Free, {}) && Reachable(x)
  {
    hide View, IsCurrentGen, AllSound;
    x := State(At(m), g, View(At(m), g), Free, {});
    ViewAt(m, g);
    CurrentAt(m, g);
    AtIsSound(m);
    assert EndsIn([x], [], x);
  }

  lemma BeginAt(x: State, m: map<int, string>, upserts: seq<Upsert>, gen: int) returns (y: State)
    requires Reachable(x) && x.db == At(m) && x.holder == Free && gen !in m
    requires if m == map[] then gen == 1 else gen - 1 in m && forall k :: k in m ==> k <= gen - 1
    ensures y == x.(holder := Rebuilding(gen, Statements(upserts), 0)) && Reachable(y)
  {
    hide View, IsCurrentGen, At, Statements;
    y := x.(holder := Rebuilding(gen, Statements(upserts), 0));
    CurrentAt(m, gen - 1);
    ViewAt(m, gen);
    Reaches(x, Begin(upserts, gen), y);
  }

  lemma BuildAt(x: State, m: map<int, string>, id: string) returns (y: State)
    requires Reachable(x) && x.db == At(m) && x.holder.Rebuilding? && x.holder.gen !in m
    requires x.holder.done < |x.holder.plan| && x.holder.plan[x.holder.done] == MergeSymbol(id, false)
    ensures y == x.(db := At(m[x.holder.gen := id]), holder := x.holder.(done := x.holder.done + 1)) && Reachable(y)
  {
    hide View, At, Put;
    var m' := m[x.holder.gen := id];
    y := x.(db := At(m'), holder := x.holder.(done := x.holder.done + 1));
    forall g
      ensures View(At(m), g) == if g in m then One(m[g]) else NOTHING
      ensures View(At(m'), g) == if g in m' then One(m'[g]) else NOTHING
    {
      ViewAt(m, g);
      ViewAt(m', g);
    }
    PutOne(id);
    Reaches(x, BuildOne, y);
  }

  lemma DeleteAt(x: State, m: map<int, string>, id: string) returns (y: State)
    requires Reachable(x) && x.db == At(m) && x.holder.Rebuilding?
    requires x.holder.done < |x.holder.plan| && x.holder.plan[x.holder.done] == DeleteOutgoing(id)
    ensures y == x.(holder := x.holder.(done := x.holder.done + 1)) && Reachable(y)
  {
    hide View, At;
    y := x.(holder := x.holder.(done := x.holder.done + 1));
    ViewAt(m, x.holder.gen);
    assert Put(View(At(m), x.holder.gen), DeleteOutgoing(id)) == View(At(m), x.holder.gen);
    Reaches(x, BuildOne, y);
  }

  lemma SwapAt(x: State) returns (y: State)
    requires Reachable(x) && x.holder.Rebuilding? && x.holder.done == |x.holder.plan|
    ensures y == State(x.db, x.holder.gen, Built(x.holder.plan), Swapped, x.cleanups + {x.holder.gen}) && Reachable(y)
  {
    hide View, Built;
    y := State(x.db, x.holder.gen, Built(x.holder.plan), Swapped, x.cleanups + {x.holder.gen});
    Reaches(x, Swap, y);
  }

  lemma ReleaseAt(x: State) returns (y: State)
    requires Reachable(x) && x.holder != Free
    ensures y == x.(holder := Free) && Reachable(y)
  {
    y := x.(holder := Free);
    Reaches(x, Release, y);
  }

  lemma CleanupAt(x: State, m: map<int, string>, own: int) returns (y: State)
    requires Reachable(x) && x.db == At(m) && own in x.cleanups
    ensures y == x.(db := At(Only(m, own)), cleanups := x.cleanups - {own}) && Reachable(y)
    ensures Next(x, Cleanup(own), y)
  {
    hide View, At;
    var m' := Only(m, own);
    y := x.(db := At(m'), cleanups := x.cleanups - {own});
    forall g
      ensures View(At(m), g) == if g in m then One(m[g]) else NOTHING
      ensures View(At(m'), g) == if g in m' then One(m'[g]) else NOTHING
    {
      ViewAt(m, g);
      ViewAt(m', g);
    }
    Reaches(x, Cleanup(own), y);
  }

  /** A whole build of one symbol, from the free mutex to its swap. */
  lemma FullBuildAt(x: State, m: map<int, string>, id: string, gen: int) returns (y: State)
    requires Reachable(x) && x.db == At(m) && x.holder == Free && gen !in m
    requires if m == map[] then gen == 1 else gen - 1 in m && forall k :: k in m ==> k <= gen - 1
    ensures y == State(At(m[gen := id]), gen, One(id), Swapped, x.cleanups + {gen}) && Reachable(y)
  {
    hide At, Statements, Built;
    AddingOne(id);
    y := BeginAt(x, m, [Add(id)], gen);
    y := BuildAt(y, m, id);
    y := DeleteAt(y, m[gen := id], id);
    y := SwapAt(y);
    PutOne(id);
  }

  /** The cleanup thread of one build runs after the swap of the next: it deletes the live generation. */
  lemma CleanupAfterSwapHappens() returns (x: State, y: State)
    ensures Reachable(x) && Reads(x) && Next(x, Cleanup(2), y)
    ensures x.active == 3 && y.Served() == NOTHING && y.expected == One("c")
  {
    hide At, Next, View;
    var m := map[1 := "a"];
    x := StartAt(m, 1);
    x := FullBuildAt(x, m, "b", 2);
    x := ReleaseAt(x);
    m := m[2 := "b"];
    x := FullBuildAt(x, m, "c", 3);
    m := m[3 := "c"];
    ViewAt(m, 3);
    y := CleanupAt(x, m, 2);
    ViewAt(Only(m, 2), 3);
  }

  /** It runs during the next build instead, between two statements of one upsert: what was written so far is gone, and
      the swap serves the rest. */
  lemma CleanupDuringBuildHappens() returns (x: State, y: State, z: State)
    ensures Reachable(x) && x.holder == Rebuilding(3, Adding("c"), 1) && Next(x, Cleanup(2), y)
    ensures View(x.db, 3) == One("c") && View(y.db, 3) == NOTHING
    ensures Reachable(z) && z.active == 3 && z.Served() == NOTHING && z.expected == One("c")
  {
    hide At, Next, View, Statements, Built;
    var m := map[1 := "a"];
    x := StartAt(m, 1);
    x := FullBuildAt(x, m, "b", 2);
    x := ReleaseAt(x);
    m := m[2 := "b"];
    AddingOne("c");
    x := BeginAt(x, m, [Add("c")], 3);
    x := BuildAt(x, m, "c");
    m := m[3 := "c"];
    ViewAt(m, 3);
    PutOne("c");
    y := CleanupAt(x, m, 2);
    ViewAt(Only(m, 2), 3);
    z := DeleteAt(y, Only(m, 2), "c");
    z := SwapAt(z);
  }

  /** The first build of an empty database is empty, its generation stays without a node, and the next rebuild picks it:
      readers see it half built. */
  lemma LiveRebuildHappens() returns (x: State)
    ensures Reachable(x) && x.holder == Rebuilding(1, Adding("a") + Adding("b"), 1) && x.active == 1
    ensures x.Served() == One("a") && x.expected == NOTHING
  {
    hide At, View;
    var m: map<int, string> := map[];
    x := StartAt(m, 0);
    x := BeginAt(x, m, [], 1);
    x := SwapAt(x);
    x := ReleaseAt(x);
    x := CleanupAt(x, m, 1);
    OnlyOfNone(1);
    AddingTwo("a", "b");
    x := BeginAt(x, m, [Add("a"), Add("b")], 1);
    x := BuildAt(x, m, "a");
    ViewAt(m[1 := "a"], 1);
  }

  /** The process restarts in the middle of a build and serves the half of it that was written. */
  lemma RestartMidBuildHappens() returns (x: State, y: State)
    ensures Reachable(x) && Reads(x) && x.holder == Rebuilding(2, Adding("b") + Adding("c"), 1)
    ensures Next(x, Restart(2), y)
    ensures x.active == 1 && x.Served() == One("a")
    ensures y.active == 2 && y.Served() == One("b") && y.expected == One("a")
  {
    hide At, View, IsCurrentGen;
    var m := map[1 := "a"];
    AddingTwo("b", "c");
    x := StartAt(m, 1);
    x := BeginAt(x, m, [Add("b"), Add("c")], 2);
    x := BuildAt(x, m, "b");
    m := m[2 := "b"];
    ViewAt(m, 1);
    ViewAt(m, 2);
    CurrentAt(m, 2);
    y := x.(active := 2, holder := Free, cleanups := {});
  }
}
