/** The steps of the rebuild protocol are the statements of the graph store: what a step may do is what its statement
    does, and nothing else. */
module ProtocolSteps {
  import opened GraphStatements
  import opened Neo4jStore
  import opened RebuildProtocol
  import opened RebuildReads

  function NodesOf(db: Database, gen: int): set<Node> {
    set n | n in db.nodes && n.gen == gen
  }

  /** A step leaves no choice: two outcomes hold the same in every generation, and are alike in everything else. */
  lemma StepIsDetermined(x: State, step: Step, y: State, z: State)
    requires Next(x, step, y) && Next(x, step, z)
    ensures y == z.(db := y.db) && forall g :: View(y.db, g) == View(z.db, g)
  {
    hide View, Put, Built, Without, Statements, IsCurrentGen;
    match step
    case Begin(_, gen) => SameViews(x.db, y.db, z.db, gen, NOTHING);
    case BuildOne =>
      SameViews(x.db, y.db, z.db, x.holder.gen, Put(View(x.db, x.holder.gen), x.holder.plan[x.holder.done]));
    case SyncRemove(gone) => SameViews(x.db, y.db, z.db, x.active, Without(x.Served(), gone));
    case SyncPut(st) => SameViews(x.db, y.db, z.db, x.active, Put(x.Served(), st));
    case Cleanup(own) =>
      forall g
        ensures View(y.db, g) == View(z.db, g)
      {
        assert g == own || (View(y.db, g) == NOTHING && View(z.db, g) == NOTHING);
      }
    case _ =>
  }

  lemma SameViews(before: Database, y: Database, z: Database, gen: int, s: Slice)
    requires Becomes(before, y, gen, s) && Becomes(before, z, gen, s)
    ensures forall g :: View(y, g) == View(z, g)
  {
    hide View;
    forall g
      ensures View(y, g) == View(z, g)
    {
      assert g == gen || (View(y, g) == View(before, g) && View(z, g) == View(before, g));
    }
  }

  lemma WithoutAll(s: Slice)
    requires Sound(s)
    ensures Without(s, s.ids) == NOTHING
  {}

  lemma NodesAreIds(db: Database, gen: int)
    ensures NodesOf(db, gen) == set n | n in db.nodes && n.gen == gen && n.id in View(db, gen).ids
  {}

  /** A rebuild begins with the generation after the highest one, emptied. */
  lemma BeginIsReset(x: State, upserts: seq<Upsert>, gen: int)
    requires x.holder == Free && IsCurrentGen(x.db, gen - 1) && AllSound(x.db)
    ensures Next(x, Begin(upserts, gen),
                 State(x.db.DetachDelete(NodesOf(x.db, gen)), x.active, x.expected,
                       Rebuilding(gen, Statements(upserts), 0), x.cleanups))
  {
    hide View, Without, IsCurrentGen, Statements;
    SliceIsSound(x.db, gen);
    WithoutAll(View(x.db, gen));
    NodesAreIds(x.db, gen);
    DetachDeleteIds(x.db, gen, View(x.db, gen).ids, NodesOf(x.db, gen));
  }

  /** A build step is the next statement, on the generation being built. */
  lemma BuildIsStatement(x: State)
    requires x.holder.Rebuilding? && x.holder.done < |x.holder.plan|
    ensures var h := x.holder;
      Next(x, BuildOne, State(Do(x.db, h.gen, h.plan[h.done]), x.active, x.expected,
                              Rebuilding(h.gen, h.plan, h.done + 1), x.cleanups))
  {
    hide View, Put, Do;
    DoPuts(x.db, x.holder.gen, x.holder.plan[x.holder.done]);
  }

  /** A swap serves the generation built and leaves a cleanup thread behind that spares it. */
  lemma SwapServes(x: State)
    requires x.holder.Rebuilding? && x.holder.done == |x.holder.plan|
    ensures var h := x.holder;
      Next(x, Swap, State(x.db, h.gen, Built(h.plan), Swapped, x.cleanups + {h.gen}))
  {}

  /** A cleanup thread deletes the nodes of every generation but its own. */
  lemma CleanupIsDelete(x: State, own: int)
    requires own in x.cleanups && AllSound(x.db)
    ensures Next(x, Cleanup(own),
                 State(x.db.DetachDelete(set n | n in x.db.nodes && n.gen != own), x.active, x.expected, x.holder,
                       x.cleanups - {own}))
  {
    hide AllSound;
    var db := x.db.DetachDelete(set n | n in x.db.nodes && n.gen != own);
    OwnIsKept(x.db, own);
    forall g | g != own
      ensures View(db, g) == NOTHING
    {
      SliceIsSound(x.db, g);
      Neo4jGraphIndex.OtherGenGone(x.db, own, g);
    }
  }

  lemma OwnIsKept(db: Database, own: int)
    ensures View(db.DetachDelete(set n | n in db.nodes && n.gen != own), own) == View(db, own)
  {}

  /** An update removes symbols from the live generation, and what readers are to see loses them too. */
  lemma SyncRemoveIsDelete(x: State, gone: set<string>)
    requires x.holder == Syncing && AllSound(x.db)
    ensures Next(x, SyncRemove(gone),
                 State(x.db.DetachDelete(set n | n in x.db.nodes && n.gen == x.active && n.id in gone), x.active,
                       Without(x.expected, gone), Syncing, x.cleanups))
  {
    hide View, Without;
    SliceIsSound(x.db, x.active);
    DetachDeleteIds(x.db, x.active, gone, set n | n in x.db.nodes && n.gen == x.active && n.id in gone);
  }

  /** Its other statements work on the live generation, and readers are to see each of them. */
  lemma SyncPutIsStatement(x: State, st: Statement)
    requires x.holder == Syncing
    ensures Next(x, SyncPut(st), State(Do(x.db, x.active, st), x.active, Put(x.expected, st), Syncing, x.cleanups))
  {
    hide View, Put, Do;
    DoPuts(x.db, x.active, st);
  }

  /** The mutex goes to an update or back, and a restart serves the highest generation with a node. */
  lemma MutexAndRestart(x: State, gen: int)
    ensures x.holder == Free ==> Next(x, SyncBegin, State(x.db, x.active, x.expected, Syncing, x.cleanups))
    ensures x.holder != Free ==> Next(x, Release, State(x.db, x.active, x.expected, Free, x.cleanups))
    ensures IsCurrentGen(x.db, gen) ==> Next(x, Restart(gen), State(x.db, gen, x.expected, Free, {}))
  {
    hide IsCurrentGen;
  }
}
