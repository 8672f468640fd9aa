/** The neighbours of the root: for each of them, from the root's own neighbourhood, whether what lies beyond it is
    listed. A symbol that calls the root and is called by it has two turns, and only one neighbourhood is listed. */
module MutualNeighbours {
  import opened GraphState
  import opened Ordering
  import opened Traversal
  import opened TraversalMisses
  import opened Walks

  /** The root's neighbours in one direction, each once and without the root itself, in the order they are queued. */
  function Adjacent(hood: string -> Neighborhood, root: string, dir: Direction): seq<string> {
    News({(root, Up), (root, Down)}, Forward(hood(root), dir), dir)
  }

  /** The last of `xs` that is not blocked, or the root. */
  function LastOpen(root: string, blocked: set<string>, xs: seq<string>): string {
    if xs == [] then root
    else if Open(root, blocked, xs[|xs| - 1]) then xs[|xs| - 1] else LastOpen(root, blocked, xs[..|xs| - 1])
  }

  /** How many of `xs` are blocked before the first that is not. */
  function LeadBlocked(root: string, blocked: set<string>, xs: seq<string>): (n: nat)
    ensures n <= |xs| && (n < |xs| ==> Open(root, blocked, xs[n]))
    ensures forall i :: 0 <= i < n ==> !Open(root, blocked, xs[i])
  {
    if xs == [] || Open(root, blocked, xs[0]) then 0 else 1 + LeadBlocked(root, blocked, xs[1..])
  }

  ghost function Opens(root: string, blocked: set<string>, xs: seq<string>): set<string> {
    set y | y in xs && Open(root, blocked, y)
  }

  lemma AdjacentAreDistinct(hood: string -> Neighborhood, root: string, dir: Direction)
    ensures root !in Adjacent(hood, root, dir)
    ensures forall i, j :: 0 <= i < j < |Adjacent(hood, root, dir)| ==>
              Adjacent(hood, root, dir)[i] != Adjacent(hood, root, dir)[j]
  {
    var visited: set<(string, Direction)> := {(root, Up), (root, Down)};
    NewsMeaning(visited, Forward(hood(root), dir), dir);
    NewsAreDistinct(visited, Forward(hood(root), dir), dir);
    assert dir == Up || dir == Down;
  }

  // ---- The first layer ----

  /** The entry of the first layer at place `j`: the callers, then the callees. */
  function LayerEntry(up: seq<string>, down: seq<string>, j: nat): Entry
    requires j < |up| + |down|
  {
    if j < |up| then Entry(up[j], 1, Up) else Entry(down[j - |up|], 1, Down)
  }

  /** The names of the first `k` places. */
  ghost function Names(up: seq<string>, down: seq<string>, k: nat): seq<string>
    requires k <= |up| + |down|
  {
    (up + down)[..k]
  }

  /** `k` turns into the first layer: the rest of it is at the front of the queue, the others are listed. */
  ghost predicate InLayer(hood: string -> Neighborhood, root: string, blocked: set<string>, up: seq<string>,
                          down: seq<string>, k: nat, s: Turns) {
    && k <= |up| + |down| <= k + |s.queue|
    && (forall j :: 0 <= j < |up| + |down| - k ==> s.queue[j] == LayerEntry(up, down, k + j))
    && OwnHoods(hood, s.listed) && s.listed != []
    && Emitted(s.listed) == {root} + Opens(root, blocked, Names(up, down, k))
  }

  /** No callee had its turn yet unless it is blocked: behind the first layer everything goes up, and the symbol
      listed last is a caller. */
  ghost predicate OnlyUp(root: string, blocked: set<string>, up: seq<string>, down: seq<string>, k: nat, s: Turns) {
    && s.listed != [] && k <= |up| + |down|
    && (forall j :: |up| + |down| - k <= j < |s.queue| ==> s.queue[j].dir == Up)
    && s.listed[|s.listed| - 1].symbolId == LastOpen(root, blocked, if k < |up| then up[..k] else up)
  }

  lemma NewsOfDirection(visited: set<(string, Direction)>, more: set<(string, Direction)>, xs: seq<string>,
                        dir: Direction)
    requires forall v :: v in more ==> v.1 != dir
    ensures News(visited + more, xs, dir) == News(visited, xs, dir)
  {}

  /** The two turns of the root put its callers and then its callees in the queue. */
  lemma RootTurns(hood: string -> Neighborhood, root: string, depth: int, blocked: set<string>)
    requires depth >= 1 && hood(root).symbolId == root
    ensures
      var s := AfterTurns(hood, root, depth, blocked, 1);
      && s.listed == [hood(root)]
      && s.queue == [Entry(root, 0, Down)] + Entries(Adjacent(hood, root, Up), 1, Up)
    ensures
      var s := AfterTurns(hood, root, depth, blocked, 2);
      && s.listed == [hood(root)]
      && s.queue == Entries(Adjacent(hood, root, Up), 1, Up) + Entries(Adjacent(hood, root, Down), 1, Down)
  {
    hide Forward, News, Emitted, Paired;
    var first := Start(root);
    var up := Adjacent(hood, root, Up);
    NothingEmitted();
    OneEmitted(hood(root));
    assert AfterTurns(hood, root, depth, blocked, 0) == first;
    var s := AfterTurns(hood, root, depth, blocked, 1);
    assert [] + [hood(root)] == [hood(root)];
    assert s == Turn(hood, root, depth, blocked, first);
    assert s.visited == first.visited + Paired(up, Up);
    PairedGo(up, Up);
    NewsOfDirection(first.visited, Paired(up, Up), Forward(hood(root), Down), Down);
    assert s.queue[1..] == Entries(up, 1, Up);
    assert AfterTurns(hood, root, depth, blocked, 2) == Turn(hood, root, depth, blocked, s);
  }

  lemma PairedGo(news: seq<string>, dir: Direction)
    ensures forall v :: v in Paired(news, dir) ==> v.1 == dir
  {}

  lemma LayerStarts(hood: string -> Neighborhood, root: string, depth: int, blocked: set<string>)
    requires depth >= 1 && hood(root).symbolId == root
    ensures
      var up, down := Adjacent(hood, root, Up), Adjacent(hood, root, Down);
      var s := AfterTurns(hood, root, depth, blocked, 2);
      InLayer(hood, root, blocked, up, down, 0, s) && OnlyUp(root, blocked, up, down, 0, s)
  {
    hide AfterTurns, Adjacent, Emitted, Open;
    RootTurns(hood, root, depth, blocked);
    OneEmitted(hood(root));
    assert Opens(root, blocked, []) == {};
  }

  lemma OneName(root: string, blocked: set<string>, up: seq<string>, down: seq<string>, k: nat)
    requires k < |up| + |down|
    ensures
      var x := LayerEntry(up, down, k).id;
      Opens(root, blocked, Names(up, down, k + 1)) ==
      Opens(root, blocked, Names(up, down, k)) + (if Open(root, blocked, x) then {x} else {})
  {
    hide Open;
    assert Names(up, down, k + 1) == Names(up, down, k) + [LayerEntry(up, down, k).id];
  }

  /** A turn takes the head off and puts entries of its own direction at the back. */
  lemma QueueAfter(hood: string -> Neighborhood, root: string, depth: int, blocked: set<string>, s: Turns)
    requires s.queue != []
    ensures
      var t := Turn(hood, root, depth, blocked, s);
      var e := s.queue[0];
      && t.listed == (if Open(root, blocked, e.id) then Shown(hood, s) else s.listed)
      && |t.queue| >= |s.queue| - 1
      && (forall j :: 0 <= j < |s.queue| - 1 ==> t.queue[j] == s.queue[j + 1])
      && (forall j :: |s.queue| - 1 <= j < |t.queue| ==> t.queue[j].dir == e.dir && Open(root, blocked, e.id))
  {
    hide Emitted, Forward, News, Paired;
  }

  lemma LayerTurn(hood: string -> Neighborhood, root: string, depth: int, blocked: set<string>, up: seq<string>,
                  down: seq<string>, k: nat, s: Turns)
    requires k < |up| + |down| && InLayer(hood, root, blocked, up, down, k, s)
    requires forall x :: hood(x).symbolId == x
    ensures InLayer(hood, root, blocked, up, down, k + 1, Turn(hood, root, depth, blocked, s))
  {
    hide Emitted, Turn, Open, Names;
    var e, t := s.queue[0], Turn(hood, root, depth, blocked, s);
    assert s.queue[0] == LayerEntry(up, down, k + 0);
    QueueAfter(hood, root, depth, blocked, s);
    OneName(root, blocked, up, down, k);
    EmittedGrows(s.listed, hood(e.id));
    forall j | 0 <= j < |up| + |down| - (k + 1)
      ensures t.queue[j] == LayerEntry(up, down, k + 1 + j)
    {
      assert s.queue[j + 1] == LayerEntry(up, down, k + (j + 1));
    }
  }

  lemma UpTurn(hood: string -> Neighborhood, root: string, depth: int, blocked: set<string>, up: seq<string>,
               down: seq<string>, k: nat, s: Turns)
    requires k < |up| + |down| && InLayer(hood, root, blocked, up, down, k, s) && OnlyUp(root, blocked, up, down, k, s)
    requires forall x :: hood(x).symbolId == x
    requires root !in up && forall i, j :: 0 <= i < j < |up| ==> up[i] != up[j]
    requires k < |up| || !Open(root, blocked, down[k - |up|])
    ensures OnlyUp(root, blocked, up, down, k + 1, Turn(hood, root, depth, blocked, s))
  {
    hide Emitted, Turn, Open, LastOpen;
    var e, t := s.queue[0], Turn(hood, root, depth, blocked, s);
    assert s.queue[0] == LayerEntry(up, down, k + 0);
    QueueAfter(hood, root, depth, blocked, s);
    forall j | |up| + |down| - (k + 1) <= j < |t.queue|
      ensures t.queue[j].dir == Up
    {
      if j < |s.queue| - 1 {
        assert t.queue[j] == s.queue[j + 1];
      }
    }
    if k < |up| {
      assert Names(up, down, k) == up[..k];
      LastOpenGrows(root, blocked, up, k);
      assert e.id !in Opens(root, blocked, up[..k]);
    }
  }

  lemma LastOpenGrows(root: string, blocked: set<string>, xs: seq<string>, k: nat)
    requires k < |xs|
    ensures LastOpen(root, blocked, if k + 1 < |xs| then xs[..k + 1] else xs) ==
            if Open(root, blocked, xs[k]) then xs[k] else LastOpen(root, blocked, xs[..k])
  {
    hide Open;
    assert xs[..k + 1][..k] == xs[..k];
    assert k + 1 == |xs| ==> xs[..k + 1] == xs;
  }

  lemma {:induction false} EveryLayerTurn(hood: string -> Neighborhood, root: string, depth: int, blocked: set<string>,
                                          k: nat)
    requires depth >= 1 && forall x :: hood(x).symbolId == x
    requires k <= |Adjacent(hood, root, Up)| + |Adjacent(hood, root, Down)|
    ensures
      var up, down := Adjacent(hood, root, Up), Adjacent(hood, root, Down);
      var s := AfterTurns(hood, root, depth, blocked, 2 + k);
      && InLayer(hood, root, blocked, up, down, k, s)
      && (k <= |up| + LeadBlocked(root, blocked, down) ==> OnlyUp(root, blocked, up, down, k, s))
  {
    hide InLayer, OnlyUp, Adjacent, Turn, Open, AfterTurns, LeadBlocked;
    var up, down := Adjacent(hood, root, Up), Adjacent(hood, root, Down);
    if k == 0 {
      LayerStarts(hood, root, depth, blocked);
    } else {
      EveryLayerTurn(hood, root, depth, blocked, k - 1);
      var s := AfterTurns(hood, root, depth, blocked, 2 + (k - 1));
      LayerHasHead(hood, root, blocked, up, down, k - 1, s);
      NextTurn(hood, root, depth, blocked, 2 + (k - 1));
      LayerTurn(hood, root, depth, blocked, up, down, k - 1, s);
      AdjacentAreDistinct(hood, root, Up);
      if k <= |up| + LeadBlocked(root, blocked, down) {
        UpTurn(hood, root, depth, blocked, up, down, k - 1, s);
      }
    }
  }

  lemma NextTurn(hood: string -> Neighborhood, root: string, depth: int, blocked: set<string>, n: nat)
    requires AfterTurns(hood, root, depth, blocked, n).queue != []
    ensures AfterTurns(hood, root, depth, blocked, n + 1) ==
            Turn(hood, root, depth, blocked, AfterTurns(hood, root, depth, blocked, n))
  {
    hide Turn;
  }

  lemma LayerHasHead(hood: string -> Neighborhood, root: string, blocked: set<string>, up: seq<string>,
                     down: seq<string>, k: nat, s: Turns)
    requires InLayer(hood, root, blocked, up, down, k, s) && k < |up| + |down|
    ensures s.queue != [] && s.queue[0] == LayerEntry(up, down, k)
  {
    assert k < |up| + |down| ==> s.queue[0] == LayerEntry(up, down, k + 0);
  }

  // ---- Where the first turn of a symbol goes the right way ----

  /** Nothing beyond a neighbour of the root is listed with a depth of less than two. */
  lemma ShallowListsNone(hood: string -> Neighborhood, root: string, depth: nat, blocked: set<string>, x: string,
                         dir: Direction, b: string, r: seq<Neighborhood>)
    requires OnlyThrough(hood, b, x, dir) && b != root && x != root && forall y :: hood(y).symbolId == y
    requires IsTraversal(hood, root, depth, blocked, r) && depth < 2
    ensures b !in Emitted(r)
  {
    hide IsTraversal, Forward;
    TraversalIsSound(hood, root, depth, blocked, r);
    if b in Emitted(r) {
      NearGrows(hood, root, b, depth, 1);
      OneStepAway(hood, root, b);
    }
  }

  lemma OneStepAway(hood: string -> Neighborhood, root: string, b: string)
    requires Near(hood, root, b, 1) && b != root
    ensures b in Forward(hood(root), Up) || b in Forward(hood(root), Down)
  {
    hide Forward;
    assert !Near(hood, root, b, 0);
  }

  lemma FirstTurnReads(hood: string -> Neighborhood, root: string, depth: nat, blocked: set<string>, x: string,
                       dir: Direction, k: nat)
    requires depth >= 2 && x != root && x !in blocked && forall y :: hood(y).symbolId == y
    requires
      var up, down := Adjacent(hood, root, Up), Adjacent(hood, root, Down);
      && k < |up| + |down| && LayerEntry(up, down, k) == Entry(x, 1, dir) && x !in Names(up, down, k)
    ensures ReadsOff(hood, root, depth, blocked, 2 + k, x, dir)
  {
    hide Adjacent, AfterTurns, Emitted, Names;
    var up, down := Adjacent(hood, root, Up), Adjacent(hood, root, Down);
    var s := AfterTurns(hood, root, depth, blocked, 2 + k);
    EveryLayerTurn(hood, root, depth, blocked, k);
    LayerHasHead(hood, root, blocked, up, down, k, s);
    assert x !in Emitted(s.listed);
  }

  /** The first turn of a caller goes up, and the first turn of a callee that is no caller goes down: what is met
      only beyond it in that direction is listed exactly when the depth is at least two. */
  lemma FirstTurnIff(hood: string -> Neighborhood, root: string, depth: nat, blocked: set<string>, x: string,
                     dir: Direction, b: string, r: seq<Neighborhood>)
    requires forall y :: hood(y).symbolId == y
    requires x !in blocked && x in Adjacent(hood, root, dir) && (dir == Down ==> x !in Adjacent(hood, root, Up))
    requires OnlyThrough(hood, b, x, dir) && b != root && b !in blocked
    requires IsTraversal(hood, root, depth, blocked, r)
    ensures b in Emitted(r) <==> depth >= 2
  {
    hide Adjacent, IsTraversal, Emitted, ReadsOff, OnlyThrough;
    var up, down := Adjacent(hood, root, Up), Adjacent(hood, root, Down);
    AdjacentAreDistinct(hood, root, Up);
    AdjacentAreDistinct(hood, root, Down);
    if depth < 2 {
      ShallowListsNone(hood, root, depth, blocked, x, dir, b, r);
    } else {
      SoleNeighbourIff(hood, root, depth, blocked, b, x, dir, r);
      assert dir == Up || dir == Down;
      var i :| 0 <= i < |Adjacent(hood, root, dir)| && Adjacent(hood, root, dir)[i] == x;
      FirstTurnReads(hood, root, depth, blocked, x, dir, if dir == Up then i else |up| + i);
    }
  }

  // ---- A caller that is expanded downwards ----

  /** Another symbol has been listed after `x`. */
  ghost predicate Past(hood: string -> Neighborhood, x: string, s: Turns) {
    && x in Emitted(s.listed) && s.listed != [] && s.listed[|s.listed| - 1].symbolId != x
    && OwnHoods(hood, s.listed)
  }

  lemma StaysPast(hood: string -> Neighborhood, root: string, depth: int, blocked: set<string>, x: string, s: Turns)
    requires Past(hood, x, s) && s.queue != [] && forall y :: hood(y).symbolId == y
    ensures Past(hood, x, Turn(hood, root, depth, blocked, s))
    ensures Shown(hood, s) != [] && Shown(hood, s)[|Shown(hood, s)| - 1].symbolId != x
  {
    hide Turn, Emitted, Open;
    QueueAfter(hood, root, depth, blocked, s);
    EmittedGrows(s.listed, hood(s.queue[0].id));
  }

  lemma {:induction false} PastReadsNothing(hood: string -> Neighborhood, root: string, depth: int,
                                            blocked: set<string>, x: string, dir: Direction, m: nat, n: nat)
    requires m <= n && Past(hood, x, AfterTurns(hood, root, depth, blocked, m)) && forall y :: hood(y).symbolId == y
    ensures Past(hood, x, AfterTurns(hood, root, depth, blocked, n))
    ensures !ReadsOff(hood, root, depth, blocked, n, x, dir)
    decreases n - m
  {
    hide Past, Turn, Open;
    if m < n {
      PastReadsNothing(hood, root, depth, blocked, x, dir, m, n - 1);
      var s := AfterTurns(hood, root, depth, blocked, n - 1);
      if s.queue != [] {
        StaysPast(hood, root, depth, blocked, x, s);
      }
    }
    var s := AfterTurns(hood, root, depth, blocked, n);
    if s.queue != [] {
      StaysPast(hood, root, depth, blocked, x, s);
    }
  }

  ghost predicate AllUp(s: Turns) {
    forall j :: 0 <= j < |s.queue| ==> s.queue[j].dir == Up
  }

  lemma {:induction false} AllUpReadsNothing(hood: string -> Neighborhood, root: string, depth: int,
                                             blocked: set<string>, x: string, m: nat, n: nat)
    requires m <= n && AllUp(AfterTurns(hood, root, depth, blocked, m))
    ensures AllUp(AfterTurns(hood, root, depth, blocked, n))
    ensures !ReadsOff(hood, root, depth, blocked, n, x, Down)
    decreases n - m
  {
    hide Turn, Open, Shown;
    if m < n {
      AllUpReadsNothing(hood, root, depth, blocked, x, m, n - 1);
      var s := AfterTurns(hood, root, depth, blocked, n - 1);
      if s.queue != [] {
        QueueAfter(hood, root, depth, blocked, s);
      }
    }
  }

  /** Whether the downward turn of some caller comes while `x` is the symbol listed last: `x` is the last caller
      that is not blocked, and the first callee that is not blocked is a caller too. */
  ghost predicate LastCallerFirst(hood: string -> Neighborhood, root: string, blocked: set<string>, x: string) {
    var up, down := Adjacent(hood, root, Up), Adjacent(hood, root, Down);
    var n := LeadBlocked(root, blocked, down);
    LastOpen(root, blocked, up) == x && n < |down| && down[n] in up
  }

  lemma OpenIsListed(hood: string -> Neighborhood, root: string, blocked: set<string>, up: seq<string>,
                     down: seq<string>, k: nat, s: Turns, x: string)
    requires InLayer(hood, root, blocked, up, down, k, s) && |up| <= k && Open(root, blocked, x)
    ensures x in up ==> x in Emitted(s.listed)
  {
    hide Open, Emitted;
    if x in up {
      var i :| 0 <= i < |up| && up[i] == x;
      assert Names(up, down, k)[i] == x;
    }
  }

  lemma LastCallerIsRead(hood: string -> Neighborhood, root: string, depth: nat, blocked: set<string>, x: string)
    requires depth >= 2 && LastCallerFirst(hood, root, blocked, x) && forall y :: hood(y).symbolId == y
    ensures exists k: nat :: ReadsOff(hood, root, depth, blocked, k, x, Down)
  {
    hide Adjacent, AfterTurns, Emitted, InLayer, LastOpen, LeadBlocked, Open;
    var up, down := Adjacent(hood, root, Up), Adjacent(hood, root, Down);
    var n := LeadBlocked(root, blocked, down);
    var s := AfterTurns(hood, root, depth, blocked, 2 + (|up| + n));
    EveryLayerTurn(hood, root, depth, blocked, |up| + n);
    LayerHasHead(hood, root, blocked, up, down, |up| + n, s);
    OpenIsListed(hood, root, blocked, up, down, |up| + n, s, down[n]);
    assert ReadsOff(hood, root, depth, blocked, 2 + (|up| + n), x, Down);
  }

  lemma EarlyReadsNothing(hood: string -> Neighborhood, root: string, depth: nat, blocked: set<string>, x: string,
                          k: nat)
    requires depth >= 1 && x != root && forall y :: hood(y).symbolId == y
    requires k < 2 + |Adjacent(hood, root, Up)| + LeadBlocked(root, blocked, Adjacent(hood, root, Down))
    ensures !ReadsOff(hood, root, depth, blocked, k, x, Down)
  {
    hide Adjacent, Emitted, InLayer, LastOpen, LeadBlocked, Open;
    var up, down := Adjacent(hood, root, Up), Adjacent(hood, root, Down);
    if k == 0 {
    } else if k == 1 {
      hide AfterTurns;
      RootTurns(hood, root, depth, blocked);
      OneEmitted(hood(root));
    } else {
      hide AfterTurns;
      EveryLayerTurn(hood, root, depth, blocked, k - 2);
      LayerHasHead(hood, root, blocked, up, down, k - 2, AfterTurns(hood, root, depth, blocked, 2 + (k - 2)));
    }
  }

  /** Where the callees' turns begin: `x` is not the symbol listed last, or no callee has a turn. */
  lemma CalleesBegin(hood: string -> Neighborhood, root: string, depth: nat, blocked: set<string>, x: string)
    requires depth >= 1 && x !in blocked && forall y :: hood(y).symbolId == y
    requires x in Adjacent(hood, root, Up)
    ensures
      var up, down := Adjacent(hood, root, Up), Adjacent(hood, root, Down);
      var n := LeadBlocked(root, blocked, down);
      var s := AfterTurns(hood, root, depth, blocked, 2 + (|up| + n));
      && InLayer(hood, root, blocked, up, down, |up| + n, s) && x in Emitted(s.listed)
      && (LastOpen(root, blocked, up) != x ==> Past(hood, x, s))
      && (n == |down| ==> AllUp(s))
  {
    hide Adjacent, AfterTurns, Emitted, LastOpen, LeadBlocked;
    var up, down := Adjacent(hood, root, Up), Adjacent(hood, root, Down);
    var n := LeadBlocked(root, blocked, down);
    EveryLayerTurn(hood, root, depth, blocked, |up| + n);
    OpenIsListed(hood, root, blocked, up, down, |up| + n, AfterTurns(hood, root, depth, blocked, 2 + (|up| + n)), x);
  }

  /** From then on nothing is expanded downwards while `x` is the symbol listed last. */
  lemma LateReadsNothing(hood: string -> Neighborhood, root: string, depth: nat, blocked: set<string>, x: string,
                         k: nat)
    requires depth >= 1 && x !in blocked && forall y :: hood(y).symbolId == y
    requires x in Adjacent(hood, root, Up) && !LastCallerFirst(hood, root, blocked, x)
    requires k >= 2 + |Adjacent(hood, root, Up)| + LeadBlocked(root, blocked, Adjacent(hood, root, Down))
    ensures !ReadsOff(hood, root, depth, blocked, k, x, Down)
  {
    hide Adjacent, AfterTurns, Emitted, LastOpen, LeadBlocked, InLayer, Past, AllUp, ReadsOff;
    var up, down := Adjacent(hood, root, Up), Adjacent(hood, root, Down);
    var n := LeadBlocked(root, blocked, down);
    var m := 2 + (|up| + n);
    CalleesBegin(hood, root, depth, blocked, x);
    if LastOpen(root, blocked, up) != x {
      PastReadsNothing(hood, root, depth, blocked, x, Down, m, k);
    } else if n == |down| {
      AllUpReadsNothing(hood, root, depth, blocked, x, m, k);
    } else {
      AnotherComesFirst(hood, root, depth, blocked, x, m);
      if k > m {
        PastReadsNothing(hood, root, depth, blocked, x, Down, m + 1, k);
      }
    }
  }

  lemma AnotherComesFirst(hood: string -> Neighborhood, root: string, depth: nat, blocked: set<string>, x: string,
                          m: nat)
    requires forall y :: hood(y).symbolId == y
    requires
      var up, down := Adjacent(hood, root, Up), Adjacent(hood, root, Down);
      var n := LeadBlocked(root, blocked, down);
      var s := AfterTurns(hood, root, depth, blocked, m);
      && n < |down| && down[n] !in up && x in up && x in Emitted(s.listed)
      && InLayer(hood, root, blocked, up, down, |up| + n, s)
    ensures Past(hood, x, AfterTurns(hood, root, depth, blocked, m + 1))
    ensures !ReadsOff(hood, root, depth, blocked, m, x, Down)
  {
    hide Adjacent, Emitted, LeadBlocked, Open, Turn, AfterTurns;
    var up, down := Adjacent(hood, root, Up), Adjacent(hood, root, Down);
    var n := LeadBlocked(root, blocked, down);
    var s := AfterTurns(hood, root, depth, blocked, m);
    LayerHasHead(hood, root, blocked, up, down, |up| + n, s);
    AdjacentAreDistinct(hood, root, Down);
    NotNamedYet(root, blocked, up, down, n);
    QueueAfter(hood, root, depth, blocked, s);
    EmittedGrows(s.listed, hood(down[n]));
    NextTurn(hood, root, depth, blocked, m);
  }

  lemma NotNamedYet(root: string, blocked: set<string>, up: seq<string>, down: seq<string>, n: nat)
    requires n < |down| && down[n] !in up && forall i, j :: 0 <= i < j < |down| ==> down[i] != down[j]
    ensures down[n] !in Opens(root, blocked, Names(up, down, |up| + n))
  {
    hide Open;
    assert Names(up, down, |up| + n) == up + down[..n];
  }

  /** What a callee of the root calls lies in the cone below the root. */
  lemma BeyondIsInCone(hood: string -> Neighborhood, root: string, blocked: set<string>, universe: set<string>,
                       x: string, b: string)
    requires Covers(hood, root, universe) && x !in blocked && x in Adjacent(hood, root, Down)
    requires b in Forward(hood(x), Down)
    ensures InCone(hood, root, blocked, universe, b, Down, 2)
  {
    hide Forward;
    NewsMeaning({(root, Up), (root, Down)}, Forward(hood(root), Down), Down);
    var edges := DirectedPairs(hood, root, blocked, universe, Down);
    assert (root, x) in edges && (x, b) in edges;
    assert IsWalk(edges, [root, x, b]);
  }

  /** Whatever the graph: what is met only as a callee of a caller `x` of the root is listed exactly when the depth
      is at least two, `x` is the last caller that is not blocked, and the first callee of the root that is not
      blocked is one of its callers too. By BeyondIsInCone it is missed when `x` is a callee as well. */
  lemma MutualNeighbourIff(hood: string -> Neighborhood, root: string, depth: nat, blocked: set<string>, x: string,
                           b: string, r: seq<Neighborhood>)
    requires forall y :: hood(y).symbolId == y
    requires x !in blocked && x in Adjacent(hood, root, Up)
    requires OnlyThrough(hood, b, x, Down) && b != root && b !in blocked
    requires IsTraversal(hood, root, depth, blocked, r)
    ensures b in Emitted(r) <==> depth >= 2 && LastCallerFirst(hood, root, blocked, x)
  {
    hide Adjacent, IsTraversal, Emitted, ReadsOff, OnlyThrough, LastCallerFirst, LeadBlocked;
    AdjacentAreDistinct(hood, root, Up);
    if depth < 2 {
      ShallowListsNone(hood, root, depth, blocked, x, Down, b, r);
    } else {
      SoleNeighbourIff(hood, root, depth, blocked, b, x, Down, r);
      if LastCallerFirst(hood, root, blocked, x) {
        LastCallerIsRead(hood, root, depth, blocked, x);
      } else {
        forall k: nat
          ensures !ReadsOff(hood, root, depth, blocked, k, x, Down)
        {
          if k < 2 + |Adjacent(hood, root, Up)| + LeadBlocked(root, blocked, Adjacent(hood, root, Down)) {
            EarlyReadsNothing(hood, root, depth, blocked, x, k);
          } else {
            LateReadsNothing(hood, root, depth, blocked, x, k);
          }
        }
      }
    }
  }

  // ---- The call graph with an overlap again ----

  lemma ClashNeighbours(y: string)
    ensures "b" in Forward(Clash()(y), Up) <==> false
    ensures "b" in Forward(Clash()(y), Down) <==> y == "a"
  {
    hide ClashIndex, Sorted, At;
    ClashLinks(y);
    SortedHas(ClashUp(y), "b");
    SortedHas(ClashDown(y), "b");
    SortedHas({}, "b");
  }

  lemma SortedHas(s: set<string>, x: string)
    ensures x in Sorted(s) <==> x in s
  {
    assert x in Sorted(s) <==> x in Elements(Sorted(s));
  }

  lemma ClashCallers()
    ensures Adjacent(Clash(), "r", Up) == ["a", "z"] && Adjacent(Clash(), "r", Down) == ["a"]
  {
    hide Clash, Forward, News;
    ClashLists();
    var visited: set<(string, Direction)> := {("r", Up), ("r", Down)};
    NoNews(visited, Up);
    NoNews(visited, Down);
    NewsAppend(visited, [], "a", Up);
    NewsAppend(visited, ["a"], "z", Up);
    NewsAppend(visited, [], "a", Down);
    assert [] + ["a"] == ["a"];
  }

  /** There `a` calls the root and is called by it, but `z` is its last caller: `b`, which only `a` calls, is missed. */
  lemma ClashIsDecided(r: seq<Neighborhood>)
    requires IsTraversal(Clash(), "r", 2, {}, r)
    ensures OnlyThrough(Clash(), "b", "a", Down) && !LastCallerFirst(Clash(), "r", {}, "a")
    ensures "b" !in Emitted(r)
  {
    hide Clash, Adjacent, IsTraversal, Emitted, Forward;
    ClashCallers();
    ClashLists();
    forall y, d
      ensures "b" in Forward(Clash()(y), d) <==> y == "a" && d == Down
    {
      assert d == Up || d == Down;
      ClashNeighbours(y);
    }
    assert LastOpen("r", {}, ["a", "z"]) == "z";
    MutualNeighbourIff(Clash(), "r", 2, {}, "a", "b", r);
  }
}
