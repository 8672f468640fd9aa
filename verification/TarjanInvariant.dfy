/** What every step of the explicit-stack search for strongly connected components keeps, and why a
    finished root closes a component. The search is seen here through sets and maps; the work list and
    the stack of the program are tied to them in module StronglyConnected. */
module TarjanInvariant {
  import opened Walks

  /** `index` numbers the visited symbols below `count`, `stacked` are those not yet in a component, `open`
      those still on the work list. `link[v]` is the stacked symbol whose number is `lowlink[v]`, `owner[v]`
      the last open symbol numbered no later than `v`, and `seen` the edges the search has looked at. */
  datatype State<!T> = State(count: int, index: map<T, int>, stacked: set<T>, open: set<T>,
                             link: map<T, T>, owner: map<T, T>, seen: set<(T, T)>)

  /** A strongly connected component: mutually reachable and maximal. */
  ghost predicate IsComponent<T(!new)>(edges: set<(T, T)>, c: set<T>) {
    && c != {}
    && (forall a, b :: a in c && b in c ==> Reach(edges, a, b))
    && (forall a, b :: a in c && Reach(edges, a, b) && Reach(edges, b, a) ==> b in c)
  }

  ghost predicate Numbered<T(!new)>(s: State<T>) {
    && 0 <= s.count
    && s.stacked <= s.index.Keys
    && s.open <= s.stacked
    && (forall v :: v in s.index ==> 0 <= s.index[v] < s.count)
    && (forall v, w :: v in s.index && w in s.index && s.index[v] == s.index[w] ==> v == w)
  }

  ghost predicate Owned<T(!new)>(s: State<T>) {
    && (forall v {:trigger s.owner[v]} {:trigger v in s.owner} :: v in s.stacked ==> v in s.owner)
    && (forall v {:trigger s.owner[v]} :: v in s.stacked && v in s.owner && v in s.index ==>
          s.owner[v] in s.open && s.owner[v] in s.index && s.index[s.owner[v]] <= s.index[v])
    && (forall v {:trigger s.owner[v]} :: v in s.open && v in s.owner ==> s.owner[v] == v)
  }

  /** No open symbol is numbered between a stacked symbol and its owner. */
  ghost predicate OwnerIsLast<T(!new)>(s: State<T>) {
    forall v, a {:trigger s.owner[v], a in s.open} ::
      v in s.stacked && v in s.owner && v in s.index && a in s.open && a in s.index && s.owner[v] in s.index
      && s.index[a] <= s.index[v]
      ==> s.index[a] <= s.index[s.owner[v]]
  }

  ghost predicate Joined<T(!new)>(edges: set<(T, T)>, s: State<T>) {
    && (forall v {:trigger s.owner[v]} :: v in s.stacked && v in s.owner ==> Reach(edges, s.owner[v], v))
    && (forall a, b :: a in s.open && b in s.open && a in s.index && b in s.index && s.index[a] <= s.index[b] ==>
                         Reach(edges, a, b))
  }

  ghost predicate Explored<T(!new)>(edges: set<(T, T)>, s: State<T>) {
    && (forall a, b :: (a, b) in s.seen ==> (a, b) in edges && a in s.index && b in s.index)
    && (forall a, b :: (a, b) in edges && a in s.index && a !in s.open ==> (a, b) in s.seen)
    && (forall a, b :: (a, b) in s.seen && a !in s.stacked ==> b !in s.stacked)
  }

  ghost predicate Linked<T(!new)>(s: State<T>) {
    && (forall v {:trigger s.link[v]} {:trigger v in s.link} :: v in s.stacked ==> v in s.link)
    && (forall v {:trigger s.link[v]} :: v in s.stacked && v in s.link && v in s.index ==>
          && s.link[v] in s.stacked && s.link[v] in s.index && s.index[s.link[v]] <= s.index[v]
          && (v !in s.open ==> s.index[s.link[v]] < s.index[v]))
  }

  ghost predicate LinkSound<T(!new)>(edges: set<(T, T)>, s: State<T>) {
    Linked(s) && forall v {:trigger s.link[v]} :: v in s.stacked && v in s.link ==> Reach(edges, v, s.link[v])
  }

  /** The number `lowlink[v]` stands for. */
  ghost function Low<T>(s: State<T>, v: T): int {
    if v in s.link && s.link[v] in s.index then s.index[s.link[v]] else 0
  }

  ghost predicate LinkComplete<T(!new)>(s: State<T>) {
    forall v, b :: (v, b) in s.seen && v in s.stacked && b in s.stacked && v in s.owner && b in s.index ==>
                     Low(s, s.owner[v]) <= s.index[b]
  }

  ghost predicate Inv<T(!new)>(edges: set<(T, T)>, s: State<T>) {
    && Numbered(s) && Owned(s) && OwnerIsLast(s) && Joined(edges, s) && Explored(edges, s)
    && LinkSound(edges, s) && LinkComplete(s)
  }

  // ---- Visiting a new symbol ----

  /** `v` gets the next number, goes on the stack and becomes the last open symbol. */
  ghost function Visit<T(!new)>(s: State<T>, v: T): State<T> {
    State(s.count + 1, s.index[v := s.count], s.stacked + {v}, s.open + {v}, s.link[v := v], s.owner[v := v], s.seen)
  }

  lemma VisitNumbered<T(!new)>(s: State<T>, v: T)
    requires Numbered(s) && v !in s.index
    ensures Numbered(Visit(s, v))
  {}

  lemma VisitOwned<T(!new)>(s: State<T>, v: T)
    requires Numbered(s) && Owned(s) && v !in s.index
    ensures Owned(Visit(s, v))
  {}

  lemma VisitOwnerIsLast<T(!new)>(s: State<T>, v: T)
    requires Numbered(s) && Owned(s) && OwnerIsLast(s) && v !in s.index
    ensures OwnerIsLast(Visit(s, v))
  {}

  lemma VisitJoined<T(!new)>(edges: set<(T, T)>, s: State<T>, v: T)
    requires Numbered(s) && Joined(edges, s) && v !in s.index
    requires forall a :: a in s.open ==> Reach(edges, a, v)
    ensures Joined(edges, Visit(s, v))
  {
    ReachRefl(edges, v);
  }

  lemma VisitExplored<T(!new)>(edges: set<(T, T)>, s: State<T>, v: T)
    requires Numbered(s) && Explored(edges, s) && v !in s.index
    ensures Explored(edges, Visit(s, v))
  {}

  lemma VisitLinkSound<T(!new)>(edges: set<(T, T)>, s: State<T>, v: T)
    requires Numbered(s) && LinkSound(edges, s) && v !in s.index
    ensures LinkSound(edges, Visit(s, v))
  {
    ReachRefl(edges, v);
  }

  lemma VisitLow<T(!new)>(s: State<T>, v: T, o: T)
    requires Numbered(s) && Linked(s) && v !in s.index && o in s.stacked
    ensures Low(Visit(s, v), o) == Low(s, o) < s.count
  {
    assert o in s.link && s.link[o] in s.index;
  }

  lemma VisitLinkComplete<T(!new)>(edges: set<(T, T)>, s: State<T>, v: T)
    requires Numbered(s) && Owned(s) && Explored(edges, s) && LinkComplete(s) && v !in s.index
    requires forall o :: o in s.stacked ==> Low(Visit(s, v), o) == Low(s, o)
    ensures LinkComplete(Visit(s, v))
  {
    var t := Visit(s, v);
    forall x, b | (x, b) in t.seen && x in t.stacked && b in t.stacked && x in t.owner && b in t.index
      ensures Low(t, t.owner[x]) <= t.index[b]
    {
      assert x in s.index && b in s.index && s.owner[x] in s.open;
    }
  }

  lemma VisitKeeps<T(!new)>(edges: set<(T, T)>, s: State<T>, v: T)
    requires Inv(edges, s) && v !in s.index
    requires forall a :: a in s.open ==> Reach(edges, a, v)
    ensures Inv(edges, Visit(s, v))
  {
    VisitNumbered(s, v);
    VisitOwned(s, v);
    VisitOwnerIsLast(s, v);
    VisitJoined(edges, s, v);
    VisitExplored(edges, s, v);
    VisitLinkSound(edges, s, v);
    forall o | o in s.stacked {
      VisitLow(s, v, o);
    }
    VisitLinkComplete(edges, s, v);
  }

  // ---- Looking at an edge ----

  /** The edge `(a, b)` has been looked at; `lowlink[a]` drops to the number of `b` if `b` is stacked. */
  ghost function See<T(!new)>(s: State<T>, a: T, b: T): State<T> {
    s.(seen := s.seen + {(a, b)},
       link := if b in s.stacked && b in s.index && s.index[b] < Low(s, a) then s.link[a := b] else s.link)
  }

  lemma SeeLinkSound<T(!new)>(edges: set<(T, T)>, s: State<T>, a: T, b: T)
    requires Numbered(s) && LinkSound(edges, s) && (a, b) in edges && a in s.open && b in s.index
    ensures LinkSound(edges, See(s, a, b))
  {
    ReachEdge(edges, a, b);
  }

  lemma SeeLow<T(!new)>(s: State<T>, a: T, b: T)
    requires Numbered(s) && Linked(s) && a in s.open && b in s.index
    ensures Low(See(s, a, b), a) == if b in s.stacked && s.index[b] < Low(s, a) then s.index[b] else Low(s, a)
    ensures forall v :: v in s.stacked && v != a ==> Low(See(s, a, b), v) == Low(s, v)
  {}

  lemma SeeLinkComplete<T(!new)>(s: State<T>, a: T, b: T)
    requires LinkComplete(s) && s.open <= s.stacked && a in s.owner && s.owner[a] == a
    requires forall v {:trigger s.owner[v]} :: v in s.stacked && v in s.owner ==> s.owner[v] in s.stacked
    requires forall v :: v in s.stacked ==> Low(See(s, a, b), v) <= Low(s, v)
    requires b in s.index && (b in s.stacked ==> Low(See(s, a, b), a) <= s.index[b])
    ensures LinkComplete(See(s, a, b))
  {
    var t := See(s, a, b);
    forall x, c | (x, c) in t.seen && x in t.stacked && c in t.stacked && x in t.owner && c in t.index
      ensures Low(t, t.owner[x]) <= t.index[c]
    {
      assert s.owner[x] in s.stacked;
      if (x, c) !in s.seen {
        assert x == a && c == b;
      }
    }
  }

  lemma SeeOwned<T(!new)>(s: State<T>, a: T, b: T)
    requires Owned(s) && OwnerIsLast(s)
    ensures Owned(See(s, a, b)) && OwnerIsLast(See(s, a, b))
  {}

  lemma SeeJoined<T(!new)>(edges: set<(T, T)>, s: State<T>, a: T, b: T)
    requires Joined(edges, s)
    ensures Joined(edges, See(s, a, b))
  {}

  lemma SeeExplored<T(!new)>(edges: set<(T, T)>, s: State<T>, a: T, b: T)
    requires Numbered(s) && Explored(edges, s) && (a, b) in edges && a in s.open && b in s.index
    ensures Explored(edges, See(s, a, b))
  {}

  lemma SeeKeeps<T(!new)>(edges: set<(T, T)>, s: State<T>, a: T, b: T)
    requires Inv(edges, s) && (a, b) in edges && a in s.open && b in s.index
    ensures Inv(edges, See(s, a, b))
  {
    SeeOwned(s, a, b);
    SeeJoined(edges, s, a, b);
    SeeExplored(edges, s, a, b);
    SeeLinkSound(edges, s, a, b);
    SeeLow(s, a, b);
    assert s.owner[a] == a;
    SeeLinkComplete(s, a, b);
  }

  // ---- Leaving a symbol that is not a root ----

  ghost predicate IsTop<T(!new)>(s: State<T>, t: T) {
    t in s.open && t in s.index && forall a :: a in s.open && a in s.index ==> s.index[a] <= s.index[t]
  }

  ghost predicate Exhausted<T(!new)>(edges: set<(T, T)>, s: State<T>, t: T) {
    forall b :: (t, b) in edges ==> (t, b) in s.seen
  }

  /** `t` leaves the work list; its parent `p` answers for its stretch of the stack and takes its low link. */
  ghost function Retire<T(!new)>(s: State<T>, t: T, p: T): State<T> {
    s.(open := s.open - {t},
       owner := map v | v in s.owner :: if s.owner[v] == t then p else s.owner[v],
       link := if t in s.link && Low(s, t) < Low(s, p) then s.link[p := s.link[t]] else s.link)
  }

  ghost predicate CanRetire<T(!new)>(edges: set<(T, T)>, s: State<T>, t: T, p: T) {
    && IsTop(s, t) && Exhausted(edges, s, t) && p != t && p in s.open
    && forall a :: a in s.open && a in s.index && p in s.index && a != t ==> s.index[a] <= s.index[p]
  }

  lemma RetireOwned<T(!new)>(edges: set<(T, T)>, s: State<T>, t: T, p: T)
    requires Numbered(s) && Owned(s) && CanRetire(edges, s, t, p)
    ensures Owned(Retire(s, t, p))
  {}

  lemma RetireOwnerIsLast<T(!new)>(edges: set<(T, T)>, s: State<T>, t: T, p: T)
    requires Numbered(s) && Owned(s) && OwnerIsLast(s) && CanRetire(edges, s, t, p)
    ensures OwnerIsLast(Retire(s, t, p))
  {}

  lemma RetireJoined<T(!new)>(edges: set<(T, T)>, s: State<T>, t: T, p: T)
    requires Numbered(s) && Owned(s) && Joined(edges, s) && CanRetire(edges, s, t, p)
    ensures Joined(edges, Retire(s, t, p))
  {
    var r := Retire(s, t, p);
    forall v | v in s.stacked && v in s.owner && s.owner[v] == t
      ensures Reach(edges, p, v)
    {
      ReachTrans(edges, p, t, v);
    }
  }

  lemma RetireExplored<T(!new)>(edges: set<(T, T)>, s: State<T>, t: T, p: T)
    requires Numbered(s) && Explored(edges, s) && CanRetire(edges, s, t, p)
    ensures Explored(edges, Retire(s, t, p))
  {}

  lemma RetireLinkSound<T(!new)>(edges: set<(T, T)>, s: State<T>, t: T, p: T)
    requires Numbered(s) && LinkSound(edges, s) && CanRetire(edges, s, t, p)
    requires Reach(edges, p, t) && Low(s, t) < s.index[t]
    ensures LinkSound(edges, Retire(s, t, p))
  {
    assert t in s.link && p in s.link;
    ReachTrans(edges, p, t, s.link[t]);
  }

  lemma RetireLow<T(!new)>(edges: set<(T, T)>, s: State<T>, t: T, p: T)
    requires Numbered(s) && Linked(s) && CanRetire(edges, s, t, p)
    ensures Low(Retire(s, t, p), p) == if Low(s, t) < Low(s, p) then Low(s, t) else Low(s, p)
    ensures forall v :: v in s.stacked && v != p ==> Low(Retire(s, t, p), v) == Low(s, v)
  {
    assert t in s.link && p in s.link;
  }

  lemma RetireLinkComplete<T(!new)>(s: State<T>, t: T, p: T)
    requires LinkComplete(s)
    requires forall v {:trigger s.owner[v]} :: v in s.stacked && v in s.owner ==> s.owner[v] in s.stacked
    requires forall v :: v in s.stacked ==> Low(Retire(s, t, p), v) <= Low(s, v)
    requires Low(Retire(s, t, p), p) <= Low(s, t)
    ensures LinkComplete(Retire(s, t, p))
  {
    var r := Retire(s, t, p);
    forall x, b | (x, b) in r.seen && x in r.stacked && b in r.stacked && x in r.owner && b in r.index
      ensures Low(r, r.owner[x]) <= r.index[b]
    {
      assert s.owner[x] in s.stacked;
    }
  }

  lemma RetireKeeps<T(!new)>(edges: set<(T, T)>, s: State<T>, t: T, p: T)
    requires Inv(edges, s) && CanRetire(edges, s, t, p) && Low(s, t) < s.index[t]
    ensures Inv(edges, Retire(s, t, p))
  {
    RetireOwned(edges, s, t, p);
    RetireOwnerIsLast(edges, s, t, p);
    RetireJoined(edges, s, t, p);
    RetireExplored(edges, s, t, p);
    RetireLinkSound(edges, s, t, p);
    RetireLow(edges, s, t, p);
    RetireLinkComplete(s, t, p);
  }

  // ---- Closing a component at its root ----

  /** The stretch of the stack that `t` answers for. */
  ghost function Stretch<T(!new)>(s: State<T>, t: T): set<T> {
    set v | v in s.stacked && v in s.owner && s.owner[v] == t
  }

  /** The stretch of `t` is popped off the stack. */
  ghost function Close<T(!new)>(s: State<T>, t: T): State<T> {
    s.(open := s.open - {t}, stacked := s.stacked - Stretch(s, t))
  }

  ghost predicate CanClose<T(!new)>(edges: set<(T, T)>, s: State<T>, t: T) {
    IsTop(s, t) && Exhausted(edges, s, t) && t in s.index && Low(s, t) >= s.index[t]
  }

  /** Every stacked symbol reaches the last open one: low links lead down to open symbols, open ones lead up. */
  lemma {:induction false} StackReachesTop<T(!new)>(edges: set<(T, T)>, s: State<T>, t: T, v: T)
    requires Numbered(s) && Joined(edges, s) && LinkSound(edges, s) && IsTop(s, t) && v in s.stacked
    ensures Reach(edges, v, t)
    decreases s.index[v]
  {
    if v !in s.open {
      assert v in s.link;
      StackReachesTop(edges, s, t, s.link[v]);
      ReachTrans(edges, v, s.link[v], t);
    }
  }

  /** No edge leaves the symbols that are visited but no longer stacked, nor those together with the stretch. */
  lemma StretchIsClosed<T(!new)>(edges: set<(T, T)>, s: State<T>, t: T)
    requires Numbered(s) && Owned(s) && OwnerIsLast(s) && Explored(edges, s) && LinkComplete(s) && CanClose(edges, s, t)
    ensures forall a, b :: (a, b) in edges && a in s.index && a !in s.stacked ==> b in s.index && b !in s.stacked
    ensures forall a, b :: (a, b) in edges && a in Stretch(s, t) ==>
              (a, b) in s.seen && b in s.index && (b in s.stacked ==> b in Stretch(s, t))
  {
    forall a, b | (a, b) in edges && a in Stretch(s, t)
      ensures (a, b) in s.seen && b in s.index && (b in s.stacked ==> b in Stretch(s, t))
    {
      assert s.owner[a] == t;
      if a in s.open {
        assert a == t;
      }
      assert (a, b) in s.seen;
      if b in s.stacked {
        assert s.index[t] <= s.index[b];
        assert b in s.owner;
        assert s.index[t] <= s.index[s.owner[b]];
      }
    }
  }

  /** The stretch is exactly the stacked symbols numbered from `t` on: a suffix of the stack. */
  lemma StretchIsSuffix<T(!new)>(s: State<T>, t: T)
    requires Numbered(s) && Owned(s) && OwnerIsLast(s) && IsTop(s, t)
    ensures forall v :: v in s.stacked && v in s.index ==> (v in Stretch(s, t) <==> s.index[t] <= s.index[v])
  {
    forall v | v in s.stacked && v in s.index
      ensures v in Stretch(s, t) <==> s.index[t] <= s.index[v]
    {
      assert v in s.owner && s.owner[v] in s.open && s.owner[v] in s.index;
      if s.index[t] <= s.index[v] {
        assert s.index[t] <= s.index[s.owner[v]];
      }
    }
  }

  lemma StretchIsComponent<T(!new)>(edges: set<(T, T)>, s: State<T>, t: T)
    requires Inv(edges, s) && CanClose(edges, s, t)
    ensures t in Stretch(s, t) && IsComponent(edges, Stretch(s, t))
  {
    var c := Stretch(s, t);
    assert t in s.owner && s.owner[t] == t;
    forall a, b | a in c && b in c
      ensures Reach(edges, a, b)
    {
      StackReachesTop(edges, s, t, a);
      assert Reach(edges, s.owner[b], b);
      ReachTrans(edges, a, t, b);
    }
    forall a, b | a in c && Reach(edges, a, b) && Reach(edges, b, a)
      ensures b in c
    {
      CycleStaysInStretch(edges, s, t, a, b);
    }
  }

  lemma CycleStaysInStretch<T(!new)>(edges: set<(T, T)>, s: State<T>, t: T, a: T, b: T)
    requires Numbered(s) && Owned(s) && OwnerIsLast(s) && Explored(edges, s) && LinkComplete(s) && CanClose(edges, s, t)
    requires a in Stretch(s, t) && Reach(edges, a, b) && Reach(edges, b, a)
    ensures b in Stretch(s, t)
  {
    StretchIsClosed(edges, s, t);
    var done := set v | v in s.index && v !in s.stacked;
    ReachStaysInside(edges, done + Stretch(s, t), a, b);
    if b in done {
      ReachStaysInside(edges, done, b, a);
    }
  }

  lemma CloseOwned<T(!new)>(s: State<T>, t: T)
    requires Numbered(s) && Owned(s) && OwnerIsLast(s)
    ensures Owned(Close(s, t)) && OwnerIsLast(Close(s, t))
  {}

  lemma CloseExplored<T(!new)>(edges: set<(T, T)>, s: State<T>, t: T)
    requires Numbered(s) && Owned(s) && OwnerIsLast(s) && Explored(edges, s) && LinkComplete(s) && CanClose(edges, s, t)
    ensures Explored(edges, Close(s, t))
  {
    StretchIsClosed(edges, s, t);
  }

  lemma CloseLinkSound<T(!new)>(edges: set<(T, T)>, s: State<T>, t: T)
    requires Numbered(s) && Owned(s) && OwnerIsLast(s) && LinkSound(edges, s) && IsTop(s, t)
    ensures LinkSound(edges, Close(s, t))
  {
    StretchIsSuffix(s, t);
  }

  lemma CloseLinkComplete<T(!new)>(s: State<T>, t: T)
    requires LinkComplete(s)
    ensures LinkComplete(Close(s, t))
  {
    var r := Close(s, t);
    assert forall v :: Low(r, v) == Low(s, v);
  }

  lemma CloseKeeps<T(!new)>(edges: set<(T, T)>, s: State<T>, t: T)
    requires Inv(edges, s) && CanClose(edges, s, t)
    ensures Inv(edges, Close(s, t))
  {
    CloseOwned(s, t);
    CloseExplored(edges, s, t);
    CloseLinkSound(edges, s, t);
    CloseLinkComplete(s, t);
    assert Joined(edges, Close(s, t));
  }
}
