/** The rename-matching block of `extract_symbols_from_diff`: deleted and added declarations of one file are
    paired greedily by similarity. */
module RenameMatching {
  import opened Ordering

  /** A deleted and an added name that are similar enough, as the tuple the program sorts. */
  datatype Candidate = Candidate(ratio: real, deleted: string, added: string)

  /** Python's `<=` on such tuples. */
  predicate TupleLeq(x: Candidate, y: Candidate) {
    x.ratio < y.ratio
    || (x.ratio == y.ratio
        && ((x.deleted != y.deleted && Leq(x.deleted, y.deleted))
            || (x.deleted == y.deleted && Leq(x.added, y.added))))
  }

  lemma TupleTotal(x: Candidate, y: Candidate)
    ensures TupleLeq(x, y) || TupleLeq(y, x)
  {
    LeqTotal(x.deleted, y.deleted);
    LeqTotal(x.added, y.added);
  }

  lemma TupleAntisymmetric(x: Candidate, y: Candidate)
    requires TupleLeq(x, y) && TupleLeq(y, x)
    ensures x == y
  {
    hide Leq;
    if x.deleted == y.deleted {
      LeqAntisymmetric(x.added, y.added);
    } else {
      LeqAntisymmetric(x.deleted, y.deleted);
    }
  }

  lemma TupleTransitive(x: Candidate, y: Candidate, z: Candidate)
    requires TupleLeq(x, y) && TupleLeq(y, z)
    ensures TupleLeq(x, z)
  {
    hide Leq;
    if x.ratio == y.ratio == z.ratio {
      if x.deleted != y.deleted && y.deleted != z.deleted {
        LeqTransitive(x.deleted, y.deleted, z.deleted);
        if x.deleted == z.deleted {
          LeqAntisymmetric(x.deleted, y.deleted);
        }
      } else if x.deleted == y.deleted == z.deleted {
        LeqTransitive(x.added, y.added, z.added);
      }
    }
  }

  /** `sorted(pairs, reverse=True)` */
  ghost predicate Descending(xs: seq<Candidate>) {
    forall i, j :: 0 <= i < j < |xs| ==> TupleLeq(xs[j], xs[i])
  }

  function Insert(x: Candidate, xs: seq<Candidate>): seq<Candidate> {
    if xs == [] || TupleLeq(xs[0], x) then [x] + xs else [xs[0]] + Insert(x, xs[1..])
  }

  function SortedDown(xs: seq<Candidate>): seq<Candidate> {
    if xs == [] then [] else Insert(xs[0], SortedDown(xs[1..]))
  }

  lemma ConsDescends(x: Candidate, xs: seq<Candidate>)
    requires Descending(xs) && forall y :: y in xs ==> TupleLeq(y, x)
    ensures Descending([x] + xs) && Elements([x] + xs) == Elements(xs) + {x}
  {
    hide TupleLeq;
    ElementsConcat([x], xs);
    assert Elements([x]) == {x};
    assert forall i :: 0 <= i < |xs| ==> xs[i] in xs;
  }

  /** The first of a list in descending order ranks highest. */
  lemma TailDescends(xs: seq<Candidate>)
    requires Descending(xs) && xs != []
    ensures Descending(xs[1..]) && Elements(xs) == Elements(xs[1..]) + {xs[0]}
    ensures forall y :: y in xs[1..] ==> y in xs && TupleLeq(y, xs[0])
    ensures forall y :: y in xs ==> y.ratio <= xs[0].ratio
  {
    ElementsConcat([xs[0]], xs[1..]);
    assert [xs[0]] + xs[1..] == xs && Elements([xs[0]]) == {xs[0]};
    forall y | y in xs
      ensures y.ratio <= xs[0].ratio
    {
      assert y == xs[0] || TupleLeq(y, xs[0]);
    }
  }

  lemma {:induction false} InsertSorts(x: Candidate, xs: seq<Candidate>)
    requires Descending(xs)
    ensures Descending(Insert(x, xs)) && Elements(Insert(x, xs)) == Elements(xs) + {x}
  {
    hide TupleLeq, Descending;
    if xs == [] {
      NothingDescends();
      ConsDescends(x, []);
    } else {
      TailDescends(xs);
      if TupleLeq(xs[0], x) {
        forall y | y in xs
          ensures TupleLeq(y, x)
        {
          if y != xs[0] {
            assert y in [xs[0]] + xs[1..];
            TupleTransitive(y, xs[0], x);
          }
        }
        ConsDescends(x, xs);
      } else {
        InsertSorts(x, xs[1..]);
        TupleTotal(xs[0], x);
        forall y | y in Insert(x, xs[1..])
          ensures TupleLeq(y, xs[0])
        {
          assert y in Elements(xs[1..]) + {x};
        }
        ConsDescends(xs[0], Insert(x, xs[1..]));
      }
    }
  }

  lemma NothingDescends()
    ensures Descending([])
  {}

  lemma {:induction false} SortedDownSorts(xs: seq<Candidate>)
    ensures Descending(SortedDown(xs)) && Elements(SortedDown(xs)) == Elements(xs)
  {
    if xs != [] {
      SortedDownSorts(xs[1..]);
      InsertSorts(xs[0], SortedDown(xs[1..]));
      ElementsConcat([xs[0]], xs[1..]);
      assert [xs[0]] + xs[1..] == xs && Elements([xs[0]]) == {xs[0]};
    }
  }

  // ---- The greedy choice ----

  /** The pairs taken in order, each unless one of its names is already used. */
  function Greedy(ranked: seq<Candidate>, usedDeleted: set<string>, usedAdded: set<string>): seq<Candidate> {
    if ranked == [] then [] else
      var c := ranked[0];
      if c.deleted in usedDeleted || c.added in usedAdded
      then Greedy(ranked[1..], usedDeleted, usedAdded)
      else [c] + Greedy(ranked[1..], usedDeleted + {c.deleted}, usedAdded + {c.added})
  }

  ghost predicate OneToOne(pairs: set<Candidate>) {
    forall x, y :: x in pairs && y in pairs && (x.deleted == y.deleted || x.added == y.added) ==> x == y
  }

  ghost predicate Avoids(pairs: set<Candidate>, usedDeleted: set<string>, usedAdded: set<string>) {
    forall x :: x in pairs ==> x.deleted !in usedDeleted && x.added !in usedAdded
  }

  lemma {:induction false} GreedyIsOneToOne(ranked: seq<Candidate>, usedDeleted: set<string>, usedAdded: set<string>)
    ensures OneToOne(Elements(Greedy(ranked, usedDeleted, usedAdded)))
    ensures Avoids(Elements(Greedy(ranked, usedDeleted, usedAdded)), usedDeleted, usedAdded)
    ensures Elements(Greedy(ranked, usedDeleted, usedAdded)) <= Elements(ranked)
  {
    if ranked != [] {
      var c := ranked[0];
      if c.deleted in usedDeleted || c.added in usedAdded {
        GreedyIsOneToOne(ranked[1..], usedDeleted, usedAdded);
      } else {
        GreedyIsOneToOne(ranked[1..], usedDeleted + {c.deleted}, usedAdded + {c.added});
        ElementsConcat([c], Greedy(ranked[1..], usedDeleted + {c.deleted}, usedAdded + {c.added}));
        assert Elements([c]) == {c};
      }
    }
  }

  predicate Clash(x: Candidate, y: Candidate) {
    x.deleted == y.deleted || x.added == y.added
  }

  /** Whatever the greedy choice leaves out clashes with something it took that ranks at least as high. */
  lemma {:induction false} GreedyIsStable(ranked: seq<Candidate>, usedDeleted: set<string>, usedAdded: set<string>,
                                          x: Candidate)
    requires Descending(ranked) && x in ranked
    ensures x.deleted in usedDeleted || x.added in usedAdded
            || exists y :: y in Greedy(ranked, usedDeleted, usedAdded) && Clash(x, y) && TupleLeq(x, y)
  {
    var c := ranked[0];
    TailDescends(ranked);
    if c.deleted in usedDeleted || c.added in usedAdded {
      if x != c {
        GreedyIsStable(ranked[1..], usedDeleted, usedAdded, x);
      }
    } else {
      var rest := Greedy(ranked[1..], usedDeleted + {c.deleted}, usedAdded + {c.added});
      assert c in [c] + rest;
      TupleTotal(x, x);
      if x != c {
        GreedyIsStable(ranked[1..], usedDeleted + {c.deleted}, usedAdded + {c.added}, x);
        assert forall y :: y in rest ==> y in [c] + rest;
      }
    }
  }

  // ---- What the greedy choice is, without saying how it is found ----

  /** A one-to-one choice in which every rejected candidate lost to a chosen one ranking at least as high. */
  ghost predicate IsStable(chosen: set<Candidate>, candidates: set<Candidate>) {
    && chosen <= candidates
    && OneToOne(chosen)
    && forall x :: x in candidates - chosen ==> exists y :: y in chosen && Clash(x, y) && TupleLeq(x, y)
  }

  lemma GreedyMakesStable(ranked: seq<Candidate>)
    requires Descending(ranked)
    ensures IsStable(Elements(Greedy(ranked, {}, {})), Elements(ranked))
  {
    hide TupleLeq, Greedy;
    GreedyIsOneToOne(ranked, {}, {});
    var chosen := Elements(Greedy(ranked, {}, {}));
    forall x | x in Elements(ranked) - chosen
      ensures exists y :: y in chosen && Clash(x, y) && TupleLeq(x, y)
    {
      GreedyIsStable(ranked, {}, {}, x);
      var y :| y in Greedy(ranked, {}, {}) && Clash(x, y) && TupleLeq(x, y);
      assert y in chosen;
    }
  }

  lemma {:induction false} TopExists(s: set<Candidate>) returns (top: Candidate)
    requires s != {}
    ensures top in s && forall x :: x in s ==> TupleLeq(x, top)
  {
    hide TupleLeq;
    var y :| y in s;
    TupleTotal(y, y);
    if s == {y} {
      top := y;
    } else {
      var z := TopExists(s - {y});
      TupleTotal(y, z);
      top := if TupleLeq(z, y) then y else z;
      forall x | x in s
        ensures TupleLeq(x, top)
      {
        if x != y && top == y {
          TupleTransitive(x, z, y);
        }
      }
    }
  }

  /** A pair only `s` chose lost, in `t`, to a higher one that `s` left out. */
  lemma DisagreementClimbs(s: set<Candidate>, t: set<Candidate>, candidates: set<Candidate>, x: Candidate)
    requires IsStable(s, candidates) && IsStable(t, candidates) && x in s - t
    ensures exists y :: y in t - s && !TupleLeq(y, x)
  {
    hide TupleLeq;
    assert x in candidates - t;
    var y :| y in t && Clash(x, y) && TupleLeq(x, y);
    if TupleLeq(y, x) {
      TupleAntisymmetric(x, y);
    }
    assert y in t - s;
  }

  /** There is only one stable choice, so being stable says everything about the greedy one. */
  lemma StableIsUnique(s: set<Candidate>, t: set<Candidate>, candidates: set<Candidate>)
    requires IsStable(s, candidates) && IsStable(t, candidates)
    ensures s == t
  {
    hide IsStable, TupleLeq;
    if (s - t) + (t - s) != {} {
      var x := TopExists((s - t) + (t - s));
      if x in s {
        DisagreementClimbs(s, t, candidates, x);
      } else {
        DisagreementClimbs(t, s, candidates, x);
      }
    }
  }

  lemma {:induction false} Listed(s: set<Candidate>) returns (xs: seq<Candidate>)
    ensures Elements(xs) == s
  {
    if s == {} {
      xs := [];
    } else {
      var x :| x in s;
      var rest := Listed(s - {x});
      xs := [x] + rest;
      ElementsConcat([x], rest);
      assert Elements([x]) == {x};
    }
  }

  lemma StableExists(candidates: set<Candidate>)
    ensures exists chosen :: IsStable(chosen, candidates)
  {
    hide IsStable, Greedy, TupleLeq;
    var xs := Listed(candidates);
    SortedDownSorts(xs);
    GreedyMakesStable(SortedDown(xs));
  }

  ghost function Chosen(candidates: set<Candidate>): (chosen: set<Candidate>)
    ensures IsStable(chosen, candidates)
  {
    StableExists(candidates);
    var chosen :| IsStable(chosen, candidates);
    chosen
  }

  // ---- Half of the best ----

  ghost function Weight(pairs: set<Candidate>): real {
    if pairs == {} then 0.0 else
      var x :| x in pairs;
      x.ratio + Weight(pairs - {x})
  }

  lemma {:induction false} WeightSplit(pairs: set<Candidate>, x: Candidate)
    requires x in pairs
    ensures Weight(pairs) == x.ratio + Weight(pairs - {x})
  {
    var y :| y in pairs && Weight(pairs) == y.ratio + Weight(pairs - {y});
    if y != x {
      WeightSplit(pairs - {y}, x);
      WeightSplit(pairs - {x}, y);
      assert pairs - {y} - {x} == pairs - {x} - {y};
    }
  }

  /** Taking out one pair, if it is there, loses no more than the bound on all ratios. */
  lemma WeightWithout(pairs: set<Candidate>, x: Candidate, bound: real)
    requires bound >= 0.0 && (x in pairs ==> x.ratio <= bound)
    ensures Weight(pairs) <= Weight(pairs - {x}) + bound
  {
    if x in pairs {
      WeightSplit(pairs, x);
    } else {
      assert pairs - {x} == pairs;
    }
  }

  ghost function Compatible(pairs: set<Candidate>, c: Candidate): set<Candidate> {
    set x | x in pairs && x.deleted != c.deleted && x.added != c.added
  }

  /** At most two pairs of a one-to-one choice share a name with `c`. */
  lemma ConflictsWeighLittle(pairs: set<Candidate>, c: Candidate)
    requires OneToOne(pairs) && c.ratio >= 0.0 && forall x :: x in pairs ==> x.ratio <= c.ratio
    ensures Weight(pairs) <= Weight(Compatible(pairs, c)) + 2.0 * c.ratio
  {
    hide Weight;
    var sameDeleted := if exists x :: x in pairs && x.deleted == c.deleted
                       then var x :| x in pairs && x.deleted == c.deleted; x else c;
    var sameAdded := if exists x :: x in pairs && x.added == c.added
                     then var x :| x in pairs && x.added == c.added; x else c;
    WeightWithout(pairs, sameDeleted, c.ratio);
    WeightWithout(pairs - {sameDeleted}, sameAdded, c.ratio);
    assert pairs - {sameDeleted} - {sameAdded} == Compatible(pairs, c);
  }

  /** The pairs that share no name with the first candidate can still be made from the others. */
  lemma CompatibleRemain(ranked: seq<Candidate>, usedDeleted: set<string>, usedAdded: set<string>,
                         pairs: set<Candidate>)
    requires ranked != [] && Descending(ranked)
    requires OneToOne(pairs) && pairs <= Elements(ranked) && Avoids(pairs, usedDeleted, usedAdded)
    ensures
      var c := ranked[0];
      var others := Compatible(pairs, c);
      && OneToOne(others) && others <= Elements(ranked[1..])
      && Avoids(others, usedDeleted + {c.deleted}, usedAdded + {c.added})
    ensures ranked[0].deleted in usedDeleted || ranked[0].added in usedAdded ==> pairs <= Elements(ranked[1..])
  {
    hide TupleLeq, Descending;
    TailDescends(ranked);
  }

  /** Taking the first candidate adds its ratio to the greedy choice. */
  lemma TakenAdds(c: Candidate, rest: seq<Candidate>, usedDeleted: set<string>, usedAdded: set<string>)
    requires Avoids(Elements(rest), usedDeleted + {c.deleted}, usedAdded + {c.added})
    ensures Weight(Elements([c] + rest)) == c.ratio + Weight(Elements(rest))
  {
    hide Weight;
    ElementsConcat([c], rest);
    assert Elements([c] + rest) - {c} == Elements(rest);
    WeightSplit(Elements([c] + rest), c);
  }

  /** Against any one-to-one choice from the same candidates, the greedy one has at least half the similarity. */
  lemma {:induction false} GreedyIsHalf(ranked: seq<Candidate>, usedDeleted: set<string>, usedAdded: set<string>,
                                        pairs: set<Candidate>)
    requires Descending(ranked) && forall x :: x in ranked ==> x.ratio >= 0.0
    requires OneToOne(pairs) && pairs <= Elements(ranked) && Avoids(pairs, usedDeleted, usedAdded)
    ensures Weight(pairs) <= 2.0 * Weight(Elements(Greedy(ranked, usedDeleted, usedAdded)))
  {
    hide Descending, OneToOne, Avoids, Compatible;
    if ranked == [] {
      assert pairs == {};
    } else {
      var c := ranked[0];
      TailDescends(ranked);
      CompatibleRemain(ranked, usedDeleted, usedAdded, pairs);
      if c.deleted in usedDeleted || c.added in usedAdded {
        GreedyIsHalf(ranked[1..], usedDeleted, usedAdded, pairs);
      } else {
        var rest := Greedy(ranked[1..], usedDeleted + {c.deleted}, usedAdded + {c.added});
        GreedyIsHalf(ranked[1..], usedDeleted + {c.deleted}, usedAdded + {c.added}, Compatible(pairs, c));
        ConflictsWeighLittle(pairs, c);
        GreedyIsOneToOne(ranked[1..], usedDeleted + {c.deleted}, usedAdded + {c.added});
        TakenAdds(c, rest, usedDeleted, usedAdded);
      }
    }
  }

  /** The greedy choice has at least half the similarity of any one-to-one choice from the same candidates. */
  lemma ChosenIsHalf(candidates: set<Candidate>, pairs: set<Candidate>)
    requires forall x :: x in candidates ==> x.ratio >= 0.0
    requires OneToOne(pairs) && pairs <= candidates
    ensures Weight(pairs) <= 2.0 * Weight(Chosen(candidates))
  {
    hide IsStable, Greedy, TupleLeq, Weight;
    var xs := Listed(candidates);
    SortedDownSorts(xs);
    GreedyMakesStable(SortedDown(xs));
    StableIsUnique(Elements(Greedy(SortedDown(xs), {}, {})), Chosen(candidates), candidates);
    GreedyIsHalf(SortedDown(xs), {}, {}, pairs);
  }

  /** Nothing can be added to the greedy choice. */
  lemma ChosenIsMaximal(candidates: set<Candidate>, x: Candidate)
    requires x in candidates - Chosen(candidates)
    ensures !OneToOne(Chosen(candidates) + {x})
  {
    hide TupleLeq;
    var chosen := Chosen(candidates);
    var y :| y in chosen && Clash(x, y) && TupleLeq(x, y);
    assert y in chosen + {x} && x in chosen + {x};
  }

  /** A candidate that ranks at least as high as every candidate it shares a name with is chosen. */
  lemma BestIsChosen(candidates: set<Candidate>, x: Candidate)
    requires x in candidates && forall y :: y in candidates && Clash(x, y) ==> TupleLeq(y, x)
    ensures x in Chosen(candidates)
  {
    hide TupleLeq;
    if x in candidates - Chosen(candidates) {
      var y :| y in Chosen(candidates) && Clash(x, y) && TupleLeq(x, y);
      TupleAntisymmetric(x, y);
    }
  }

  lemma TwoStable(candidates: set<Candidate>, x: Candidate, y: Candidate)
    requires candidates == {x, y} && x != y && Clash(x, y) && TupleLeq(x, y)
    ensures Chosen(candidates) == {y}
  {
    hide TupleLeq;
    assert IsStable({y}, candidates);
    StableIsUnique({y}, Chosen(candidates), candidates);
  }

  /** Of two candidates with a name in common the one with the greater ratio is chosen, and of two with the same ratio
      the one whose other name comes later. */
  lemma LaterNameWins(x: Candidate, y: Candidate)
    requires x != y && Clash(x, y)
    requires
      || x.ratio < y.ratio
      || (x.ratio == y.ratio && x.added == y.added && Leq(x.deleted, y.deleted))
      || (x.ratio == y.ratio && x.deleted == y.deleted && Leq(x.added, y.added))
    ensures Chosen({x, y}) == {y}
  {
    hide Leq;
    TwoStable({x, y}, x, y);
  }

  /** A deleted name stays unpaired exactly when each of its candidates lost its new name to one ranked at least
      as high. */
  lemma UnpairedIff(candidates: set<Candidate>, name: string)
    ensures name !in OldNames(Chosen(candidates)) <==>
            forall x :: x in candidates && x.deleted == name ==>
              exists y :: y in Chosen(candidates) && y.added == x.added && y.deleted != name && TupleLeq(x, y)
  {
    hide TupleLeq;
    var chosen := Chosen(candidates);
    if name in OldNames(chosen) {
      var x :| x in chosen && x.deleted == name;
    } else {
      forall x | x in candidates && x.deleted == name
        ensures exists y :: y in chosen && y.added == x.added && y.deleted != name && TupleLeq(x, y)
      {
        assert x in candidates - chosen;
        var y :| y in chosen && Clash(x, y) && TupleLeq(x, y);
        assert y.deleted in OldNames(chosen);
      }
    }
  }

  /** The same for an added name. */
  lemma UnpairedAddedIff(candidates: set<Candidate>, name: string)
    ensures name !in NewNames(Chosen(candidates)) <==>
            forall x :: x in candidates && x.added == name ==>
              exists y :: y in Chosen(candidates) && y.deleted == x.deleted && y.added != name && TupleLeq(x, y)
  {
    hide TupleLeq;
    var chosen := Chosen(candidates);
    if name in NewNames(chosen) {
      var x :| x in chosen && x.added == name;
    } else {
      forall x | x in candidates && x.added == name
        ensures exists y :: y in chosen && y.deleted == x.deleted && y.added != name && TupleLeq(x, y)
      {
        assert x in candidates - chosen;
        var y :| y in chosen && Clash(x, y) && TupleLeq(x, y);
        assert y.added in NewNames(chosen);
      }
    }
  }

  // ---- The candidates of one file ----

  /** `name.split("_")` */
  function Split(name: string): (parts: seq<string>)
    ensures parts != []
  {
    if name == [] then [[]] else
      var rest := Split(name[1..]);
      if name[0] == '_' then [[]] + rest else [[name[0]] + rest[0]] + rest[1..]
  }

  function Joined(parts: seq<string>): string
    requires parts != []
  {
    if |parts| == 1 then parts[0] else parts[0] + "_" + Joined(parts[1..])
  }

  /** Splitting loses nothing and leaves no separator in a part. */
  lemma {:induction false} SplitIsExact(name: string)
    ensures Joined(Split(name)) == name
    ensures forall i :: 0 <= i < |Split(name)| ==> '_' !in Split(name)[i]
  {
    if name != [] {
      SplitIsExact(name[1..]);
      var rest := Split(name[1..]);
      assert name == [name[0]] + name[1..];
      if name[0] == '_' {
        assert Split(name)[1..] == rest;
      } else {
        assert Split(name)[1..] == rest[1..];
        if |rest| > 1 {
          assert [name[0]] + (rest[0] + "_" + Joined(rest[1..])) == ([name[0]] + rest[0]) + "_" + Joined(rest[1..]);
        }
      }
    }
  }

  ghost predicate AreWords(parts: seq<string>) {
    parts != [] && forall i :: 0 <= i < |parts| ==> '_' !in parts[i]
  }

  lemma {:induction false} SplitBehindWord(word: string, rest: string)
    requires '_' !in word
    ensures Split(word) == [word] && Split(word + "_" + rest) == [word] + Split(rest)
    decreases |word|
  {
    var name := word + "_" + rest;
    if word == [] {
      assert name[1..] == rest;
    } else {
      SplitBehindWord(word[1..], rest);
      assert name[1..] == word[1..] + "_" + rest && name[0] == word[0];
      assert [word[0]] + word[1..] == word;
      var tail := [word[1..]] + Split(rest);
      assert tail[1..] == Split(rest);
    }
  }

  /** There is only one way to write a name as words with underscores between them. */
  lemma {:induction false} SplitOfJoined(parts: seq<string>)
    requires AreWords(parts)
    ensures Split(Joined(parts)) == parts
    decreases |parts|
  {
    assert '_' !in parts[0];
    if |parts| == 1 {
      SplitBehindWord(parts[0], "");
    } else {
      assert AreWords(parts[1..]);
      SplitOfJoined(parts[1..]);
      SplitBehindWord(parts[0], Joined(parts[1..]));
    }
  }

  /** The two names are made of the same words: the sorted lists of their parts are equal. */
  predicate NameTie(d: string, a: string) {
    multiset(Split(d)) == multiset(Split(a))
  }

  /** The names can be written with the same words, each as often, in whatever order. */
  ghost predicate SameWords(d: string, a: string) {
    exists ps, qs :: AreWords(ps) && AreWords(qs) && Joined(ps) == d && Joined(qs) == a && multiset(ps) == multiset(qs)
  }

  lemma NameTieIff(ps: seq<string>, qs: seq<string>)
    requires AreWords(ps) && AreWords(qs)
    ensures NameTie(Joined(ps), Joined(qs)) <==> multiset(ps) == multiset(qs)
  {
    hide Split, Joined, AreWords;
    SplitOfJoined(ps);
    SplitOfJoined(qs);
  }

  lemma NameTieIsSameWords(d: string, a: string)
    ensures NameTie(d, a) <==> SameWords(d, a)
  {
    hide Split, Joined, NameTie;
    SplitIsExact(d);
    SplitIsExact(a);
    NameTieIff(Split(d), Split(a));
    if SameWords(d, a) {
      var ps, qs :| AreWords(ps) && AreWords(qs) && Joined(ps) == d && Joined(qs) == a && multiset(ps) == multiset(qs);
      NameTieIff(ps, qs);
    }
  }

  /** What the line scan gathered; `similar` stands for the sequence matcher's ratio. */
  datatype Scan = Scan(
    deletedByFile: map<string, set<string>>,
    addedByFile: map<string, set<string>>,
    declLines: map<(string, string), string>,
    similar: (string, string) -> real)
  {
    function Signature(file: string, name: string): string {
      if (file, name) in declLines then declLines[(file, name)] else name
    }

    function Ratio(file: string, d: string, a: string): real {
      var ratio := similar(Signature(file, d), Signature(file, a));
      if NameTie(d, a) && ratio < 0.75 then 0.75 else ratio
    }

    function Deleted(file: string): set<string> {
      if file in deletedByFile then deletedByFile[file] else {}
    }

    function Added(file: string): set<string> {
      if file in addedByFile then addedByFile[file] else {}
    }
  }

  /** Every deleted and added declaration of a file that are alike enough, declarations on both sides excepted. */
  ghost function Candidates(scan: Scan, modified: set<string>, file: string): set<Candidate> {
    set d, a | d in scan.Deleted(file) - modified && a in scan.Added(file) - modified && scan.Ratio(file, d, a) > 0.55
      :: Candidate(scan.Ratio(file, d, a), d, a)
  }

  /** How alike two declarations count: as the matcher has it, but at least 0.75 for names made of the same words. A
      name without a declaration line stands for itself. */
  lemma RatioMeaning(scan: Scan, file: string, d: string, a: string)
    ensures
      var line := (name: string) => if (file, name) in scan.declLines then scan.declLines[(file, name)] else name;
      var alike := scan.similar(line(d), line(a));
      && scan.Ratio(file, d, a) >= alike
      && (!SameWords(d, a) ==> scan.Ratio(file, d, a) == alike)
      && (SameWords(d, a) ==> scan.Ratio(file, d, a) >= 0.75)
      && (scan.Ratio(file, d, a) == alike || scan.Ratio(file, d, a) == 0.75)
  {
    hide NameTie, SameWords;
    NameTieIsSameWords(d, a);
  }

  /** Two names made of the same words are always candidates, however unlike their declarations; two others are when
      their declarations are alike enough. */
  lemma CandidateIff(scan: Scan, modified: set<string>, file: string, d: string, a: string)
    ensures (exists c :: c in Candidates(scan, modified, file) && c.deleted == d && c.added == a) <==>
            && d in scan.Deleted(file) - modified && a in scan.Added(file) - modified
            && (SameWords(d, a) || scan.similar(scan.Signature(file, d), scan.Signature(file, a)) > 0.55)
  {
    hide NameTie, SameWords;
    NameTieIsSameWords(d, a);
    if d in scan.Deleted(file) - modified && a in scan.Added(file) - modified && scan.Ratio(file, d, a) > 0.55 {
      assert Candidate(scan.Ratio(file, d, a), d, a) in Candidates(scan, modified, file);
    }
  }

  /** So no pairing of a file's declarations has more than twice the similarity of the one it gets. */
  lemma FilePairingIsHalf(scan: Scan, modified: set<string>, file: string, pairs: set<Candidate>)
    requires OneToOne(pairs) && pairs <= Candidates(scan, modified, file)
    ensures Weight(pairs) <= 2.0 * Weight(Chosen(Candidates(scan, modified, file)))
  {
    hide OneToOne, IsStable, Weight;
    ChosenIsHalf(Candidates(scan, modified, file), pairs);
  }

  ghost function OldNames(pairs: set<Candidate>): set<string> {
    set x | x in pairs :: x.deleted
  }

  ghost function NewNames(pairs: set<Candidate>): set<string> {
    set x | x in pairs :: x.added
  }

  /** The mapping of old names to new ones that a one-to-one choice stands for. */
  ghost predicate Maps(renamed: map<string, string>, pairs: set<Candidate>) {
    && renamed.Keys == OldNames(pairs)
    && forall x :: x in pairs ==> x.deleted in renamed && renamed[x.deleted] == x.added
  }

  // ---- The loops ----

  /** The inner double loop: one deleted name against every added name. */
  method CollectPairs(scan: Scan, file: string, delNames: set<string>, addNames: set<string>)
      returns (pairs: seq<Candidate>)
    ensures Elements(pairs) == set d, a | d in delNames && a in addNames && scan.Ratio(file, d, a) > 0.55
                                 :: Candidate(scan.Ratio(file, d, a), d, a)
  {
    pairs := [];
    var ds := delNames;
    while ds != {}
      invariant ds <= delNames
      invariant Elements(pairs) == set d, a | d in delNames - ds && a in addNames && scan.Ratio(file, d, a) > 0.55
                                     :: Candidate(scan.Ratio(file, d, a), d, a)
    {
      var d :| d in ds;
      var row := CollectRow(scan, file, d, addNames);
      ElementsConcat(pairs, row);
      assert delNames - (ds - {d}) == (delNames - ds) + {d};
      pairs := pairs + row;
      ds := ds - {d};
    }
    assert delNames - ds == delNames;
  }

  method CollectRow(scan: Scan, file: string, d: string, addNames: set<string>) returns (row: seq<Candidate>)
    ensures Elements(row) == set a | a in addNames && scan.Ratio(file, d, a) > 0.55
                               :: Candidate(scan.Ratio(file, d, a), d, a)
  {
    row := [];
    var rest := addNames;
    while rest != {}
      invariant rest <= addNames
      invariant Elements(row) == set a | a in addNames - rest && scan.Ratio(file, d, a) > 0.55
                                   :: Candidate(scan.Ratio(file, d, a), d, a)
    {
      var a :| a in rest;
      var ratio := scan.Ratio(file, d, a);
      assert addNames - (rest - {a}) == (addNames - rest) + {a};
      if ratio > 0.55 {
        ElementsConcat(row, [Candidate(ratio, d, a)]);
        assert Elements([Candidate(ratio, d, a)]) == {Candidate(ratio, d, a)};
        row := row + [Candidate(ratio, d, a)];
      }
      rest := rest - {a};
    }
    assert addNames - rest == addNames;
  }

  /** What the greedy loop has done after some pairs, and what is left to do. */
  ghost predicate HalfWay(taken: seq<Candidate>, rest: seq<Candidate>, renamed: map<string, string>,
                          usedD: set<string>, usedA: set<string>, ranked: seq<Candidate>) {
    && taken + Greedy(rest, usedD, usedA) == Greedy(ranked, {}, {})
    && usedD == OldNames(Elements(taken)) && usedA == NewNames(Elements(taken))
    && Maps(renamed, Elements(taken))
  }

  /** The greedy loop over the sorted pairs, with its two used sets. */
  method PairUp(ranked: seq<Candidate>) returns (renamed: map<string, string>, usedD: set<string>, usedA: set<string>)
    requires Descending(ranked)
    ensures Maps(renamed, Chosen(Elements(ranked)))
    ensures usedD == OldNames(Chosen(Elements(ranked))) && usedA == NewNames(Chosen(Elements(ranked)))
  {
    hide HalfWay, Maps, Chosen, Greedy, Descending, Elements, OldNames, NewNames;
    renamed, usedD, usedA := map[], {}, {};
    ghost var taken: seq<Candidate> := [];
    StartPairing(ranked);
    for i := 0 to |ranked|
      invariant HalfWay(taken, ranked[i..], renamed, usedD, usedA, ranked)
    {
      var c := ranked[i];
      assert ranked[i..][1..] == ranked[i + 1..];
      if c.deleted in usedD || c.added in usedA {
        PassOver(taken, ranked[i..], renamed, usedD, usedA, ranked);
        continue;
      }
      TakeOne(taken, ranked[i..], renamed, usedD, usedA, ranked);
      usedD := usedD + {c.deleted};
      usedA := usedA + {c.added};
      renamed := renamed[c.deleted := c.added];
      taken := taken + [c];
    }
    FinishPairing(taken, ranked[|ranked|..], renamed, usedD, usedA, ranked);
  }

  lemma StartPairing(ranked: seq<Candidate>)
    ensures HalfWay([], ranked[0..], map[], {}, {}, ranked)
  {
    hide Greedy;
    assert ranked[0..] == ranked;
    assert [] + Greedy(ranked, {}, {}) == Greedy(ranked, {}, {});
  }

  lemma PassOver(taken: seq<Candidate>, rest: seq<Candidate>, renamed: map<string, string>,
                 usedD: set<string>, usedA: set<string>, ranked: seq<Candidate>)
    requires HalfWay(taken, rest, renamed, usedD, usedA, ranked)
    requires rest != [] && (rest[0].deleted in usedD || rest[0].added in usedA)
    ensures HalfWay(taken, rest[1..], renamed, usedD, usedA, ranked)
  {
    hide Maps;
  }

  lemma FinishPairing(taken: seq<Candidate>, rest: seq<Candidate>, renamed: map<string, string>,
                      usedD: set<string>, usedA: set<string>, ranked: seq<Candidate>)
    requires HalfWay(taken, rest, renamed, usedD, usedA, ranked) && rest == [] && Descending(ranked)
    ensures Maps(renamed, Chosen(Elements(ranked)))
    ensures usedD == OldNames(Chosen(Elements(ranked))) && usedA == NewNames(Chosen(Elements(ranked)))
  {
    hide Descending, Maps, IsStable;
    assert taken + [] == taken;
    GreedyMakesStable(ranked);
    StableIsUnique(Elements(taken), Chosen(Elements(ranked)), Elements(ranked));
  }

  lemma TakeOne(taken: seq<Candidate>, rest: seq<Candidate>, renamed: map<string, string>,
                usedD: set<string>, usedA: set<string>, ranked: seq<Candidate>)
    requires HalfWay(taken, rest, renamed, usedD, usedA, ranked)
    requires rest != [] && rest[0].deleted !in usedD && rest[0].added !in usedA
    ensures HalfWay(taken + [rest[0]], rest[1..], renamed[rest[0].deleted := rest[0].added],
                    usedD + {rest[0].deleted}, usedA + {rest[0].added}, ranked)
  {
    hide Maps, Greedy, OldNames, NewNames, Elements;
    var c := rest[0];
    AddOne(taken, c, renamed);
    GreedyTakes(rest, usedD, usedA);
    var later := Greedy(rest[1..], usedD + {c.deleted}, usedA + {c.added});
    assert taken + ([c] + later) == (taken + [c]) + later;
  }

  lemma GreedyTakes(rest: seq<Candidate>, usedD: set<string>, usedA: set<string>)
    requires rest != [] && rest[0].deleted !in usedD && rest[0].added !in usedA
    ensures Greedy(rest, usedD, usedA)
         == [rest[0]] + Greedy(rest[1..], usedD + {rest[0].deleted}, usedA + {rest[0].added})
  {}

  lemma AddOne(taken: seq<Candidate>, c: Candidate, renamed: map<string, string>)
    requires Maps(renamed, Elements(taken)) && c.deleted !in OldNames(Elements(taken))
    ensures OldNames(Elements(taken + [c])) == OldNames(Elements(taken)) + {c.deleted}
    ensures NewNames(Elements(taken + [c])) == NewNames(Elements(taken)) + {c.added}
    ensures Maps(renamed[c.deleted := c.added], Elements(taken + [c]))
  {
    ElementsConcat(taken, [c]);
    assert Elements([c]) == {c};
    var before, after := Elements(taken), Elements(taken + [c]);
    assert after == before + {c};
    assert forall x :: x in before ==> x.deleted in OldNames(before);
  }

  /** All old names paired in the files of `files`. */
  ghost function RenamedOld(scan: Scan, modified: set<string>, files: set<string>): set<string> {
    set f, x | f in files && x in Chosen(Candidates(scan, modified, f)) :: x.deleted
  }

  ghost function RenamedNew(scan: Scan, modified: set<string>, files: set<string>): set<string> {
    set f, x | f in files && x in Chosen(Candidates(scan, modified, f)) :: x.added
  }

  /** The pairing of every finished file, and no entry for a file without one. */
  ghost predicate RenamesOf(renamedByFile: map<string, map<string, string>>, scan: Scan, modified: set<string>,
                            files: set<string>) {
    && (forall f :: f in renamedByFile <==> f in files && Chosen(Candidates(scan, modified, f)) != {})
    && (forall f :: f in renamedByFile ==> Maps(renamedByFile[f], Chosen(Candidates(scan, modified, f))))
  }

  /** A file maps the one name to the other exactly when a candidate of the two is chosen. */
  lemma RenamedIff(renamedByFile: map<string, map<string, string>>, scan: Scan, modified: set<string>,
                   files: set<string>, f: string, d: string, a: string)
    requires RenamesOf(renamedByFile, scan, modified, files)
    ensures f in renamedByFile && d in renamedByFile[f] && renamedByFile[f][d] == a <==>
            f in files && exists x :: x in Chosen(Candidates(scan, modified, f)) && x.deleted == d && x.added == a
    ensures f in renamedByFile ==> renamedByFile[f] != map[]
  {
    hide Candidates, IsStable;
    if f in renamedByFile {
      assert renamedByFile[f].Keys == OldNames(Chosen(Candidates(scan, modified, f)));
      var x :| x in Chosen(Candidates(scan, modified, f));
      assert x.deleted in renamedByFile[f];
    }
  }

  /** The rename block: the new `deleted_symbols` and `added_symbols`, and the pairings by file. */
  method MatchRenames(scan: Scan, modified: set<string>, deleted: set<string>, added: set<string>)
      returns (renamedByFile: map<string, map<string, string>>, deleted': set<string>, added': set<string>)
    ensures RenamesOf(renamedByFile, scan, modified, scan.deletedByFile.Keys)
    ensures deleted' == deleted - RenamedOld(scan, modified, scan.deletedByFile.Keys)
    ensures added' == added - RenamedNew(scan, modified, scan.deletedByFile.Keys)
  {
    hide Candidates, Chosen, IsStable, Maps, RenamesOf, RenamedOld, RenamedNew;
    renamedByFile, deleted', added' := map[], deleted, added;
    NoFilesYet(scan, modified);
    var todo := scan.deletedByFile.Keys;
    while todo != {}
      invariant todo <= scan.deletedByFile.Keys
      invariant RenamesOf(renamedByFile, scan, modified, scan.deletedByFile.Keys - todo)
      invariant deleted' == deleted - RenamedOld(scan, modified, scan.deletedByFile.Keys - todo)
      invariant added' == added - RenamedNew(scan, modified, scan.deletedByFile.Keys - todo)
    {
      var f :| f in todo;
      ghost var done := scan.deletedByFile.Keys - todo;
      assert scan.deletedByFile.Keys - (todo - {f}) == done + {f};
      var renamed, usedD, usedA := MatchFile(scan, modified, f);
      OneMoreFile(scan, modified, done, f);
      OneMorePairing(renamedByFile, scan, modified, done, f, renamed, usedD);
      deleted' := deleted' - usedD;
      added' := added' - usedA;
      if usedD != {} {
        renamedByFile := renamedByFile[f := renamed];
      }
      todo := todo - {f};
    }
    assert scan.deletedByFile.Keys - todo == scan.deletedByFile.Keys;
  }

  lemma NoFilesYet(scan: Scan, modified: set<string>)
    ensures RenamesOf(map[], scan, modified, scan.deletedByFile.Keys - scan.deletedByFile.Keys)
    ensures RenamedOld(scan, modified, scan.deletedByFile.Keys - scan.deletedByFile.Keys) == {}
    ensures RenamedNew(scan, modified, scan.deletedByFile.Keys - scan.deletedByFile.Keys) == {}
  {}

  lemma OneMorePairing(renamedByFile: map<string, map<string, string>>, scan: Scan, modified: set<string>,
                       done: set<string>, f: string, renamed: map<string, string>, usedD: set<string>)
    requires RenamesOf(renamedByFile, scan, modified, done) && f !in done
    requires Maps(renamed, Chosen(Candidates(scan, modified, f)))
    requires usedD == OldNames(Chosen(Candidates(scan, modified, f)))
    ensures RenamesOf(if usedD != {} then renamedByFile[f := renamed] else renamedByFile, scan, modified, done + {f})
  {
    hide Candidates, IsStable, Maps;
    var chosen := Chosen(Candidates(scan, modified, f));
    if chosen != {} {
      var x :| x in chosen;
      assert x.deleted in usedD;
    }
  }

  lemma OneMoreFile(scan: Scan, modified: set<string>, done: set<string>, f: string)
    ensures RenamedOld(scan, modified, done + {f}) ==
            RenamedOld(scan, modified, done) + OldNames(Chosen(Candidates(scan, modified, f)))
    ensures RenamedNew(scan, modified, done + {f}) ==
            RenamedNew(scan, modified, done) + NewNames(Chosen(Candidates(scan, modified, f)))
  {
    hide Candidates, IsStable;
  }

  method MatchFile(scan: Scan, modified: set<string>, file: string)
      returns (renamed: map<string, string>, usedD: set<string>, usedA: set<string>)
    requires file in scan.deletedByFile
    ensures Maps(renamed, Chosen(Candidates(scan, modified, file)))
    ensures usedD == OldNames(Chosen(Candidates(scan, modified, file)))
    ensures usedA == NewNames(Chosen(Candidates(scan, modified, file)))
  {
    var addNames := scan.Added(file) - modified;
    var delNames := scan.deletedByFile[file] - modified;
    if delNames == {} || addNames == {} {
      assert Candidates(scan, modified, file) == {};
      renamed, usedD, usedA := map[], {}, {};
      return;
    }
    var pairs := CollectPairs(scan, file, delNames, addNames);
    SortedDownSorts(pairs);
    renamed, usedD, usedA := PairUp(SortedDown(pairs));
    assert Elements(pairs) == Candidates(scan, modified, file);
  }

  // ---- Names across files ----

  /** A deleted name stays in the deleted names exactly when in every file each of its candidates lost its new
      name to one ranked at least as high. */
  lemma DeletedIsKeptIff(scan: Scan, modified: set<string>, deleted: set<string>, name: string)
    requires name in deleted
    ensures name in deleted - RenamedOld(scan, modified, scan.deletedByFile.Keys) <==>
            forall f, x :: f in scan.deletedByFile && x in Candidates(scan, modified, f) && x.deleted == name ==>
              exists y :: y in Chosen(Candidates(scan, modified, f))
                && y.added == x.added && y.deleted != name && TupleLeq(x, y)
  {
    hide Candidates, Chosen, IsStable, TupleLeq;
    forall f | f in scan.deletedByFile && name in OldNames(Chosen(Candidates(scan, modified, f)))
      ensures name in RenamedOld(scan, modified, scan.deletedByFile.Keys)
    {
      var x :| x in Chosen(Candidates(scan, modified, f)) && x.deleted == name;
    }
    forall f | f in scan.deletedByFile
      ensures name !in OldNames(Chosen(Candidates(scan, modified, f))) <==>
              forall x :: x in Candidates(scan, modified, f) && x.deleted == name ==>
                exists y :: y in Chosen(Candidates(scan, modified, f))
                  && y.added == x.added && y.deleted != name && TupleLeq(x, y)
    {
      UnpairedIff(Candidates(scan, modified, f), name);
    }
  }

  /** An added name stays in the added names exactly when in every file each of its candidates lost its old name to one
      ranked at least as high. */
  lemma AddedIsKeptIff(scan: Scan, modified: set<string>, added: set<string>, name: string)
    requires name in added
    ensures name in added - RenamedNew(scan, modified, scan.deletedByFile.Keys) <==>
            forall f, x :: f in scan.deletedByFile && x in Candidates(scan, modified, f) && x.added == name ==>
              exists y :: y in Chosen(Candidates(scan, modified, f))
                && y.deleted == x.deleted && y.added != name && TupleLeq(x, y)
  {
    hide Candidates, Chosen, IsStable, TupleLeq;
    forall f | f in scan.deletedByFile && name in NewNames(Chosen(Candidates(scan, modified, f)))
      ensures name in RenamedNew(scan, modified, scan.deletedByFile.Keys)
    {
      var x :| x in Chosen(Candidates(scan, modified, f)) && x.added == name;
    }
    forall f | f in scan.deletedByFile
      ensures name !in NewNames(Chosen(Candidates(scan, modified, f))) <==>
              forall x :: x in Candidates(scan, modified, f) && x.added == name ==>
                exists y :: y in Chosen(Candidates(scan, modified, f))
                  && y.deleted == x.deleted && y.added != name && TupleLeq(x, y)
    {
      UnpairedAddedIff(Candidates(scan, modified, f), name);
    }
  }

  /** What a caller can see in the candidates: a name without any is kept, one with a best candidate is not. */
  lemma KeptByCandidates(scan: Scan, modified: set<string>, deleted: set<string>, name: string)
    requires name in deleted
    ensures (forall f, x :: f in scan.deletedByFile && x in Candidates(scan, modified, f) ==> x.deleted != name) ==>
            name in deleted - RenamedOld(scan, modified, scan.deletedByFile.Keys)
    ensures (exists f, x :: f in scan.deletedByFile && x in Candidates(scan, modified, f) && x.deleted == name
              && forall y :: y in Candidates(scan, modified, f) && Clash(x, y) ==> TupleLeq(y, x)) ==>
            name !in deleted - RenamedOld(scan, modified, scan.deletedByFile.Keys)
  {
    hide Candidates, Chosen, IsStable, TupleLeq, Clash, RenamedOld;
    DeletedIsKeptIff(scan, modified, deleted, name);
    forall f, x | f in scan.deletedByFile && x in Candidates(scan, modified, f) && x.deleted == name
        && forall y :: y in Candidates(scan, modified, f) && Clash(x, y) ==> TupleLeq(y, x)
      ensures name in RenamedOld(scan, modified, scan.deletedByFile.Keys)
    {
      BestIsChosen(Candidates(scan, modified, f), x);
      PairedIsRenamed(scan, modified, f, x);
    }
  }

  lemma PairedIsRenamed(scan: Scan, modified: set<string>, f: string, x: Candidate)
    requires f in scan.deletedByFile && x in Chosen(Candidates(scan, modified, f))
    ensures x.deleted in RenamedOld(scan, modified, scan.deletedByFile.Keys)
  {
    hide Candidates, Chosen, IsStable;
  }

  lemma LoneCandidateIsChosen(x: Candidate)
    ensures Chosen({x}) == {x}
  {
    hide IsStable;
    assert [x][1..] == [] && Elements([x]) == {x};
    assert Greedy([x], {}, {}) == [x] + Greedy([], {} + {x.deleted}, {} + {x.added});
    assert [x] + [] == [x];
    GreedyMakesStable([x]);
    StableIsUnique({x}, Chosen({x}), {x});
  }

  /** One file renames a declaration and another one deletes a declaration of that name: the deletion is lost. */
  lemma DeletionIsLost(scan: Scan, deleted: set<string>)
    requires scan.deletedByFile == map["a.rs" := {"p"}, "b.rs" := {"p"}] && scan.addedByFile == map["a.rs" := {"q"}]
    requires scan.similar(scan.Signature("a.rs", "p"), scan.Signature("a.rs", "q")) > 0.55
    ensures Chosen(Candidates(scan, {}, "b.rs")) == {}
    ensures "p" !in deleted - RenamedOld(scan, {}, scan.deletedByFile.Keys)
  {
    hide NameTie, IsStable;
    assert Candidates(scan, {}, "b.rs") == {} && IsStable({}, {}) by { NothingIsStable(); }
    StableIsUnique({}, Chosen({}), {});
    var x := Candidate(scan.Ratio("a.rs", "p", "q"), "p", "q");
    assert Candidates(scan, {}, "a.rs") == {x};
    LoneCandidateIsChosen(x);
    assert "a.rs" in scan.deletedByFile && x in Chosen(Candidates(scan, {}, "a.rs"));
    assert x.deleted in RenamedOld(scan, {}, scan.deletedByFile.Keys);
  }

  lemma NothingIsStable()
    ensures IsStable({}, {})
  {}
}
