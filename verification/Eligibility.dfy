/** Which chunks become graph symbols, said without the loops: the last part of an id, the content without outer
    whitespace, and the one test that the two tests of the service amount to. */
module Eligibility {
  import opened Snapshots

  // ---- The parts of an id ----

  predicate Separates(s: string, k: nat) {
    k + 1 < |s| && s[k] == ':' && s[k + 1] == ':'
  }

  ghost predicate NoSeparator(s: string) {
    forall k: nat :: !Separates(s, k)
  }

  function Joined(parts: seq<string>): string
    requires parts != []
  {
    if |parts| == 1 then parts[0] else parts[0] + "::" + Joined(parts[1..])
  }

  /** `parts` are what is left of `id` when it is cut at its leftmost separator again and again: no part forms a
      separator with the cut behind it. */
  ghost predicate AreParts(parts: seq<string>, id: string) {
    && parts != [] && Joined(parts) == id && NoSeparator(parts[|parts| - 1])
    && forall i :: 0 <= i < |parts| - 1 ==> NoSeparator(parts[i] + ":")
  }

  lemma SeparatesLater(s: string, k: nat)
    requires s != []
    ensures Separates(s, k + 1) <==> Separates(s[1..], k)
  {}

  lemma {:induction false} LastOfOne(id: string, part: string)
    requires NoSeparator(id)
    ensures LastPart(id, part) == part + id
  {
    if |id| >= 2 {
      assert !Separates(id, 0);
      forall k: nat
        ensures !Separates(id[1..], k)
      {
        SeparatesLater(id, k);
      }
      LastOfOne(id[1..], part + [id[0]]);
      assert part + [id[0]] + id[1..] == part + id;
    }
  }

  lemma {:induction false} LastBehindCut(p: string, rest: string, part: string)
    requires NoSeparator(p + ":")
    ensures LastPart(p + "::" + rest, part) == LastPart(rest, "")
    decreases |p|
  {
    var id := p + "::" + rest;
    if p == [] {
      assert id[2..] == rest;
    } else {
      assert !Separates(p + ":", 0) && (p + ":")[0] == id[0] && (p + ":")[1] == id[1];
      assert (p + ":")[1..] == p[1..] + ":";
      forall k: nat
        ensures !Separates(p[1..] + ":", k)
      {
        SeparatesLater(p + ":", k);
      }
      assert id[1..] == p[1..] + "::" + rest;
      LastBehindCut(p[1..], rest, part + [id[0]]);
    }
  }

  /** The short name is the last part of the id, as `split("::")[-1]` has it. */
  lemma {:induction false} ShortNameIsLastPart(id: string, parts: seq<string>)
    requires AreParts(parts, id)
    ensures ShortName(id) == parts[|parts| - 1]
    decreases |parts|
  {
    if |parts| == 1 {
      LastOfOne(id, "");
    } else {
      var rest := Joined(parts[1..]);
      assert id == parts[0] + "::" + rest && NoSeparator(parts[0] + ":");
      LastBehindCut(parts[0], rest, "");
      ShortNameIsLastPart(rest, parts[1..]);
    }
  }

  lemma CutExists(id: string) returns (k: nat)
    requires !NoSeparator(id)
    ensures Separates(id, k) && forall j: nat :: j < k ==> !Separates(id, j)
  {
    var m: nat :| Separates(id, m);
    k := 0;
    while !Separates(id, k)
      invariant k <= m && forall j: nat :: j < k ==> !Separates(id, j)
      decreases m - k
    {
      k := k + 1;
    }
  }

  /** Every id has such parts. */
  lemma {:induction false} PartsExist(id: string) returns (parts: seq<string>)
    ensures AreParts(parts, id)
    decreases |id|
  {
    if NoSeparator(id) {
      parts := [id];
    } else {
      var k := CutExists(id);
      var p, rest := id[..k], id[k + 2..];
      assert id == p + "::" + rest;
      forall j: nat
        ensures !Separates(p + ":", j)
      {
        assert j < k ==> !Separates(id, j);
      }
      var others := PartsExist(rest);
      parts := [p] + others;
      assert parts[1..] == others;
      forall i | 0 <= i < |parts| - 1
        ensures NoSeparator(parts[i] + ":")
      {
        assert i > 0 ==> NoSeparator(others[i - 1] + ":") && parts[i] == others[i - 1];
      }
    }
  }

  lemma {:induction false} JoinedMore(parts: seq<string>, n: string)
    requires parts != []
    ensures Joined(parts + [n]) == Joined(parts) + "::" + n
  {
    if |parts| > 1 {
      assert (parts + [n])[1..] == parts[1..] + [n];
      JoinedMore(parts[1..], n);
      assert parts[0] + "::" + (Joined(parts[1..]) + "::" + n) == parts[0] + "::" + Joined(parts[1..]) + "::" + n;
    } else {
      assert (parts + [n])[1..] == [n];
    }
  }

  lemma {:induction false} JoinedEnds(parts: seq<string>)
    requires parts != []
    ensures |parts[|parts| - 1]| <= |Joined(parts)|
    ensures parts[|parts| - 1] == Joined(parts)[|Joined(parts)| - |parts[|parts| - 1]|..]
  {
    if |parts| > 1 {
      JoinedEnds(parts[1..]);
    }
  }

  lemma LastPartCuts(p: string, parts: seq<string>)
    requires AreParts(parts, p) && (p == "" || p[|p| - 1] != ':')
    ensures NoSeparator(parts[|parts| - 1] + ":")
  {
    var q := parts[|parts| - 1];
    JoinedEnds(parts);
    forall k: nat
      ensures !Separates(q + ":", k)
    {
      assert !Separates(q, k);
      assert q != [] ==> q[|q| - 1] == p[|p| - 1];
    }
  }

  /** Behind a path that does not end in a colon, the short name is what follows the separator. */
  lemma ShortNameAfterPath(p: string, n: string)
    requires (p == "" || p[|p| - 1] != ':') && NoSeparator(n)
    ensures ShortName(p + "::" + n) == n
  {
    hide LastPart;
    var parts := PartsExist(p);
    LastPartCuts(p, parts);
    JoinedMore(parts, n);
    var more := parts + [n];
    forall i | 0 <= i < |more| - 1
      ensures NoSeparator(more[i] + ":")
    {
      assert i < |parts| - 1 ==> more[i] == parts[i] && NoSeparator(parts[i] + ":");
    }
    ShortNameIsLastPart(p + "::" + n, more);
  }

  // ---- Stripped content ----

  /** Python's whitespace characters. */
  lemma SpacesAre(c: char)
    ensures IsSpace(c) <==>
            c in {'\t', '\n', '\U{b}', '\U{c}', '\r', '\U{1c}', '\U{1d}', '\U{1e}', '\U{1f}', ' ', '\U{85}', '\U{a0}',
                  '\U{1680}', '\U{2000}', '\U{2001}', '\U{2002}', '\U{2003}', '\U{2004}', '\U{2005}', '\U{2006}',
                  '\U{2007}', '\U{2008}', '\U{2009}', '\U{200a}', '\U{2028}', '\U{2029}', '\U{202f}', '\U{205f}',
                  '\U{3000}'}
  {}

  /** Stripping takes the whitespace off both ends and nothing else. */
  lemma {:induction false} StripMeaning(s: string) returns (i: nat, j: nat)
    ensures i <= j <= |s| && Strip(s) == s[i..j]
    ensures forall k :: 0 <= k < i || j <= k < |s| ==> IsSpace(s[k])
    ensures i < j ==> !IsSpace(s[i]) && !IsSpace(s[j - 1])
    decreases |s|
  {
    hide IsSpace;
    if s == [] {
      i, j := 0, 0;
    } else if IsSpace(s[0]) {
      i, j := StripMeaning(s[1..]);
      i, j := i + 1, j + 1;
      assert forall k :: 1 <= k < |s| ==> s[k] == s[1..][k - 1];
    } else if IsSpace(s[|s| - 1]) {
      i, j := StripMeaning(s[..|s| - 1]);
      assert forall k :: 0 <= k < |s| - 1 ==> s[k] == s[..|s| - 1][k];
    } else {
      i, j := 0, |s|;
    }
  }

  // ---- What the graph takes ----

  ghost predicate IsSkippedName(name: string) {
    name == "Relation" || name == "fn" || name == "let" || name == "match" || name == "if"
  }

  /** The graph takes a chunk unless it is a synthetic one or a module, has one of the five names, or is a constructor
      of less than fifty characters. */
  lemma TakenIff(c: Chunk)
    ensures !ShouldSkip(c) <==>
            && c.kind != "file_summary" && c.kind != "module_exports" && c.kind != "mod"
            && !IsSkippedName(ShortName(c.id))
            && !(ShortName(c.id) == "new" && c.kind == "fn" && |Strip(c.content)| < 50)
  {
    hide ShortName, Strip;
  }

  /** The fingerprint counts a chunk under the same conditions, blank constructors excepted. */
  lemma CountedIff(c: Chunk)
    ensures IsGraphEligible(c) <==>
            && c.kind != "file_summary" && c.kind != "module_exports" && c.kind != "mod"
            && !IsSkippedName(ShortName(c.id))
            && !(ShortName(c.id) == "new" && c.kind == "fn" && 0 < |Strip(c.content)| < 50)
  {
    hide ShortName, Strip;
  }

  /** Nothing of a short constructor behind a path reaches the graph; other functions of that path do. */
  lemma ShortConstructorIsSkipped(c: Chunk, p: string)
    requires c.id == p + "::new" && c.kind == "fn" && (p == "" || p[|p| - 1] != ':')
    ensures ShouldSkip(c) <==> |Strip(c.content)| < 50
    ensures IsGraphEligible(c) <==> Strip(c.content) == "" || |Strip(c.content)| >= 50
  {
    hide ShortName, Strip;
    assert NoSeparator("new");
    assert "new" != "Relation" && "new" != "fn" && "new" != "let" && "new" != "match" && "new" != "if";
    assert c.id == p + "::" + "new";
    ShortNameAfterPath(p, "new");
    TakenIff(c);
    CountedIff(c);
  }

  /** A plain id is counted unless its last part is one of the five names. */
  lemma FilteredIff(ids: set<string>, id: string)
    ensures id in FilteredIds(ids) <==> id in ids && !IsSkippedName(ShortName(id))
  {
    hide ShortName;
  }
}
