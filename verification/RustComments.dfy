/** Rust's own division of a source, as the Rust Reference has it, and when the comment scanner finds its comments. */
module RustComments {
  import opened CommentScanner
  import opened Options

  // ---- Two divisions of one source ----

  /** A stretch of the source that one reading takes as a whole. */
  datatype Piece = Piece(comment: bool, start: nat, end: nat)

  function CommentEnd(s: string, i: nat): nat {
    match AfterComment(s, i + 2)
    case None => |s|
    case Some(j) => j
  }

  /** Pieces that follow one another from `i` to the end; those that begin with an opener are comments, to their end. */
  ghost predicate Divides(pieces: seq<Piece>, s: string, i: nat) {
    if pieces == [] then i == |s| else
      var p := pieces[0];
      && p.start == i < p.end <= |s| && (p.comment <==> Opens(s, i)) && (p.comment ==> p.end == CommentEnd(s, i))
      && Divides(pieces[1..], s, p.end)
  }

  /** The comments of a division. */
  function Found(pieces: seq<Piece>): seq<Span> {
    if pieces == [] then []
    else (if pieces[0].comment then [Span(pieces[0].start, pieces[0].end)] else []) + Found(pieces[1..])
  }

  ghost predicate IsStart(pieces: seq<Piece>, x: nat) {
    exists p :: p in pieces && p.start == x
  }

  ghost predicate IsInside(pieces: seq<Piece>, x: nat) {
    exists p :: p in pieces && p.start < x < p.end
  }

  /** No comment of the one division begins inside a piece of the other. */
  ghost predicate Clear(pieces: seq<Piece>, others: seq<Piece>) {
    forall p :: p in pieces && p.comment ==> !IsInside(others, p.start)
  }

  lemma {:induction false} PiecesLieBehind(pieces: seq<Piece>, s: string, i: nat, p: Piece)
    requires Divides(pieces, s, i) && p in pieces
    ensures i <= p.start < p.end <= |s|
  {
    if p != pieces[0] {
      assert pieces == [pieces[0]] + pieces[1..];
      PiecesLieBehind(pieces[1..], s, pieces[0].end, p);
    }
  }

  /** Every place of the source is the start of a piece or inside one, not both. */
  lemma {:induction false} StartOrInside(pieces: seq<Piece>, s: string, i: nat, x: nat)
    requires Divides(pieces, s, i) && i <= x < |s|
    ensures IsStart(pieces, x) <==> !IsInside(pieces, x)
  {
    var p, rest := pieces[0], pieces[1..];
    assert pieces == [p] + rest;
    forall q | q in rest
      ensures p.end <= q.start < q.end
    {
      PiecesLieBehind(rest, s, p.end, q);
    }
    if x >= p.end {
      StartOrInside(rest, s, p.end, x);
      if IsStart(rest, x) {
        var q :| q in rest && q.start == x;
        assert q in pieces;
      } else {
        var q :| q in rest && q.start < x < q.end;
        assert q in pieces;
      }
    } else {
      assert p in pieces;
    }
  }

  ghost predicate CommentsStart(pieces: seq<Piece>, others: seq<Piece>) {
    forall p :: p in pieces && p.comment ==> IsStart(others, p.start)
  }

  /** Taking away first pieces that are no comments, or are the same comment. */
  lemma TailsStart(pieces: seq<Piece>, s: string, i: nat, others: seq<Piece>, j: nat)
    requires Divides(pieces, s, i) && Divides(others, s, j) && CommentsStart(pieces, others)
    ensures pieces != [] ==> CommentsStart(pieces[1..], others)
    ensures pieces != [] && others != [] && j < pieces[0].end ==> CommentsStart(pieces[1..], others[1..])
    ensures others != [] && j < i ==> CommentsStart(pieces, others[1..])
  {
    if others != [] {
      assert others == [others[0]] + others[1..];
      forall p | p in pieces && p.comment && p.start > j
        ensures IsStart(others[1..], p.start)
      {
        var q :| q in others && q.start == p.start;
        assert q in others[1..];
      }
    }
    if pieces != [] {
      assert pieces == [pieces[0]] + pieces[1..];
      forall p | p in pieces[1..]
        ensures p in pieces && p.start >= pieces[0].end
      {
        PiecesLieBehind(pieces[1..], s, pieces[0].end, p);
      }
    }
    forall p | p in pieces
      ensures p.start >= i
    {
      PiecesLieBehind(pieces, s, i, p);
    }
  }

  /** Two readings that start their pieces at each other's comments find the same comments, wherever they stand. */
  lemma {:induction false} StartsSuffice(pieces: seq<Piece>, s: string, i: nat, others: seq<Piece>, j: nat)
    requires Divides(pieces, s, i) && Divides(others, s, j)
    requires CommentsStart(pieces, others) && CommentsStart(others, pieces)
    ensures Found(pieces) == Found(others)
    decreases |pieces| + |others|
  {
    hide CommentsStart;
    TailsStart(pieces, s, i, others, j);
    TailsStart(others, s, j, pieces, i);
    if others == [] {
      NothingLeft(pieces, s, i, others, j);
    } else if pieces == [] {
      NothingLeft(others, s, j, pieces, i);
    } else if i < j {
      FirstIsNoComment(pieces, s, i, others, j);
      StartsSuffice(pieces[1..], s, pieces[0].end, others, j);
    } else if j < i {
      FirstIsNoComment(others, s, j, pieces, i);
      StartsSuffice(pieces, s, i, others[1..], others[0].end);
    } else {
      StartsSuffice(pieces[1..], s, pieces[0].end, others[1..], others[0].end);
    }
  }

  lemma {:induction false} NothingLeft(pieces: seq<Piece>, s: string, i: nat, others: seq<Piece>, j: nat)
    requires Divides(pieces, s, i) && others == [] && CommentsStart(pieces, others)
    ensures Found(pieces) == []
  {
    if pieces != [] {
      assert pieces == [pieces[0]] + pieces[1..];
      assert pieces[0] in pieces;
      NothingLeft(pieces[1..], s, pieces[0].end, others, j);
    }
  }

  lemma FirstIsNoComment(pieces: seq<Piece>, s: string, i: nat, others: seq<Piece>, j: nat)
    requires Divides(pieces, s, i) && Divides(others, s, j) && i < j && pieces != [] && CommentsStart(pieces, others)
    ensures !pieces[0].comment
  {
    if pieces[0].comment {
      assert pieces[0] in pieces;
      var q :| q in others && q.start == i;
      PiecesLieBehind(others, s, j, q);
    }
  }

  lemma {:induction false} FoundAreComments(pieces: seq<Piece>, x: Span)
    ensures x in Found(pieces) <==> exists p :: p in pieces && p.comment && x == Span(p.start, p.end)
  {
    if pieces != [] {
      assert pieces == [pieces[0]] + pieces[1..];
      FoundAreComments(pieces[1..], x);
    }
  }

  lemma EqualNeedsStarts(pieces: seq<Piece>, others: seq<Piece>)
    requires Found(pieces) == Found(others)
    ensures CommentsStart(pieces, others)
  {
    forall p | p in pieces && p.comment
      ensures IsStart(others, p.start)
    {
      FoundAreComments(pieces, Span(p.start, p.end));
      FoundAreComments(others, Span(p.start, p.end));
    }
  }

  lemma ClearIsStarts(pieces: seq<Piece>, others: seq<Piece>, s: string)
    requires Divides(pieces, s, 0) && Divides(others, s, 0)
    ensures Clear(pieces, others) <==> CommentsStart(pieces, others)
  {
    hide IsStart, IsInside;
    forall p | p in pieces
      ensures IsStart(others, p.start) <==> !IsInside(others, p.start)
    {
      PiecesLieBehind(pieces, s, 0, p);
      StartOrInside(others, s, 0, p.start);
    }
  }

  /** Two divisions of a source have the same comments exactly when no comment of either begins inside a piece of the
      other. */
  lemma SameCommentsIff(pieces: seq<Piece>, others: seq<Piece>, s: string)
    requires Divides(pieces, s, 0) && Divides(others, s, 0)
    ensures Found(pieces) == Found(others) <==> Clear(pieces, others) && Clear(others, pieces)
  {
    hide Clear, CommentsStart, Divides, Found;
    ClearIsStarts(pieces, others, s);
    ClearIsStarts(others, pieces, s);
    if Found(pieces) == Found(others) {
      EqualNeedsStarts(pieces, others);
      EqualNeedsStarts(others, pieces);
    }
    if Clear(pieces, others) && Clear(others, pieces) {
      StartsSuffice(pieces, s, 0, others, 0);
    }
  }

  lemma OneMorePiece(p: Piece, rest: seq<Piece>, s: string)
    requires p.start < p.end <= |s| && (p.comment <==> Opens(s, p.start))
    requires p.comment ==> p.end == CommentEnd(s, p.start)
    requires Divides(rest, s, p.end)
    ensures Divides([p] + rest, s, p.start)
    ensures Found([p] + rest) == (if p.comment then [Span(p.start, p.end)] else []) + Found(rest)
  {
    hide CommentEnd;
    assert ([p] + rest)[1..] == rest;
  }

  // ---- The scanner's division ----

  function ScannerPieces(tokens: seq<Token>): seq<Piece> {
    if tokens == [] then []
    else [Piece(tokens[0].kind == Comment, tokens[0].start, tokens[0].end)] + ScannerPieces(tokens[1..])
  }

  lemma ScannerHead(s: string, i: nat)
    requires i < |s|
    ensures var t := ReadToken(s, i);
      (t.kind == Comment <==> Opens(s, i)) && (t.kind == Comment ==> t.end == CommentEnd(s, i))
  {
    hide AfterComment, AfterString;
  }

  lemma ScannerTail(s: string, i: nat)
    requires i < |s|
    ensures var t := ReadToken(s, i);
      && ScannerPieces(ReadAll(s, i)) == [Piece(t.kind == Comment, t.start, t.end)] + ScannerPieces(ReadAll(s, t.end))
      && Comments(ReadAll(s, i))
      == (if t.kind == Comment then [Span(t.start, t.end)] else []) + Comments(ReadAll(s, t.end))
  {
    hide ReadToken;
    assert ReadAll(s, i)[1..] == ReadAll(s, ReadToken(s, i).end);
  }

  lemma {:induction false} ScannerDivides(s: string, i: nat)
    requires i <= |s|
    ensures Divides(ScannerPieces(ReadAll(s, i)), s, i)
    ensures Found(ScannerPieces(ReadAll(s, i))) == Comments(ReadAll(s, i))
    decreases |s| - i
  {
    hide ReadToken, CommentEnd, Divides, Found, ScannerPieces, ReadAll, Comments;
    if i < |s| {
      var t := ReadToken(s, i);
      ScannerDivides(s, t.end);
      ScannerHead(s, i);
      ScannerTail(s, i);
      OneMorePiece(Piece(t.kind == Comment, t.start, t.end), ScannerPieces(ReadAll(s, t.end)), s);
    } else {
      NothingToDivide(s);
    }
  }

  // ---- Rust's division ----

  predicate IsIdent(c: char) {
    'a' <= c <= 'z' || 'A' <= c <= 'Z' || '0' <= c <= '9' || c == '_' || c >= '\U{80}'
  }

  predicate StartsLine(s: string, i: nat) {
    i + 1 < |s| && s[i] == '/' && s[i + 1] == '/'
  }

  /** The end of the line. */
  function LineEnd(s: string, i: nat): (j: nat)
    requires i <= |s|
    ensures i <= j <= |s|
    decreases |s| - i
  {
    if i == |s| || s[i] == '\n' then i else LineEnd(s, i + 1)
  }

  function Hashes(s: string, i: nat): (n: nat)
    ensures i <= |s| ==> i + n <= |s|
    decreases |s| - i
  {
    if i < |s| && s[i] == '#' then 1 + Hashes(s, i + 1) else 0
  }

  /** The character before continues a word, unless it is the `b` or `c` of a byte or C string. */
  predicate ContinuesWord(s: string, i: nat)
    requires i <= |s|
  {
    i > 0 && IsIdent(s[i - 1]) && !((s[i - 1] == 'b' || s[i - 1] == 'c') && (i == 1 || !IsIdent(s[i - 2])))
  }

  predicate StartsRaw(s: string, i: nat) {
    && i < |s| && s[i] == 'r' && !ContinuesWord(s, i)
    && i + 1 + Hashes(s, i + 1) < |s| && s[i + 1 + Hashes(s, i + 1)] == '"'
  }

  /** Past the quote and hashes that close a raw string whose text continues at `i`. */
  function RawEnd(s: string, i: nat, hashes: nat): (j: nat)
    requires i <= |s|
    ensures i <= j <= |s|
    decreases |s| - i
  {
    if i == |s| then i
    else if s[i] == '"' && Hashes(s, i + 1) >= hashes then i + 1 + hashes
    else RawEnd(s, i + 1, hashes)
  }

  /** An apostrophe begins a character literal if an escape follows it, or one character and another apostrophe;
      otherwise a lifetime. */
  predicate StartsCharacter(s: string, i: nat) {
    && i + 1 < |s| && s[i] == '\''
    && (s[i + 1] == '\\' || (s[i + 1] != '\'' && i + 2 < |s| && s[i + 2] == '\''))
  }

  datatype RustKind = Other | LineComment | BlockComment | Text | RawText | Character | Lifetime

  datatype RustToken = RustToken(kind: RustKind, start: nat, end: nat)

  /** The Rust Reference, sections "Comments" and "Tokens", as far as it decides where comments are. */
  function ReadRust(s: string, i: nat): (t: RustToken)
    requires i < |s|
    ensures t.start == i < t.end <= |s|
  {
    if StartsLine(s, i) then RustToken(LineComment, i, LineEnd(s, i + 1))
    else if Opens(s, i) then RustToken(BlockComment, i, CommentEnd(s, i))
    else if s[i] == '"' then RustToken(Text, i, AfterString(s, i + 1, '"'))
    else if StartsRaw(s, i) then RustToken(RawText, i, RawEnd(s, i + 2 + Hashes(s, i + 1), Hashes(s, i + 1)))
    else if StartsCharacter(s, i) then RustToken(Character, i, AfterString(s, i + 1, '\''))
    else if s[i] == '\'' then RustToken(Lifetime, i, i + 1)
    else RustToken(Other, i, i + 1)
  }

  lemma {:induction false} LineEndIff(s: string, i: nat, j: nat)
    requires i <= j <= |s|
    ensures j == LineEnd(s, i) <==> (forall k :: i <= k < j ==> s[k] != '\n') && (j < |s| ==> s[j] == '\n')
    decreases j - i
  {
    if i < j {
      LineEndIff(s, i + 1, j);
    }
  }

  lemma {:induction false} HashesIff(s: string, i: nat, n: nat)
    requires i + n <= |s|
    ensures n <= Hashes(s, i) <==> forall k :: i <= k < i + n ==> s[k] == '#'
    decreases n
  {
    if n > 0 {
      HashesIff(s, i + 1, n - 1);
    }
  }

  /** A quote stands at `k` with at least so many hashes behind it. */
  ghost predicate ClosesRaw(s: string, k: nat, hashes: nat) {
    k + 1 + hashes <= |s| && s[k] == '"' && forall l :: k + 1 <= l < k + 1 + hashes ==> s[l] == '#'
  }

  lemma ClosesRawIff(s: string, k: nat, hashes: nat)
    requires k < |s|
    ensures ClosesRaw(s, k, hashes) <==> s[k] == '"' && Hashes(s, k + 1) >= hashes
  {
    if k + 1 + hashes <= |s| {
      HashesIff(s, k + 1, hashes);
    }
  }

  /** A raw string ends at the first quote followed by the hashes it was opened with. */
  lemma {:induction false} RawEnds(s: string, i: nat, hashes: nat, k: nat)
    requires i <= k <= |s| && forall l: nat :: i <= l < k ==> !ClosesRaw(s, l, hashes)
    ensures ClosesRaw(s, k, hashes) ==> RawEnd(s, i, hashes) == k + 1 + hashes
    ensures k == |s| ==> RawEnd(s, i, hashes) == |s|
    decreases k - i
  {
    hide Hashes, ClosesRaw;
    if i < |s| {
      ClosesRawIff(s, i, hashes);
      if i < k {
        assert !ClosesRaw(s, i, hashes);
        RawEnds(s, i + 1, hashes, k);
      }
    } else if ClosesRaw(s, k, hashes) {
      PastTheText(s, k, hashes);
    }
  }

  lemma PastTheText(s: string, k: nat, hashes: nat)
    requires k >= |s|
    ensures !ClosesRaw(s, k, hashes)
  {}

  lemma WordCharacters(c: char)
    ensures IsIdent(c) <==>
            || c >= '\U{80}'
            || c in {'0', '1', '2', '3', '4', '5', '6', '7', '8', '9', '_', 'a', 'b', 'c', 'd', 'e', 'f', 'g', 'h',
                     'i', 'j', 'k', 'l', 'm', 'n', 'o', 'p', 'q', 'r', 's', 't', 'u', 'v', 'w', 'x', 'y', 'z', 'A',
                     'B', 'C', 'D', 'E', 'F', 'G', 'H', 'I', 'J', 'K', 'L', 'M', 'N', 'O', 'P', 'Q', 'R', 'S', 'T',
                     'U', 'V', 'W', 'X', 'Y', 'Z'}
  {}

  /** What a token is depends on the text at its start: comments and strings have their openers; an apostrophe begins a
      character literal if a backslash follows it or just one character before the next apostrophe, else a lifetime. */
  lemma RustKinds(s: string, i: nat)
    requires i < |s|
    ensures var kind := ReadRust(s, i).kind;
      && (kind == LineComment <==> Stands("//", s, i))
      && (kind == BlockComment <==> Stands("/*", s, i))
      && (kind == Text <==> s[i] == '"')
      && (kind == Character <==>
            Stands("'\\", s, i) || (s[i] == '\'' && Stands("'", s, i + 2) && !Stands("''", s, i)))
      && (kind == Lifetime <==> s[i] == '\'' && kind != Character)
  {
    hide LineEnd, CommentEnd, AfterString, RawEnd, Hashes;
    if i + 1 < |s| {
      assert s[i..i + 2] == [s[i], s[i + 1]];
    }
    if i + 2 < |s| {
      assert s[i + 2..i + 3] == [s[i + 2]];
    }
  }

  /** A raw string begins at an `r` with hashes, or none, and a quote behind it, unless that `r` is the end of a word
      other than the prefixes `br` and `cr`. */
  lemma RawStarts(s: string, i: nat, n: nat)
    requires i + 2 + n <= |s| && Stands("r", s, i) && Stands("\"", s, i + 1 + n)
    requires forall k :: i + 1 <= k < i + 1 + n ==> s[k] == '#'
    ensures ReadRust(s, i).kind == RawText <==>
            || i == 0 || !IsIdent(s[i - 1])
            || (s[i - 1] in {'b', 'c'} && (i == 1 || !IsIdent(s[i - 2])))
    ensures ReadRust(s, i).kind == RawText ==> ReadRust(s, i).end == RawEnd(s, i + 2 + n, n)
  {
    hide LineEnd, CommentEnd, AfterString, RawEnd, IsIdent, Hashes;
    HashesIff(s, i + 1, n);
    HashesIff(s, i + 1, n + 1);
    assert s[i] == s[i..i + 1][0] && s[i + 1 + n] == s[i + 1 + n..i + 2 + n][0];
    HashesFit(s, i + 1);
  }

  lemma HashesFit(s: string, i: nat)
    requires i <= |s|
    ensures i + Hashes(s, i) <= |s|
  {}

  /** Where the other tokens end. */
  lemma RustEnds(s: string, i: nat, j: nat)
    requires i < j <= |s|
    ensures
      var t := ReadRust(s, i);
      && (t.kind == LineComment ==>
            (j == t.end <==> (forall k :: i < k < j ==> s[k] != '\n') && (j < |s| ==> s[j] == '\n')))
      && (t.kind == BlockComment ==> (j == t.end <==> IsComment(s, i, j)))
      && (t.kind == Text || t.kind == Character ==> (j == t.end <==> EndsText(s, i + 1, s[i], j)))
      && (t.kind == Lifetime || t.kind == Other ==> t.end == i + 1)
  {
    hide StartsRaw, LineEnd, AfterComment, AfterString, RawEnd, Hashes, EndsText, FirstReturn;
    LineEndIff(s, i + 1, j);
    if Opens(s, i) {
      CommentRead(s, i, j);
    }
    if s[i] == '"' || s[i] == '\'' {
      StringEnds(s, i + 1, s[i], j);
    }
  }

  function ReadAllRust(s: string, i: nat): seq<RustToken>
    requires i <= |s|
    decreases |s| - i
  {
    if i == |s| then [] else
      var t := ReadRust(s, i);
      [t] + ReadAllRust(s, t.end)
  }

  function RustPieces(tokens: seq<RustToken>): seq<Piece> {
    if tokens == [] then []
    else [Piece(tokens[0].kind == BlockComment, tokens[0].start, tokens[0].end)] + RustPieces(tokens[1..])
  }

  /** The block comments of a Rust source from `i` on. */
  function RustSpans(s: string, i: nat): seq<Span>
    requires i <= |s|
    decreases |s| - i
  {
    if i == |s| then [] else
      var t := ReadRust(s, i);
      (if t.kind == BlockComment then [Span(t.start, t.end)] else []) + RustSpans(s, t.end)
  }

  lemma RustHead(s: string, i: nat)
    requires i < |s|
    ensures var t := ReadRust(s, i);
      (t.kind == BlockComment <==> Opens(s, i)) && (t.kind == BlockComment ==> t.end == CommentEnd(s, i))
  {
    hide StartsRaw, StartsCharacter, AfterString, LineEnd, RawEnd, CommentEnd, Hashes;
  }

  lemma RustTail(s: string, i: nat)
    requires i < |s|
    ensures var t := ReadRust(s, i);
      && RustPieces(ReadAllRust(s, i))
      == [Piece(t.kind == BlockComment, t.start, t.end)] + RustPieces(ReadAllRust(s, t.end))
      && RustSpans(s, i) == (if t.kind == BlockComment then [Span(t.start, t.end)] else []) + RustSpans(s, t.end)
  {
    hide ReadRust;
    assert ReadAllRust(s, i)[1..] == ReadAllRust(s, ReadRust(s, i).end);
  }

  lemma NothingToDivide(s: string)
    ensures Divides(RustPieces(ReadAllRust(s, |s|)), s, |s|) && Found(RustPieces(ReadAllRust(s, |s|))) == []
    ensures RustSpans(s, |s|) == []
    ensures Divides(ScannerPieces(ReadAll(s, |s|)), s, |s|) && Found(ScannerPieces(ReadAll(s, |s|))) == []
    ensures Comments(ReadAll(s, |s|)) == []
  {}

  lemma {:induction false} RustDivides(s: string, i: nat)
    requires i <= |s|
    ensures Divides(RustPieces(ReadAllRust(s, i)), s, i)
    ensures Found(RustPieces(ReadAllRust(s, i))) == RustSpans(s, i)
    decreases |s| - i
  {
    hide ReadRust, CommentEnd, Divides, Found, RustPieces, ReadAllRust, RustSpans;
    if i < |s| {
      var t := ReadRust(s, i);
      RustDivides(s, t.end);
      RustHead(s, i);
      RustTail(s, i);
      OneMorePiece(Piece(t.kind == BlockComment, t.start, t.end), RustPieces(ReadAllRust(s, t.end)), s);
    } else {
      NothingToDivide(s);
    }
  }

  // ---- When they agree ----

  /** The scanner finds exactly the block comments of a Rust source if and only if none of them begins inside what
      the scanner takes for a string or a comment, and none of its spans begins inside a comment or literal of the
      source. */
  lemma ScannerAgreesIff(s: string)
    ensures Spans(s, 0) == RustSpans(s, 0) <==>
            && Clear(RustPieces(ReadAllRust(s, 0)), ScannerPieces(ReadAll(s, 0)))
            && Clear(ScannerPieces(ReadAll(s, 0)), RustPieces(ReadAllRust(s, 0)))
  {
    hide Clear, Divides, Found, Spans, RustSpans;
    ScannerDivides(s, 0);
    RustDivides(s, 0);
    SpansAreTheComments(s, 0);
    SameCommentsIff(ScannerPieces(ReadAll(s, 0)), RustPieces(ReadAllRust(s, 0)), s);
  }

  /** A line comment without quotes and openers after its first character. */
  predicate IsQuiet(s: string, t: RustToken) {
    forall k :: t.start < k < t.end && k < |s| ==> !IsQuote(s[k]) && !Opens(s, k)
  }

  predicate IsTame(s: string, t: RustToken) {
    t.kind != Lifetime && t.kind != RawText && (t.kind == LineComment ==> IsQuiet(s, t))
  }

  lemma {:induction false} QuietIsPassed(s: string, i: nat, j: nat)
    requires i <= j <= |s| && forall k :: i <= k < j ==> !IsQuote(s[k]) && !Opens(s, k)
    ensures Spans(s, i) == Spans(s, j)
    decreases j - i
  {
    if i < j {
      QuietIsPassed(s, i + 1, j);
    }
  }

  lemma SameEnd(s: string, i: nat)
    requires i < |s| && ReadRust(s, i).kind !in {Lifetime, RawText, LineComment}
    ensures ReadRust(s, i).end == ReadToken(s, i).end
    ensures ReadRust(s, i).kind == BlockComment <==> ReadToken(s, i).kind == Comment
  {
    hide AfterString, AfterComment, StartsRaw;
  }

  /** In sources without lifetimes and raw strings, with line comments free of quotes and openers, they always agree. */
  lemma {:induction false} TameSourcesAgree(s: string, i: nat)
    requires i <= |s| && forall t :: t in ReadAllRust(s, i) ==> IsTame(s, t)
    ensures Spans(s, i) == RustSpans(s, i)
    decreases |s| - i
  {
    hide ReadRust, Spans, IsQuiet;
    if i == |s| {
      NoSpans(s);
    } else {
      var t := ReadRust(s, i);
      assert ReadAllRust(s, i) == [t] + ReadAllRust(s, t.end);
      assert IsTame(s, t);
      TameSourcesAgree(s, t.end);
      if t.kind == LineComment {
        QuietLineIsPassed(s, i);
      } else {
        SameEnd(s, i);
        SpansStep(s, i);
        assert ReadToken(s, i).start == i;
      }
    }
  }

  lemma QuietLineIsPassed(s: string, i: nat)
    requires i < |s| && ReadRust(s, i).kind == LineComment && IsQuiet(s, ReadRust(s, i))
    ensures Spans(s, i) == Spans(s, ReadRust(s, i).end)
  {
    hide LineEnd, StartsRaw, StartsCharacter, AfterString, AfterComment;
    var t := ReadRust(s, i);
    assert StartsLine(s, i) && !IsQuote(s[i]) && !Opens(s, i);
    QuietIsPassed(s, i, t.end);
  }

  // ---- When they do not ----

  /** A character that begins nothing in either reading. */
  predicate IsOrdinary(c: char) {
    !IsQuote(c) && c != '/' && c != 'r'
  }

  lemma OrdinaryInScanner(s: string, i: nat)
    requires i < |s| && IsOrdinary(s[i])
    ensures Spans(s, i) == Spans(s, i + 1)
  {
    hide AfterString, AfterComment;
  }

  lemma OrdinaryInRust(s: string, i: nat)
    requires i < |s| && IsOrdinary(s[i])
    ensures RustSpans(s, i) == RustSpans(s, i + 1)
  {
    hide AfterString, CommentEnd, LineEnd, RawEnd, Hashes, ContinuesWord;
  }

  lemma {:induction false} OrdinaryIsPassed(s: string, i: nat, j: nat)
    requires i <= j <= |s| && forall k :: i <= k < j ==> IsOrdinary(s[k])
    ensures Spans(s, i) == Spans(s, j) && RustSpans(s, i) == RustSpans(s, j)
    decreases j - i
  {
    hide Spans, RustSpans, IsOrdinary;
    if i < j {
      OrdinaryInScanner(s, i);
      OrdinaryInRust(s, i);
      OrdinaryIsPassed(s, i + 1, j);
    }
  }

  function OneLifetime(): string {
    "fn f<'a>() { /* c */ }"
  }

  ghost predicate HasOneLifetime(s: string) {
    && |s| == 22
    && (forall k :: 0 <= k < 22 && k != 5 && !(13 <= k < 20) ==> IsOrdinary(s[k]))
    && s[5] == '\'' && s[6] != '\\' && (forall k :: 6 <= k < 22 ==> s[k] != '\'')
    && s[13] == '/' && s[14] == '*' && s[15] == ' ' && s[16] == 'c' && s[17] == ' ' && s[18] == '*' && s[19] == '/'
  }

  lemma OneLifetimeHasOne()
    ensures HasOneLifetime(OneLifetime())
  {}

  /** The apostrophe of a single lifetime hides the comment after it. */
  lemma LifetimeHidesComment()
    ensures RustSpans(OneLifetime(), 0) == [Span(13, 20)] && Spans(OneLifetime(), 0) == []
  {
    hide OneLifetime;
    OneLifetimeHasOne();
    LoneLifetime(OneLifetime());
  }

  lemma LoneLifetime(s: string)
    requires HasOneLifetime(s)
    ensures RustSpans(s, 0) == [Span(13, 20)] && Spans(s, 0) == []
  {
    OrdinaryIsPassed(s, 0, 5);
    OrdinaryIsPassed(s, 6, 13);
    OrdinaryIsPassed(s, 20, 22);
    AtTheLifetime(s);
    AtTheComment(s);
    RustStep(s, 5);
    RustStep(s, 13);
    hide RustSpans, Spans, ReadRust, HasOneLifetime;
    assert RustSpans(s, 22) == [] by { NoRustSpans(s); }
  }

  lemma NoRustSpans(s: string)
    ensures RustSpans(s, |s|) == []
  {}

  lemma RustStep(s: string, i: nat)
    requires i < |s|
    ensures var t := ReadRust(s, i);
      RustSpans(s, i) == (if t.kind == BlockComment then [Span(t.start, t.end)] else []) + RustSpans(s, t.end)
  {
    hide ReadRust;
  }

  lemma AtTheLifetime(s: string)
    requires HasOneLifetime(s)
    ensures ReadRust(s, 5) == RustToken(Lifetime, 5, 6) && Spans(s, 5) == []
  {
    hide Spans, AfterString, CommentEnd, LineEnd, RawEnd;
    UnclosedQuoteHidesComments(s, 5);
  }

  lemma AtTheComment(s: string)
    requires HasOneLifetime(s)
    ensures ReadRust(s, 13) == RustToken(BlockComment, 13, 20)
  {
    hide AfterString, LineEnd, RawEnd, StartsRaw;
    assert AfterComment(s, 18) == Some(20);
    assert AfterComment(s, 17) == AfterComment(s, 18);
    assert AfterComment(s, 16) == AfterComment(s, 17);
    assert AfterComment(s, 15) == AfterComment(s, 16);
  }
}
