/** The scanners that give the regex extractors the context they lack: block comments and brace-matched items. */
module CommentScanner {
  import opened Options

  /** A half-open stretch of the source. */
  datatype Span = Span(start: nat, end: nat)

  predicate Opens(s: string, i: nat) {
    i + 1 < |s| && s[i] == '/' && s[i + 1] == '*'
  }

  predicate Closes(s: string, i: nat) {
    i + 1 < |s| && s[i] == '*' && s[i + 1] == '/'
  }

  predicate IsQuote(c: char) {
    c == '"' || c == '\''
  }

  // ---- The recursive reading ----

  /** Past the quote that ends the string whose text continues at `i`; the end of the source if nothing ends it. */
  function AfterString(s: string, i: nat, quote: char): (r: nat)
    ensures r <= |s| && (i <= |s| ==> i <= r)
    decreases |s| - i
  {
    if i >= |s| then |s|
    else if s[i] == '\\' then AfterString(s, i + 2, quote)
    else if s[i] == quote then i + 1
    else AfterString(s, i + 1, quote)
  }

  /** Past the closer of the comment whose text continues at `i`; comments inside it are read first. */
  function AfterComment(s: string, i: nat): (r: Option<nat>)
    ensures r.Some? ==> i < r.value <= |s|
    decreases |s| - i
  {
    if i >= |s| then None
    else if Opens(s, i) then
      match AfterComment(s, i + 2)
      case None => None
      case Some(j) => AfterComment(s, j)
    else if Closes(s, i) then Some(i + 2)
    else AfterComment(s, i + 1)
  }

  /** The comments of the source from a point outside strings and comments on. */
  function Spans(s: string, i: nat): seq<Span>
    decreases |s| - i
  {
    if i >= |s| then []
    else if IsQuote(s[i]) then Spans(s, AfterString(s, i + 1, s[i]))
    else if Opens(s, i) then
      match AfterComment(s, i + 2)
      case None => [Span(i, |s|)]
      case Some(j) => [Span(i, j)] + Spans(s, j)
    else Spans(s, i + 1)
  }

  // ---- The loop ----

  /** Past the closers of `depth` comments, one inside the other. */
  function AfterAll(s: string, i: nat, depth: nat): (r: Option<nat>)
    decreases depth
  {
    if depth == 0 then Some(i) else
      match AfterComment(s, i)
      case None => None
      case Some(j) => AfterAll(s, j, depth - 1)
  }

  /** What the loop has still to find in a given state. */
  function StillToFind(s: string, i: nat, depth: nat, start: nat, inString: bool, quote: char): seq<Span> {
    if inString then Spans(s, AfterString(s, i, quote))
    else if depth == 0 then Spans(s, i)
    else
      match AfterAll(s, i, depth)
      case None => [Span(start, |s|)]
      case Some(j) => [Span(start, j)] + Spans(s, j)
  }

  /** `_block_comment_spans`: one flat loop with a depth counter and a string flag. */
  method BlockCommentSpans(source: string) returns (spans: seq<Span>)
    ensures spans == Spans(source, 0)
  {
    hide StillToFind, Spans, AfterAll, AfterComment, AfterString;
    spans := [];
    var i, depth, spanStart, inString, quote := 0, 0, 0, false, ' ';
    OutsideEverything(source, 0, spanStart, quote);
    while i < |source|
      invariant !(inString && depth > 0)
      invariant spans + StillToFind(source, i, depth, spanStart, inString, quote) == Spans(source, 0)
    {
      var ch := source[i];
      if inString {
        InsideString(source, i, depth, spanStart, quote);
        if ch == '\\' {
          i := i + 2;
          continue;
        }
        if ch == quote {
          inString := false;
        }
        i := i + 1;
        continue;
      }
      if depth == 0 && IsQuote(ch) {
        AtQuote(source, i, spanStart, quote);
        inString, quote := true, ch;
        i := i + 1;
        continue;
      }
      if Opens(source, i) {
        AtOpener(source, i, depth, spanStart, quote);
        if depth == 0 {
          spanStart := i;
        }
        depth := depth + 1;
        i := i + 2;
        continue;
      }
      if Closes(source, i) && depth > 0 {
        AtCloser(source, i, depth, spanStart, quote);
        depth := depth - 1;
        if depth == 0 {
          assert spans + ([Span(spanStart, i + 2)] + StillToFind(source, i + 2, 0, spanStart, false, quote))
              == (spans + [Span(spanStart, i + 2)]) + StillToFind(source, i + 2, 0, spanStart, false, quote);
          spans := spans + [Span(spanStart, i + 2)];
        }
        i := i + 2;
        continue;
      }
      AtOther(source, i, depth, spanStart, quote);
      i := i + 1;
    }
    AtTheEnd(source, i, depth, spanStart, inString, quote);
    if depth > 0 {
      spans := spans + [Span(spanStart, |source|)];
    }
  }

  lemma OutsideEverything(s: string, i: nat, start: nat, quote: char)
    ensures StillToFind(s, i, 0, start, false, quote) == Spans(s, i)
  {}

  lemma InsideString(s: string, i: nat, depth: nat, start: nat, quote: char)
    requires i < |s| && depth == 0
    ensures StillToFind(s, i, depth, start, true, quote) ==
            if s[i] == '\\' then StillToFind(s, i + 2, depth, start, true, quote)
            else StillToFind(s, i + 1, depth, start, s[i] != quote, quote)
  {
    hide Spans;
  }

  lemma AtQuote(s: string, i: nat, start: nat, quote: char)
    requires i < |s| && IsQuote(s[i])
    ensures StillToFind(s, i, 0, start, false, quote) == StillToFind(s, i + 1, 0, start, true, s[i])
  {
    hide AfterString, AfterComment;
  }

  lemma AtOpener(s: string, i: nat, depth: nat, start: nat, quote: char)
    requires Opens(s, i)
    ensures StillToFind(s, i, depth, start, false, quote) ==
            StillToFind(s, i + 2, depth + 1, if depth == 0 then i else start, false, quote)
  {
    hide AfterString, AfterAll, AfterComment;
    Deepen(s, i, depth);
  }

  lemma AtCloser(s: string, i: nat, depth: nat, start: nat, quote: char)
    requires Closes(s, i) && depth > 0
    ensures StillToFind(s, i, depth, start, false, quote) ==
            (if depth == 1 then [Span(start, i + 2)] else []) + StillToFind(s, i + 2, depth - 1, start, false, quote)
  {
    hide Spans;
    assert AfterComment(s, i) == Some(i + 2);
    assert AfterAll(s, i, depth) == AfterAll(s, i + 2, depth - 1);
  }

  lemma AtOther(s: string, i: nat, depth: nat, start: nat, quote: char)
    requires i < |s| && !Opens(s, i) && !(Closes(s, i) && depth > 0) && !(depth == 0 && IsQuote(s[i]))
    ensures StillToFind(s, i, depth, start, false, quote) == StillToFind(s, i + 1, depth, start, false, quote)
  {
    if depth > 0 {
      assert AfterComment(s, i) == AfterComment(s, i + 1);
    }
  }

  lemma AtTheEnd(s: string, i: nat, depth: nat, start: nat, inString: bool, quote: char)
    requires i >= |s| && !(inString && depth > 0)
    ensures StillToFind(s, i, depth, start, inString, quote) == if depth > 0 then [Span(start, |s|)] else []
  {
    if inString {
      NoSpans(s);
    }
  }

  lemma Deepen(s: string, i: nat, depth: nat)
    requires Opens(s, i)
    ensures depth > 0 ==> AfterAll(s, i, depth) == AfterAll(s, i + 2, depth + 1)
    ensures depth == 0 ==> AfterComment(s, i + 2) == AfterAll(s, i + 2, 1)
  {
    if depth > 0 {
      match AfterComment(s, i + 2)
      case None =>
      case Some(j) => assert AfterAll(s, i + 2, depth + 1) == AfterAll(s, j, depth);
    }
  }

  // ---- Nesting counted, not recursed ----

  /** The nesting level on arriving exactly at `j`, counted from level `level` at `i`; None inside a two-character
      mark. */
  function LevelAt(s: string, i: nat, level: int, j: nat): Option<int>
    decreases |s| - i
  {
    if i == j then Some(level)
    else if i > j || i >= |s| then None
    else if Opens(s, i) then LevelAt(s, i + 2, level + 1, j)
    else if Closes(s, i) then LevelAt(s, i + 2, level - 1, j)
    else LevelAt(s, i + 1, level, j)
  }

  /** `j` is the first point after `i` where the nesting is back at zero. */
  ghost predicate FirstReturn(s: string, i: nat, level: int, j: nat) {
    i < j <= |s| && LevelAt(s, i, level, j) == Some(0) && forall k :: i < k < j ==> LevelAt(s, i, level, k) != Some(0)
  }

  lemma {:induction false} AllIsFirstReturn(s: string, i: nat, level: nat, j: nat)
    requires level > 0
    ensures AfterAll(s, i, level) == Some(j) <==> FirstReturn(s, i, level, j)
    decreases |s| - i
  {
    if i < |s| {
      if Opens(s, i) {
        Deepen(s, i, level);
        AllIsFirstReturn(s, i + 2, level + 1, j);
        StepOver(s, i, level, j, 2, level + 1);
      } else if Closes(s, i) {
        assert AfterComment(s, i) == Some(i + 2);
        assert AfterAll(s, i, level) == AfterAll(s, i + 2, level - 1);
        if level > 1 {
          AllIsFirstReturn(s, i + 2, level - 1, j);
          StepOver(s, i, level, j, 2, level - 1);
        } else {
          LastCloser(s, i, j);
        }
      } else {
        assert AfterComment(s, i) == AfterComment(s, i + 1);
        AllIsFirstReturn(s, i + 1, level, j);
        StepOver(s, i, level, j, 1, level);
      }
    }
  }

  lemma LastCloser(s: string, i: nat, j: nat)
    requires Closes(s, i)
    ensures FirstReturn(s, i, 1, j) <==> j == i + 2
  {
    Here(s, i + 2, 0);
    assert LevelAt(s, i, 1, i + 2) == LevelAt(s, i + 2, 0, i + 2);
    assert LevelAt(s, i, 1, i + 1) == LevelAt(s, i + 2, 0, i + 1);
  }

  lemma StepOver(s: string, i: nat, level: int, j: nat, width: nat, next: int)
    requires i < |s| && 1 <= width <= 2 && next != 0
    requires forall k :: i + width <= k ==> LevelAt(s, i, level, k) == LevelAt(s, i + width, next, k)
    requires width == 2 ==> LevelAt(s, i, level, i + 1) == None
    ensures FirstReturn(s, i, level, j) <==> FirstReturn(s, i + width, next, j)
  {
    hide LevelAt;
    var m := i + width;
    assert LevelAt(s, m, next, m) == Some(next) by { Here(s, m, next); }
    if FirstReturn(s, i + width, next, j) {
      forall k | i < k < j
        ensures LevelAt(s, i, level, k) != Some(0)
      {
        assert k == i + 1 || LevelAt(s, i, level, k) == LevelAt(s, m, next, k);
      }
    }
    if FirstReturn(s, i, level, j) {
      assert j >= i + width;
      assert LevelAt(s, i, level, j) == LevelAt(s, i + width, next, j);
      forall k | m < k < j
        ensures LevelAt(s, m, next, k) != Some(0)
      {
        assert LevelAt(s, i, level, k) == LevelAt(s, m, next, k);
      }
    }
  }

  lemma Here(s: string, i: nat, level: int)
    ensures LevelAt(s, i, level, i) == Some(level)
  {}

  /** The closed comment starting at `i` ends where its nesting first returns to zero, and is unclosed exactly when it
      never does. */
  lemma CommentEndsAtFirstReturn(s: string, i: nat, j: nat)
    requires Opens(s, i)
    ensures AfterComment(s, i + 2) == Some(j) <==> FirstReturn(s, i, 0, j)
  {
    Deepen(s, i, 0);
    AllIsFirstReturn(s, i + 2, 1, j);
    StepOver(s, i, 0, j, 2, 1);
  }

  // ---- The source as a list of tokens ----

  /** The text of a string read from `i`, a backslash together with what follows it, arrives exactly at `j`. */
  predicate Arrives(s: string, i: nat, j: nat)
    decreases |s| - i
  {
    i == j || (i < j && i < |s| && Arrives(s, if s[i] == '\\' then i + 2 else i + 1, j))
  }

  datatype Kind = Plain | Quoted | Comment

  datatype Token = Token(kind: Kind, start: nat, end: nat)

  /** `j` is past the first unescaped `quote` of the text from `i`, or there is none and `j` is the end. */
  ghost predicate EndsText(s: string, i: nat, quote: char, j: nat) {
    || (i < j <= |s| && Arrives(s, i, j - 1) && s[j - 1] == quote && NoQuote(s, i, quote, j - 1))
    || (j == |s| && NoQuote(s, i, quote, |s|))
  }

  ghost predicate NoQuote(s: string, i: nat, quote: char, j: nat)
    requires j <= |s|
  {
    forall k :: i <= k < j && Arrives(s, i, k) ==> s[k] != quote
  }

  ghost predicate IsQuoted(s: string, i: nat, j: nat) {
    i < |s| && IsQuote(s[i]) && EndsText(s, i + 1, s[i], j)
  }

  ghost predicate IsComment(s: string, i: nat, j: nat) {
    && Opens(s, i)
    && (FirstReturn(s, i, 0, j) || (j == |s| && forall k :: !FirstReturn(s, i, 0, k)))
  }

  ghost predicate IsPlain(s: string, i: nat, j: nat) {
    i < |s| && j == i + 1 && !IsQuote(s[i]) && !Opens(s, i)
  }

  ghost predicate IsToken(s: string, t: Token) {
    match t.kind
    case Plain => IsPlain(s, t.start, t.end)
    case Quoted => IsQuoted(s, t.start, t.end)
    case Comment => IsComment(s, t.start, t.end)
  }

  /** Tokens that follow one another from `i` to the end of the source. */
  ghost predicate Tokenizes(tokens: seq<Token>, s: string, i: nat) {
    if tokens == [] then i == |s|
    else tokens[0].start == i && IsToken(s, tokens[0]) && Tokenizes(tokens[1..], s, tokens[0].end)
  }

  /** The comments among the tokens. */
  function Comments(tokens: seq<Token>): seq<Span> {
    if tokens == [] then []
    else (if tokens[0].kind == Comment then [Span(tokens[0].start, tokens[0].end)] else []) + Comments(tokens[1..])
  }

  lemma {:induction false} StringEnds(s: string, i: nat, quote: char, j: nat)
    requires quote != '\\'
    ensures AfterString(s, i, quote) == j <==> EndsText(s, i, quote, j)
    decreases |s| - i
  {
    if i < |s| {
      var next := if s[i] == '\\' then i + 2 else i + 1;
      assert Arrives(s, i, i);
      if s[i] == '\\' || s[i] != quote {
        StringEnds(s, next, quote, j);
        StepText(s, i, next, quote, j);
      }
    }
  }

  lemma StepText(s: string, i: nat, next: nat, quote: char, j: nat)
    requires i < |s| && next == (if s[i] == '\\' then i + 2 else i + 1) && s[i] != quote
    ensures EndsText(s, i, quote, j) <==> EndsText(s, next, quote, j)
  {
    StepQuotes(s, i, next, quote, |s|);
    if 0 < j <= |s| {
      StepQuotes(s, i, next, quote, j - 1);
      assert i < j - 1 ==> (Arrives(s, i, j - 1) <==> next <= j - 1 && Arrives(s, next, j - 1));
    }
  }

  lemma StepQuotes(s: string, i: nat, next: nat, quote: char, j: nat)
    requires i < |s| && next == (if s[i] == '\\' then i + 2 else i + 1) && s[i] != quote && j <= |s|
    ensures NoQuote(s, i, quote, j) <==> NoQuote(s, next, quote, j)
  {
    assert forall k :: i < k ==> (Arrives(s, i, k) <==> next <= k && Arrives(s, next, k));
  }

  /** How many backslashes stand right before `j`, back to `i` at most. */
  function Backslashes(s: string, i: nat, j: nat): nat
    requires i <= j <= |s|
  {
    if i == j || s[j - 1] != '\\' then 0 else 1 + Backslashes(s, i, j - 1)
  }

  lemma {:induction false} BackslashesFrom(s: string, i: nat, k: nat, j: nat)
    requires i <= k <= j <= |s|
    ensures Backslashes(s, i, j) ==
            Backslashes(s, k, j) + if Backslashes(s, k, j) == j - k then Backslashes(s, i, k) else 0
  {
    if k < j && s[j - 1] == '\\' {
      BackslashesFrom(s, i, k, j - 1);
    }
  }

  /** A character of a string's text is not escaped exactly when an even number of backslashes stands before it. */
  lemma {:induction false} ArrivesIff(s: string, i: nat, j: nat)
    requires i <= j <= |s|
    ensures Arrives(s, i, j) <==> Backslashes(s, i, j) % 2 == 0
    decreases j - i
  {
    if i < j {
      if s[i] != '\\' {
        ArrivesIff(s, i + 1, j);
        BackslashesFrom(s, i, i + 1, j);
      } else if i + 1 < j {
        ArrivesIff(s, i + 2, j);
        BackslashesFrom(s, i, i + 2, j);
        assert Backslashes(s, i, i + 1) == 1;
      } else {
        assert Backslashes(s, i, i) == 0;
      }
    }
  }

  /** Whether the quote at `k` ends the string whose text begins at `i`. */
  predicate EndsAt(s: string, i: nat, quote: char, k: nat)
    requires i <= k < |s|
  {
    s[k] == quote && Backslashes(s, i, k) % 2 == 0
  }

  /** A string is read to just past the first such quote after an even number of backslashes, to the end of the source
      without one. */
  lemma StringEndsIff(s: string, i: nat, quote: char, k: nat)
    requires quote != '\\' && i <= k < |s|
    ensures AfterString(s, i, quote) == k + 1 && EndsAt(s, i, quote, k) <==>
            EndsAt(s, i, quote, k) && forall l :: i <= l < k ==> !EndsAt(s, i, quote, l)
    ensures (forall l :: i <= l < |s| ==> !EndsAt(s, i, quote, l)) ==> AfterString(s, i, quote) == |s|
  {
    hide AfterString, Arrives, Backslashes;
    NoQuoteIff(s, i, quote, k);
    NoQuoteIff(s, i, quote, |s|);
    ArrivesIff(s, i, k);
    StringEnds(s, i, quote, k + 1);
    StringEnds(s, i, quote, |s|);
  }

  lemma NoQuoteIff(s: string, i: nat, quote: char, j: nat)
    requires i <= j <= |s|
    ensures NoQuote(s, i, quote, j) <==> forall l :: i <= l < j ==> !EndsAt(s, i, quote, l)
  {
    hide Arrives, Backslashes;
    forall l | i <= l < j
      ensures Arrives(s, i, l) && s[l] == quote <==> EndsAt(s, i, quote, l)
    {
      ArrivesIff(s, i, l);
    }
  }

  /** Where the token starting at `i` ends, if the reading above divides the source. */
  function ReadToken(s: string, i: nat): (t: Token)
    requires i < |s|
    ensures t.start == i && i < t.end <= |s|
  {
    if IsQuote(s[i]) then Token(Quoted, i, AfterString(s, i + 1, s[i]))
    else if Opens(s, i) then
      match AfterComment(s, i + 2)
      case None => Token(Comment, i, |s|)
      case Some(j) => Token(Comment, i, j)
    else Token(Plain, i, i + 1)
  }

  lemma TokenIsRead(s: string, t: Token)
    requires t.start < |s|
    ensures IsToken(s, t) <==> t == ReadToken(s, t.start)
  {
    hide AfterString, AfterComment, FirstReturn, EndsText;
    if IsQuote(s[t.start]) {
      StringEnds(s, t.start + 1, s[t.start], t.end);
    } else if Opens(s, t.start) {
      CommentRead(s, t.start, t.end);
    }
  }

  lemma CommentRead(s: string, i: nat, j: nat)
    requires Opens(s, i)
    ensures IsComment(s, i, j) <==> j == match AfterComment(s, i + 2) case None => |s| case Some(k) => k
  {
    hide AfterComment, FirstReturn;
    forall k: nat
      ensures AfterComment(s, i + 2) == Some(k) <==> FirstReturn(s, i, 0, k)
    {
      CommentEndsAtFirstReturn(s, i, k);
    }
  }

  function ReadAll(s: string, i: nat): seq<Token>
    requires i <= |s|
    decreases |s| - i
  {
    if i == |s| then [] else
      var t := ReadToken(s, i);
      [t] + ReadAll(s, t.end)
  }

  /** There is exactly one way to divide a source into plain characters, quoted strings and comments. */
  lemma {:induction false} OneReading(tokens: seq<Token>, s: string, i: nat)
    requires i <= |s|
    ensures Tokenizes(tokens, s, i) <==> tokens == ReadAll(s, i)
    decreases |s| - i
  {
    hide IsToken, ReadToken;
    if i < |s| && tokens != [] {
      var t := ReadToken(s, i);
      if tokens[0].start == i {
        TokenIsRead(s, tokens[0]);
        if tokens[0] == t {
          OneReading(tokens[1..], s, t.end);
          assert tokens == [t] + tokens[1..];
        }
      }
      assert ReadAll(s, i)[0] == t && ReadAll(s, i)[1..] == ReadAll(s, t.end);
    } else if i == |s| && tokens != [] {
      if tokens[0].start == i {
        PastTheEnd(s, tokens[0]);
      }
    }
  }

  lemma PastTheEnd(s: string, t: Token)
    requires t.start >= |s|
    ensures !IsToken(s, t)
  {}

  /** The spans are the comments of that division. */
  lemma {:induction false} SpansAreTheComments(s: string, i: nat)
    requires i <= |s|
    ensures Spans(s, i) == Comments(ReadAll(s, i))
    decreases |s| - i
  {
    hide ReadToken, Spans;
    if i < |s| {
      var t := ReadToken(s, i);
      SpansAreTheComments(s, t.end);
      SpansStep(s, i);
      assert ReadAll(s, i)[0] == t && ReadAll(s, i)[1..] == ReadAll(s, t.end);
    } else {
      assert Spans(s, i) == [] by { NoSpans(s); }
    }
  }

  lemma NoSpans(s: string)
    ensures Spans(s, |s|) == []
  {}

  lemma SpansStep(s: string, i: nat)
    requires i < |s|
    ensures var t := ReadToken(s, i);
      Spans(s, i) == (if t.kind == Comment then [Span(t.start, t.end)] else []) + Spans(s, t.end)
  {
    hide AfterString, AfterComment;
    if !IsQuote(s[i]) && Opens(s, i) && AfterComment(s, i + 2) == None {
      NoSpans(s);
    }
  }

  /** Whatever division of the source is right, the scanner reports its comments. */
  lemma ScannerReportsTheComments(s: string, tokens: seq<Token>)
    requires Tokenizes(tokens, s, 0)
    ensures Spans(s, 0) == Comments(tokens)
  {
    OneReading(tokens, s, 0);
    SpansAreTheComments(s, 0);
  }

  /** A quote character that nothing closes, such as the one of a Rust lifetime, hides every comment after it. */
  lemma UnclosedQuoteHidesComments(s: string, i: nat)
    requires i < |s| && IsQuote(s[i]) && NoQuote(s, i + 1, s[i], |s|)
    ensures Spans(s, i) == []
  {
    hide AfterString;
    StringEnds(s, i + 1, s[i], |s|);
    NoSpans(s);
  }

  /** The spans lie in the source, are not empty and do not overlap, in increasing order. */
  ghost predicate InOrder(spans: seq<Span>, lo: nat, hi: nat) {
    && (forall k :: 0 <= k < |spans| ==> lo <= spans[k].start < spans[k].end <= hi)
    && (forall k, l :: 0 <= k < l < |spans| ==> spans[k].end <= spans[l].start)
  }

  lemma {:induction false} SpansAreInOrder(s: string, i: nat)
    requires i <= |s|
    ensures InOrder(Spans(s, i), i, |s|)
    decreases |s| - i
  {
    hide ReadToken, Spans;
    if i < |s| {
      SpansAreInOrder(s, ReadToken(s, i).end);
      SpansStep(s, i);
    } else {
      NoSpans(s);
    }
  }

  /** `word` stands at `k`. */
  predicate Stands(word: string, s: string, k: nat) {
    k + |word| <= |s| && s[k..k + |word|] == word
  }

  lemma {:induction false} CommentCloses(s: string, i: nat, j: nat)
    requires AfterComment(s, i) == Some(j)
    ensures i + 2 <= j && Stands("*/", s, j - 2)
    decreases |s| - i
  {
    if Opens(s, i) {
      CommentCloses(s, AfterComment(s, i + 2).value, j);
    } else if !Closes(s, i) {
      CommentCloses(s, i + 1, j);
    }
  }

  /** Every span begins at an opener and ends behind a closer or at the end of the source. */
  lemma {:induction false} SpansAreDelimited(s: string, i: nat, x: Span)
    requires i <= |s| && x in Spans(s, i)
    ensures Stands("/*", s, x.start) && (x.end == |s| || (x.start + 4 <= x.end <= |s| && Stands("*/", s, x.end - 2)))
    decreases |s| - i
  {
    if IsQuote(s[i]) {
      SpansAreDelimited(s, AfterString(s, i + 1, s[i]), x);
    } else if Opens(s, i) {
      if AfterComment(s, i + 2).Some? {
        var j := AfterComment(s, i + 2).value;
        CommentCloses(s, i + 2, j);
        if x != Span(i, j) {
          SpansAreDelimited(s, j, x);
        }
      }
    } else {
      SpansAreDelimited(s, i + 1, x);
    }
  }

  /** Nothing of the kind stands at `from` or between it and `to`. */
  ghost predicate NoneStands(word: string, s: string, from: nat, to: nat) {
    forall k: nat :: from <= k < to ==> !Stands(word, s, k)
  }

  lemma {:induction false} FirstCloser(s: string, i: nat, j: nat)
    requires i <= j && Stands("*/", s, j) && NoneStands("*/", s, i, j) && NoneStands("/*", s, i, j)
    ensures AfterComment(s, i) == Some(j + 2)
    decreases j - i
  {
    assert s[j] == s[j..j + 2][0] && s[j + 1] == s[j..j + 2][1];
    if i < j {
      assert !Stands("*/", s, i) && !Stands("/*", s, i);
      FirstCloser(s, i + 1, j);
    }
  }

  /** A comment behind a stretch without quotes and openers runs from its opener to the first closer, if nothing opens
      in between. */
  lemma {:induction false} FirstSpan(s: string, i: nat, k: nat, j: nat)
    requires i <= k && k + 2 <= j && Stands("/*", s, k) && Stands("*/", s, j)
    requires NoneStands("\"", s, i, k) && NoneStands("'", s, i, k) && NoneStands("/*", s, i, k)
    requires NoneStands("*/", s, k + 2, j) && NoneStands("/*", s, k + 2, j)
    ensures Spans(s, i) == [Span(k, j + 2)] + Spans(s, j + 2)
    decreases k - i
  {
    hide AfterComment, AfterString;
    if i < k {
      assert !Stands("/*", s, i) && !Stands("\"", s, i) && !Stands("'", s, i);
      assert s[i..i + 1] == [s[i]];
      FirstSpan(s, i + 1, k, j);
    } else {
      assert s[k] == s[k..k + 2][0] && s[k + 1] == s[k..k + 2][1];
      FirstCloser(s, k + 2, j);
    }
  }

  // ---- The braces of an item ----

  /** Openers less closers in `s[i..j]`. */
  function Balance(s: string, i: nat, j: nat): int
    requires i <= j <= |s|
  {
    if i == j then 0
    else Balance(s, i, j - 1) + if s[j - 1] == '{' then 1 else if s[j - 1] == '}' then -1 else 0
  }

  lemma {:induction false} BalanceCounts(s: string, i: nat, j: nat)
    requires i <= j <= |s|
    ensures Balance(s, i, j) == multiset(s[i..j])['{'] as int - multiset(s[i..j])['}'] as int
  {
    if i < j {
      BalanceCounts(s, i, j - 1);
      assert s[i..j] == s[i..j - 1] + [s[j - 1]];
    }
  }

  /** `j` is just past the brace that closes the one at `i`. */
  ghost predicate ClosesBrace(s: string, i: nat, j: nat) {
    i < j <= |s| && Balance(s, i, j) == 0 && forall k :: i < k < j ==> Balance(s, i, k) > 0
  }

  ghost predicate FirstBrace(s: string, from: nat, limit: nat, i: nat) {
    from <= i < limit && i < |s| && s[i] == '{' && '{' !in s[from..i]
  }

  /** `source.find("{", search_from)` */
  method FindBrace(s: string, from: nat) returns (i: int)
    ensures i == -1 ==> forall k :: from <= k < |s| ==> s[k] != '{'
    ensures i != -1 ==> from <= i < |s| && s[i] == '{' && '{' !in s[from..i]
  {
    i := from;
    while i < |s|
      invariant from <= i && (from <= |s| ==> i <= |s| && '{' !in s[from..i])
    {
      if s[i] == '{' {
        return;
      }
      assert s[from..i + 1] == s[from..i] + [s[i]];
      i := i + 1;
    }
    assert forall k :: from <= k < |s| ==> s[k] == s[from..][k - from];
    i := -1;
  }

  /** `_brace_matched_end` */
  method BraceMatchedEnd(source: string, searchFrom: nat, fallbackEnd: nat) returns (end: nat)
    ensures forall i: nat, j: nat :: FirstBrace(source, searchFrom, fallbackEnd, i) && ClosesBrace(source, i, j) ==>
              end == if j <= fallbackEnd then j else fallbackEnd
    ensures (forall i: nat, j: nat :: FirstBrace(source, searchFrom, fallbackEnd, i) ==> !ClosesBrace(source, i, j)) ==>
              end == fallbackEnd
  {
    var brace := FindBrace(source, searchFrom);
    if brace < 0 || brace >= fallbackEnd {
      return fallbackEnd;
    }
    var depth, i := 0, brace;
    while i < |source|
      invariant brace <= i <= |source|
      invariant depth == Balance(source, brace, i)
      invariant forall k :: brace < k <= i ==> Balance(source, brace, k) > 0
    {
      var c := source[i];
      if c == '{' {
        depth := depth + 1;
      } else if c == '}' {
        depth := depth - 1;
        if depth == 0 {
          assert ClosesBrace(source, brace, i + 1);
          return if i + 1 <= fallbackEnd then i + 1 else fallbackEnd;
        }
      }
      i := i + 1;
    }
    end := fallbackEnd;
  }
}
