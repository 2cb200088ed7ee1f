/** Splitting a text into statements by its tokens: two passes, one to count and one to fill the array. */
module Splitter {

  datatype Kind = Keyword | LParen | RParen | Semicolon | Other

  /** open_parens is a size_t. */
  const WRAP := 0x1_0000_0000_0000_0000

  /** The tokens from..to of a statement; `to` is the semicolon after it, or the end of the input. */
  datatype Range = Range(from: nat, to: nat)

  datatype Scan = Scan(parens: nat, keyword: bool, from: nat, done: seq<Range>)

  function Nest(parens: nat, k: Kind): nat {
    match k
    case LParen => (parens + 1) % WRAP
    case RParen => (parens + WRAP - 1) % WRAP
    case _ => parens
  }

  /** Token i. */
  function Step(s: Scan, k: Kind, i: nat): Scan {
    match k
    case Keyword => s.(keyword := true)
    case Semicolon =>
      if s.keyword && s.parens == 0 then Scan(0, false, i + 1, s.done + [Range(s.from, i)])
      else if s.parens == 0 then s.(from := i + 1)
      else s
    case _ => s.(parens := Nest(s.parens, k))
  }

  function ScanAll(ks: seq<Kind>): Scan {
    if ks == [] then Scan(0, false, 0, []) else Step(ScanAll(ks[..|ks|-1]), ks[|ks|-1], |ks| - 1)
  }

  /** The statements: the end of the input ends one as well, if all parentheses are closed. */
  function Statements(ks: seq<Kind>): seq<Range> {
    var s := ScanAll(ks);
    s.done + (if s.keyword && s.parens == 0 then [Range(s.from, |ks|)] else [])
  }

  // ---------- The two passes ----------

  datatype Token = Token(kind: Kind, start: nat)

  datatype SplitStmt = SplitStmt(location: int, len: int)

  function Kinds(tokens: seq<Token>): (ks: seq<Kind>)
    ensures |ks| == |tokens| && forall i | 0 <= i < |tokens| :: ks[i] == tokens[i].kind
  {
    seq(|tokens|, i requires 0 <= i < |tokens| => tokens[i].kind)
  }

  /** Tokens come in order, and before the end of the input. */
  predicate TokensOk(tokens: seq<Token>, eof: nat) {
    && (forall i | 0 <= i < |tokens| :: tokens[i].start < eof)
    && (forall i, j | 0 <= i < j < |tokens| :: tokens[i].start < tokens[j].start)
  }

  /** Where token i starts; token |tokens| is the end of the input. */
  function Location(tokens: seq<Token>, eof: nat, i: nat): nat {
    if i < |tokens| then tokens[i].start else eof
  }

  /** Where a statement starts if its first token is token `from`: right after a semicolon. */
  function StartOf(tokens: seq<Token>, from: nat): nat
    requires from <= |tokens|
  {
    if from == 0 then 0 else tokens[from-1].start + 1
  }

  function StmtOf(tokens: seq<Token>, eof: nat, r: Range): SplitStmt
    requires r.from <= |tokens|
  {
    SplitStmt(StartOf(tokens, r.from), Location(tokens, eof, r.to) - StartOf(tokens, r.from))
  }

  predicate RangesOk(rs: seq<Range>, from: nat, n: nat) {
    && (forall i | 0 <= i < |rs| :: rs[i].from <= rs[i].to < from && rs[i].to <= n)
    && (forall i, j | 0 <= i < j < |rs| :: rs[i].to < rs[j].from)
  }

  lemma {:induction false} ScanRanges(ks: seq<Kind>)
    ensures var s := ScanAll(ks); RangesOk(s.done, s.from, |ks|) && s.from <= |ks|
  {
    if ks != [] {
      ScanRanges(ks[..|ks|-1]);
    }
  }

  lemma ScanNext(tokens: seq<Token>, i: nat)
    requires i < |tokens|
    ensures ScanAll(Kinds(tokens)[..i+1]) == Step(ScanAll(Kinds(tokens)[..i]), tokens[i].kind, i)
  {
    assert Kinds(tokens)[..i+1][..i] == Kinds(tokens)[..i];
  }

  /** The first pass counts the statements. */
  method CountStatements(tokens: seq<Token>) returns (n: nat)
    ensures n == |Statements(Kinds(tokens))|
  {
    var keywordBeforeTerminator, openParens := false, 0;
    n := 0;
    for i := 0 to |tokens|
      invariant var s := ScanAll(Kinds(tokens)[..i]); openParens == s.parens && keywordBeforeTerminator == s.keyword && n == |s.done|
    {
      ScanNext(tokens, i);
      match tokens[i].kind
      case Keyword => keywordBeforeTerminator := true;
      case LParen => openParens := (openParens + 1) % WRAP;
      case RParen => openParens := (openParens + WRAP - 1) % WRAP;
      case Semicolon =>
        if keywordBeforeTerminator && openParens == 0 {
          n, keywordBeforeTerminator := n + 1, false;
        }
      case Other =>
    }
    assert Kinds(tokens)[..|tokens|] == Kinds(tokens);
    if keywordBeforeTerminator && openParens == 0 {
      n := n + 1;
    }
  }

  /** Where the second pass stands before token i. */
  predicate Progress(tokens: seq<Token>, eof: nat, i: nat, openParens: nat, keyword: bool, stmtStart: int, curstmt: nat, stmts: seq<SplitStmt>) {
    && i <= |tokens|
    && var s := ScanAll(Kinds(tokens)[..i]);
    && openParens == s.parens && keyword == s.keyword && curstmt == |s.done|
    && s.from <= |tokens| && stmtStart == StartOf(tokens, s.from)
    && Filled(tokens, eof, s.done, stmts) && |stmts| == |Statements(Kinds(tokens))|
  }

  lemma {:induction false} ProgressStep(tokens: seq<Token>, eof: nat, i: nat, openParens: nat, keyword: bool, stmtStart: int, curstmt: nat, stmts: seq<SplitStmt>)
    requires Progress(tokens, eof, i, openParens, keyword, stmtStart, curstmt, stmts) && i < |tokens|
    ensures tokens[i].kind == Keyword ==> Progress(tokens, eof, i + 1, openParens, true, stmtStart, curstmt, stmts)
    ensures tokens[i].kind == LParen ==> Progress(tokens, eof, i + 1, (openParens + 1) % WRAP, keyword, stmtStart, curstmt, stmts)
    ensures tokens[i].kind == RParen ==> Progress(tokens, eof, i + 1, (openParens + WRAP - 1) % WRAP, keyword, stmtStart, curstmt, stmts)
    ensures tokens[i].kind == Other ==> Progress(tokens, eof, i + 1, openParens, keyword, stmtStart, curstmt, stmts)
    ensures tokens[i].kind == Semicolon && !(keyword && openParens == 0) ==>
              Progress(tokens, eof, i + 1, openParens, keyword, if openParens == 0 then tokens[i].start + 1 else stmtStart, curstmt, stmts)
    ensures tokens[i].kind == Semicolon && keyword && openParens == 0 ==>
              && curstmt < |stmts|
              && Progress(tokens, eof, i + 1, 0, false, tokens[i].start + 1, curstmt + 1,
                          stmts[curstmt := SplitStmt(stmtStart, tokens[i].start - stmtStart)])
  {
    ScanNext(tokens, i);
    DoneIsPrefix(tokens, i + 1);
    hide ScanAll, Statements;
  }

  lemma ProgressStarts(tokens: seq<Token>, eof: nat, stmts: seq<SplitStmt>)
    requires |stmts| == |Statements(Kinds(tokens))|
    ensures Progress(tokens, eof, 0, 0, false, 0, 0, stmts)
  {
    assert Kinds(tokens)[..0] == [];
  }

  /** At the end of the input. */
  lemma ProgressEnds(tokens: seq<Token>, eof: nat, openParens: nat, keyword: bool, stmtStart: int, curstmt: nat, stmts: seq<SplitStmt>)
    requires Progress(tokens, eof, |tokens|, openParens, keyword, stmtStart, curstmt, stmts)
    ensures !(keyword && openParens == 0) ==> Filled(tokens, eof, Statements(Kinds(tokens)), stmts)
    ensures keyword && openParens == 0 ==>
              && curstmt < |stmts|
              && Filled(tokens, eof, Statements(Kinds(tokens)), stmts[curstmt := SplitStmt(stmtStart, eof - stmtStart)])
  {
    assert Kinds(tokens)[..|tokens|] == Kinds(tokens);
    hide ScanAll;
  }

  /** pg_query_split_with_scanner: the second pass fills each slot that the first one counted. */
  method Split(tokens: seq<Token>, eof: nat) returns (stmts: array<SplitStmt>)
    requires TokensOk(tokens, eof)
    ensures stmts.Length == |Statements(Kinds(tokens))| && Filled(tokens, eof, Statements(Kinds(tokens)), stmts[..])
  {
    hide ScanAll, Statements, Progress, Filled;
    var n := CountStatements(tokens);
    stmts := new SplitStmt[n](_ => SplitStmt(0, 0));
    var keywordBeforeTerminator, openParens, stmtStart, curstmt := false, 0, 0, 0;
    ProgressStarts(tokens, eof, stmts[..]);
    for i := 0 to |tokens|
      invariant openParens >= 0 && curstmt >= 0 && Progress(tokens, eof, i, openParens, keywordBeforeTerminator, stmtStart, curstmt, stmts[..])
    {
      ProgressStep(tokens, eof, i, openParens, keywordBeforeTerminator, stmtStart, curstmt, stmts[..]);
      match tokens[i].kind
      case Keyword => keywordBeforeTerminator := true;
      case LParen => openParens := (openParens + 1) % WRAP;
      case RParen => openParens := (openParens + WRAP - 1) % WRAP;
      case Semicolon =>
        if keywordBeforeTerminator && openParens == 0 {
          // Add the statement up to the current position
          stmts[curstmt] := SplitStmt(stmtStart, tokens[i].start - stmtStart);
          stmtStart, keywordBeforeTerminator, curstmt := tokens[i].start + 1, false, curstmt + 1;
        } else if openParens == 0 {
          // An empty statement is skipped
          stmtStart := tokens[i].start + 1;
        }
      case Other =>
    }
    ProgressEnds(tokens, eof, openParens, keywordBeforeTerminator, stmtStart, curstmt, stmts[..]);
    if keywordBeforeTerminator && openParens == 0 {
      stmts[curstmt] := SplitStmt(stmtStart, eof - stmtStart);
    }
  }

  /** The first statements are in the array. */
  predicate Filled(tokens: seq<Token>, eof: nat, done: seq<Range>, stmts: seq<SplitStmt>) {
    |done| <= |stmts| && forall i | 0 <= i < |done| :: done[i].from <= |tokens| && stmts[i] == StmtOf(tokens, eof, done[i])
  }

  /** Statements that were found stay found. */
  lemma {:induction false} DonePrefix(ks: seq<Kind>, i: nat)
    requires i <= |ks|
    ensures ScanAll(ks[..i]).done <= ScanAll(ks).done
    decreases |ks|
  {
    if i < |ks| {
      DonePrefix(ks[..|ks|-1], i);
      assert ks[..|ks|-1][..i] == ks[..i];
    } else {
      assert ks[..i] == ks;
    }
  }

  lemma DoneIsPrefix(tokens: seq<Token>, i: nat)
    requires i <= |tokens|
    ensures ScanAll(Kinds(tokens)[..i]).done <= Statements(Kinds(tokens))
  {
    DonePrefix(Kinds(tokens), i);
  }

  // ---------- What the statements are ----------

  /** Open parentheses after tokens from..i. */
  function Depth(ks: seq<Kind>, from: nat, i: nat): nat
    requires from <= i <= |ks|
  {
    if from == i then 0 else Nest(Depth(ks, from, i - 1), ks[i-1])
  }

  /** A statement has a keyword, closes its parentheses, and has no semicolon outside parentheses. */
  predicate WellFormed(ks: seq<Kind>, r: Range) {
    && r.from <= r.to <= |ks|
    && Depth(ks, r.from, r.to) == 0
    && (exists j :: r.from <= j < r.to && ks[j] == Keyword)
    && (forall j | r.from <= j < r.to && ks[j] == Semicolon :: Depth(ks, r.from, j) != 0)
  }

  /** The tokens since the last statement: they may become part of the next one. */
  predicate Pending(ks: seq<Kind>, s: Scan, i: nat) {
    && s.from <= i <= |ks|
    && s.parens == Depth(ks, s.from, i)
    && (s.keyword <==> exists j :: s.from <= j < i && ks[j] == Keyword)
    && (forall j | s.from <= j < i && ks[j] == Semicolon :: Depth(ks, s.from, j) != 0)
  }

  lemma PendingStep(ks: seq<Kind>, s: Scan, i: nat)
    requires Pending(ks, s, i) && i < |ks|
    ensures Pending(ks, Step(s, ks[i], i), i + 1)
    ensures ks[i] == Semicolon && s.keyword && s.parens == 0 ==> WellFormed(ks, Range(s.from, i))
  {
  }

  lemma {:induction false} StatementsFound(ks: seq<Kind>, i: nat)
    requires i <= |ks|
    ensures var s := ScanAll(ks[..i]); Pending(ks, s, i) && forall k | 0 <= k < |s.done| :: WellFormed(ks, s.done[k])
  {
    if i > 0 {
      StatementsFound(ks, i - 1);
      assert ks[..i][..i-1] == ks[..i-1];
      PendingStep(ks, ScanAll(ks[..i-1]), i - 1);
    }
  }

  /** Every statement is well formed. */
  lemma StatementsWellFormed(ks: seq<Kind>)
    ensures forall k | 0 <= k < |Statements(ks)| :: WellFormed(ks, Statements(ks)[k])
  {
    StatementsFound(ks, |ks|);
    assert ks[..|ks|] == ks;
  }

  predicate Covered(rs: seq<Range>, j: int) {
    exists k :: 0 <= k < |rs| && rs[k].from <= j < rs[k].to
  }

  lemma {:induction false} KeywordsSoFar(ks: seq<Kind>, i: nat)
    requires i <= |ks|
    ensures KeywordsKept(ks, ScanAll(ks[..i]), i)
  {
    if i > 0 {
      KeywordsSoFar(ks, i - 1);
      StatementsFound(ks, i - 1);
      assert ks[..i][..i-1] == ks[..i-1];
      hide KeywordsKept, Pending, WellFormed, Step;
      CoveredStep(ks, ScanAll(ks[..i-1]), i - 1);
    }
  }

  predicate KeywordsKept(ks: seq<Kind>, s: Scan, i: nat) {
    i <= |ks| && forall j | 0 <= j < i && ks[j] == Keyword :: Covered(s.done, j) || (s.keyword && s.from <= j)
  }

  lemma {:induction false} CoveredStep(ks: seq<Kind>, s: Scan, i: nat)
    requires i < |ks| && KeywordsKept(ks, s, i) && Pending(ks, s, i)
    ensures KeywordsKept(ks, Step(s, ks[i], i), i + 1)
  {
    hide Depth;
    var s' := Step(s, ks[i], i);
    forall j | 0 <= j < i + 1 && ks[j] == Keyword ensures Covered(s'.done, j) || (s'.keyword && s'.from <= j) {
      if j < i && Covered(s.done, j) {
        var k :| 0 <= k < |s.done| && s.done[k].from <= j < s.done[k].to;
        assert s'.done[k] == s.done[k];
      } else if |s'.done| > |s.done| {
        assert s'.done[|s.done|] == Range(s.from, i);
      }
    }
  }

  /** No semicolon outside parentheses follows keyword j among the first i tokens. */
  predicate NotEnded(ks: seq<Kind>, j: int, i: nat)
    requires i <= |ks|
  {
    0 <= j < i && ks[j] == Keyword && forall m | j < m < i && ks[m] == Semicolon :: Depth(ks, 0, m) != 0
  }

  ghost predicate KeywordLeft(ks: seq<Kind>, i: nat)
    requires i <= |ks|
  {
    exists j :: NotEnded(ks, j, i)
  }

  lemma KeywordLeftStep(ks: seq<Kind>, i: nat)
    requires i < |ks|
    ensures KeywordLeft(ks, i + 1) <==> ks[i] == Keyword || (KeywordLeft(ks, i) && !(ks[i] == Semicolon && Depth(ks, 0, i) == 0))
  {
    hide Depth;
    if ks[i] == Keyword { assert NotEnded(ks, i, i + 1); }
    if KeywordLeft(ks, i) && !(ks[i] == Semicolon && Depth(ks, 0, i) == 0) {
      var j :| NotEnded(ks, j, i);
      assert NotEnded(ks, j, i + 1);
    }
    if KeywordLeft(ks, i + 1) && ks[i] != Keyword {
      var j :| NotEnded(ks, j, i + 1);
      assert NotEnded(ks, j, i);
    }
  }

  /** The state of the scan, read off the tokens. */
  lemma {:induction false} ScanState(ks: seq<Kind>, i: nat)
    requires i <= |ks|
    ensures var s := ScanAll(ks[..i]); s.parens == Depth(ks, 0, i) && (s.keyword <==> KeywordLeft(ks, i))
  {
    if i > 0 {
      ScanState(ks, i - 1);
      assert ks[..i][..i-1] == ks[..i-1];
      KeywordLeftStep(ks, i - 1);
      hide KeywordLeft;
    }
  }

  /** Every keyword is part of a statement if and only if all parentheses are closed at the end of the
      input or a semicolon outside parentheses follows the last keyword. */
  lemma EveryKeywordCovered(ks: seq<Kind>)
    ensures (forall j | 0 <= j < |ks| && ks[j] == Keyword :: Covered(Statements(ks), j)) <==>
            Depth(ks, 0, |ks|) == 0 || !KeywordLeft(ks, |ks|)
  {
    hide ScanAll, Depth, Statements, Covered, Pending, RangesOk, KeywordLeft;
    ScanState(ks, |ks|);
    KeywordsSoFar(ks, |ks|);
    StatementsFound(ks, |ks|);
    ScanRanges(ks);
    StatementsAre(ks);
    assert ks[..|ks|] == ks;
    var s, rs := ScanAll(ks), Statements(ks);
    if s.keyword && s.parens != 0 {
      var j := PendingKeyword(ks, s);
      assert rs == s.done;
      NotCovered(s.done, s.from, |ks|, j);
    } else {
      forall j | 0 <= j < |ks| && ks[j] == Keyword ensures Covered(rs, j) {
        if Covered(s.done, j) {
          StillCovered(s.done, rs, j);
        } else {
          LastCovers(s.done, Range(s.from, |ks|), j);
        }
      }
    }
  }

  /** "SELECT (" has a keyword and no statement. */
  lemma KeywordInOpenParens()
    ensures var ks := [Keyword, LParen]; Statements(ks) == [] && Depth(ks, 0, 2) == 1 && KeywordLeft(ks, 2) && !Covered(Statements(ks), 0)
  {
    var ks := [Keyword, LParen];
    assert ks[..1] == [Keyword] && ks[..1][..0] == [];
    assert ScanAll(ks[..1]) == Scan(0, true, 0, []);
    assert NotEnded(ks, 0, 2);
  }

  lemma PendingKeyword(ks: seq<Kind>, s: Scan) returns (j: nat)
    requires Pending(ks, s, |ks|) && s.keyword
    ensures s.from <= j < |ks| && ks[j] == Keyword
  {
    j :| s.from <= j < |ks| && ks[j] == Keyword;
  }

  lemma NotCovered(done: seq<Range>, from: nat, n: nat, j: nat)
    requires RangesOk(done, from, n) && j >= from
    ensures !Covered(done, j)
  {
  }

  lemma StillCovered(done: seq<Range>, rs: seq<Range>, j: nat)
    requires done <= rs && Covered(done, j)
    ensures Covered(rs, j)
  {
    var k :| 0 <= k < |done| && done[k].from <= j < done[k].to;
    assert rs[k] == done[k];
  }

  lemma LastCovers(done: seq<Range>, r: Range, j: nat)
    requires r.from <= j < r.to
    ensures Covered(done + [r], j)
  {
    assert (done + [r])[|done|] == r;
  }

  lemma StatementsAre(ks: seq<Kind>)
    ensures var s := ScanAll(ks); Statements(ks) == s.done + (if s.keyword && s.parens == 0 then [Range(s.from, |ks|)] else [])
  {
  }

  /** A segment is inside the input and not empty. */
  predicate InBounds(tokens: seq<Token>, eof: nat, r: Range) {
    r.from <= |tokens| && var s := StmtOf(tokens, eof, r); 0 <= s.location && 0 < s.len && s.location + s.len <= eof
  }

  /** Between two segments there is at least a semicolon. */
  predicate Before(tokens: seq<Token>, eof: nat, r1: Range, r2: Range) {
    && r1.from <= |tokens| && r2.from <= |tokens|
    && StmtOf(tokens, eof, r1).location + StmtOf(tokens, eof, r1).len < StmtOf(tokens, eof, r2).location
  }

  lemma SegmentInBounds(tokens: seq<Token>, eof: nat, r: Range)
    requires TokensOk(tokens, eof) && r.from < r.to <= |tokens|
    ensures InBounds(tokens, eof, r)
  {
    assert StartOf(tokens, r.from) <= tokens[r.from].start;
    assert tokens[r.from].start < Location(tokens, eof, r.to) <= eof;
  }

  lemma SegmentBefore(tokens: seq<Token>, eof: nat, r1: Range, r2: Range)
    requires TokensOk(tokens, eof) && r1.from < r1.to < r2.from <= |tokens|
    ensures Before(tokens, eof, r1, r2)
  {
    assert r1.to == r2.from - 1 || tokens[r1.to].start < tokens[r2.from-1].start;
  }

  lemma StatementRanges(ks: seq<Kind>)
    ensures var rs := Statements(ks);
            && (forall i | 0 <= i < |rs| :: rs[i].from < rs[i].to <= |ks|)
            && (forall i, j | 0 <= i < j < |rs| :: rs[i].to < rs[j].from)
  {
    ScanRanges(ks);
    StatementsWellFormed(ks);
    hide ScanAll, Depth;
    var rs := Statements(ks);
    forall i | 0 <= i < |rs| ensures rs[i].from < rs[i].to <= |ks| {
      assert WellFormed(ks, rs[i]);
    }
    forall i, j | 0 <= i < j < |rs| ensures rs[i].to < rs[j].from {
      assert j < |ScanAll(ks).done| || rs[j].from == ScanAll(ks).from;
    }
  }

  /** The segments are ordered, apart, and inside the input. */
  lemma SegmentsApart(tokens: seq<Token>, eof: nat)
    requires TokensOk(tokens, eof)
    ensures var rs := Statements(Kinds(tokens));
            && (forall i | 0 <= i < |rs| :: InBounds(tokens, eof, rs[i]))
            && (forall i, j | 0 <= i < j < |rs| :: Before(tokens, eof, rs[i], rs[j]))
  {
    hide TokensOk, Statements, InBounds, Before;
    var rs := Statements(Kinds(tokens));
    StatementRanges(Kinds(tokens));
    forall i | 0 <= i < |rs| ensures InBounds(tokens, eof, rs[i]) {
      SegmentInBounds(tokens, eof, rs[i]);
    }
    forall i, j | 0 <= i < j < |rs| ensures Before(tokens, eof, rs[i], rs[j]) {
      SegmentBefore(tokens, eof, rs[i], rs[j]);
    }
  }

  // ---------- Where segments begin and end ----------

  /** How many tokens of a kind there are. */
  function Count(ks: seq<Kind>, k: Kind): nat {
    if ks == [] then 0 else Count(ks[..|ks|-1], k) + if ks[|ks|-1] == k then 1 else 0
  }

  lemma CountNext(ks: seq<Kind>, i: nat, k: Kind)
    requires i < |ks|
    ensures Count(ks[..i+1], k) == Count(ks[..i], k) + if ks[i] == k then 1 else 0
  {
    assert ks[..i+1][..i] == ks[..i];
  }

  /** The depth is the number of opening parentheses less that of closing ones, as a size_t. */
  lemma {:induction false} DepthCounts(ks: seq<Kind>, i: nat)
    requires i <= |ks|
    ensures 0 <= Depth(ks, 0, i) < WRAP
    ensures Depth(ks, 0, i) == (Count(ks[..i], LParen) - Count(ks[..i], RParen)) % WRAP
  {
    if i == 0 {
      assert ks[..0] == [] && Count([], LParen) == Count([], RParen);
    } else {
      DepthCounts(ks, i - 1);
      CountNext(ks, i - 1, LParen);
      CountNext(ks, i - 1, RParen);
      hide Count;
      NestCounts(Depth(ks, 0, i - 1), ks[i-1], Count(ks[..i-1], LParen) - Count(ks[..i-1], RParen));
    }
  }

  lemma NestCounts(parens: nat, k: Kind, n: int)
    requires parens == n % WRAP
    ensures Nest(parens, k) == (n + (if k == LParen then 1 else if k == RParen then -1 else 0)) % WRAP
  {
  }

  /** A semicolon outside parentheses. */
  predicate Separates(ks: seq<Kind>, i: int) {
    0 <= i < |ks| && ks[i] == Semicolon && Depth(ks, 0, i) == 0
  }

  /** From the start of the input or a separator to a separator or the end of the input. */
  predicate Delimited(ks: seq<Kind>, r: Range) {
    (r.from == 0 || Separates(ks, r.from - 1)) && (r.to == |ks| || Separates(ks, r.to))
  }

  lemma {:induction false} DelimitedSoFar(ks: seq<Kind>, i: nat)
    requires i <= |ks|
    ensures var s := ScanAll(ks[..i]);
            && (s.from == 0 || Separates(ks, s.from - 1))
            && forall k | 0 <= k < |s.done| :: Delimited(ks, s.done[k])
  {
    if i > 0 {
      DelimitedSoFar(ks, i - 1);
      ScanState(ks, i - 1);
      assert ks[..i][..i-1] == ks[..i-1];
      hide Depth, KeywordLeft;
    }
  }

  lemma StatementsDelimited(ks: seq<Kind>)
    ensures forall k | 0 <= k < |Statements(ks)| :: Delimited(ks, Statements(ks)[k])
  {
    DelimitedSoFar(ks, |ks|);
    assert ks[..|ks|] == ks;
    hide ScanAll, Depth;
  }

  /** Token i is a separator, at this place of the text. */
  predicate SeparatorAt(tokens: seq<Token>, i: nat, at: int) {
    i < |tokens| && Separates(Kinds(tokens), i) && tokens[i].start == at
  }

  ghost predicate SeparatedAt(tokens: seq<Token>, at: int) {
    exists i: nat :: SeparatorAt(tokens, i, at)
  }

  /** In the text, a segment begins with the input or right behind a separator, and ends where a separator or
      the end of the input is. */
  lemma SegmentsDelimited(tokens: seq<Token>, eof: nat, k: nat)
    requires TokensOk(tokens, eof) && k < |Statements(Kinds(tokens))|
    ensures var r := Statements(Kinds(tokens))[k];
            && r.from <= |tokens|
            && var s := StmtOf(tokens, eof, r);
               && (s.location == 0 || SeparatedAt(tokens, s.location - 1))
               && (s.location + s.len == eof || SeparatedAt(tokens, s.location + s.len))
  {
    hide Statements, Depth;
    var ks := Kinds(tokens);
    var r := Statements(ks)[k];
    StatementsDelimited(ks);
    StatementRanges(ks);
    var s := StmtOf(tokens, eof, r);
    if r.from > 0 { assert SeparatorAt(tokens, r.from - 1, s.location - 1); }
    if r.to < |ks| { assert SeparatorAt(tokens, r.to, s.location + s.len); }
  }

  // ---------- Splitting again ----------

  function Pieces(ks: seq<Kind>, rs: seq<Range>): seq<seq<Kind>>
    requires forall i | 0 <= i < |rs| :: rs[i].from <= rs[i].to <= |ks|
  {
    seq(|rs|, i requires 0 <= i < |rs| => ks[rs[i].from..rs[i].to])
  }

  function Join(ps: seq<seq<Kind>>): seq<Kind>
    requires ps != []
  {
    if |ps| == 1 then ps[0] else Join(ps[..|ps|-1]) + [Semicolon] + ps[|ps|-1]
  }

  /** A piece that is a statement by itself. */
  predicate Whole(p: seq<Kind>) {
    WellFormed(p, Range(0, |p|))
  }

  lemma {:induction false} DepthShift(ks: seq<Kind>, from: nat, to: nat, i: nat)
    requires from <= i <= to <= |ks|
    ensures Depth(ks, from, i) == Depth(ks[from..to], 0, i - from)
    decreases i
  {
    if from < i {
      DepthShift(ks, from, to, i - 1);
    }
  }

  lemma WholePiece(ks: seq<Kind>, r: Range)
    requires WellFormed(ks, r)
    ensures Whole(ks[r.from..r.to])
  {
    var p := ks[r.from..r.to];
    DepthShift(ks, r.from, r.to, r.to);
    var j :| r.from <= j < r.to && ks[j] == Keyword;
    assert p[j - r.from] == Keyword;
    forall j | 0 <= j < |p| && p[j] == Semicolon ensures Depth(p, 0, j) != 0 {
      assert ks[r.from + j] == Semicolon;
      DepthShift(ks, r.from, r.to, r.from + j);
    }
  }

  /** After a whole piece that follows a semicolon, nothing but that piece is pending. */
  lemma {:induction false} ScanPiece(ks: seq<Kind>, p: seq<Kind>, i: nat)
    requires ScanAll(ks).parens == 0 && !ScanAll(ks).keyword && ScanAll(ks).from == |ks|
    requires i <= |p| && forall j | 0 <= j < |p| && p[j] == Semicolon :: Depth(p, 0, j) != 0
    ensures var s := ScanAll(ks + p[..i]);
            && s.from == |ks| && s.done == ScanAll(ks).done && s.parens == Depth(p, 0, i)
            && (s.keyword <==> exists j :: 0 <= j < i && p[j] == Keyword)
  {
    if i == 0 {
      assert ks + p[..0] == ks;
    } else {
      ScanPiece(ks, p, i - 1);
      var all := ks + p[..i];
      assert all[..|all|-1] == ks + p[..i-1] && all[|all|-1] == p[i-1];
    }
  }

  lemma ScanSemicolon(ks: seq<Kind>)
    ensures ScanAll(ks + [Semicolon]) == Step(ScanAll(ks), Semicolon, |ks|)
  {
    assert (ks + [Semicolon])[..|ks|] == ks;
  }

  predicate AllWhole(ps: seq<seq<Kind>>) {
    forall i | 0 <= i < |ps| :: Whole(ps[i])
  }

  predicate Inside(ks: seq<Kind>, rs: seq<Range>) {
    forall i | 0 <= i < |rs| :: rs[i].from <= rs[i].to <= |ks|
  }

  /** Scanning a join finds all pieces but the last, which is still pending. */
  lemma {:induction false} ScanJoin(ps: seq<seq<Kind>>)
    requires ps != [] && AllWhole(ps)
    ensures var ks := Join(ps); var s := ScanAll(ks);
            && s.parens == 0 && s.keyword && s.from + |ps[|ps|-1]| == |ks| && ks[s.from..] == ps[|ps|-1]
            && Inside(ks, s.done) && Pieces(ks, s.done) == ps[..|ps|-1]
    decreases |ps|
  {
    var last := ps[|ps|-1];
    var before := if |ps| == 1 then [] else Join(ps[..|ps|-1]) + [Semicolon];
    if |ps| > 1 {
      var front := ps[..|ps|-1];
      ScanJoin(front);
      ScanSemicolon(Join(front));
      PiecesGrow(Join(front), [Semicolon], ScanAll(Join(front)), front);
    }
    assert Whole(last);
    ScanPiece(before, last, |last|);
    assert last[..|last|] == last && Join(ps) == before + last;
    SamePieces(before, last, ScanAll(before).done);
  }

  lemma SamePieces(ks: seq<Kind>, more: seq<Kind>, rs: seq<Range>)
    requires Inside(ks, rs)
    ensures Inside(ks + more, rs) && Pieces(ks + more, rs) == Pieces(ks, rs)
  {
    forall i | 0 <= i < |rs| ensures (ks + more)[rs[i].from..rs[i].to] == ks[rs[i].from..rs[i].to] {
    }
  }

  lemma PiecesGrow(ks: seq<Kind>, more: seq<Kind>, s: Scan, ps: seq<seq<Kind>>)
    requires ps != [] && s.from <= |ks| && ks[s.from..] == ps[|ps|-1] && Inside(ks, s.done) && Pieces(ks, s.done) == ps[..|ps|-1]
    ensures var rs := s.done + [Range(s.from, |ks|)]; Inside(ks + more, rs) && Pieces(ks + more, rs) == ps
  {
    var rs := s.done + [Range(s.from, |ks|)];
    assert Inside(ks, rs);
    assert Pieces(ks, rs) == Pieces(ks, s.done) + [ks[s.from..|ks|]];
    assert ps == ps[..|ps|-1] + [ps[|ps|-1]];
    SamePieces(ks, more, rs);
  }

  /** Joining the statements with semicolons and splitting again gives the same statements. */
  lemma SplitAgain(ks: seq<Kind>)
    ensures var rs := Statements(ks); Inside(ks, rs)
    ensures var ps := Pieces(ks, Statements(ks));
            ps != [] ==> Inside(Join(ps), Statements(Join(ps))) && Pieces(Join(ps), Statements(Join(ps))) == ps
  {
    var rs := Statements(ks);
    StatementsWellFormed(ks);
    forall k | 0 <= k < |rs| ensures rs[k].from <= rs[k].to <= |ks| && Whole(ks[rs[k].from..rs[k].to]) {
      WholePiece(ks, rs[k]);
    }
    var ps := Pieces(ks, rs);
    if ps != [] {
      ScanJoin(ps);
      PiecesGrow(Join(ps), [], ScanAll(Join(ps)), ps);
      assert Join(ps) + [] == Join(ps);
    }
  }
}
