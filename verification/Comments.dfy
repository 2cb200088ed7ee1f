/** Comments of a query with several statements: finding them among the tokens, giving each to a
    statement, and deparsing the statements one after the other. */
module Comments {
  import opened LayoutText
  import opened LayoutState
  import opened LayoutScript
  import opened LayoutLines
  import opened LayoutComments
  import opened LayoutEmit
  import opened LayoutRun
  import opened LayoutTheorems

  // ---------- Finding the comments ----------

  datatype ScanToken = ScanToken(isComment: bool, start: nat, end: nat)

  predicate TokensOk(query: string, tokens: seq<ScanToken>) {
    && (forall i | 0 <= i < |tokens| :: tokens[i].start <= tokens[i].end <= |query|)
    && (forall i | 0 < i < |tokens| :: tokens[i-1].end <= tokens[i].start)
  }

  function CountNewlines(s: string): nat {
    if s == "" then 0 else (if s[|s|-1] == '\n' then 1 else 0) + CountNewlines(s[..|s|-1])
  }

  /** The end of the last token before i that is no comment. */
  function PriorEnd(tokens: seq<ScanToken>, i: nat): nat
    requires i <= |tokens|
  {
    if i == 0 then 0 else if tokens[i-1].isComment then PriorEnd(tokens, i - 1) else tokens[i-1].end
  }

  /** The newlines between token i-1 and token i. */
  function GapNewlines(query: string, tokens: seq<ScanToken>, i: nat): nat
    requires TokensOk(query, tokens) && i < |tokens|
  {
    CountNewlines(query[if i == 0 then 0 else tokens[i-1].end..tokens[i].start])
  }

  /** The comment of token i.  The gap before it counts unless the comment before has counted it. */
  function CommentAt(query: string, tokens: seq<ScanToken>, i: nat): Comment
    requires TokensOk(query, tokens) && i < |tokens|
  {
    Comment(PriorEnd(tokens, i),
            if i > 0 && tokens[i-1].isComment then 0 else GapNewlines(query, tokens, i),
            if i + 1 < |tokens| then GapNewlines(query, tokens, i + 1) else 0,
            query[tokens[i].start..tokens[i].end])
  }

  /** The comments among the first n tokens. */
  function CommentsIn(query: string, tokens: seq<ScanToken>, n: nat): seq<Comment>
    requires TokensOk(query, tokens) && n <= |tokens|
  {
    if n == 0 then [] else CommentsIn(query, tokens, n - 1) + (if tokens[n-1].isComment then [CommentAt(query, tokens, n - 1)] else [])
  }

  // ---------- What a comment says about its token, from the tokens alone ----------

  function NewlinesOf(s: string): set<nat> {
    set i | 0 <= i < |s| && s[i] == '\n'
  }

  /** How many comments come before token n. */
  function Rank(tokens: seq<ScanToken>, n: nat): nat
    requires n <= |tokens|
  {
    if n == 0 then 0 else Rank(tokens, n - 1) + if tokens[n-1].isComment then 1 else 0
  }

  /** c is the comment of token i: its text; the end of the last token before it that is no comment, or 0;
      the newlines up to the token before it, unless that is a comment; and those up to the token after it. */
  ghost predicate Describes(query: string, tokens: seq<ScanToken>, i: nat, c: Comment)
    requires TokensOk(query, tokens) && i < |tokens|
  {
    && c.str == query[tokens[i].start..tokens[i].end]
    && (c.matchLocation == 0 || exists j :: 0 <= j < i && !tokens[j].isComment && c.matchLocation == tokens[j].end)
    && (forall j | 0 <= j < i && !tokens[j].isComment :: tokens[j].end <= c.matchLocation)
    && c.newlinesBefore == (if i == 0 then |NewlinesOf(query[..tokens[0].start])|
                            else if tokens[i-1].isComment then 0
                            else |NewlinesOf(query[tokens[i-1].end..tokens[i].start])|)
    && c.newlinesAfter == (if i + 1 == |tokens| then 0 else |NewlinesOf(query[tokens[i].end..tokens[i+1].start])|)
  }

  lemma {:induction false} CountIsNumber(s: string)
    ensures CountNewlines(s) == |NewlinesOf(s)|
  {
    if s != "" {
      var front, n := s[..|s|-1], |s| - 1;
      CountIsNumber(front);
      assert NewlinesOf(s) == NewlinesOf(front) + if s[n] == '\n' then {n} else {};
    }
  }

  lemma {:induction false} PriorEndIsLast(query: string, tokens: seq<ScanToken>, i: nat)
    requires TokensOk(query, tokens) && i <= |tokens|
    ensures PriorEnd(tokens, i) == 0 || exists j :: 0 <= j < i && !tokens[j].isComment && PriorEnd(tokens, i) == tokens[j].end
    ensures forall j | 0 <= j < i && !tokens[j].isComment :: tokens[j].end <= PriorEnd(tokens, i)
  {
    if i > 0 {
      PriorEndIsLast(query, tokens, i - 1);
      PriorEndGrows(query, tokens, i - 1, i);
    }
  }

  lemma CommentDescribes(query: string, tokens: seq<ScanToken>, i: nat)
    requires TokensOk(query, tokens) && i < |tokens|
    ensures Describes(query, tokens, i, CommentAt(query, tokens, i))
  {
    PriorEndIsLast(query, tokens, i);
    CountIsNumber(query[if i == 0 then 0 else tokens[i-1].end..tokens[i].start]);
    if i + 1 < |tokens| { CountIsNumber(query[tokens[i].end..tokens[i+1].start]); }
    hide CountNewlines, PriorEnd, NewlinesOf;
    if i == 0 { assert query[0..tokens[0].start] == query[..tokens[0].start]; }
  }

  /** Each comment among the first n tokens has its place in the list. */
  lemma {:induction false} CommentsRanked(query: string, tokens: seq<ScanToken>, n: nat)
    requires TokensOk(query, tokens) && n <= |tokens|
    ensures |CommentsIn(query, tokens, n)| == Rank(tokens, n)
    ensures forall i | 0 <= i < n && tokens[i].isComment ::
              Rank(tokens, i) < Rank(tokens, n) && Describes(query, tokens, i, CommentsIn(query, tokens, n)[Rank(tokens, i)])
  {
    if n > 0 {
      CommentsRanked(query, tokens, n - 1);
      CommentDescribes(query, tokens, n - 1);
      hide Describes, CommentAt;
    }
  }

  method Newlines(query: string, from: nat, to: nat) returns (n: nat)
    requires from <= to <= |query|
    ensures n == CountNewlines(query[from..to])
  {
    n := 0;
    for j := from to to
      invariant n == CountNewlines(query[from..j])
    {
      assert query[from..j+1][..j-from] == query[from..j];
      if query[j] == '\n' {
        n := n + 1;
      }
    }
  }

  /** pg_query_deparse_comments_for_query */
  method CommentsForQuery(query: string, tokens: seq<ScanToken>) returns (comments: seq<Comment>)
    requires TokensOk(query, tokens)
    ensures comments == CommentsIn(query, tokens, |tokens|)
    ensures |comments| == Rank(tokens, |tokens|)
    ensures forall i | 0 <= i < |tokens| && tokens[i].isComment ::
              Rank(tokens, i) < |comments| && Describes(query, tokens, i, comments[Rank(tokens, i)])
  {
    hide CountNewlines, Describes;
    CommentsRanked(query, tokens, |tokens|);
    comments := [];
    var priorTokenWasComment, priorNonCommentEnd, priorTokenEnd := false, 0, 0;
    for i := 0 to |tokens|
      invariant comments == CommentsIn(query, tokens, i)
      invariant priorTokenWasComment <==> i > 0 && tokens[i-1].isComment
      invariant priorNonCommentEnd == PriorEnd(tokens, i)
      invariant priorTokenEnd == if i == 0 then 0 else tokens[i-1].end
    {
      var token := tokens[i];
      if token.isComment {
        var before, after := 0, 0;
        if !priorTokenWasComment {
          before := Newlines(query, priorTokenEnd, token.start);
        }
        if i + 1 < |tokens| {
          after := Newlines(query, token.end, tokens[i+1].start);
        }
        comments := comments + [Comment(priorNonCommentEnd, before, after, query[token.start..token.end])];
        priorTokenWasComment := true;
      } else {
        priorNonCommentEnd := token.end;
        priorTokenWasComment := false;
      }
      priorTokenEnd := token.end;
    }
  }

  lemma {:induction false} PriorEndGrows(query: string, tokens: seq<ScanToken>, i: nat, j: nat)
    requires TokensOk(query, tokens) && i <= j <= |tokens|
    ensures PriorEnd(tokens, i) <= PriorEnd(tokens, j) && (j > 0 ==> PriorEnd(tokens, j) <= tokens[j-1].end)
    decreases j
  {
    if i < j {
      PriorEndGrows(query, tokens, i, j - 1);
    } else if j > 0 {
      PriorEndGrows(query, tokens, j - 1, j - 1);
    }
  }

  /** Comments come out in the order of their locations, so that the deparser keeps their order. */
  lemma {:induction false} CommentsSorted(query: string, tokens: seq<ScanToken>, n: nat)
    requires TokensOk(query, tokens) && n <= |tokens|
    ensures Sorted(CommentsIn(query, tokens, n))
    ensures forall c | c in CommentsIn(query, tokens, n) :: 0 <= c.matchLocation <= PriorEnd(tokens, n)
  {
    if n > 0 {
      CommentsSorted(query, tokens, n - 1);
      PriorEndGrows(query, tokens, n - 1, n);
      hide CommentAt, PriorEnd;
      var before, all := CommentsIn(query, tokens, n - 1), CommentsIn(query, tokens, n);
      assert tokens[n-1].isComment ==> CommentAt(query, tokens, n - 1).matchLocation == PriorEnd(tokens, n - 1) by { hide CommentsIn; CommentPlace(query, tokens, n - 1); }
      forall i, j | 0 <= i < j < |all| ensures all[i].matchLocation <= all[j].matchLocation {
        if j < |before| {
          assert all[i] == before[i] && all[j] == before[j];
        } else {
          assert all[i] in before;
        }
      }
    }
  }

  lemma CommentPlace(query: string, tokens: seq<ScanToken>, i: nat)
    requires TokensOk(query, tokens) && i < |tokens|
    ensures CommentAt(query, tokens, i).matchLocation == PriorEnd(tokens, i)
  {
  }

  /** Comments as the scanner delimits them: a line comment ends before the next newline. */
  predicate CommentTokensOk(query: string, tokens: seq<ScanToken>)
    requires TokensOk(query, tokens)
  {
    forall i | 0 <= i < |tokens| && tokens[i].isComment ::
      var text := query[tokens[i].start..tokens[i].end];
      |text| >= 2 && (text[..2] == "/*" || (text[..2] == "--" && '\n' !in text))
  }

  lemma {:induction false} NewlineCounted(s: string)
    ensures CountNewlines(s) > 0 <==> '\n' in s
  {
    if s != "" {
      assert s == s[..|s|-1] + [s[|s|-1]];
      NewlineCounted(s[..|s|-1]);
    }
  }

  /** The comments of a query are such that the deparser can keep them apart from the text around them, and
      one has a newline behind it if and only if there is one in front of the next token. */
  lemma {:induction false} CommentsFit(query: string, tokens: seq<ScanToken>, n: nat)
    requires TokensOk(query, tokens) && CommentTokensOk(query, tokens) && n <= |tokens| && |query| <= INT_MAX
    ensures CommentsOk(CommentsIn(query, tokens, n))
    ensures forall c | c in CommentsIn(query, tokens, n) ::
              exists i :: 0 <= i < n && tokens[i].isComment && c.str == query[tokens[i].start..tokens[i].end]
                && (c.newlinesAfter > 0 <==> i + 1 < |tokens| && '\n' in query[tokens[i].end..tokens[i+1].start])
  {
    if n > 0 {
      CommentsFit(query, tokens, n - 1);
      if tokens[n-1].isComment {
        PriorEndGrows(query, tokens, n - 1, n - 1);
        if n < |tokens| { NewlineCounted(query[tokens[n-1].end..tokens[n].start]); }
        hide CommentsOk, CountNewlines, PriorEnd;
        CommentFits(query, tokens, n - 1);
        AddCommentOk(CommentsIn(query, tokens, n - 1), CommentAt(query, tokens, n - 1));
      }
    }
  }

  lemma CommentFits(query: string, tokens: seq<ScanToken>, i: nat)
    requires TokensOk(query, tokens) && CommentTokensOk(query, tokens) && i < |tokens| && tokens[i].isComment && |query| <= INT_MAX
    requires PriorEnd(tokens, i) <= |query|
    ensures CommentOk(CommentAt(query, tokens, i)) && CommentAt(query, tokens, i).matchLocation <= INT_MAX
  {
    var text := query[tokens[i].start..tokens[i].end];
    assert text[0] == text[..2][0] && text[1] == text[..2][1];
  }

  lemma AddCommentOk(comments: seq<Comment>, c: Comment)
    requires CommentsOk(comments) && CommentOk(c) && c.matchLocation <= INT_MAX
    ensures CommentsOk(comments + [c])
  {
    hide CommentOk;
  }

  // ---------- Giving comments to statements ----------

  /** The layout operations that printing a statement takes, and where its text is. */
  datatype RawStmt = RawStmt(ops: seq<Op>, location: nat, len: nat)

  predicate InRange(c: Comment, start: int, end: int) {
    start <= c.matchLocation < end
  }

  function Select(comments: seq<Comment>, start: int, end: int): seq<Comment> {
    if comments == [] then []
    else (if InRange(comments[0], start, end) then [comments[0]] else []) + Select(comments[1..], start, end)
  }

  /** copy_deparse_opts_for_stmt */
  method CopyDeparseOptsForStmt(opts: Opts, start: nat, end: nat) returns (stmtOpts: Opts)
    ensures stmtOpts == opts.(comments := Select(opts.comments, start, end))
  {
    var comments := [];
    for i := 0 to |opts.comments|
      invariant comments + Select(opts.comments[i..], start, end) == Select(opts.comments, start, end)
    {
      assert opts.comments[i..][0] == opts.comments[i] && opts.comments[i..][1..] == opts.comments[i+1..];
      if opts.comments[i].matchLocation >= start && opts.comments[i].matchLocation < end {
        comments := comments + [opts.comments[i]];
      }
    }
    stmtOpts := opts.(comments := comments);
  }

  /** Where the range of statement i ends; the last one has no end. */
  function EndOf(stmts: seq<RawStmt>, i: nat): nat
    requires i < |stmts|
  {
    if i + 1 == |stmts| then INT_MAX else stmts[i].location + stmts[i].len
  }

  function StartOf(stmts: seq<RawStmt>, i: nat): nat
    requires i < |stmts|
  {
    if i == 0 then 0 else EndOf(stmts, i - 1)
  }

  /** The comments of statement i: all of them if there is only one statement. */
  function CommentsOf(comments: seq<Comment>, stmts: seq<RawStmt>, i: nat): seq<Comment>
    requires i < |stmts|
  {
    if |stmts| > 1 && comments != [] then Select(comments, StartOf(stmts, i), EndOf(stmts, i)) else comments
  }

  /** The words of the first n statements with semicolons between them. */
  function StatementsWords(comments: seq<Comment>, stmts: seq<RawStmt>, n: nat): string
    requires n <= |stmts|
  {
    if n == 0 then ""
    else
      var w := RunStatement(CommentsOf(comments, stmts, n - 1), stmts[n-1].ops, stmts[n-1].location, StatementsWords(comments, stmts, n - 1)).done;
      if n == |stmts| then w else Glue(w, "; ")
  }

  /** The places in those words at which line comments end that have a newline behind them. */
  function StatementsEnds(comments: seq<Comment>, stmts: seq<RawStmt>, n: nat): set<nat>
    requires n <= |stmts|
  {
    if n == 0 then {}
    else
      var start := StatementsWords(comments, stmts, n - 1);
      StatementsEnds(comments, stmts, n - 1) + RunStatement(CommentsOf(comments, stmts, n - 1), stmts[n-1].ops, stmts[n-1].location, start).ends
  }

  /** Does statement i lose the newline that ends its last comment? */
  predicate LosesNewlineAt(opts: Opts, stmts: seq<RawStmt>, i: nat)
    requires i < |stmts|
  {
    LosesNewline(opts.(comments := CommentsOf(opts.comments, stmts, i)), stmts[i].ops, stmts[i].location)
  }

  /** Is there anything to print in statement i? */
  predicate PrintsAt(comments: seq<Comment>, stmts: seq<RawStmt>, i: nat)
    requires i < |stmts|
  {
    Prints(CommentsOf(comments, stmts, i), stmts[i].ops, stmts[i].location, StatementsWords(comments, stmts, i))
  }

  predicate NoEmptyComment(comments: seq<Comment>) {
    forall c | c in comments :: c.str != ""
  }

  /** Comments as the scanner finds them, and statements that end in text. */
  predicate Readable(comments: seq<Comment>, stmts: seq<RawStmt>) {
    CommentsOk(comments) && forall i | 0 <= i < |stmts| :: EndsInText(stmts[i].ops, false)
  }

  /** Which line comments of the first n statements are ended by a newline in the output: all of them, or not
      all of them if one of those statements lost a newline and another one follows. */
  ghost predicate NewlinesKept(opts: Opts, stmts: seq<RawStmt>, n: nat, newlines: set<nat>, words: nat) {
    n <= |stmts| && var ends := StatementsEnds(opts.comments, stmts, n);
    if exists i :: 0 <= i < n && i < |stmts| - 1 && LosesNewlineAt(opts, stmts, i)
    then exists p :: p in ends && p !in newlines && p < words
    else ends <= newlines + if n == |stmts| then {words} else {}
  }

  /** pg_query_deparse_protobuf_opts, after reading the tree.  It fails only for a statement that prints
      nothing.  In its output every line comment is ended by a newline before any other text if and only if
      no statement but the last one loses the newline that ends its last comment. */
  method DeparseProtobufOpts(opts: Opts, stmts: seq<RawStmt>, outside: char) returns (ok: bool, out: string)
    ensures ok ==> WordsOf(out) == StatementsWords(opts.comments, stmts, |stmts|)
    ensures NoEmptyComment(opts.comments) ==> (ok <==> forall i | 0 <= i < |stmts| :: PrintsAt(opts.comments, stmts, i))
    ensures ok && Readable(opts.comments, stmts) ==>
              (StatementsEnds(opts.comments, stmts, |stmts|) <= OutputBreaks(out) + {|WordsOf(out)|} <==>
               forall i | 0 <= i < |stmts| - 1 :: !LosesNewlineAt(opts, stmts, i))
  {
    hide *;
    ok, out := true, "";
    var prevEnd := 0;
    EmptyOutput();
    NothingKept(opts, stmts);
    for i := 0 to |stmts|
      invariant WordsOf(out) == StatementsWords(opts.comments, stmts, i) && (i < |stmts| ==> Loose(OutputWords(out)))
      invariant |stmts| > 1 && opts.comments != [] && i < |stmts| ==> prevEnd == StartOf(stmts, i)
      invariant NoEmptyComment(opts.comments) ==> forall j | 0 <= j < i :: PrintsAt(opts.comments, stmts, j)
      invariant Readable(opts.comments, stmts) ==> NewlinesKept(opts, stmts, i, OutputBreaks(out), |WordsOf(out)|)
    {
      var stmtOpts := opts;
      var isLast := i + 1 == |stmts|;
      StatementRange(opts.comments, stmts, i);
      if |stmts| > 1 && |opts.comments| > 0 {
        var end := if isLast then INT_MAX else stmts[i].location + stmts[i].len;
        stmtOpts := CopyDeparseOptsForStmt(opts, prevEnd, end);
        prevEnd := end;
      }
      assert stmtOpts == opts.(comments := CommentsOf(opts.comments, stmts, i));
      ghost var before := out;
      CommentsOfOk(opts.comments, stmts, i);
      ok, out := DeparseRawStmtOpts(stmtOpts, stmts[i].ops, stmts[i].location, out, outside);
      NextStatement(opts.comments, stmts, i);
      if !ok {
        return;
      }
      if Readable(opts.comments, stmts) {
        StatementNewlines(opts, stmts, i, before, out);
      }
      if !isLast {
        AfterStatement(out);
        out := out + "; ";
      }
    }
    AllKept(opts, stmts, OutputBreaks(out), |WordsOf(out)|);
  }

  lemma EmptyOutput()
    ensures WordsOf("") == "" && Loose(OutputWords(""))
  {
  }

  lemma AfterStatement(out: string)
    ensures WordsOf(out + "; ") == Glue(WordsOf(out), "; ") && Loose(OutputWords(out + "; "))
    ensures |WordsOf(out + "; ")| == |WordsOf(out)| + 1 && OutputBreaks(out + "; ") == OutputBreaks(out)
  {
    AfterOutput(out, "; ");
    NoBreaks(OutputWords(out), "; ");
    ClosingWord(OutputWords(out), "; ");
    assert out + "; " == (out + ";") + [' '];
    ScanChar(Words("", true), out + ";", ' ');
    ScanChar(Words("", true), out, ';');
  }

  /** The options and the range of statement i, as the loop computes them. */
  lemma StatementRange(comments: seq<Comment>, stmts: seq<RawStmt>, i: nat)
    requires i < |stmts|
    ensures EndOf(stmts, i) == if i + 1 == |stmts| then INT_MAX else stmts[i].location + stmts[i].len
    ensures i + 1 < |stmts| ==> StartOf(stmts, i + 1) == EndOf(stmts, i)
    ensures CommentsOf(comments, stmts, i) ==
            if |stmts| > 1 && comments != [] then Select(comments, StartOf(stmts, i), EndOf(stmts, i)) else comments
  {
  }

  lemma CommentsOfOk(comments: seq<Comment>, stmts: seq<RawStmt>, i: nat)
    requires i < |stmts|
    ensures NoEmptyComment(comments) ==> forall c | c in CommentsOf(comments, stmts, i) :: c.str != ""
    ensures Readable(comments, stmts) ==> CommentsOk(CommentsOf(comments, stmts, i)) && EndsInText(stmts[i].ops, false)
  {
    GivenInRange(comments, StartOf(stmts, i), EndOf(stmts, i));
    hide Select, EndsInText, CommentOk;
  }

  lemma NextStatement(comments: seq<Comment>, stmts: seq<RawStmt>, i: nat)
    requires i < |stmts|
    ensures var start := StatementsWords(comments, stmts, i);
            var w := RunStatement(CommentsOf(comments, stmts, i), stmts[i].ops, stmts[i].location, start);
            && StatementsWords(comments, stmts, i + 1) == (if i + 1 == |stmts| then w.done else Glue(w.done, "; "))
            && StatementsEnds(comments, stmts, i + 1) == StatementsEnds(comments, stmts, i) + w.ends
            && PrintsAt(comments, stmts, i) == Prints(CommentsOf(comments, stmts, i), stmts[i].ops, stmts[i].location, start)
  {
    hide RunStatement, Prints;
  }

  lemma NothingKept(opts: Opts, stmts: seq<RawStmt>)
    ensures NewlinesKept(opts, stmts, 0, OutputBreaks(""), |WordsOf("")|)
    ensures StatementsWords(opts.comments, stmts, 0) == "" && (stmts != [] ==> StartOf(stmts, 0) == 0)
  {
  }

  /** One more statement, and a semicolon behind it if it is not the last one. */
  lemma StatementNewlines(opts: Opts, stmts: seq<RawStmt>, i: nat, before: string, out: string)
    requires i < |stmts| && Readable(opts.comments, stmts)
    requires NewlinesKept(opts, stmts, i, OutputBreaks(before), |WordsOf(before)|)
    requires WordsOf(before) == StatementsWords(opts.comments, stmts, i) && |WordsOf(before)| <= |WordsOf(out)|
    requires OutputBreaks(before) <= OutputBreaks(out) && forall p | p in OutputBreaks(out) && p !in OutputBreaks(before) :: |WordsOf(before)| <= p
    requires var own, start := CommentsOf(opts.comments, stmts, i), StatementsWords(opts.comments, stmts, i);
             && WordsOf(out) == RunStatement(own, stmts[i].ops, stmts[i].location, start).done
             && CommentsEnded(opts.(comments := own), stmts[i].ops, stmts[i].location, start, OutputBreaks(out))
    ensures NewlinesKept(opts, stmts, i + 1, OutputBreaks(out), |WordsOf(out)| + if i + 1 == |stmts| then 0 else 1)
  {
    var own, start := CommentsOf(opts.comments, stmts, i), StatementsWords(opts.comments, stmts, i);
    var w := RunStatement(own, stmts[i].ops, stmts[i].location, start);
    hide *;
    CommentsOfOk(opts.comments, stmts, i);
    StatementKeepsNewlines(opts.(comments := own), stmts[i].ops, stmts[i].location, start, OutputBreaks(out));
    NextStatement(opts.comments, stmts, i);
    KeptNext(opts, stmts, i, OutputBreaks(before), |WordsOf(before)|, OutputBreaks(out), |WordsOf(out)|, w.ends);
  }

  lemma KeptNext(opts: Opts, stmts: seq<RawStmt>, i: nat, before: set<nat>, start: nat, newlines: set<nat>, end: nat, ends: set<nat>)
    requires i < |stmts| && NewlinesKept(opts, stmts, i, before, start) && start <= end
    requires before <= newlines && forall p | p in newlines && p !in before :: start <= p
    requires StatementsEnds(opts.comments, stmts, i + 1) == StatementsEnds(opts.comments, stmts, i) + ends
    requires ends <= newlines + {end}
    requires if LosesNewlineAt(opts, stmts, i) then end in ends && end !in newlines else ends <= newlines
    ensures NewlinesKept(opts, stmts, i + 1, newlines, end + if i + 1 == |stmts| then 0 else 1)
  {
    hide StatementsEnds, LosesNewlineAt;
    if j :| 0 <= j < i && j < |stmts| - 1 && LosesNewlineAt(opts, stmts, j) {
      var p :| p in StatementsEnds(opts.comments, stmts, i) && p !in before && p < start;
      assert p in StatementsEnds(opts.comments, stmts, i + 1) && p !in newlines && p < end;
    } else if i + 1 < |stmts| && LosesNewlineAt(opts, stmts, i) {
      assert end in StatementsEnds(opts.comments, stmts, i + 1);
    }
  }

  lemma AllKept(opts: Opts, stmts: seq<RawStmt>, newlines: set<nat>, words: nat)
    requires Readable(opts.comments, stmts) ==> NewlinesKept(opts, stmts, |stmts|, newlines, words)
    ensures Readable(opts.comments, stmts) ==>
              (StatementsEnds(opts.comments, stmts, |stmts|) <= newlines + {words} <==>
               forall i | 0 <= i < |stmts| - 1 :: !LosesNewlineAt(opts, stmts, i))
  {
    hide StatementsEnds, LosesNewlineAt, Readable;
  }

  // ---------- Every comment exactly once ----------

  /** The comments of the first n statements, one statement after the other. */
  function Distributed(comments: seq<Comment>, stmts: seq<RawStmt>, n: nat): seq<Comment>
    requires n <= |stmts|
  {
    if n == 0 then [] else Distributed(comments, stmts, n - 1) + CommentsOf(comments, stmts, n - 1)
  }

  /** Statements end in order, and before the largest int. */
  predicate EndsInOrder(stmts: seq<RawStmt>) {
    && (forall i | 0 < i < |stmts| - 1 :: stmts[i-1].location + stmts[i-1].len <= stmts[i].location + stmts[i].len)
    && (forall i | 0 <= i < |stmts| - 1 :: stmts[i].location + stmts[i].len <= INT_MAX)
  }

  lemma {:induction false} SelectTwice(comments: seq<Comment>, a: int, b: int, c: int)
    requires Sorted(comments) && a <= b <= c
    ensures Select(comments, a, b) + Select(comments, b, c) == Select(comments, a, c)
  {
    if comments != [] {
      assert Sorted(comments[1..]);
      SelectTwice(comments[1..], a, b, c);
      if comments[0].matchLocation >= b {
        NoneSelected(comments, a, b);
      }
    }
  }

  lemma {:induction false} NoneSelected(comments: seq<Comment>, a: int, b: int)
    requires a >= b || forall i | 0 <= i < |comments| :: !InRange(comments[i], a, b)
    ensures Select(comments, a, b) == []
  {
    if comments != [] {
      NoneSelected(comments[1..], a, b);
    }
  }

  lemma {:induction false} AllSelected(comments: seq<Comment>, a: int, b: int)
    ensures Select(comments, a, b) == comments <==> forall i | 0 <= i < |comments| :: InRange(comments[i], a, b)
    ensures |Select(comments, a, b)| <= |comments|
  {
    if comments != [] {
      AllSelected(comments[1..], a, b);
    }
  }

  lemma {:induction false} DistributedIsSelect(comments: seq<Comment>, stmts: seq<RawStmt>, n: nat)
    requires Sorted(comments) && EndsInOrder(stmts) && n <= |stmts| && |stmts| > 1 && comments != []
    ensures Distributed(comments, stmts, n) == Select(comments, 0, if n == 0 then 0 else EndOf(stmts, n - 1))
  {
    hide *;
    DistributedStep(comments, stmts, n);
    if n == 0 {
      NoneSelected(comments, 0, 0);
    } else {
      DistributedIsSelect(comments, stmts, n - 1);
      RangeOrdered(stmts, n - 1);
      SelectTwice(comments, 0, StartOf(stmts, n - 1), EndOf(stmts, n - 1));
    }
  }

  lemma DistributedStep(comments: seq<Comment>, stmts: seq<RawStmt>, n: nat)
    requires n <= |stmts| && |stmts| > 1 && comments != []
    ensures n == 0 ==> Distributed(comments, stmts, n) == []
    ensures n > 0 ==> Distributed(comments, stmts, n) ==
                        Distributed(comments, stmts, n - 1) + Select(comments, StartOf(stmts, n - 1), EndOf(stmts, n - 1))
    ensures n > 0 ==> StartOf(stmts, n - 1) == if n == 1 then 0 else EndOf(stmts, n - 2)
  {
    hide Select;
  }

  lemma RangeOrdered(stmts: seq<RawStmt>, i: nat)
    requires EndsInOrder(stmts) && i < |stmts|
    ensures 0 <= StartOf(stmts, i) <= EndOf(stmts, i)
  {
  }

  /** Over all statements each comment is given out exactly once, and in source order, if and only if
      there is at most one statement or all locations are between 0 and the largest int. */
  lemma EveryCommentGivenOnce(comments: seq<Comment>, stmts: seq<RawStmt>)
    requires stmts != [] && Sorted(comments) && EndsInOrder(stmts)
    ensures Distributed(comments, stmts, |stmts|) == comments <==>
            |stmts| == 1 || forall i | 0 <= i < |comments| :: InRange(comments[i], 0, INT_MAX)
  {
    if |stmts| == 1 {
      assert Distributed(comments, stmts, 1) == [] + comments;
    } else if comments == [] {
      NothingGiven(stmts, |stmts|);
    } else {
      DistributedIsSelect(comments, stmts, |stmts|);
      AllSelected(comments, 0, INT_MAX);
    }
  }

  /** Locations that no query has: neither comment is given to one of two statements. */
  lemma CommentsOutOfRange()
    ensures var comments := [Comment(-1, 0, 0, "/* a */"), Comment(INT_MAX, 0, 0, "/* b */")];
            var stmts := [RawStmt([Text("SELECT 1")], 0, 8), RawStmt([Text("SELECT 2")], 10, 0)];
            Sorted(comments) && EndsInOrder(stmts) && Distributed(comments, stmts, 2) == []
  {
    var comments := [Comment(-1, 0, 0, "/* a */"), Comment(INT_MAX, 0, 0, "/* b */")];
    var stmts := [RawStmt([Text("SELECT 1")], 0, 8), RawStmt([Text("SELECT 2")], 10, 0)];
    DistributedIsSelect(comments, stmts, 2);
    NoneSelected(comments, 0, INT_MAX);
  }

  lemma {:induction false} NothingGiven(stmts: seq<RawStmt>, n: nat)
    requires n <= |stmts|
    ensures Distributed([], stmts, n) == []
  {
    if n > 0 {
      NothingGiven(stmts, n - 1);
    }
  }

  /** A comment goes to a statement only if it is in the range of that statement. */
  lemma {:induction false} GivenInRange(comments: seq<Comment>, start: int, end: int)
    ensures forall c :: c in Select(comments, start, end) <==> c in comments && InRange(c, start, end)
  {
    if comments != [] {
      GivenInRange(comments[1..], start, end);
      assert comments == [comments[0]] + comments[1..];
    }
  }

  lemma {:induction false} SelectSorted(comments: seq<Comment>, start: int, end: int)
    requires Sorted(comments)
    ensures Sorted(Select(comments, start, end))
  {
    if comments != [] {
      assert Sorted(comments[1..]);
      SelectSorted(comments[1..], start, end);
      GivenInRange(comments[1..], start, end);
      var rest, all := Select(comments[1..], start, end), Select(comments, start, end);
      forall i, j | 0 <= i < j < |all| ensures all[i].matchLocation <= all[j].matchLocation {
        if InRange(comments[0], start, end) {
          assert all[j] == rest[j-1] && rest[j-1] in rest;
          assert rest[j-1] in comments[1..];
        }
      }
    }
  }

  /** From the tokens of a query to its deparsed statements: each comment belongs to the statement whose
      range holds it, and each statement emits its comments once, in source order, whatever the printer
      asks for. */
  lemma CommentsOfQueryKept(query: string, tokens: seq<ScanToken>, stmts: seq<RawStmt>, i: nat, start: string)
    requires TokensOk(query, tokens) && |query| < INT_MAX && EndsInOrder(stmts) && i < |stmts|
    ensures var comments := CommentsIn(query, tokens, |tokens|);
            && Distributed(comments, stmts, |stmts|) == comments
            && var own := CommentsOf(comments, stmts, i);
               var order := RunStatement(own, stmts[i].ops, stmts[i].location, start).order;
               && |order| == |own| && (forall k | 0 <= k < |order| :: order[k] == k)
               && (|stmts| > 1 ==> forall c :: c in own <==> c in comments && InRange(c, StartOf(stmts, i), EndOf(stmts, i)))
  {
    hide CommentsIn, RunStatement, PriorEnd, Sorted, Select, EndsInOrder, NoDuplicates;
    var comments := CommentsIn(query, tokens, |tokens|);
    FoundInRange(query, tokens);
    CommentsSorted(query, tokens, |tokens|);
    EveryCommentGivenOnce(comments, stmts);
    OwnComments(comments, stmts, i);
    EveryCommentOnce(CommentsOf(comments, stmts, i), stmts[i].ops, stmts[i].location, start);
  }

  lemma FoundInRange(query: string, tokens: seq<ScanToken>)
    requires TokensOk(query, tokens) && |query| < INT_MAX
    ensures var comments := CommentsIn(query, tokens, |tokens|); forall k | 0 <= k < |comments| :: InRange(comments[k], 0, INT_MAX)
  {
    var comments := CommentsIn(query, tokens, |tokens|);
    CommentsSorted(query, tokens, |tokens|);
    PriorEndGrows(query, tokens, 0, |tokens|);
    hide CommentsIn, PriorEnd;
    forall k | 0 <= k < |comments| ensures InRange(comments[k], 0, INT_MAX) {
      assert comments[k] in comments;
    }
  }

  lemma OwnComments(comments: seq<Comment>, stmts: seq<RawStmt>, i: nat)
    requires i < |stmts| && Sorted(comments) && forall k | 0 <= k < |comments| :: InRange(comments[k], 0, INT_MAX)
    ensures var own := CommentsOf(comments, stmts, i);
            && Sorted(own) && (forall k | 0 <= k < |own| :: own[k].matchLocation <= INT_MAX)
            && (|stmts| > 1 ==> forall c :: c in own <==> c in comments && InRange(c, StartOf(stmts, i), EndOf(stmts, i)))
  {
    SelectSorted(comments, StartOf(stmts, i), EndOf(stmts, i));
    GivenInRange(comments, StartOf(stmts, i), EndOf(stmts, i));
    hide Select, Sorted;
    var own := CommentsOf(comments, stmts, i);
    forall k | 0 <= k < |own| ensures own[k].matchLocation <= INT_MAX {
      assert own[k] in own;
    }
  }

  /** Two runs over the same statements under different layout options fail together or give the same words. */
  method SameWordsWhateverTheOptions(o1: Opts, o2: Opts, stmts: seq<RawStmt>, outside: char)
    returns (ok1: bool, ok2: bool, out1: string, out2: string)
    requires o1.comments == o2.comments
    ensures NoEmptyComment(o1.comments) ==> ok1 == ok2
    ensures ok1 && ok2 ==> WordsOf(out1) == WordsOf(out2)
  {
    ok1, out1 := DeparseProtobufOpts(o1, stmts, outside);
    ok2, out2 := DeparseProtobufOpts(o2, stmts, outside);
  }
}
