/** What the layout options can change, where comments end up, and how long merged lines get. */
module LayoutTheorems {
  import opened LayoutText
  import opened LayoutState
  import opened LayoutScript
  import opened LayoutEmit
  import opened LayoutRun

  // ---------- Nothing is lost or added ----------

  /** Text in the order in which it is written, and the comments written with it. */
  datatype Pieces = Pieces(text: string, order: seq<nat>)

  function CommentPieces(comments: seq<Comment>, p: Pieces, location: int, i: nat): Pieces
    decreases |comments| - i
  {
    if i >= |comments| then p
    else if i in p.order || comments[i].matchLocation > location then CommentPieces(comments, p, location, i + 1)
    else CommentPieces(comments, Pieces(p.text + comments[i].str, p.order + [i]), location, i + 1)
  }

  function OpPieces(comments: seq<Comment>, op: Op, p: Pieces): Pieces
    decreases op, 0
  {
    match op
    case Text(s) => p.(text := p.text + s)
    case Comma => p.(text := p.text + ",")
    case Group(Some(keyword), _) => p.(text := p.text + keyword)
    case CommentsUpTo(location) => CommentPieces(comments, p, location, 0)
    case Nested(body) => OpsPieces(comments, body, p)
    case _ => p
  }

  function OpsPieces(comments: seq<Comment>, ops: seq<Op>, p: Pieces): Pieces
    decreases ops, 1
  {
    if ops == [] then p else OpsPieces(comments, ops[1..], OpPieces(comments, ops[0], p))
  }

  /** All texts, keywords, commas and comments of a statement, in order. */
  function StatementPieces(comments: seq<Comment>, ops: seq<Op>, location: int, start: string): Pieces {
    CommentPieces(comments, OpsPieces(comments, ops, CommentPieces(comments, Pieces(start, []), location, 0)), INT_MAX, 0)
  }

  /** w has the characters of p, blanks aside, and the same comments. */
  predicate Holds(w: Written, p: Pieces) {
    NonBlank(Value(w).text) == NonBlank(p.text) && w.order == p.order
  }

  lemma HoldsAdd(w: Written, p: Pieces, s: string)
    requires Holds(w, p)
    ensures Holds(Add(w, s), p.(text := p.text + s))
  {
    ScanAppend(Words(w.done, true), w.cur, s);
    ScanKeepsCharacters(Value(w), s);
    NonBlankAppend(p.text, s);
  }

  lemma HoldsGroup(w: Written, p: Pieces, keyword: string)
    requires Holds(w, p)
    ensures Holds(StartGroup(w, Some(keyword)), p.(text := p.text + keyword))
  {
    GlueKeepsCharacters(Value(w).text, keyword);
    NonBlankAppend(p.text, keyword);
  }

  lemma HoldsBreak(w: Written, p: Pieces)
    requires Holds(w, p)
    ensures Holds(Break(w), p)
  {
  }

  lemma {:induction false} HoldsComments(comments: seq<Comment>, w: Written, p: Pieces, location: int, i: nat)
    requires Holds(w, p)
    ensures Holds(AddComments(comments, w, location, i), CommentPieces(comments, p, location, i))
    decreases |comments| - i
  {
    hide Holds, Add, Break;
    assert w.order == p.order by { HoldsOrder(w, p); }
    if i < |comments| {
      if i in w.order || comments[i].matchLocation > location {
        HoldsComments(comments, w, p, location, i + 1);
      } else {
        HoldsComment(w, p, comments[i], i);
        HoldsComments(comments, AddComment(w, comments[i], i), Pieces(p.text + comments[i].str, p.order + [i]), location, i + 1);
      }
    }
  }

  lemma HoldsOrder(w: Written, p: Pieces)
    requires Holds(w, p)
    ensures w.order == p.order
  {
  }

  lemma HoldsComment(w: Written, p: Pieces, c: Comment, i: nat)
    requires Holds(w, p)
    ensures Holds(AddComment(w, c, i), Pieces(p.text + c.str, p.order + [i]))
  {
    hide NonBlank, Scan;
    var before := if c.newlinesBefore > 0 then Break(w) else w;
    HoldsBreak(w, p);
    HoldsAdd(before, p, c.str);
    HoldsBreak(Add(before, c.str), p.(text := p.text + c.str));
  }

  lemma {:induction false} HoldsOp(comments: seq<Comment>, op: Op, w: Written, p: Pieces)
    requires Holds(w, p)
    ensures Holds(RunOp(comments, op, w), OpPieces(comments, op, p))
    decreases op, 0
  {
    hide NonBlank, Scan, AddComments, CommentPieces;
    match op
    case Text(s) => HoldsAdd(w, p, s);
    case Comma =>
      HoldsAdd(w, p, ",");
      HoldsBreak(Add(w, ","), p.(text := p.text + ","));
    case Group(keyword, _) =>
      if keyword.Some? { HoldsGroup(w, p, keyword.value); } else { HoldsBreak(w, p); }
    case TrimSpace => TrimmedWords(Words(w.done, true), w.cur);
    case NextPart => HoldsBreak(w, p);
    case CommentsUpTo(location) => HoldsComments(comments, w, p, location, 0);
    case Nested(body) =>
      HoldsBreak(w, p);
      HoldsOps(comments, body, Break(w), p);
      HoldsBreak(RunOps(comments, body, Break(w)), OpsPieces(comments, body, p));
    case _ =>
  }

  lemma {:induction false} HoldsOps(comments: seq<Comment>, ops: seq<Op>, w: Written, p: Pieces)
    requires Holds(w, p)
    ensures Holds(RunOps(comments, ops, w), OpsPieces(comments, ops, p))
    decreases ops, 1
  {
    if ops != [] {
      HoldsOp(comments, ops[0], w, p);
      HoldsOps(comments, ops[1..], RunOp(comments, ops[0], w), OpPieces(comments, ops[0], p));
    }
  }

  /** The words of a statement are its texts, keywords, commas and comments, in order. */
  lemma StatementKeepsCharacters(comments: seq<Comment>, ops: seq<Op>, location: int, start: string)
    ensures var w, p := RunStatement(comments, ops, location, start), StatementPieces(comments, ops, location, start);
            NonBlank(w.done) == NonBlank(p.text) && w.order == p.order
  {
    hide NonBlank, Scan, AddComments, CommentPieces, RunOps, OpsPieces;
    var w1, p1 := AfterLead(comments, location, start), CommentPieces(comments, Pieces(start, []), location, 0);
    GlueNothing(start);
    HoldsCommentsAlone(comments, Written(start, "", [], {}), Pieces(start, []), location);
    HoldsOps(comments, ops, w1, p1);
    var w2, p2 := AfterBody(comments, ops, location, start), OpsPieces(comments, ops, p1);
    HoldsBreak(RunOps(comments, ops, w1), p2);
    HoldsCommentsAlone(comments, w2, p2, INT_MAX);
    GlueNothing(RunStatement(comments, ops, location, start).done);
  }

  lemma HoldsCommentsAlone(comments: seq<Comment>, w: Written, p: Pieces, location: int)
    requires Holds(w, p)
    ensures Holds(if comments != [] then Break(AddComments(comments, w, location, 0)) else w, CommentPieces(comments, p, location, 0))
  {
    HoldsComments(comments, w, p, location, 0);
    hide Holds;
    if comments == [] {
      NoComments(w, p, location);
    } else {
      HoldsBreak(AddComments(comments, w, location, 0), CommentPieces(comments, p, location, 0));
    }
  }

  lemma NoComments(w: Written, p: Pieces, location: int)
    ensures CommentPieces([], p, location, 0) == p && AddComments([], w, location, 0) == w
  {
  }

  /** Two runs of one printer under different options: they fail together or give the same words, so that
      the outputs differ in blanks only.  A newline that ends a line comment is such a blank; which of them
      are kept is in module LayoutComments. */
  method TwoLayouts(o1: Opts, o2: Opts, ops: seq<Op>, location: int, outside: char)
    returns (ok1: bool, ok2: bool, out1: string, out2: string)
    requires o1.comments == o2.comments
    ensures (forall c | c in o1.comments :: c.str != "") ==> ok1 == ok2
    ensures ok1 && ok2 ==> WordsOf(out1) == WordsOf(out2)
    ensures ok1 ==> NonBlank(out1) == NonBlank(StatementPieces(o1.comments, ops, location, "").text)
    ensures !ok1 ==> NonBlank(StatementPieces(o1.comments, ops, location, "").text) == ""
  {
    hide NonBlank, RunStatement, StatementPieces;
    assert Loose(OutputWords(""));
    ok1, out1 := DeparseRawStmtOpts(o1, ops, location, "", outside);
    ok2, out2 := DeparseRawStmtOpts(o2, ops, location, "", outside);
    StatementKeepsCharacters(o1.comments, ops, location, "");
    GlueKeepsCharacters("", out1);
    NoCharacters();
    GlueNothing("");
  }

  lemma NoCharacters()
    ensures NonBlank("") == "" && forall s :: "" + NonBlank(s) == NonBlank(s)
  {
  }

  /** What gluing on a text means for the words: a space in between, unless the words so far end in an
      opening parenthesis or a comma, or the text starts with a closing parenthesis, a comma or a semicolon. */
  lemma GluedWordsStayApart(t: string, s: string)
    requires t != "" && s != "" && !IsBlank(s[0]) && !Opens(t[|t|-1]) && !Closes(s[0])
    ensures t + " " + [s[0]] <= Glue(t, s)
  {
    ScanExtends(Step(Words(t, true), s[0]), s[1..]);
  }

  /** A space in the words of a text stands for a blank of the text, behind the same words. */
  lemma {:induction false} SpacesAreBlanks(s: string, k: nat)
    requires k < |WordsOf(s)| && WordsOf(s)[k] == ' '
    ensures exists i :: 0 < i < |s| && IsBlank(s[i]) && WordsOf(s[..i]) == WordsOf(s)[..k]
  {
    if s != "" {
      var front, c := s[..|s|-1], s[|s|-1];
      assert s == front + [c];
      ScanChar(Words("", true), front, c);
      if k < |WordsOf(front)| {
        SpacesAreBlanks(front, k);
        var i :| 0 < i < |front| && IsBlank(front[i]) && WordsOf(front[..i]) == WordsOf(front)[..k];
        assert s[..i] == front[..i];
      } else {
        var i := |front| - 1;
        assert front == front[..i] + [front[i]];
        ScanChar(Words("", true), front[..i], front[i]);
        assert s[..i] == front[..i];
      }
    }
  }

  lemma {:induction false} ScanExtends(w: Words, s: string)
    ensures w.text <= Scan(w, s).text
    decreases |s|
  {
    if s != "" {
      ScanExtends(Step(w, s[0]), s[1..]);
    }
  }

  // ---------- Comments ----------

  predicate NoDuplicates(order: seq<nat>) {
    forall i, j | 0 <= i < j < |order| :: order[i] != order[j]
  }

  /** The comments emitted so far: each once, and in order if they are in the order of their locations. */
  ghost predicate OrderOk(comments: seq<Comment>, order: seq<nat>) {
    && NoDuplicates(order)
    && (forall i | i in order :: i < |comments|)
    && (Sorted(comments) ==> forall k | 0 <= k < |order| :: order[k] == k)
  }

  predicate Sorted(comments: seq<Comment>) {
    forall i, j | 0 <= i < j < |comments| :: comments[i].matchLocation <= comments[j].matchLocation
  }

  lemma {:induction false} CommentsOrdered(comments: seq<Comment>, p: Pieces, location: int, i: nat)
    requires OrderOk(comments, p.order)
    requires Sorted(comments) ==> i <= |comments| && (|p.order| >= i || (i > 0 && comments[i-1].matchLocation > location))
    ensures OrderOk(comments, CommentPieces(comments, p, location, i).order)
    ensures forall k | i <= k < |comments| && comments[k].matchLocation <= location :: k in CommentPieces(comments, p, location, i).order
    ensures forall k | k in p.order :: k in CommentPieces(comments, p, location, i).order
    decreases |comments| - i
  {
    if i < |comments| {
      if i in p.order || comments[i].matchLocation > location {
        if Sorted(comments) && i in p.order { PrefixMember(p.order, i); }
        CommentsOrdered(comments, p, location, i + 1);
      } else {
        var q := Pieces(p.text + comments[i].str, p.order + [i]);
        if Sorted(comments) { PrefixMember(p.order, i); }
        assert NoDuplicates(q.order);
        assert i in q.order && forall k | k in p.order :: k in q.order;
        CommentsOrdered(comments, q, location, i + 1);
      }
    }
  }

  lemma PrefixMember(order: seq<nat>, i: nat)
    requires forall k | 0 <= k < |order| :: order[k] == k
    ensures i in order <==> i < |order|
  {
    if i < |order| { assert order[i] == i; }
  }

  lemma {:induction false} OpCommentsOrdered(comments: seq<Comment>, op: Op, p: Pieces)
    requires OrderOk(comments, p.order)
    ensures OrderOk(comments, OpPieces(comments, op, p).order)
    decreases op, 0
  {
    hide OrderOk;
    match op
    case CommentsUpTo(location) => CommentsOrdered(comments, p, location, 0);
    case Nested(body) => OpsCommentsOrdered(comments, body, p);
    case _ =>
  }

  lemma {:induction false} OpsCommentsOrdered(comments: seq<Comment>, ops: seq<Op>, p: Pieces)
    requires OrderOk(comments, p.order)
    ensures OrderOk(comments, OpsPieces(comments, ops, p).order)
    decreases ops, 1
  {
    hide OrderOk;
    if ops != [] {
      OpCommentsOrdered(comments, ops[0], p);
      OpsCommentsOrdered(comments, ops[1..], OpPieces(comments, ops[0], p));
    }
  }

  /** Whatever locations the printer asks for, and in whatever order, a statement emits each of its
      comments exactly once, and in source order if they are given in that order. */
  lemma EveryCommentOnce(comments: seq<Comment>, ops: seq<Op>, location: int, start: string)
    requires forall i | 0 <= i < |comments| :: comments[i].matchLocation <= INT_MAX
    ensures var order := RunStatement(comments, ops, location, start).order;
            && NoDuplicates(order)
            && (forall i: nat :: i in order <==> i < |comments|)
            && (Sorted(comments) ==> |order| == |comments| && forall k | 0 <= k < |order| :: order[k] == k)
  {
    hide CommentPieces, OpsPieces, RunStatement;
    StatementKeepsCharacters(comments, ops, location, start);
    var p1 := CommentPieces(comments, Pieces(start, []), location, 0);
    CommentsOrdered(comments, Pieces(start, []), location, 0);
    OpsCommentsOrdered(comments, ops, p1);
    var p2 := OpsPieces(comments, ops, p1);
    CommentsOrdered(comments, p2, INT_MAX, 0);
    var order := StatementPieces(comments, ops, location, start).order;
    if Sorted(comments) {
      if |comments| > 0 { PrefixMember(order, |comments| - 1); }
      if order != [] { assert order[|order|-1] in order; }
    }
  }

  // ---------- Merged lines ----------

  lemma {:induction false} NonMergeableFilled(parts: seq<Part>, lines: seq<Part>, starts: seq<nat>, maxLineLength: nat, k: nat, n: nat)
    requires Filled(parts, lines, starts, maxLineLength) && n <= |lines| && k < starts[n] <= |parts| && !parts[k].mergeable
    ensures exists i :: 0 <= i < n && starts[i] == k && starts[i+1] == k + 1
  {
    if n > 0 {
      LineAt(parts, lines, starts, maxLineLength, n - 1);
      if k < starts[n-1] {
        NonMergeableFilled(parts, lines, starts, maxLineLength, k, n - 1);
      } else {
        assert starts[n-1] == k && starts[n] == k + 1;
      }
    }
  }

  /** The line has the part, and nothing else but a keyword in front of it. */
  predicate Alone(line: Part, part: Part, keyword: Option<string>) {
    Behind(line.str, part.str, keyword) || Behind(line.str, Trimmed(part.str), keyword)
  }

  predicate Behind(line: string, s: string, keyword: Option<string>) {
    line == s || (keyword.Some? && line == if s == "" then keyword.value else keyword.value + " " + s)
  }

  /** Among the lines that flattening makes of a group, a part that must not be merged has one of its own. */
  lemma NonMergeableAlone(opts: Opts, level: Level, group: PartGroup, closed: seq<Part>, k: nat)
    requires Closed(opts, level, group, closed) && k < |group.parts| && !group.parts[k].mergeable
    ensures exists i :: 0 <= i < |closed| && Alone(closed[i], group.parts[k], group.keyword)
  {
    var lines: seq<Part>, starts: seq<nat> :| ClosedBy(opts, level, group, closed, lines, starts);
    var i := k;
    if group.indentMode == IndentAndMerge && |group.parts| > 1 {
      NonMergeableFilled(group.parts, lines, starts, opts.maxLineLength, k, |lines|);
      i :| 0 <= i < |lines| && starts[i] == k && starts[i+1] == k + 1;
      LineAt(group.parts, lines, starts, opts.maxLineLength, i);
      assert group.parts[k..k+1] == [group.parts[k]];
    }
    assert lines[i].str == group.parts[k].str || lines[i].str == Trimmed(group.parts[k].str);
    LineKept(level, group, lines, i);
  }

  /** Every merged line is among those of its group, the first one perhaps behind the keyword. */
  lemma LineKept(level: Level, group: PartGroup, lines: seq<Part>, i: nat)
    requires i < |lines|
    ensures var closed := WithKeyword(level, group.keyword, group.indentMode, lines);
            exists j :: 0 <= j < |closed| && Behind(closed[j].str, lines[i].str, group.keyword)
  {
    var closed := WithKeyword(level, group.keyword, group.indentMode, lines);
    var j := if group.keyword.Some? && |lines| > 1 && group.indentMode != NoIndent then i + 1 else i;
    assert j < |closed| && Behind(closed[j].str, lines[i].str, group.keyword);
  }

  /** A line keeps to the limit or has a single part. */
  predicate Fits(line: Part, parts: seq<Part>, keyword: Option<string>, maxLineLength: nat) {
    || line.indent + |line.str| <= maxLineLength
    || exists k :: 0 <= k < |parts| && Alone(line, parts[k], keyword)
  }

  lemma MergedLineFits(opts: Opts, level: Level, group: PartGroup, closed: seq<Part>, lines: seq<Part>, starts: seq<nat>, i: nat)
    requires ClosedBy(opts, level, group, closed, lines, starts) && i < |lines|
    ensures Fits(lines[i], group.parts, None, opts.maxLineLength)
    ensures group.parts != [] && lines[0].indent == group.parts[0].indent
  {
    hide WithKeyword, Joined, Trimmed, Mergeable;
    var k := i;
    if group.indentMode == IndentAndMerge && |group.parts| > 1 {
      LineAt(group.parts, lines, starts, opts.maxLineLength, 0);
      LineAt(group.parts, lines, starts, opts.maxLineLength, i);
      k := starts[i];
      assert group.parts[k..k+1] == [group.parts[k]];
      assert starts[i+1] == k + 1 ==> Joined([group.parts[k]]) == group.parts[k] by { JoinedOne(group.parts[k]); }
    }
    assert lines[i].indent + |lines[i].str| <= opts.maxLineLength || Alone(lines[i], group.parts[k], None);
  }

  lemma JoinedOne(part: Part)
    ensures Joined([part]) == part
  {
  }

  lemma FitsBehind(line: Part, closed: Part, parts: seq<Part>, keyword: Option<string>, maxLineLength: nat)
    requires Fits(line, parts, None, maxLineLength) && Behind(closed.str, line.str, keyword)
    requires line.indent + |line.str| <= maxLineLength ==> closed.indent + |closed.str| <= maxLineLength
    ensures Fits(closed, parts, keyword, maxLineLength)
  {
    if k :| 0 <= k < |parts| && Alone(line, parts[k], None) {
      assert Alone(closed, parts[k], keyword);
    }
  }

  /** Among the lines that flattening makes of a group, each one keeps to the limit, has a single part, or
      is the keyword of the group.  A keyword in front of several parts keeps to the limit too, if it is
      shorter than the indentation that it replaces. */
  lemma MergedLinesFit(opts: Opts, level: Level, group: PartGroup, closed: seq<Part>, j: nat)
    requires Closed(opts, level, group, closed) && j < |closed|
    ensures var line := closed[j];
            || Fits(line, group.parts, group.keyword, opts.maxLineLength)
            || (j == 0 && group.keyword.Some? &&
                  (line.str == group.keyword.value || (group.parts != [] && level.baseIndent + |group.keyword.value| >= group.parts[0].indent)))
  {
    var lines: seq<Part>, starts: seq<nat> :| ClosedBy(opts, level, group, closed, lines, starts);
    var i := j - (|closed| - |lines|);
    if i >= 0 {
      MergedLineFits(opts, level, group, closed, lines, starts, i);
      hide Fits, Filled;
      if group.keyword.None? || i > 0 || level.baseIndent + |group.keyword.value| < group.parts[0].indent {
        FitsBehind(lines[i], closed[j], group.parts, group.keyword, opts.maxLineLength);
      }
    }
  }

  /** The keyword is put in front without another look at the limit: for any keyword that is not shorter
      than the indentation there is a group that ends up as a line over the limit. */
  lemma KeywordLineOverflows(level: Level, opts: Opts, keyword: string) returns (parts: seq<Part>, lines: seq<Part>, starts: seq<nat>)
    requires |keyword| >= opts.indentSize && opts.maxLineLength >= level.baseIndent + opts.indentSize + 3
    ensures |parts| == 2 && (forall k | 0 <= k < 2 :: parts[k].mergeable && parts[k].indent == level.baseIndent + opts.indentSize)
    ensures Filled(parts, lines, starts, opts.maxLineLength) && |lines| == 1
    ensures var line := WithKeyword(level, Some(keyword), IndentAndMerge, lines)[0];
            line.indent + |line.str| > opts.maxLineLength
  {
    var indent := level.baseIndent + opts.indentSize;
    var a := Part(seq(opts.maxLineLength - indent - 3, _ => 'a') + ",", indent, true);
    var b := Part("b", indent, true);
    parts := [a, b];
    var str := a.str;
    assert str[|str|-1] == ',' && Trimmed(str) == str;
    assert parts[0..2] == parts && parts[..1] == [a];
    assert Joined([a]) == a;
    assert Joined(parts) == JoinTwo(a, b);
    lines, starts := [JoinTwo(a, b)], [0, 2];
    assert |lines[0].str| == opts.maxLineLength - indent;
  }
}
