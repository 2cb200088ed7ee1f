/** What the printers ask of the layout engine, and the words that come of it whatever the options. */
module LayoutScript {
  import opened LayoutText
  import opened LayoutState

  /** The operations that printers use.  A level that is opened is closed again. */
  datatype Op =
    | Text(s: string)
    | Comma                                                  // deparseAppendCommaAndPart
    | NextPart                                               // deparseAppendPart with deduplication
    | Group(keyword: Option<string>, indentMode: IndentMode) // deparseAppendPartGroup
    | TrimSpace                                              // removeTrailingSpace
    | NeverMerge                                             // deparseMarkCurrentPartNonMergable
    | CommentsUpTo(location: int)                            // deparseAppendCommentsIfNeeded
    | Nested(body: seq<Op>)                                  // between increasing and decreasing the nesting level

  /** The words before the current part, the text of the current part, the comments emitted, and where
      line comments end in the words. */
  datatype Written = Written(done: string, cur: string, order: seq<nat>, ends: set<nat>)

  function Value(w: Written): Words {
    Scan(Words(w.done, true), w.cur)
  }

  function Break(w: Written): Written {
    w.(done := Value(w).text, cur := "")
  }

  function Add(w: Written, s: string): Written {
    w.(cur := w.cur + s)
  }

  function StartGroup(w: Written, keyword: Option<string>): Written {
    w.(done := KeywordContent(Value(w).text, keyword), cur := "")
  }

  /** Comments that go on to the end of the line. */
  predicate IsLineComment(c: Comment) {
    |c.str| >= 2 && c.str[0] == '-' && c.str[1] == '-'
  }

  function CommentEnd(w: Written, c: Comment): set<nat> {
    if IsLineComment(c) then {|Value(w).text|} else {}
  }

  /** A line comment that has a newline behind it needs one in the output as well. */
  function AddComment(w: Written, c: Comment, i: nat): Written {
    var before := if c.newlinesBefore > 0 then Break(w) else w;
    var with := Add(before, c.str);
    (if c.newlinesAfter > 0 then Break(with).(ends := w.ends + CommentEnd(with, c)) else with).(order := w.order + [i])
  }

  /** Comments i and up whose location has been reached and that have not been emitted. */
  function AddComments(comments: seq<Comment>, w: Written, location: int, i: nat): Written
    decreases |comments| - i
  {
    if i >= |comments| then w
    else if i in w.order || comments[i].matchLocation > location then AddComments(comments, w, location, i + 1)
    else AddComments(comments, AddComment(w, comments[i], i), location, i + 1)
  }

  lemma AddCommentsStep(comments: seq<Comment>, w: Written, location: int, i: nat)
    ensures i >= |comments| ==> AddComments(comments, w, location, i) == w
    ensures i < |comments| ==>
              AddComments(comments, w, location, i) ==
              if i in w.order || comments[i].matchLocation > location then AddComments(comments, w, location, i + 1)
              else AddComments(comments, AddComment(w, comments[i], i), location, i + 1)
  {
  }

  function RunOp(comments: seq<Comment>, op: Op, w: Written): Written
    decreases op, 0
  {
    match op
    case Text(s) => Add(w, s)
    case Comma => Break(Add(w, ","))
    case NextPart => Break(w)
    case Group(keyword, _) => StartGroup(w, keyword)
    case TrimSpace => w.(cur := Trimmed(w.cur))
    case NeverMerge => w
    case CommentsUpTo(location) => AddComments(comments, w, location, 0)
    case Nested(body) => Break(RunOps(comments, body, Break(w)))
  }

  function RunOps(comments: seq<Comment>, ops: seq<Op>, w: Written): Written
    decreases ops, 1
  {
    if ops == [] then w else RunOps(comments, ops[1..], RunOp(comments, ops[0], w))
  }

  const INT_MAX := 0x7fff_ffff

  /** Comments in front of a statement. */
  function AfterLead(comments: seq<Comment>, location: int, start: string): Written {
    var w0 := Written(start, "", [], {});
    if comments != [] then Break(AddComments(comments, w0, location, 0)) else w0
  }

  /** And what its printer does. */
  function AfterBody(comments: seq<Comment>, ops: seq<Op>, location: int, start: string): Written {
    Break(RunOps(comments, ops, AfterLead(comments, location, start)))
  }

  /** A statement: comments in front of it, what its printer does, and the comments left over. */
  function RunStatement(comments: seq<Comment>, ops: seq<Op>, location: int, start: string): Written {
    var w := AfterBody(comments, ops, location, start);
    if comments != [] then Break(AddComments(comments, w, INT_MAX, 0)) else w
  }

  /** Are there comments left over? */
  predicate Sweeps(comments: seq<Comment>, ops: seq<Op>, location: int, start: string) {
    RunStatement(comments, ops, location, start).order != AfterBody(comments, ops, location, start).order
  }

  /** Does the operation make a part, if there is none? */
  predicate Touches(comments: seq<Comment>, op: Op, w: Written) {
    op.CommentsUpTo? ==> AddComments(comments, w, op.location, 0).order != w.order
  }

  predicate Touch(comments: seq<Comment>, ops: seq<Op>, w: Written) {
    ops != [] && (Touches(comments, ops[0], w) || Touch(comments, ops[1..], RunOp(comments, ops[0], w)))
  }

  /** Is there anything to print? */
  predicate Prints(comments: seq<Comment>, ops: seq<Op>, location: int, start: string) {
    || AfterLead(comments, location, start).order != []
    || Touch(comments, ops, AfterLead(comments, location, start))
    || Sweeps(comments, ops, location, start)
  }

  /** What is sure about the newlines of an output, given by the words in front of them: each line comment
      that has a newline behind it is ended by one, except that a pretty-printing run without a newline at the
      end keeps the one of a comment that is left over only if there are three. */
  ghost predicate CommentsEnded(opts: Opts, ops: seq<Op>, location: int, start: string, newlines: set<nat>) {
    var w := RunStatement(opts.comments, ops, location, start);
    if opts.prettyPrint && !opts.trailingNewline then
      && w.ends <= newlines + {|w.done|}
      && (Sweeps(opts.comments, ops, location, start) ==>
            && w.order != [] && w.order[|w.order|-1] < |opts.comments|
            && var c := opts.comments[w.order[|w.order|-1]];
               IsLineComment(c) && '\n' !in c.str ==> (|w.done| in newlines <==> c.newlinesAfter > 2))
    else w.ends <= newlines
  }

  // ---------- The link between the current part and what has been written ----------

  /** The current part holds the text of w.cur, after something that is already in w.done. */
  predicate LinkedPart(before: string, cur: string, w: Written) {
    |w.cur| <= |cur| &&
    var done := cur[..|cur|-|w.cur|];
    && cur == done + w.cur
    && SameWords(Scan(Words(before, true), done), Words(w.done, true))
    && SameWords(Scan(Words(before, true), Trimmed(done)), Words(w.done, true))
    && Trimmed(Trimmed(done)) == Trimmed(done)
  }

  lemma BreakTwice(w: Written)
    ensures Break(Break(w)) == Break(w)
  {
  }

  lemma BreakEnds(w: Written, end: set<nat>)
    ensures Break(Break(w).(ends := w.ends + end)) == Break(w).(ends := w.ends + end)
    ensures forall x: Written :: Break(x).(ends := x.ends + {}) == Break(x)
  {
  }

  lemma CommentWritten(w: Written, c: Comment, i: nat, with: Written)
    requires with == Add(if c.newlinesBefore > 0 then Break(w) else w, c.str)
    ensures with.order == Break(with).order == w.order && CommentEnd(with, c) <= {|Value(with).text|} && (CommentEnd(with, c) != {} ==> IsLineComment(c))
    ensures AddComment(w, c, i) ==
            (if c.newlinesAfter > 0 then Break(with).(ends := with.ends + CommentEnd(with, c)) else with).(order := w.order + [i])
  {
  }

  lemma NoEnd(w: Written)
    ensures Break(w).(ends := w.ends + {}) == Break(w)
  {
  }

  lemma OrderGrows(w: Written, c: Comment, i: nat)
    ensures AddComment(w, c, i).order == w.order + [i]
  {
  }

  lemma BreakOrder(w: Written)
    ensures Break(w).order == w.order && Break(w).ends == w.ends
  {
  }

  lemma NothingToBreak(w: Written)
    ensures w.cur == "" ==> Break(w) == w
  {
  }

  lemma LinkedValue(before: string, cur: string, w: Written)
    requires LinkedPart(before, cur, w)
    ensures Glue(before, cur) == Value(w).text && SameWords(Scan(Words(before, true), cur), Value(w))
  {
    var done := cur[..|cur|-|w.cur|];
    ScanAppend(Words(before, true), done, w.cur);
    SameWordsScan(Scan(Words(before, true), done), Words(w.done, true), w.cur);
  }

  lemma LinkedEmpty(before: string, cur: string, w: Written)
    requires LinkedPart(before, cur, w) && cur == ""
    ensures w.cur == "" && w.done == before && Break(w) == w
  {
  }

  lemma FreshPart(before: string, w: Written)
    requires w.done == before && w.cur == ""
    ensures LinkedPart(before, "", w)
  {
  }

  lemma LinkedAdd(before: string, cur: string, w: Written, s: string)
    requires LinkedPart(before, cur, w)
    ensures LinkedPart(before, cur + s, Add(w, s))
  {
    var done := cur[..|cur|-|w.cur|];
    assert (cur + s)[..|cur + s|-|w.cur + s|] == done;
    assert cur + s == done + (w.cur + s);
  }

  lemma LinkedTrim(before: string, cur: string, w: Written)
    requires LinkedPart(before, cur, w)
    ensures LinkedPart(before, Trimmed(cur), w.(cur := Trimmed(w.cur)))
  {
    var done := cur[..|cur|-|w.cur|];
    if w.cur == "" {
      assert done == cur && Trimmed(cur)[..|Trimmed(cur)|] == Trimmed(cur);
    } else if w.cur[|w.cur|-1] == ' ' {
      assert Trimmed(cur) == done + Trimmed(w.cur);
      assert Trimmed(cur)[..|done|] == done;
    }
  }

  /** A comma at the start of a part, and a space after it, against a comma at the end of the part before. */
  lemma LinkedComma(before: string, w: Written)
    requires Value(w).text == before
    ensures LinkedPart(before, ", ", Break(Add(w, ",")))
  {
    ScanChar(Words(w.done, true), w.cur, ',');
    assert ", " == "," + [' '] && "," == "" + [','];
    ScanChar(Words(before, true), ",", ' ');
    ScanChar(Words(before, true), "", ',');
    assert ", "[..2] == ", " && Trimmed(", ") == "," && Trimmed(",") == ",";
  }

  /** A newline written into the part, against a new part. */
  lemma LinkedNewline(before: string, cur: string, w: Written)
    requires LinkedPart(before, cur, w)
    ensures LinkedPart(before, cur + "\n", Break(w))
  {
    LinkedValue(before, cur, w);
    ScanChar(Words(before, true), cur, '\n');
    var s := cur + "\n";
    assert s == cur + ['\n'] && s[..|s|] == s && Trimmed(s) == s;
  }
}
