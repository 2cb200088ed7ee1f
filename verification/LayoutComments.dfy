/** Line comments: which of them are still ended by a newline in the output. */
module LayoutComments {
  import opened LayoutText
  import opened LayoutState
  import opened LayoutScript
  import opened LayoutLines

  /** Comments start with a hyphen or a slash, and a line comment ends before the next newline. */
  predicate CommentOk(c: Comment) {
    c.str != "" && !IsBlank(c.str[0]) && (IsLineComment(c) ==> '\n' !in c.str)
  }

  predicate CommentsOk(comments: seq<Comment>) {
    forall c | c in comments :: CommentOk(c) && c.matchLocation <= INT_MAX
  }

  predicate HasText(s: string) {
    s != "" && (!IsBlank(s[0]) || HasText(s[1..]))
  }

  /** Does text follow wherever comments were asked for?  Printers ask for comments right in front of a
      statement, a constant or another node that has text of its own. */
  predicate TextLast(op: Op, before: bool)
    decreases op, 0
  {
    match op
    case Text(s) => before || HasText(s)
    case Comma => true
    case Group(Some(keyword), _) => before || HasText(keyword)
    case CommentsUpTo(_) => false
    case Nested(body) => EndsInText(body, before)
    case _ => before
  }

  predicate EndsInText(ops: seq<Op>, before: bool)
    decreases ops, 1
  {
    if ops == [] then before else EndsInText(ops[1..], TextLast(ops[0], before))
  }

  /** The last location up to which the printer asks for comments. */
  function LastAsked(op: Op, m: int): int
    decreases op, 0
  {
    match op
    case CommentsUpTo(location) => if location > m then location else m
    case Nested(body) => LastAskedIn(body, m)
    case _ => m
  }

  function LastAskedIn(ops: seq<Op>, m: int): int
    decreases ops, 1
  {
    if ops == [] then m else LastAskedIn(ops[1..], LastAsked(ops[0], m))
  }

  /** The last comment behind all locations that are asked for, counting from comment i. */
  function LastBehind(comments: seq<Comment>, m: int, i: nat): Option<nat>
    decreases |comments| - i
  {
    if i >= |comments| then None
    else
      var rest := LastBehind(comments, m, i + 1);
      if rest.Some? then rest else if comments[i].matchLocation > m then Some(i) else None
  }

  /** The comment that a statement ends in, if it ends in one. */
  function FinalComment(comments: seq<Comment>, ops: seq<Op>, location: int): (c: Option<Comment>)
    ensures c.Some? ==> c.value in comments
  {
    var k := LastBehind(comments, LastAskedIn(ops, location), 0);
    if k.Some? && k.value < |comments| then Some(comments[k.value]) else None
  }

  /** Is the newline lost that ends the statement's last comment?  One of the empty parts that stand for the
      newlines behind it is dropped, and nothing is emitted behind the last part. */
  predicate LosesNewline(opts: Opts, ops: seq<Op>, location: int) {
    && opts.prettyPrint && !opts.trailingNewline
    && var c := FinalComment(opts.comments, ops, location);
       c.Some? && IsLineComment(c.value) && 1 <= c.value.newlinesAfter <= 2
  }

  // ---------- Line comments end inside the words ----------

  /** No line comment ends behind the words, and none right at their end if there is text behind it. */
  ghost predicate Inside(w: Written, textLast: bool) {
    forall p | p in w.ends :: p <= |Value(w).text| && (textLast ==> p < |Value(w).text|)
  }

  lemma {:induction false} TextGrows(w: Words, s: string)
    ensures |Scan(w, s).text| >= |w.text| + if HasText(s) then 1 else 0
    decreases |s|
  {
    if s != "" {
      TextGrows(Step(w, s[0]), s[1..]);
    }
  }

  lemma InsideAdd(w: Written, s: string, before: bool)
    requires Inside(w, before)
    ensures Inside(Add(w, s), before || HasText(s))
  {
    ScanAppend(Words(w.done, true), w.cur, s);
    TextGrows(Value(w), s);
  }

  lemma InsideBreak(w: Written, before: bool)
    requires Inside(w, before)
    ensures Inside(Break(w), before)
  {
  }

  lemma InsideComment(w: Written, c: Comment, i: nat)
    requires Inside(w, false) && CommentOk(c)
    ensures var r := AddComment(w, c, i);
            Inside(r, false) && (|Value(r).text| in r.ends <==> IsLineComment(c) && c.newlinesAfter > 0)
  {
    var start := if c.newlinesBefore > 0 then Break(w) else w;
    InsideAdd(start, c.str, false);
    assert Inside(Add(start, c.str), true);
    hide Scan, HasText, IsLineComment;
    var with := Add(start, c.str);
    assert |Value(with).text| !in with.ends;
  }

  lemma {:induction false} InsideComments(comments: seq<Comment>, w: Written, location: int, i: nat)
    requires Inside(w, false) && CommentsOk(comments)
    ensures Inside(AddComments(comments, w, location, i), false)
    decreases |comments| - i
  {
    hide Inside, CommentOk, AddComment;
    if i < |comments| {
      if i in w.order || comments[i].matchLocation > location {
        InsideComments(comments, w, location, i + 1);
      } else {
        assert comments[i] in comments;
        InsideComment(w, comments[i], i);
        InsideComments(comments, AddComment(w, comments[i], i), location, i + 1);
      }
    }
  }

  lemma InsideLess(w: Written, before: bool)
    requires Inside(w, before)
    ensures Inside(w, false)
  {
  }

  lemma {:induction false} InsideOp(comments: seq<Comment>, op: Op, w: Written, before: bool)
    requires Inside(w, before) && CommentsOk(comments)
    ensures Inside(RunOp(comments, op, w), TextLast(op, before))
    decreases op, 0
  {
    match op
    case Text(s) => InsideAdd(w, s, before);
    case Comma =>
      InsideAdd(w, ",", before);
      InsideBreak(Add(w, ","), true);
    case Group(keyword, _) =>
      if keyword.Some? { TextGrows(Words(Value(w).text, true), keyword.value); }
    case TrimSpace => TrimmedWords(Words(w.done, true), w.cur);
    case CommentsUpTo(location) =>
      InsideLess(w, before);
      InsideComments(comments, w, location, 0);
    case Nested(body) =>
      hide Inside, Break, CommentsOk;
      InsideBreak(w, before);
      InsideOps(comments, body, Break(w), before);
      InsideBreak(RunOps(comments, body, Break(w)), TextLast(op, before));
    case _ =>
  }

  lemma {:induction false} InsideOps(comments: seq<Comment>, ops: seq<Op>, w: Written, before: bool)
    requires Inside(w, before) && CommentsOk(comments)
    ensures Inside(RunOps(comments, ops, w), EndsInText(ops, before))
    decreases ops, 1
  {
    hide Inside, RunOp, CommentsOk, TextLast;
    if ops != [] {
      InsideOp(comments, ops[0], w, before);
      InsideOps(comments, ops[1..], RunOp(comments, ops[0], w), TextLast(ops[0], before));
    }
  }

  /** Text is behind all comments of the statement that are not left over. */
  lemma BodyInside(comments: seq<Comment>, ops: seq<Op>, location: int, start: string)
    requires CommentsOk(comments) && EndsInText(ops, false)
    ensures Inside(AfterBody(comments, ops, location, start), true)
  {
    var w0 := Written(start, "", [], {});
    InsideComments(comments, w0, location, 0);
    InsideBreak(AddComments(comments, w0, location, 0), false);
    assert Inside(AfterLead(comments, location, start), false);
    hide Inside, EndsInText, CommentsOk;
    InsideOps(comments, ops, AfterLead(comments, location, start), false);
    InsideBreak(RunOps(comments, ops, AfterLead(comments, location, start)), true);
  }

  // ---------- Which comments are left over ----------

  /** The comments from i on that have been emitted are those up to m. */
  ghost predicate Emitted(comments: seq<Comment>, order: seq<nat>, m: int, i: nat) {
    forall k | i <= k < |comments| :: k in order <==> comments[k].matchLocation <= m
  }

  lemma {:induction false} CommentsEmitted(comments: seq<Comment>, w: Written, location: int, i: nat)
    ensures forall k: nat :: k in AddComments(comments, w, location, i).order <==>
              k in w.order || (i <= k < |comments| && comments[k].matchLocation <= location)
    decreases |comments| - i
  {
    if i < |comments| {
      if i in w.order || comments[i].matchLocation > location {
        CommentsEmitted(comments, w, location, i + 1);
      } else {
        OrderGrows(w, comments[i], i);
        hide AddComment;
        CommentsEmitted(comments, AddComment(w, comments[i], i), location, i + 1);
      }
    }
  }

  lemma {:induction false} OpEmitted(comments: seq<Comment>, op: Op, w: Written, m: int)
    requires Emitted(comments, w.order, m, 0)
    ensures Emitted(comments, RunOp(comments, op, w).order, LastAsked(op, m), 0)
    decreases op, 0
  {
    match op
    case CommentsUpTo(location) => CommentsEmitted(comments, w, location, 0);
    case Nested(body) =>
      BreakOrder(w);
      OpsEmitted(comments, body, Break(w), m);
      BreakOrder(RunOps(comments, body, Break(w)));
    case _ =>
  }

  lemma {:induction false} OpsEmitted(comments: seq<Comment>, ops: seq<Op>, w: Written, m: int)
    requires Emitted(comments, w.order, m, 0)
    ensures Emitted(comments, RunOps(comments, ops, w).order, LastAskedIn(ops, m), 0)
    decreases ops, 1
  {
    hide Emitted, RunOp, LastAsked;
    if ops != [] {
      OpEmitted(comments, ops[0], w, m);
      OpsEmitted(comments, ops[1..], RunOp(comments, ops[0], w), LastAsked(ops[0], m));
    }
  }

  lemma BodyEmitted(comments: seq<Comment>, ops: seq<Op>, location: int, start: string)
    ensures Emitted(comments, AfterBody(comments, ops, location, start).order, LastAskedIn(ops, location), 0)
  {
    var w0 := Written(start, "", [], {});
    CommentsEmitted(comments, w0, location, 0);
    BreakOrder(AddComments(comments, w0, location, 0));
    assert Emitted(comments, AfterLead(comments, location, start).order, location, 0);
    hide Emitted;
    OpsEmitted(comments, ops, AfterLead(comments, location, start), location);
    BreakOrder(RunOps(comments, ops, AfterLead(comments, location, start)));
  }

  /** Emitting what is left over ends in the last comment that is left over. */
  lemma {:induction false} SweepEnds(comments: seq<Comment>, w: Written, m: int, i: nat)
    requires CommentsOk(comments) && Emitted(comments, w.order, m, i) && Inside(w, false)
    ensures var r, k := AddComments(comments, w, INT_MAX, i), LastBehind(comments, m, i);
            if k.None? then r == w
            else && k.value < |comments| && |r.order| > |w.order| && r.order[|r.order|-1] == k.value
                 && (|Value(r).text| in r.ends <==> IsLineComment(comments[k.value]) && comments[k.value].newlinesAfter > 0)
    decreases |comments| - i
  {
    hide Inside, AddComment, CommentOk, IsLineComment;
    if i < |comments| {
      if i in w.order {
        SweepEnds(comments, w, m, i + 1);
      } else {
        assert comments[i] in comments;
        InsideComment(w, comments[i], i);
        OrderGrows(w, comments[i], i);
        SweepEnds(comments, AddComment(w, comments[i], i), m, i + 1);
      }
    }
  }

  /** A statement whose comments are swept up at the end needs a newline behind its words if and only if the
      last of them is a line comment with a newline behind it, and no statement needs one otherwise. */
  lemma StatementEnds(comments: seq<Comment>, ops: seq<Op>, location: int, start: string)
    requires CommentsOk(comments) && EndsInText(ops, false)
    ensures var w, c := RunStatement(comments, ops, location, start), FinalComment(comments, ops, location);
            && (forall p | p in w.ends :: p <= |w.done|)
            && (|w.done| in w.ends <==> c.Some? && IsLineComment(c.value) && c.value.newlinesAfter > 0)
            && (Sweeps(comments, ops, location, start) <==> c.Some?)
            && (c.Some? ==> w.order != [] && w.order[|w.order|-1] < |comments| && comments[w.order[|w.order|-1]] == c.value)
  {
    hide Inside, Emitted, AfterBody, EndsInText, CommentOk, IsLineComment, LastAskedIn;
    var w, m := AfterBody(comments, ops, location, start), LastAskedIn(ops, location);
    BodyInside(comments, ops, location, start);
    BodyEmitted(comments, ops, location, start);
    BodyDone(comments, ops, location, start);
    InsideLess(w, true);
    if comments == [] {
      InsideDone(w, true);
    } else {
      var r := AddComments(comments, w, INT_MAX, 0);
      SweepEnds(comments, w, m, 0);
      InsideComments(comments, w, INT_MAX, 0);
      hide AddComments, LastBehind, CommentsOk;
      BreakOrder(r);
      InsideBreak(r, false);
      InsideDone(Break(r), false);
      InsideDone(w, true);
      if LastBehind(comments, m, 0).None? { assert Break(r) == w; }
    }
  }

  lemma InsideDone(w: Written, textLast: bool)
    requires Inside(w, textLast) && w.cur == ""
    ensures forall p | p in w.ends :: p <= |w.done| && (textLast ==> p < |w.done|)
    ensures Value(w).text == w.done
  {
  }

  lemma BodyDone(comments: seq<Comment>, ops: seq<Op>, location: int, start: string)
    ensures AfterBody(comments, ops, location, start).cur == ""
    ensures Break(AfterBody(comments, ops, location, start)) == AfterBody(comments, ops, location, start)
  {
  }

  /** What the layout engine promises about the newlines of its output, as an equivalence: each line comment
      is ended by a newline before any other text if and only if the last one does not lose it. */
  lemma StatementKeepsNewlines(opts: Opts, ops: seq<Op>, location: int, start: string, newlines: set<nat>)
    requires CommentsOk(opts.comments) && EndsInText(ops, false)
    requires CommentsEnded(opts, ops, location, start, newlines)
    ensures var w := RunStatement(opts.comments, ops, location, start);
            && w.ends <= newlines + {|w.done|}
            && if LosesNewline(opts, ops, location) then |w.done| in w.ends && |w.done| !in newlines
               else w.ends <= newlines
  {
    hide RunStatement, Sweeps, IsLineComment, FinalComment, EndsInText;
    StatementEnds(opts.comments, ops, location, start);
    var c := FinalComment(opts.comments, ops, location);
    if c.Some? { assert c.value in opts.comments; }
  }
}
