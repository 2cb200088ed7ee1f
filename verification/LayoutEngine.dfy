/** The parts that a printer makes and the text that comes of them, on values: what each operation does to
    the level being written, how a level becomes lines, and how lines become output. */
module LayoutEngine {
  import opened LayoutText
  import opened LayoutState
  import opened LayoutScript
  import opened LayoutLevel
  import opened LayoutEmit

  /** A level that can be written to. */
  predicate Ready(level: Level) {
    level.groups == [] || HasPart(level)
  }

  /** The level being written, and the comments emitted so far. */
  datatype Writing = Writing(level: Level, emitted: set<nat>)

  // ---------- Operations ----------

  function AddText(level: Level, s: string, indentSize: nat): (r: Level)
    requires Ready(level)
    ensures HasPart(r)
  {
    var l := Started(level, indentSize);
    WithLastPart(l, LastPart(l).(str := LastPart(l).str + s))
  }

  function Unmergeable(level: Level, indentSize: nat): (r: Level)
    requires Ready(level)
    ensures HasPart(r)
  {
    var l := Started(level, indentSize);
    WithLastPart(l, LastPart(l).(mergeable := false))
  }

  function WithoutSpace(level: Level, indentSize: nat): (r: Level)
    requires Ready(level)
    ensures HasPart(r)
  {
    var l := Started(level, indentSize);
    WithLastPart(l, LastPart(l).(str := Trimmed(LastPart(l).str)))
  }

  function AddPart(level: Level, deduplicate: bool, indentSize: nat): (r: Level)
    requires Ready(level)
    ensures HasPart(r)
  {
    WithNextPart(Started(level, indentSize), deduplicate, indentSize)
  }

  /** At the start of the next part, or at the end of this one. */
  function AddComma(opts: Opts, level: Level): (r: Level)
    requires Ready(level)
    ensures HasPart(r)
  {
    if opts.commasStartOfLine then AddText(AddPart(level, true, opts.indentSize), ", ", opts.indentSize)
    else AddPart(AddText(level, ",", opts.indentSize), true, opts.indentSize)
  }

  function AddGroup(opts: Opts, level: Level, keyword: Option<string>, indentMode: IndentMode): (r: Level)
    requires Ready(level)
    ensures HasPart(r)
  {
    var l := if level.groups == [] then level else WithoutSpace(level, opts.indentSize);
    l.(groups := l.groups + [PartGroup(keyword, indentMode, [MakePart(l, indentMode, opts.indentSize)])])
  }

  /** n newlines: new parts, or characters. */
  function AddNewlines(opts: Opts, level: Level, n: nat): (r: Level)
    requires Ready(level)
    ensures Ready(r)
  {
    if n == 0 then level
    else
      var l := AddNewlines(opts, level, n - 1);
      if opts.prettyPrint then AddPart(l, false, opts.indentSize) else AddText(l, "\n", opts.indentSize)
  }

  lemma NewlinesStep(opts: Opts, level: Level, n: nat)
    requires Ready(level)
    ensures AddNewlines(opts, level, 0) == level
    ensures AddNewlines(opts, level, n + 1) ==
            if opts.prettyPrint then AddPart(AddNewlines(opts, level, n), false, opts.indentSize)
            else AddText(AddNewlines(opts, level, n), "\n", opts.indentSize)
  {
  }

  /** One newline less if a keyword has already started a new line. */
  function NewlinesInFront(opts: Opts, level: Level, c: Comment): nat
    requires Ready(level)
  {
    var l := Started(level, opts.indentSize);
    if opts.prettyPrint && c.newlinesBefore > 0 && LastGroup(l).keyword.Some? && LastPart(l).str == ""
    then c.newlinesBefore - 1 else c.newlinesBefore
  }

  function CommentStarted(opts: Opts, level: Level, c: Comment): (r: Level)
    requires Ready(level)
    ensures Ready(r)
  {
    if opts.prettyPrint && c.newlinesBefore > 0 then Started(level, opts.indentSize) else level
  }

  function CommentText(opts: Opts, level: Level, c: Comment): (r: Level)
    requires Ready(level)
    ensures HasPart(r)
  {
    Unmergeable(AddText(AddNewlines(opts, CommentStarted(opts, level, c), NewlinesInFront(opts, level, c)), c.str, opts.indentSize), opts.indentSize)
  }

  function AddOneComment(opts: Opts, level: Level, c: Comment): (r: Level)
    requires Ready(level)
    ensures Ready(r)
  {
    AddNewlines(opts, CommentText(opts, level, c), c.newlinesAfter)
  }

  function AddCommentsFrom(opts: Opts, w: Writing, location: int, i: nat): (r: Writing)
    requires Ready(w.level)
    ensures Ready(r.level)
    decreases |opts.comments| - i
  {
    if i >= |opts.comments| then w
    else if i in w.emitted || opts.comments[i].matchLocation > location then AddCommentsFrom(opts, w, location, i + 1)
    else AddCommentsFrom(opts, Writing(AddOneComment(opts, w.level, opts.comments[i]), w.emitted + {i}), location, i + 1)
  }

  lemma CommentsStep(opts: Opts, w: Writing, location: int, i: nat)
    requires Ready(w.level)
    ensures i >= |opts.comments| ==> AddCommentsFrom(opts, w, location, i) == w
    ensures i < |opts.comments| ==>
              AddCommentsFrom(opts, w, location, i) ==
              if i in w.emitted || opts.comments[i].matchLocation > location then AddCommentsFrom(opts, w, location, i + 1)
              else AddCommentsFrom(opts, Writing(AddOneComment(opts, w.level, opts.comments[i]), w.emitted + {i}), location, i + 1)
  {
  }

  /** A nested level is indented once more if the parts next to it are indented. */
  function NestedLevel(parent: Level, indentSize: nat): Level
    requires parent.groups != []
  {
    Level(parent.baseIndent + indentSize + (if LastGroup(parent).indentMode != NoIndent then indentSize else 0), [])
  }

  function WithNested(opts: Opts, parent: Level, lines: seq<Part>): (r: Level)
    requires HasPart(parent)
    ensures HasPart(r)
  {
    var l := WithParts(parent, LastGroup(parent).parts + lines);
    Unmergeable(AddPart(l, true, opts.indentSize), opts.indentSize)
  }

  /** Does the operation write to the current level only? */
  predicate IsSimple(op: Op) {
    !op.CommentsUpTo? && !op.Nested?
  }

  function WriteSimple(opts: Opts, op: Op, level: Level): (r: Level)
    requires Ready(level) && IsSimple(op)
    ensures HasPart(r)
  {
    match op
    case Text(s) => AddText(level, s, opts.indentSize)
    case Comma => AddComma(opts, level)
    case NextPart => AddPart(level, true, opts.indentSize)
    case Group(keyword, indentMode) => AddGroup(opts, level, keyword, indentMode)
    case TrimSpace => WithoutSpace(level, opts.indentSize)
    case NeverMerge => Unmergeable(level, opts.indentSize)
  }

  function WriteOp(opts: Opts, op: Op, w: Writing): (r: Writing)
    requires Ready(w.level)
    ensures Ready(r.level)
    decreases op, 0
  {
    match op
    case CommentsUpTo(location) => AddCommentsFrom(opts, w, location, 0)
    case Nested(body) =>
      var parent := Unmergeable(w.level, opts.indentSize);
      var inner := WriteOps(opts, body, Writing(NestedLevel(parent, opts.indentSize), w.emitted));
      Writing(WithNested(opts, parent, Lines(opts, inner.level)), inner.emitted)
    case _ => w.(level := WriteSimple(opts, op, w.level))
  }

  function WriteOps(opts: Opts, ops: seq<Op>, w: Writing): (r: Writing)
    requires Ready(w.level)
    ensures Ready(r.level)
    decreases ops, 1
  {
    if ops == [] then w else WriteOps(opts, ops[1..], WriteOp(opts, ops[0], w))
  }

  lemma NestedIs(opts: Opts, body: seq<Op>, w: Writing)
    requires Ready(w.level)
    ensures var parent := Unmergeable(w.level, opts.indentSize);
            var inner := WriteOps(opts, body, Writing(NestedLevel(parent, opts.indentSize), w.emitted));
            WriteOp(opts, Nested(body), w) == Writing(WithNested(opts, parent, Lines(opts, inner.level)), inner.emitted)
  {
  }

  // ---------- Statements ----------

  /** The lines of the comments up to a location, on a level of their own. */
  function CommentLines(opts: Opts, emitted: set<nat>, location: int): (seq<Part>, set<nat>) {
    if opts.comments == [] then ([], emitted)
    else
      var w := AddCommentsFrom(opts, Writing(Level(0, []), emitted), location, 0);
      (Lines(opts, WithoutEmptyPart(Started(w.level, opts.indentSize))), w.emitted)
  }

  lemma CommentLinesAre(opts: Opts, emitted: set<nat>, location: int)
    requires opts.comments != []
    ensures var w := AddCommentsFrom(opts, Writing(Level(0, []), emitted), location, 0);
            && HasPart(Started(w.level, opts.indentSize))
            && CommentLines(opts, emitted, location) == (Lines(opts, WithoutEmptyPart(Started(w.level, opts.indentSize))), w.emitted)
  {
  }

  lemma NoCommentLines(opts: Opts, emitted: set<nat>, location: int)
    requires opts.comments == []
    ensures CommentLines(opts, emitted, location) == ([], emitted)
  {
  }

  /** Options that are not set. */
  function WithDefaults(opts: Opts): Opts {
    opts.(indentSize := if opts.indentSize == 0 then 4 else opts.indentSize,
          maxLineLength := if opts.maxLineLength == 0 then 80 else opts.maxLineLength)
  }

  function BodyLines(opts: Opts, ops: seq<Op>, emitted: set<nat>): (seq<Part>, set<nat>) {
    var w := WriteOps(opts, ops, Writing(Level(0, []), emitted));
    (Lines(opts, w.level), w.emitted)
  }

  function StatementParts(opts: Opts, ops: seq<Op>, location: int): seq<Part> {
    var (lead, emitted) := CommentLines(opts, {}, location);
    var (body, all) := BodyLines(opts, ops, emitted);
    lead + body + CommentLines(opts, all, INT_MAX).0
  }
}
