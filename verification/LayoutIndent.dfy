/** How far parts are indented: those of an indenting group once more than its keyword, and the lines of a
    nested level deeper than the part that it is nested in. */
module LayoutIndent {
  import opened LayoutText
  import opened LayoutState
  import opened LayoutScript
  import opened LayoutLevel
  import opened LayoutEmit
  import opened LayoutEngine

  /** The indentation of the parts of a group that are not those of a nested level. */
  function OwnIndent(baseIndent: nat, indentMode: IndentMode, indentSize: nat): nat {
    match indentMode
    case NoIndent => baseIndent
    case Indent => baseIndent + indentSize
    case IndentAndMerge => baseIndent + indentSize
  }

  predicate GroupIndented(baseIndent: nat, indentSize: nat, g: PartGroup) {
    var own := OwnIndent(baseIndent, g.indentMode, indentSize);
    forall i | 0 <= i < |g.parts| :: g.parts[i].indent == own || own + indentSize <= g.parts[i].indent
  }

  /** Every part is indented as its group asks for, or deeper by a nesting level; the part being written is
      not one of a nested level, and it is merged only if its group asks for that. */
  predicate Indented(level: Level, indentSize: nat) {
    && (forall i | 0 <= i < |level.groups| :: GroupIndented(level.baseIndent, indentSize, level.groups[i]))
    && (HasPart(level) ==>
          && LastPart(level).indent == OwnIndent(level.baseIndent, LastGroup(level).indentMode, indentSize)
          && (LastPart(level).mergeable ==> LastGroup(level).indentMode == IndentAndMerge))
  }

  lemma StartedIndented(level: Level, indentSize: nat)
    requires Indented(level, indentSize) && Ready(level)
    ensures var l := Started(level, indentSize);
            Indented(l, indentSize) && HasPart(l) && l.baseIndent == level.baseIndent
  {
  }

  lemma ReplacedIndented(level: Level, part: Part, indentSize: nat)
    requires Indented(level, indentSize) && HasPart(level)
    requires part.indent == LastPart(level).indent && (part.mergeable ==> LastPart(level).mergeable)
    ensures var l := WithLastPart(level, part);
            Indented(l, indentSize) && HasPart(l) && l.baseIndent == level.baseIndent
  {
    var g := LastGroup(level);
    var l := WithLastPart(level, part);
    assert GroupIndented(level.baseIndent, indentSize, g);
    assert GroupIndented(level.baseIndent, indentSize, LastGroup(l));
  }

  /** Parts of a nested level, or none, and a new part. */
  lemma MoreIndented(level: Level, parts: seq<Part>, indentSize: nat)
    requires Indented(level, indentSize) && level.groups != [] && parts <= LastGroup(level).parts
    ensures var l := WithParts(level, parts + [MakePart(level, LastGroup(level).indentMode, indentSize)]);
            Indented(l, indentSize) && HasPart(l) && l.baseIndent == level.baseIndent
  {
    var g := LastGroup(level);
    var l := WithParts(level, parts + [MakePart(level, g.indentMode, indentSize)]);
    assert GroupIndented(level.baseIndent, indentSize, g);
    assert GroupIndented(level.baseIndent, indentSize, LastGroup(l));
  }

  lemma TextIndented(level: Level, s: string, indentSize: nat)
    requires Indented(level, indentSize) && Ready(level)
    ensures Indented(AddText(level, s, indentSize), indentSize) && AddText(level, s, indentSize).baseIndent == level.baseIndent
    ensures Indented(Unmergeable(level, indentSize), indentSize) && Unmergeable(level, indentSize).baseIndent == level.baseIndent
    ensures Indented(WithoutSpace(level, indentSize), indentSize) && WithoutSpace(level, indentSize).baseIndent == level.baseIndent
  {
    StartedIndented(level, indentSize);
    var l := Started(level, indentSize);
    var part := LastPart(l);
    hide Indented, WithLastPart, LastPart;
    ReplacedIndented(l, part.(str := part.str + s), indentSize);
    ReplacedIndented(l, part.(mergeable := false), indentSize);
    ReplacedIndented(l, part.(str := Trimmed(part.str)), indentSize);
  }

  lemma PartIndented(level: Level, deduplicate: bool, indentSize: nat)
    requires Indented(level, indentSize) && Ready(level)
    ensures Indented(AddPart(level, deduplicate, indentSize), indentSize)
    ensures AddPart(level, deduplicate, indentSize).baseIndent == level.baseIndent
  {
    StartedIndented(level, indentSize);
    var l := Started(level, indentSize);
    var g := LastGroup(l);
    var parts := if deduplicate && LastPart(l).str == "" then g.parts[..|g.parts|-1] else g.parts;
    MoreIndented(l, parts, indentSize);
    var l2 := if deduplicate then WithoutEmptyPart(l) else l;
    hide Indented;
    assert MakePart(l2, g.indentMode, indentSize) == MakePart(l, g.indentMode, indentSize);
    assert LastGroup(l2) == g.(parts := parts);
    assert WithParts(l2, LastGroup(l2).parts + [MakePart(l2, g.indentMode, indentSize)]).groups ==
           WithParts(l, parts + [MakePart(l, g.indentMode, indentSize)]).groups;
  }

  lemma NextGroupIndented(level: Level, opts: Opts, keyword: Option<string>, indentMode: IndentMode)
    requires Indented(level, opts.indentSize) && Ready(level)
    ensures Indented(AddGroup(opts, level, keyword, indentMode), opts.indentSize)
    ensures AddGroup(opts, level, keyword, indentMode).baseIndent == level.baseIndent
  {
    if level.groups != [] { TextIndented(level, "", opts.indentSize); }
    var l := if level.groups == [] then level else WithoutSpace(level, opts.indentSize);
    var g := PartGroup(keyword, indentMode, [MakePart(l, indentMode, opts.indentSize)]);
    hide WithoutSpace;
    assert GroupIndented(l.baseIndent, opts.indentSize, g);
    assert Indented(l, opts.indentSize) && l.baseIndent == level.baseIndent;
  }

  lemma {:induction false} NewlinesIndented(level: Level, opts: Opts, n: nat)
    requires Indented(level, opts.indentSize) && Ready(level)
    ensures Indented(AddNewlines(opts, level, n), opts.indentSize) && AddNewlines(opts, level, n).baseIndent == level.baseIndent
  {
    hide Indented, AddPart, AddText, Ready;
    if n > 0 {
      NewlinesIndented(level, opts, n - 1);
      var l := AddNewlines(opts, level, n - 1);
      PartIndented(l, false, opts.indentSize);
      TextIndented(l, "\n", opts.indentSize);
    }
  }

  lemma CommentIndented(level: Level, opts: Opts, c: Comment)
    requires Indented(level, opts.indentSize) && Ready(level)
    ensures Indented(AddOneComment(opts, level, c), opts.indentSize) && AddOneComment(opts, level, c).baseIndent == level.baseIndent
  {
    StartedIndented(level, opts.indentSize);
    hide Indented, AddPart, AddText, AddNewlines, NewlinesInFront, Unmergeable, Started;
    var l := CommentStarted(opts, level, c);
    var l2 := AddNewlines(opts, l, NewlinesInFront(opts, level, c));
    NewlinesIndented(l, opts, NewlinesInFront(opts, level, c));
    TextIndented(l2, c.str, opts.indentSize);
    var l3 := AddText(l2, c.str, opts.indentSize);
    TextIndented(l3, "", opts.indentSize);
    NewlinesIndented(CommentText(opts, level, c), opts, c.newlinesAfter);
  }

  lemma {:induction false} CommentsIndented(w: Writing, opts: Opts, location: int, i: nat)
    requires Indented(w.level, opts.indentSize) && Ready(w.level)
    ensures var l := AddCommentsFrom(opts, w, location, i).level;
            Indented(l, opts.indentSize) && l.baseIndent == w.level.baseIndent
    decreases |opts.comments| - i
  {
    hide Indented, AddOneComment, Ready;
    if i < |opts.comments| {
      if i in w.emitted || opts.comments[i].matchLocation > location {
        CommentsIndented(w, opts, location, i + 1);
      } else {
        CommentIndented(w.level, opts, opts.comments[i]);
        CommentsIndented(Writing(AddOneComment(opts, w.level, opts.comments[i]), w.emitted + {i}), opts, location, i + 1);
      }
    }
  }

  // ---------- Lines ----------

  /** All lines are indented at least so far. */
  predicate AtLeast(least: nat, lines: seq<Part>) {
    forall i | 0 <= i < |lines| :: least <= lines[i].indent
  }

  lemma AtLeastBoth(least: nat, a: seq<Part>, b: seq<Part>)
    requires AtLeast(least, a) && AtLeast(least, b)
    ensures AtLeast(least, a + b)
  {
  }

  /** A line stands where its first part stands. */
  lemma {:induction false} MergeIndents(line: Part, rest: seq<Part>, maxLineLength: nat, least: nat)
    requires least <= line.indent && AtLeast(least, rest)
    ensures var lines := Merge(line, rest, maxLineLength);
            lines[0].indent == line.indent && AtLeast(least, lines)
    decreases |rest|
  {
    hide Mergeable, Trimmed;
    if rest != [] {
      MergeIndents(JoinTwo(line, rest[0]), rest[1..], maxLineLength, least);
      MergeIndents(rest[0], rest[1..], maxLineLength, least);
    }
  }

  /** The keyword of a group stands at the indentation of the level, and nothing stands in front of it. */
  lemma GroupLinesIndented(opts: Opts, level: Level, g: PartGroup)
    requires GroupIndented(level.baseIndent, opts.indentSize, g)
    ensures var lines := GroupLines(opts, level, g);
            && AtLeast(level.baseIndent, lines)
            && (g.keyword.Some? ==> lines != [] && lines[0].indent == level.baseIndent && g.keyword.value <= lines[0].str)
  {
    hide Merge;
    if g.indentMode == IndentAndMerge && |g.parts| > 1 {
      MergeIndents(g.parts[0], g.parts[1..], opts.maxLineLength, level.baseIndent);
    }
  }

  lemma {:induction false} LinesIndented(opts: Opts, level: Level, groups: seq<PartGroup>)
    requires forall i | 0 <= i < |groups| :: GroupIndented(level.baseIndent, opts.indentSize, groups[i])
    ensures AtLeast(level.baseIndent, LinesOf(opts, level, groups))
  {
    hide GroupLines, GroupIndented;
    if groups != [] {
      var front, last := groups[..|groups|-1], groups[|groups|-1];
      LinesIndented(opts, level, front);
      GroupLinesIndented(opts, level, last);
      var a, b := LinesOf(opts, level, front), GroupLines(opts, level, last);
      AtLeastBoth(level.baseIndent, a, b);
    }
  }

  // ---------- Scripts ----------

  lemma NestedIndented(parent: Level, lines: seq<Part>, opts: Opts)
    requires Indented(parent, opts.indentSize) && HasPart(parent)
    requires AtLeast(LastPart(parent).indent + opts.indentSize, lines)
    ensures Indented(WithNested(opts, parent, lines), opts.indentSize) && WithNested(opts, parent, lines).baseIndent == parent.baseIndent
  {
    var g := LastGroup(parent);
    var all := g.parts + lines;
    var l := WithParts(parent, all);
    assert GroupIndented(parent.baseIndent, opts.indentSize, g);
    assert GroupIndented(parent.baseIndent, opts.indentSize, LastGroup(l));
    var parts := if LastPart(l).str == "" then all[..|all|-1] else all;
    var l2 := WithParts(parent, parts + [MakePart(parent, g.indentMode, opts.indentSize)]);
    assert GroupIndented(parent.baseIndent, opts.indentSize, LastGroup(l2));
    assert AddPart(l, true, opts.indentSize).groups == l2.groups by {
      assert WithoutEmptyPart(l).groups == WithParts(parent, parts).groups;
    }
    assert Indented(l2, opts.indentSize);
    TextIndented(l2, "", opts.indentSize);
  }

  /** A nested level is indented once more than the part that it is nested in. */
  lemma NestedBase(parent: Level, indentSize: nat)
    requires Indented(parent, indentSize) && HasPart(parent)
    ensures NestedLevel(parent, indentSize).baseIndent == LastPart(parent).indent + indentSize
  {
  }

  lemma SimpleIndented(op: Op, level: Level, opts: Opts)
    requires Indented(level, opts.indentSize) && Ready(level) && IsSimple(op)
    ensures var l := WriteSimple(opts, op, level); Indented(l, opts.indentSize) && l.baseIndent == level.baseIndent
  {
    hide Indented, AddPart, AddText, AddGroup, WithoutSpace, Unmergeable;
    match op
    case Text(s) => TextIndented(level, s, opts.indentSize);
    case Comma =>
      if opts.commasStartOfLine {
        PartIndented(level, true, opts.indentSize);
        TextIndented(AddPart(level, true, opts.indentSize), ", ", opts.indentSize);
      } else {
        TextIndented(level, ",", opts.indentSize);
        PartIndented(AddText(level, ",", opts.indentSize), true, opts.indentSize);
      }
    case NextPart => PartIndented(level, true, opts.indentSize);
    case Group(keyword, indentMode) => NextGroupIndented(level, opts, keyword, indentMode);
    case TrimSpace => TextIndented(level, "", opts.indentSize);
    case NeverMerge => TextIndented(level, "", opts.indentSize);
  }

  lemma {:induction false} OpIndented(op: Op, w: Writing, opts: Opts)
    requires Indented(w.level, opts.indentSize) && Ready(w.level)
    ensures var l := WriteOp(opts, op, w).level; Indented(l, opts.indentSize) && l.baseIndent == w.level.baseIndent
    decreases op, 0
  {
    hide Indented, WriteSimple, AddCommentsFrom, WithNested, Ready, WriteOps, Unmergeable, Lines;
    match op
    case CommentsUpTo(location) => CommentsIndented(w, opts, location, 0);
    case Nested(body) =>
      NestedLinesDeeper(body, w, opts);
      EmptyIndented(NestedLevel(Unmergeable(w.level, opts.indentSize), opts.indentSize), opts.indentSize);
      var parent := Unmergeable(w.level, opts.indentSize);
      var inner := WriteOps(opts, body, Writing(NestedLevel(parent, opts.indentSize), w.emitted));
      TextIndented(w.level, "", opts.indentSize);
      NestedIndented(parent, Lines(opts, inner.level), opts);
    case _ => SimpleIndented(op, w.level, opts);
  }

  /** Whatever a nested level holds, its lines are indented at least once more than the part that it is
      nested in. */
  lemma {:induction false} NestedLinesDeeper(body: seq<Op>, w: Writing, opts: Opts)
    requires Indented(w.level, opts.indentSize) && Ready(w.level)
    ensures var parent := Unmergeable(w.level, opts.indentSize);
            var inner := WriteOps(opts, body, Writing(NestedLevel(parent, opts.indentSize), w.emitted));
            && LastPart(parent).indent == LastPart(Started(w.level, opts.indentSize)).indent
            && inner.level.baseIndent == LastPart(parent).indent + opts.indentSize
            && AtLeast(LastPart(parent).indent + opts.indentSize, Lines(opts, inner.level))
    decreases body, 2
  {
    hide Indented, Ready, WriteOps, LinesOf;
    var parent := Unmergeable(w.level, opts.indentSize);
    TextIndented(w.level, "", opts.indentSize);
    NestedBase(parent, opts.indentSize);
    var start := Writing(NestedLevel(parent, opts.indentSize), w.emitted);
    EmptyIndented(start.level, opts.indentSize);
    OpsIndented(body, start, opts);
    var inner := WriteOps(opts, body, start);
    IndentedGroups(inner.level, opts.indentSize);
    LinesIndented(opts, inner.level, inner.level.groups);
  }

  lemma EmptyIndented(level: Level, indentSize: nat)
    requires level.groups == []
    ensures Indented(level, indentSize) && Ready(level)
  {
  }

  lemma IndentedGroups(level: Level, indentSize: nat)
    requires Indented(level, indentSize)
    ensures forall i | 0 <= i < |level.groups| :: GroupIndented(level.baseIndent, indentSize, level.groups[i])
  {
  }

  /** Every run keeps it. */
  lemma {:induction false} OpsIndented(ops: seq<Op>, w: Writing, opts: Opts)
    requires Indented(w.level, opts.indentSize) && Ready(w.level)
    ensures var l := WriteOps(opts, ops, w).level; Indented(l, opts.indentSize) && l.baseIndent == w.level.baseIndent
    decreases ops, 1
  {
    hide Indented, WriteOp, Ready;
    if ops != [] {
      OpIndented(ops[0], w, opts);
      OpsIndented(ops[1..], WriteOp(opts, ops[0], w), opts);
    }
  }

  // ---------- Merging ----------

  /** Two lines of a group stay apart only if one of them is not to be merged, or if the first part of the
      second one does not fit on the first. */
  lemma NextDidNotFit(parts: seq<Part>, lines: seq<Part>, starts: seq<nat>, maxLineLength: nat, i: nat)
    requires Filled(parts, lines, starts, maxLineLength) && i + 1 < |lines|
    ensures 0 < starts[i+1] < |parts|
    ensures var next := parts[starts[i+1]];
            !lines[i].mergeable || !next.mergeable || maxLineLength < lines[i].indent + |lines[i].str + " " + next.str|
  {
    hide Joined, Trimmed;
    assert LineOk(parts, starts[i], starts[i+1], lines[i], maxLineLength);
    assert LineOk(parts, starts[i+1], starts[i+2], lines[i+1], maxLineLength);
  }
}
