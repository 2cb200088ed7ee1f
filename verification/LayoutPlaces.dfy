/** Commas and texts keep their places through comments, nested levels, whole statements and the output. */
module LayoutPlaces {
  import opened LayoutText
  import opened LayoutState
  import opened LayoutScript
  import opened LayoutLines
  import opened LayoutLevel
  import opened LayoutEmit
  import opened LayoutEngine
  import opened LayoutGaps
  import opened LayoutCommas

  // ---------- Comments ----------

  lemma {:induction false} NewlinesPlaced(newlines: bool, before: string, w: Written, v: Writing, opts: Opts, n: nat)
    requires Linked(before, w, v) && Ready(v.level)
    ensures Stepped(newlines, before, v.level, if n > 0 then Break(w) else w, v.(level := AddNewlines(opts, v.level, n)))
  {
    hide Linked, Stepped, AddPart, AddText, Ready, Break, CharsOf, LastPart;
    if n == 0 {
      SteppedSame(newlines, before, w, v);
    } else {
      NewlinesPlaced(newlines, before, w, v, opts, n - 1);
      var w1 := if n > 1 then Break(w) else w;
      var v1 := v.(level := AddNewlines(opts, v.level, n - 1));
      var v2 := v.(level := AddNewlines(opts, v.level, n));
      SteppedParts(newlines, before, v.level, w1, v1);
      if n > 1 { BreakTwice(w); }
      if opts.prettyPrint {
        PartStep(newlines, before, w1, v1, false, opts.indentSize);
      } else {
        AddStep(newlines, before, w1, v1, "\n", opts.indentSize);
        NewlineChars(w1);
        HasPart2(v2.level, v1.level, opts.indentSize);
        StepMoved(newlines, before, v1.level, Add(w1, "\n"), v2, Break(w1));
      }
      SteppedTwice(newlines, before, v.level, w1, v1, Break(w1), v2);
    }
  }

  lemma HasPart2(level2: Level, level: Level, indentSize: nat)
    requires Ready(level) && level2 == AddText(level, "\n", indentSize)
    ensures HasPart(level2)
  {
  }

  lemma NewlineChars(w: Written)
    ensures CharsOf(Break(w)) == CharsOf(Add(w, "\n")) && Break(w).cur == "" && Break(w).order == Add(w, "\n").order
  {
    BreakChars(w);
    AddChars(w, "\n");
    assert "\n" == ['\n'];
    OneChar(false, 0, '\n');
  }

  lemma CommentPlaced(newlines: bool, before: string, w: Written, v: Writing, opts: Opts, i: nat)
    requires Linked(before, w, v) && Ready(v.level) && i < |opts.comments|
    ensures Stepped(newlines, before, v.level, AddComment(w, opts.comments[i], i),
                    Writing(AddOneComment(opts, v.level, opts.comments[i]), v.emitted + {i}))
  {
    hide Linked, Stepped, AddText, Unmergeable, Ready, Break, CharsOf, LastPart, AddNewlines, NewlinesInFront, Add, Started;
    var c := opts.comments[i];
    var n := NewlinesInFront(opts, v.level, c);
    NewlinesInFrontAre(opts, v.level, c);
    // In front of the comment
    var v1 := v.(level := CommentStarted(opts, v.level, c));
    CommentStartedPlaced(newlines, before, w, v, opts, c);
    SteppedParts(newlines, before, v.level, w, v1);
    var v2 := v.(level := AddNewlines(opts, v1.level, n));
    var w2 := if c.newlinesBefore > 0 then Break(w) else w;
    NewlinesPlaced(newlines, before, w, v1, opts, n);
    var w1 := if n > 0 then Break(w) else w;
    SteppedParts(newlines, before, v1.level, w1, v2);
    SteppedBreak(newlines, before, v1.level, w1, v2);
    SteppedTwice(newlines, before, v.level, w, v1, w2, v2);
    SteppedParts(newlines, before, v1.level, w2, v2);
    // The comment
    var w3 := Add(w2, c.str);
    var v3 := v.(level := AddText(v2.level, c.str, opts.indentSize));
    AddStep(newlines, before, w2, v2, c.str, opts.indentSize);
    SteppedTwice(newlines, before, v.level, w2, v2, w3, v3);
    SteppedParts(newlines, before, v.level, w3, v3);
    var v4 := v.(level := CommentText(opts, v.level, c));
    PartReady(v3.level);
    SameTextStep(newlines, before, w3, v3, opts.indentSize);
    SteppedTwice(newlines, before, v.level, w3, v3, w3, v4);
    SteppedParts(newlines, before, v.level, w3, v4);
    // Behind it
    var w5 := if c.newlinesAfter > 0 then Break(w3) else w3;
    var v5 := v.(level := AddOneComment(opts, v.level, c));
    PartReady(v4.level);
    NewlinesPlaced(newlines, before, w3, v4, opts, c.newlinesAfter);
    SteppedTwice(newlines, before, v.level, w3, v4, w5, v5);
    CommentEmitted(newlines, before, v.level, w, w5, v5, c, i) by { AddedComment(w, c, i); }
  }

  lemma NewlinesInFrontAre(opts: Opts, level: Level, c: Comment)
    requires Ready(level)
    ensures NewlinesInFront(opts, level, c) > 0 ==> c.newlinesBefore > 0
  {
  }

  lemma CommentStartedPlaced(newlines: bool, before: string, w: Written, v: Writing, opts: Opts, c: Comment)
    requires Linked(before, w, v) && Ready(v.level)
    ensures Stepped(newlines, before, v.level, w, v.(level := CommentStarted(opts, v.level, c)))
  {
    hide Linked, Stepped;
    StartedStep(newlines, before, w, v, opts.indentSize);
    SteppedSame(newlines, before, w, v);
  }

  /** Where a break has made no part. */
  lemma SteppedBreak(newlines: bool, before: string, level: Level, w: Written, v: Writing)
    requires Stepped(newlines, before, level, w, v)
    ensures Stepped(newlines, before, level, Break(w), v)
    ensures Break(Break(w)) == Break(w)
  {
    hide GoesOn;
    BreakLinked(before, w, v);
    BreakTwice(w);
  }

  /** What AddComment gives, but for the comment being noted. */
  predicate Adds(w: Written, w2: Written, c: Comment, i: nat) {
    && AddComment(w, c, i).done == w2.done && AddComment(w, c, i).cur == w2.cur
    && AddComment(w, c, i).order == w2.order + [i]
  }

  lemma AddedComment(w: Written, c: Comment, i: nat)
    ensures var with := Add(if c.newlinesBefore > 0 then Break(w) else w, c.str);
            Adds(w, if c.newlinesAfter > 0 then Break(with) else with, c, i)
  {
  }

  lemma CommentEmitted(newlines: bool, before: string, level: Level, w: Written, w2: Written, v: Writing, c: Comment, i: nat)
    requires Stepped(newlines, before, level, w2, v) && Adds(w, w2, c, i)
    ensures Stepped(newlines, before, level, AddComment(w, c, i), Writing(v.level, v.emitted + {i}))
  {
    hide GoesOn, AddComment, TextsOf, EndsIn;
  }

  lemma {:induction false} CommentsPlaced(newlines: bool, before: string, w: Written, v: Writing, opts: Opts, location: int, i: nat)
    requires Linked(before, w, v) && Ready(v.level)
    ensures Stepped(newlines, before, v.level, AddComments(opts.comments, w, location, i), AddCommentsFrom(opts, v, location, i))
    decreases |opts.comments| - i
  {
    hide Linked, Stepped, Ready, AddComment, AddOneComment, AddComments, AddCommentsFrom;
    AddCommentsStep(opts.comments, w, location, i);
    CommentsStep(opts, v, location, i);
    LinkedEmitted(before, w, v);
    if i >= |opts.comments| {
      SteppedSame(newlines, before, w, v);
    } else if i in w.order || opts.comments[i].matchLocation > location {
      CommentsPlaced(newlines, before, w, v, opts, location, i + 1);
    } else {
      var w2 := AddComment(w, opts.comments[i], i);
      var v2 := Writing(AddOneComment(opts, v.level, opts.comments[i]), v.emitted + {i});
      CommentPlaced(newlines, before, w, v, opts, i);
      SteppedParts(newlines, before, v.level, w2, v2);
      CommentsPlaced(newlines, before, w2, v2, opts, location, i + 1);
      SteppedTwice(newlines, before, v.level, w2, v2, AddComments(opts.comments, w2, location, i + 1),
                   AddCommentsFrom(opts, v2, location, i + 1));
    }
  }

  lemma LinkedEmitted(before: string, w: Written, v: Writing)
    requires Linked(before, w, v)
    ensures forall i :: i in v.emitted <==> i in w.order
  {
  }

  // ---------- Scripts ----------

  /** The link stays, what has been laid out stays, and the new spots are there. */
  ghost predicate Placed(newlines: bool, before: string, level: Level, w2: Written, v2: Writing, spots: set<Spot>) {
    Stepped(newlines, before, level, w2, v2) && SpotsHold(newlines, before, TextsOf(v2.level), spots)
  }

  lemma NoSpots(newlines: bool, before: string, level: Level, w2: Written, v2: Writing)
    requires Stepped(newlines, before, level, w2, v2)
    ensures Placed(newlines, before, level, w2, v2, {})
  {
  }

  lemma PlacedTwice(newlines: bool, before: string, level: Level, w2: Written, v2: Writing, a: set<Spot>, w3: Written, v3: Writing, b: set<Spot>)
    requires Placed(newlines, before, level, w2, v2, a) && Placed(newlines, before, v2.level, w3, v3, b)
    ensures Placed(newlines, before, level, w3, v3, a + b)
  {
    hide Stepped, SpotsHold, TextsOf;
    SteppedTwice(newlines, before, level, w2, v2, w3, v3);
    SteppedGoesOn(newlines, before, v2.level, w3, v3);
    SpotsStay(newlines, before, TextsOf(v2.level), TextsOf(v3.level), a);
    SpotsBoth(newlines, before, TextsOf(v3.level), a, b);
  }

  /** The lines of a nested level behind the parts of the level around it. */
  lemma NestedLines(newlines: bool, before: string, w: Written, parent: Writing, w2: Written, inner: Writing, opts: Opts, spots: set<Spot>)
    requires Linked(before, w, parent) && HasPart(parent.level)
    requires var c := before + Chars(TextsOf(parent.level));
             Linked(c, w2, inner) && SpotsHold(newlines, c, TextsOf(inner.level), spots)
    ensures var l := WithParts(parent.level, LastGroup(parent.level).parts + Lines(opts, inner.level));
            && HasPart(l) && Linked(before, Break(w2), Writing(l, inner.emitted))
            && GoesOn(newlines, before, TextsOf(parent.level), TextsOf(l))
            && SpotsHold(newlines, before, TextsOf(l), spots)
  {
    hide GoesOn, SpotsHold, Laid, Chars, Break, CharsOf, LinesOf, TextsOf, Strs, EndsIn, GroupsTexts;
    var lines := Lines(opts, inner.level);
    var l := WithParts(parent.level, LastGroup(parent.level).parts + lines);
    var c, x := before + Chars(TextsOf(parent.level)), TextsOf(parent.level);
    StillHasPart(parent.level, lines);
    MoreParts(parent.level, LastGroup(parent.level).parts, lines);
    SameParts(parent.level);
    hide HasPart, WithParts, LastGroup, LastPart;
    LinesLaid(newlines, c, opts, inner.level, inner.level.groups);
    hide Lines;
    assert GroupsTexts(inner.level.groups) == TextsOf(inner.level) by { TextsAre(inner.level); }
    assert LinesOf(opts, inner.level, inner.level.groups) == lines by { LinesAre(opts, inner.level); }
    SpotsLaid(newlines, c, TextsOf(inner.level), Strs(lines), spots);
    LaidChars(newlines, c, TextsOf(inner.level), Strs(lines));
    SpotsInside(newlines, before, x, Strs(lines), spots);
    GoesOnBehind(newlines, before, x, Strs(lines));
    CharsAppend(x, Strs(lines));
    BreakChars(w2);
    BreakIs(w2);
    assert before + (Chars(x) + Chars(Strs(lines))) == c + Chars(Strs(lines));
    EndsInNothing(LastPart(l).str);
  }

  lemma StillHasPart(level: Level, lines: seq<Part>)
    requires HasPart(level)
    ensures HasPart(WithParts(level, LastGroup(level).parts + lines)) && level.groups != []
    ensures WithParts(level, LastGroup(level).parts + lines).groups != []
  {
  }

  lemma EndsInNothing(s: string)
    ensures EndsIn(s, "")
  {
  }

  lemma TextsAre(level: Level)
    ensures GroupsTexts(level.groups) == TextsOf(level)
  {
  }

  lemma LinesAre(opts: Opts, level: Level)
    ensures Lines(opts, level) == LinesOf(opts, level, level.groups)
  {
  }

  lemma InnerLinked(before: string, w: Written, parent: Writing, baseIndent: nat)
    requires Linked(before, w, parent)
    ensures Linked(before + Chars(TextsOf(parent.level)), Break(w), Writing(Level(baseIndent, []), parent.emitted))
  {
    hide CharsOf;
    BreakChars(w);
    assert Chars([]) == "";
    assert TextsOf(Level(baseIndent, [])) == [];
  }

  lemma NestedPlaced(newlines: bool, before: string, w: Written, v: Writing, opts: Opts, w2: Written, inner: Writing, spots: set<Spot>)
    requires Linked(before, w, v) && Ready(v.level)
    requires var parent := Unmergeable(v.level, opts.indentSize);
             Linked(before + Chars(TextsOf(parent)), w2, inner) &&
             SpotsHold(newlines, before + Chars(TextsOf(parent)), TextsOf(inner.level), spots)
    ensures var parent := Unmergeable(v.level, opts.indentSize);
            Placed(newlines, before, v.level, Break(w2), Writing(WithNested(opts, parent, Lines(opts, inner.level)), inner.emitted), spots)
  {
    hide Linked, Stepped, SpotsHold, TextsOf, GoesOn, Unmergeable, AddPart, Chars, Lines, Break;
    var parent := v.(level := Unmergeable(v.level, opts.indentSize));
    SameTextStep(newlines, before, w, v, opts.indentSize);
    SteppedParts(newlines, before, v.level, w, parent);
    NestedLines(newlines, before, w, parent, w2, inner, opts, spots);
    var v1 := Writing(WithParts(parent.level, LastGroup(parent.level).parts + Lines(opts, inner.level)), inner.emitted);
    var v2 := v1.(level := AddPart(v1.level, true, opts.indentSize));
    var v3 := v1.(level := WithNested(opts, parent.level, Lines(opts, inner.level)));
    PartReady(v1.level);
    PartStep(newlines, before, Break(w2), v1, true, opts.indentSize);
    BreakTwice(w2);
    SteppedParts(newlines, before, v1.level, Break(w2), v2);
    PartReady(v2.level);
    SameTextStep(newlines, before, Break(w2), v2, opts.indentSize);
    SteppedTwice(newlines, before, v1.level, Break(w2), v2, Break(w2), v3);
    SteppedGoesOn(newlines, before, v1.level, Break(w2), v3);
    SteppedGoesOn(newlines, before, v.level, w, parent);
    GoesOnTwice(newlines, before, TextsOf(v.level), TextsOf(parent.level), TextsOf(v1.level));
    GoesOnTwice(newlines, before, TextsOf(v.level), TextsOf(v1.level), TextsOf(v3.level));
    SpotsStay(newlines, before, TextsOf(v1.level), TextsOf(v3.level), spots);
    IsStepped(newlines, before, v1.level, v.level, Break(w2), v3);
  }

  lemma PartReady(level: Level)
    requires HasPart(level)
    ensures Ready(level)
  {
  }

  lemma IsStepped(newlines: bool, before: string, level: Level, first: Level, w: Written, v: Writing)
    requires Stepped(newlines, before, level, w, v) && GoesOn(newlines, before, TextsOf(first), TextsOf(v.level))
    ensures Stepped(newlines, before, first, w, v)
  {
  }

  lemma SimplePlaced(newlines: bool, before: string, w: Written, v: Writing, opts: Opts, op: Op)
    requires Linked(before, w, v) && Ready(v.level) && IsSimple(op)
    ensures Placed(newlines, before, v.level, RunOp(opts.comments, op, w), v.(level := WriteSimple(opts, op, v.level)), OpSpots(opts, op, w))
  {
    hide Linked, Stepped, SpotsHold, TextsOf, AddText, AddComma, AddPart, AddGroup, WithoutSpace, Unmergeable, CommaSpots, TextSpots,
         Add, Break, StartGroup, Ready, LastPart;
    match op
    case Text(s) =>
      AddStep(newlines, before, w, v, s, opts.indentSize);
      TextPlaced(newlines, before, w, v, s, opts.indentSize);
    case Comma => CommaPlaced(newlines, before, w, v, opts);
    case NextPart =>
      PartStep(newlines, before, w, v, true, opts.indentSize);
      NoSpots(newlines, before, v.level, Break(w), v.(level := AddPart(v.level, true, opts.indentSize)));
    case Group(keyword, indentMode) =>
      GroupStep(newlines, before, w, v, opts, keyword, indentMode);
      NoSpots(newlines, before, v.level, StartGroup(w, keyword), v.(level := AddGroup(opts, v.level, keyword, indentMode)));
    case TrimSpace =>
      TrimStep(newlines, before, w, v, opts.indentSize);
      NoSpots(newlines, before, v.level, w.(cur := Trimmed(w.cur)), v.(level := WithoutSpace(v.level, opts.indentSize)));
    case NeverMerge =>
      SameTextStep(newlines, before, w, v, opts.indentSize);
      NoSpots(newlines, before, v.level, w, v.(level := Unmergeable(v.level, opts.indentSize)));
  }

  lemma {:induction false} OpPlaced(newlines: bool, before: string, w: Written, v: Writing, opts: Opts, op: Op)
    requires Linked(before, w, v) && Ready(v.level)
    ensures Placed(newlines, before, v.level, RunOp(opts.comments, op, w), WriteOp(opts, op, v), OpSpots(opts, op, w))
    decreases op, 0
  {
    hide Linked, Stepped, SpotsHold, TextsOf, WriteSimple, Unmergeable, CommaSpots, TextSpots, AddComments, AddCommentsFrom,
         Add, Break, StartGroup, Ready, OpsSpots, RunOps, WriteOps, NestedLevel, WithNested, Lines, Placed, Chars;
    match op
    case CommentsUpTo(location) =>
      CommentsPlaced(newlines, before, w, v, opts, location, 0);
      NoSpots(newlines, before, v.level, AddComments(opts.comments, w, location, 0), AddCommentsFrom(opts, v, location, 0));
    case Nested(body) =>
      var parent := v.(level := Unmergeable(v.level, opts.indentSize));
      SameTextStep(newlines, before, w, v, opts.indentSize);
      SteppedParts(newlines, before, v.level, w, parent);
      var c := before + Chars(TextsOf(parent.level));
      var start := Writing(NestedLevel(parent.level, opts.indentSize), v.emitted);
      InnerLinked(before, w, parent, start.level.baseIndent);
      NestedEmpty(parent.level, opts.indentSize);
      LinkedReady(c, Break(w), start);
      OpsPlaced(newlines, c, Break(w), start, opts, body);
      var inner := WriteOps(opts, body, start);
      var w2 := RunOps(opts.comments, body, Break(w));
      PlacedParts(newlines, c, start.level, w2, inner, OpsSpots(opts, body, Break(w)));
      NestedPlaced(newlines, before, w, v, opts, w2, inner, OpsSpots(opts, body, Break(w)));
    case _ => SimplePlaced(newlines, before, w, v, opts, op);
  }

  lemma NestedEmpty(parent: Level, indentSize: nat)
    requires HasPart(parent)
    ensures NestedLevel(parent, indentSize) == Level(NestedLevel(parent, indentSize).baseIndent, [])
  {
  }

  lemma PlacedParts(newlines: bool, before: string, level: Level, w: Written, v: Writing, spots: set<Spot>)
    requires Placed(newlines, before, level, w, v, spots)
    ensures Linked(before, w, v) && SpotsHold(newlines, before, TextsOf(v.level), spots)
    ensures Stepped(newlines, before, level, w, v) && Ready(v.level)
  {
  }

  lemma {:induction false} OpsPlaced(newlines: bool, before: string, w: Written, v: Writing, opts: Opts, ops: seq<Op>)
    requires Linked(before, w, v) && Ready(v.level)
    ensures Placed(newlines, before, v.level, RunOps(opts.comments, ops, w), WriteOps(opts, ops, v), OpsSpots(opts, ops, w))
    decreases ops, 1
  {
    hide Linked, Stepped, SpotsHold, TextsOf, Ready, OpSpots, RunOp, WriteOp, Placed, Chars, FollowSpots;
    if ops == [] {
      SteppedSame(newlines, before, w, v);
      NoSpots(newlines, before, v.level, w, v);
    } else {
      OpPlaced(newlines, before, w, v, opts, ops[0]);
      var w1, v1 := RunOp(opts.comments, ops[0], w), WriteOp(opts, ops[0], v);
      PlacedParts(newlines, before, v.level, w1, v1, OpSpots(opts, ops[0], w));
      OpsPlaced(newlines, before, w1, v1, opts, ops[1..]);
      var w3, v3 := RunOps(opts.comments, ops[1..], w1), WriteOps(opts, ops[1..], v1);
      PlacedTwice(newlines, before, v.level, w1, v1, OpSpots(opts, ops[0], w), w3, v3, OpsSpots(opts, ops[1..], w1));
      if opts.commasStartOfLine && TextFollows(ops) {
        var w2, v2 := RunOp(opts.comments, ops[1], w1), WriteOp(opts, ops[1], v1);
        OpPlaced(newlines, before, w1, v1, opts, ops[1]);
        PlacedParts(newlines, before, v1.level, w2, v2, OpSpots(opts, ops[1], w1));
        OpsPlaced(newlines, before, w2, v2, opts, ops[2..]);
        OpsTwo(opts, ops, w, v);
        TextBehindComma(newlines, before, w, v, opts, ops);
        PlacedFollow(newlines, before, v.level, v2, w3, v3, FollowSpots(opts, ops, w),
                     OpSpots(opts, ops[0], w) + OpsSpots(opts, ops[1..], w1), OpsSpots(opts, ops[2..], w2));
      } else {
        NothingFollows(opts, ops, w);
      }
      SpotsNext(opts, ops, w);
    }
  }

  lemma SpotsNext(opts: Opts, ops: seq<Op>, w: Written)
    requires ops != []
    ensures OpsSpots(opts, ops, w) ==
            FollowSpots(opts, ops, w) + (OpSpots(opts, ops[0], w) + OpsSpots(opts, ops[1..], RunOp(opts.comments, ops[0], w)))
  {
    hide FollowSpots, OpSpots, RunOp;
  }

  lemma NothingFollows(opts: Opts, ops: seq<Op>, w: Written)
    requires !(opts.commasStartOfLine && TextFollows(ops))
    ensures FollowSpots(opts, ops, w) == {} && forall s: set<Spot> :: {} + s == s
  {
  }

  lemma OpsTwo(opts: Opts, ops: seq<Op>, w: Written, v: Writing)
    requires |ops| > 1 && Ready(v.level)
    ensures var w1, v1 := RunOp(opts.comments, ops[0], w), WriteOp(opts, ops[0], v);
            var w2, v2 := RunOp(opts.comments, ops[1], w1), WriteOp(opts, ops[1], v1);
            && RunOps(opts.comments, ops[2..], w2) == RunOps(opts.comments, ops[1..], w1)
            && WriteOps(opts, ops[2..], v2) == WriteOps(opts, ops[1..], v1)
  {
    hide RunOp, WriteOp, Ready;
    assert ops[1..][1..] == ops[2..];
  }

  lemma PlacedFollow(newlines: bool, before: string, level: Level, v2: Writing, w3: Written, v3: Writing, a: set<Spot>, b: set<Spot>, c: set<Spot>)
    requires Placed(newlines, before, level, w3, v3, b) && Placed(newlines, before, v2.level, w3, v3, c)
    requires SpotsHold(newlines, before, TextsOf(v2.level), a)
    ensures Placed(newlines, before, level, w3, v3, a + b)
  {
    hide Stepped, SpotsHold, TextsOf;
    SteppedGoesOn(newlines, before, v2.level, w3, v3);
    SpotsStay(newlines, before, TextsOf(v2.level), TextsOf(v3.level), a);
    SpotsBoth(newlines, before, TextsOf(v3.level), a, b);
  }

  /** With commas at the start of lines, the text behind a comma is on the line of the comma. */
  lemma TextBehindComma(newlines: bool, before: string, w: Written, v: Writing, opts: Opts, ops: seq<Op>)
    requires Linked(before, w, v) && Ready(v.level) && opts.commasStartOfLine && TextFollows(ops)
    ensures var v2 := WriteOp(opts, ops[1], WriteOp(opts, ops[0], v));
            SpotsHold(newlines, before, TextsOf(v2.level), FollowSpots(opts, ops, w))
  {
    hide Linked, Stepped, SpotsHold, TextsOf, AddComma, CharsOf, Front, TextGaps, Chars, CommaSpots, Break, Ready;
    var s := ops[1].s;
    CommaPlaced(newlines, before, w, v, opts);
    var v1 := v.(level := AddComma(opts, v.level));
    SteppedParts(newlines, before, v.level, Break(Add(w, ",")), v1);
    CommaChars(w);
    LastTexts(v1.level, LastPart(v1.level).(str := LastPart(v1.level).str + s));
    LastChars(before, Break(Add(w, ",")), v1);
    LinkedBounds(before, w, v);
    CommaAlone();
    StartedAlready(v1.level, opts.indentSize);
    PartReady(v1.level);
    SameLine(newlines, before, Front(v1.level), s, |CharsOf(w)|);
  }

  lemma SameLine(newlines: bool, before: string, front: seq<string>, s: string, k: nat)
    requires s != "" && !IsBlank(s[0]) && k == |before + Chars(front)|
    ensures SpotsHold(newlines, before, front + [", " + s], {OnSameLine(k + 1)})
  {
    hide TextGaps, Chars, Gaps, NonBlank;
    var n := |before|;
    CharsAppend(front, [", " + s]);
    TextGapsAppend(newlines, n, front, [", " + s]);
    TextGapsBounds(newlines, n, front);
    OneText(newlines, k, ", " + s);
    GapsAppend(newlines, k, ", ", s);
    NonBlankAppend(", ", s);
    CommaAlone();
    assert ", " == [','] + [' '] && s == [s[0]] + s[1..];
    GapsAppend(newlines, k, [','], [' ']);
    OneChar(newlines, k, ',');
    OneChar(newlines, k + 1, ' ');
    GapsAppend(newlines, k + 1, [s[0]], s[1..]);
    NonBlankAppend([s[0]], s[1..]);
    OneChar(newlines, k + 1, s[0]);
    GapsBounds(newlines, k + 2, s[1..]);
  }
}
