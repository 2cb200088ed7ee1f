/** The layout engine: a stack of nesting levels with part groups and parts, flattened level by level and
    emitted at the end. */
module LayoutRun {
  import opened LayoutText
  import opened LayoutState
  import opened LayoutScript
  import opened LayoutLines
  import opened LayoutLevel
  import opened LayoutEmit
  import opened LayoutEngine
  import opened LayoutCommas
  import opened LayoutOutput

  // ---------- Comments at the end ----------

  /** The comment emitted last is the last thing in the level. */
  predicate EndsInComment(opts: Opts, order: seq<nat>, level: Level) {
    && HasPart(level) && order != [] && order[|order|-1] < |opts.comments|
    && var c := opts.comments[order[|order|-1]];
    && (opts.prettyPrint ==> CommentLast(LastGroup(level).parts, c, c.newlinesAfter))
    && (!opts.prettyPrint && c.str != "" ==> LastPart(level).str != "")
  }

  lemma EndsInThis(opts: Opts, order: seq<nat>, level: Level, i: nat)
    requires HasPart(level) && order != [] && order[|order|-1] == i < |opts.comments|
    requires opts.prettyPrint ==> CommentLast(LastGroup(level).parts, opts.comments[i], opts.comments[i].newlinesAfter)
    requires !opts.prettyPrint && opts.comments[i].str != "" ==> LastPart(level).str != ""
    ensures EndsInComment(opts, order, level)
  {
  }

  /** The comment emitted last is the last thing in the results, and one empty part behind it is gone. */
  predicate ResultEndsInComment(opts: Opts, order: seq<nat>, parts: seq<Part>) {
    && order != [] && order[|order|-1] < |opts.comments|
    && var c := opts.comments[order[|order|-1]];
    && (c.str != "" ==> parts != [])
    && (opts.prettyPrint && c.str != "" ==> CommentLast(parts, c, if c.newlinesAfter > 0 then c.newlinesAfter - 1 else 0))
  }

  lemma EndsInPart(opts: Opts, order: seq<nat>, level: Level)
    requires EndsInComment(opts, order, level)
    ensures level.groups != []
  {
  }

  lemma CommentsInResult(opts: Opts, order: seq<nat>, level: Level, indentSize: nat, before: seq<Part>)
    requires EndsInComment(opts, order, level)
    ensures ResultEndsInComment(opts, order, before + WithoutEmptyLast(LastGroup(Started(level, indentSize)).parts))
  {
    var c := opts.comments[order[|order|-1]];
    if opts.prettyPrint && c.str != "" {
      CommentLastDropped(before, LastGroup(level).parts, c, c.newlinesAfter);
    }
  }

  lemma CommentLastDropped(before: seq<Part>, parts: seq<Part>, c: Comment, n: nat)
    requires CommentLast(parts, c, n) && c.str != ""
    ensures CommentLast(before + WithoutEmptyLast(parts), c, if n > 0 then n - 1 else 0)
  {
    if n > 0 {
      assert parts[|parts|-1].str == "";
    }
  }

  lemma PlainWithoutEmpty(level: Level)
    requires HasPart(level) && Shape(level) == [(None, NoIndent)]
    ensures var l' := WithoutEmptyPart(level); IsPlain(l') && l'.groups[0].parts == WithoutEmptyLast(LastGroup(level).parts)
  {
    assert Shape(level)[0] == (None, NoIndent);
  }

  lemma NextPartIs(level: Level, deduplicate: bool, indentSize: nat)
    requires HasPart(level)
    ensures var l := if deduplicate then WithoutEmptyPart(level) else level;
            l.groups != [] && WithNextPart(level, deduplicate, indentSize) ==
              WithParts(l, LastGroup(l).parts + [MakePart(l, LastGroup(level).indentMode, indentSize)])
  {
  }

  lemma ParentHasKeywords(f: Frame, level: Level, w: Written)
    requires LevelOk(f, level, w)
    ensures KeywordsHaveParts(level.groups)
  {
  }

  lemma EmptyStarted(level: Level, indentSize: nat)
    requires level.groups == []
    ensures Shape(level) == [(None, NoIndent)] && WithoutEmptyLast(LastGroup(Started(level, indentSize)).parts) == []
  {
  }

  predicate IsReady(level: Option<Level>) {
    level.Some? && Ready(level.value)
  }

  predicate IsWriting(level: Option<Level>, emitted: set<nat>, w: Writing) {
    level == Some(w.level) && emitted == w.emitted
  }

  lemma PartReady(level: Level)
    requires HasPart(level)
    ensures Ready(level)
  {
  }

  class DeparseState {
    const opts: Opts
    /** The words in the output before this statement. */
    ghost const start: string
    var resultParts: seq<Part>
    /** The levels that callers have put aside while a nested level is current. */
    var parents: seq<Level>
    var current: Option<Level>
    var emittedComments: set<nat>
    ghost var written: Written

    constructor (opts: Opts, ghost start: string)
      ensures Valid() && current.None? && this.opts == opts && this.start == start
      ensures resultParts == [] && written == Written(start, "", [], {})
    {
      this.opts, this.start := opts, start;
      resultParts, parents, current, emittedComments, written := [], [], None, {}, Written(start, "", [], {});
    }

    /** What is around some levels on top of the results. */
    ghost function Around(levels: seq<Level>): Frame
      reads this`resultParts
    {
      var done := PartsContent(start, resultParts);
      Frame(LevelsContent(done, levels),
            PartsLines(start, resultParts, opts.prettyPrint) + LevelsLines(done, levels, opts.prettyPrint), opts.prettyPrint)
    }

    /** What is around the current level. */
    ghost function Outside(): Frame
      reads this`resultParts, this`parents
    {
      Around(parents)
    }

    lemma AroundNext(levels: seq<Level>, level: Level)
      ensures Around(levels).pretty == opts.prettyPrint
      ensures Around(levels + [level]).text == GroupsContent(Around(levels).text, level.groups)
      ensures Around(levels + [level]).lines == Around(levels).lines + GroupsLines(Around(levels).text, level.groups, opts.prettyPrint)
    {
      LevelsContentNext(PartsContent(start, resultParts), levels, level);
      LevelsLinesNext(PartsContent(start, resultParts), levels, level, opts.prettyPrint);
    }

    ghost predicate ParentsOk()
      reads this
    {
      && (forall i | 0 <= i < |parents| :: HasPart(parents[i]) && KeywordsHaveParts(parents[i].groups))
      && (forall i :: i in emittedComments <==> i in written.order)
    }

    ghost predicate Valid()
      reads this
    {
      && ParentsOk()
      && match current
         case None => parents == [] && written.cur == "" && written.done == Outside().text && written.ends <= Outside().lines
         case Some(level) => LevelOk(Outside(), level, written)
    }

    lemma ValidReady()
      requires Valid() && current.Some?
      ensures Ready(current.value)
    {
    }

    method GetCurrentPartGroup()
      requires Valid() && current.Some?
      modifies this`current
      ensures Valid() && current == Some(Started(old(current).value, opts.indentSize)) && HasPart(current.value)
      ensures Shape(current.value) == Shape(old(current).value)
    {
      hide LevelOk, HasPart, KeywordsHaveParts, Shape;
      StartedOk(Outside(), current.value, written, opts.indentSize);
      StartedShape(current.value, opts.indentSize);
      if current.value.groups == [] {
        current := Some(Started(current.value, opts.indentSize));
      }
    }

    method MarkCurrentPartNonMergable()
      requires Valid() && current.Some?
      modifies this`current
      ensures Valid() && current.Some? && HasPart(current.value) && !LastPart(current.value).mergeable
      ensures IsReady(old(current)) && current == Some(Unmergeable(old(current).value, opts.indentSize))
      ensures Shape(current.value) == Shape(old(current).value)
      ensures HasPart(old(current).value) ==> LastPart(current.value).str == LastPart(old(current).value).str
    {
      hide LevelOk, HasPart, KeywordsHaveParts, LastPart, WithLastPart, Shape;
      GetCurrentPartGroup();
      StartedAlready(old(current).value, opts.indentSize);
      NonMergeableOk(Outside(), current.value, written);
      var part := LastPart(current.value).(mergeable := false);
      LastPartShape(current.value, part);
      current := Some(WithLastPart(current.value, part));
    }

    method AppendString(s: string)
      requires Valid() && current.Some?
      modifies this`current, this`written
      ensures Valid() && current.Some? && written == Add(old(written), s)
      ensures IsReady(old(current)) && current == Some(AddText(old(current).value, s, opts.indentSize))
      ensures Shape(current.value) == Shape(old(current).value)
      ensures HasPart(current.value) && EndsIn(LastPart(current.value).str, s)
    {
      hide LevelOk, HasPart, KeywordsHaveParts, LastPart, WithLastPart, Shape;
      GetCurrentPartGroup();
      AddOk(Outside(), current.value, written, s);
      var part := LastPart(current.value);
      LastPartShape(current.value, part.(str := part.str + s));
      current := Some(WithLastPart(current.value, part.(str := part.str + s)));
      written := Add(written, s);
    }

    /** A newline in the text, where a pretty-printing run starts a new part.  It ends a line comment that
        the text ends in. */
    method AppendNewline(ghost end: set<nat>)
      requires Valid() && current.Some? && end <= {|Value(written).text|}
      modifies this`current, this`written
      ensures Valid() && current.Some? && written == Break(old(written)).(ends := old(written).ends + end)
      ensures IsReady(old(current)) && current == Some(AddText(old(current).value, "\n", opts.indentSize))
      ensures Shape(current.value) == Shape(old(current).value)
      ensures HasPart(current.value) && LastPart(current.value).str != ""
    {
      hide LevelOk, HasPart, KeywordsHaveParts, LastPart, WithLastPart, Scan, Shape;
      GetCurrentPartGroup();
      NewlineOk(Outside(), current.value, written, end);
      var part := LastPart(current.value);
      LastPartShape(current.value, part.(str := part.str + "\n"));
      current := Some(WithLastPart(current.value, part.(str := part.str + "\n")));
      written := Break(written).(ends := written.ends + end);
    }

    method RemoveTrailingSpace()
      requires Valid() && current.Some?
      modifies this`current, this`written
      ensures Valid() && current.Some? && written == old(written).(cur := Trimmed(old(written).cur))
      ensures IsReady(old(current)) && current == Some(WithoutSpace(old(current).value, opts.indentSize))
      ensures HasPart(current.value)
    {
      hide LevelOk, HasPart, KeywordsHaveParts, LastPart, WithLastPart, Trimmed;
      GetCurrentPartGroup();
      TrimOk(Outside(), current.value, written);
      var part := LastPart(current.value);
      current := Some(WithLastPart(current.value, part.(str := Trimmed(part.str))));
      written := written.(cur := Trimmed(written.cur));
    }

    /** Everything fits except that the last part need not be the one written last. */
    ghost predicate Resumable()
      reads this
    {
      && ParentsOk() && current.Some?
      && HasPart(current.value) && Closable(Outside(), current.value, written)
    }

    lemma ValidResumable()
      requires Valid() && current.Some? && HasPart(current.value)
      ensures Resumable()
    {
      LevelOkClosable(Outside(), current.value, written);
    }

    method DropEmptyPart()
      requires current.Some? && HasPart(current.value)
      modifies this`current
      ensures current == Some(WithoutEmptyPart(old(current).value))
    {
      var level := current.value;
      if LastPart(level).str == "" {
        current := Some(WithParts(level, LastGroup(level).parts[..|LastGroup(level).parts|-1]));
      }
    }

    /** Leaves the level without a current part; used where the level is closed next. */
    method RemoveTrailingEmptyPart()
      requires Valid() && current.Some? && Shape(current.value) == [(None, NoIndent)]
      modifies this`current
      ensures ReadyToClose() && IsPlain(current.value)
      ensures HasPart(Started(old(current).value, opts.indentSize)) && current == Some(WithoutEmptyPart(Started(old(current).value, opts.indentSize)))
      ensures current.value.groups[0].parts == WithoutEmptyLast(LastGroup(Started(old(current).value, opts.indentSize)).parts)
    {
      hide LevelOk, KeywordsHaveParts, GroupsContent, Shape;
      GetCurrentPartGroup();
      EmptyPartClosable(Outside(), current.value, written);
      PlainWithoutEmpty(current.value);
      hide HasPart, Closable, WithoutEmptyPart;
      DropEmptyPart();
    }

    /** A line that begins here ends a line comment in front of it. */
    method AddPart(deduplicate: bool)
      requires Resumable()
      modifies this`current, this`written
      ensures Valid() && current.Some? && written == Break(old(written))
      ensures current == Some(WithNextPart(old(current).value, deduplicate, opts.indentSize))
      ensures HasPart(current.value) && LastPart(current.value).str == ""
      ensures Shape(current.value) == Shape(old(current).value)
      ensures !deduplicate ==> LastGroup(current.value).parts == LastGroup(old(current).value).parts + [LastPart(current.value)]
    {
      hide LevelOk, KeywordsHaveParts, Closable, WithoutEmptyPart, WithParts, Scan, Shape, Break, LastPart, WithNextPart;
      AddPartOk(Outside(), current.value, written, deduplicate, opts.indentSize);
      BreakOrder(written);
      NextPartIs(current.value, deduplicate, opts.indentSize);
      hide HasPart;
      var mode := LastGroup(current.value).indentMode;
      if deduplicate {
        DropEmptyPart();
      }
      var level := current.value;
      current := Some(WithParts(level, LastGroup(level).parts + [MakePart(level, mode, opts.indentSize)]));
      written := Break(written);
    }

    /** deparseAppendPart */
    method AppendPart(deduplicate: bool)
      requires Valid() && current.Some?
      modifies this`current, this`written
      ensures Valid() && current.Some? && written == Break(old(written))
      ensures IsReady(old(current)) && current == Some(LayoutEngine.AddPart(old(current).value, deduplicate, opts.indentSize))
      ensures HasPart(current.value) && LastPart(current.value).str == ""
      ensures Shape(current.value) == Shape(old(current).value)
      ensures !deduplicate && HasPart(old(current).value) ==>
                LastGroup(current.value).parts == LastGroup(old(current).value).parts + [LastPart(current.value)]
    {
      GetCurrentPartGroup();
      StartedAlready(old(current).value, opts.indentSize);
      hide *;
      ValidResumable();
      AddPart(deduplicate);
    }

    /** deparseAppendPart where a pretty-printing run has a newline behind a comment. */
    method AppendPartAfterComment(ghost end: set<nat>)
      requires Valid() && current.Some? && opts.prettyPrint && end <= {|Value(written).text|}
      requires HasPart(current.value) && !LastPart(current.value).mergeable
      requires end != {} ==> LastPartGrows(Outside(), current.value, written)
      modifies this`current, this`written
      ensures Valid() && current.Some? && written == Break(old(written)).(ends := old(written).ends + end)
      ensures IsReady(old(current)) && current == Some(LayoutEngine.AddPart(old(current).value, false, opts.indentSize))
      ensures HasPart(current.value) && LastPart(current.value).str == ""
      ensures Shape(current.value) == Shape(old(current).value)
      ensures LastGroup(current.value).parts == LastGroup(old(current).value).parts + [LastPart(current.value)]
    {
      hide LevelOk, KeywordsHaveParts, Scan, GroupsContent, Shape, Closable, LastPart, ContentBefore;
      CommentClosable(Outside(), current.value, written, end);
      written := written.(ends := written.ends + end);
      AddPart(false);
    }

    method AppendCommaAndPart()
      requires Valid() && current.Some?
      modifies this`current, this`written
      ensures Valid() && current.Some? && written == Break(Add(old(written), ","))
      ensures IsReady(old(current)) && current == Some(AddComma(opts, old(current).value))
      ensures HasPart(current.value)
    {
      hide LevelOk, KeywordsHaveParts, LastPart, Scan, WithLastPart, Shape, EndsIn;
      if opts.commasStartOfLine {
        AppendPart(true);
        CommaOk(Outside(), current.value, old(written));
        GetCurrentPartGroup();
        var part := LastPart(current.value);
          current := Some(WithLastPart(current.value, part.(str := part.str + ", ")));
        written := Break(Add(old(written), ","));
      } else {
        AppendString(",");
        AppendPart(true);
      }
    }

    /** deparseAppendPartGroup */
    method AppendPartGroup(keyword: Option<string>, indentMode: IndentMode)
      requires Valid() && current.Some?
      modifies this`current, this`written
      ensures Valid() && current.Some? && written == StartGroup(old(written), keyword)
      ensures IsReady(old(current)) && current == Some(AddGroup(opts, old(current).value, keyword, indentMode))
      ensures HasPart(current.value)
    {
      hide LevelOk, KeywordsHaveParts, LastPart, Scan, WithLastPart, Outside, Closable, Trimmed, WithoutSpace, StartGroup;
      ValidReady();
      StartGroupTrimmed(written, keyword);
      if current.value.groups != [] {
        RemoveTrailingSpace();
      }
      var level := current.value;
      var group := PartGroup(keyword, indentMode, [MakePart(level, indentMode, opts.indentSize)]);
      LevelOkClosable(Outside(), level, written);
      NextGroupOk(Outside(), level, written, group);
      GroupOrder(written, keyword);
      current := Some(level.(groups := level.groups + [group]));
      written := StartGroup(written, keyword);
    }

    lemma GroupOrder(w: Written, keyword: Option<string>)
      ensures StartGroup(w, keyword).order == w.order
    {
    }

    lemma StartGroupTrimmed(w: Written, keyword: Option<string>)
      ensures StartGroup(w.(cur := Trimmed(w.cur)), keyword) == StartGroup(w, keyword)
    {
      TrimmedWords(Words(w.done, true), w.cur);
    }

    // ---------- Comments ----------

    /** Newlines in front of a comment. */
    method NewlinesBefore(n: nat)
      requires Valid() && current.Some?
      modifies this`current, this`written
      ensures Valid() && current.Some? && written == if n > 0 then Break(old(written)) else old(written)
      ensures IsReady(old(current)) && current == Some(AddNewlines(opts, old(current).value, n))
      ensures Shape(current.value) == Shape(old(current).value)
    {
      hide LevelOk, KeywordsHaveParts, HasPart, LastPart, Scan, Shape, Ready, AddNewlines, LayoutEngine.AddPart, AddText, Valid, Break, Outside;
      ValidReady();
      NewlinesStep(opts, current.value, 0);
      for j := 0 to n
        invariant current == Some(AddNewlines(opts, old(current).value, j))
        invariant Valid() && current.Some? && Shape(current.value) == Shape(old(current).value)
        invariant written == if j > 0 then Break(old(written)) else old(written)
      {
        BreakTwice(old(written));
        NewlinesStep(opts, old(current).value, j);
        NoEnd(written);
        if opts.prettyPrint {
          AppendPart(false);
        } else {
          AppendNewline({});
        }
      }
    }

    /** One newline behind a comment; the first one ends it. */
    method NewlineAfter(j: nat, c: Comment, ghost end: set<nat>)
      requires Valid() && current.Some? && HasPart(current.value)
      requires j == 0 ==> end <= {|Value(written).text|} && !LastPart(current.value).mergeable
                          && (end != {} ==> LastPartGrows(Outside(), current.value, written))
      requires opts.prettyPrint ==> CommentLast(LastGroup(current.value).parts, c, j)
      modifies this`current, this`written
      ensures Valid() && current.Some? && written == Break(old(written)).(ends := old(written).ends + if j == 0 then end else {})
      ensures IsReady(old(current)) &&
              current == Some(if opts.prettyPrint then LayoutEngine.AddPart(old(current).value, false, opts.indentSize)
                              else AddText(old(current).value, "\n", opts.indentSize))
      ensures Shape(current.value) == Shape(old(current).value) && HasPart(current.value)
      ensures opts.prettyPrint ==> CommentLast(LastGroup(current.value).parts, c, j + 1)
      ensures !opts.prettyPrint ==> LastPart(current.value).str != ""
    {
      hide LevelOk, KeywordsHaveParts, Scan, Shape, CommentLast, LastPartGrows, LayoutEngine.AddPart, AddText, Valid, Break, Outside, LastPart;
      NoEnd(written);
      if opts.prettyPrint {
        ghost var before := current.value;
        if j == 0 {
          AppendPartAfterComment(end);
        } else {
          AppendPart(false);
        }
        CommentLastStep(LastGroup(before).parts, LastPart(current.value), c, j);
      } else {
        AppendNewline(if j == 0 then end else {});
      }
    }

    /** Newlines behind a comment. */
    method NewlinesAfter(n: nat, c: Comment, ghost end: set<nat>)
      requires Valid() && current.Some? && end <= {|Value(written).text|}
      requires HasPart(current.value) && !LastPart(current.value).mergeable
      requires opts.prettyPrint ==> CommentLast(LastGroup(current.value).parts, c, 0)
      requires end != {} ==> LastPartGrows(Outside(), current.value, written)
      modifies this`current, this`written
      ensures Valid() && current.Some? && written == if n > 0 then Break(old(written)).(ends := old(written).ends + end) else old(written)
      ensures IsReady(old(current)) && current == Some(AddNewlines(opts, old(current).value, n))
      ensures Shape(current.value) == Shape(old(current).value) && HasPart(current.value)
      ensures opts.prettyPrint ==> CommentLast(LastGroup(current.value).parts, c, n)
      ensures !opts.prettyPrint && n > 0 ==> LastPart(current.value).str != ""
      ensures n == 0 ==> current == old(current)
    {
      hide LevelOk, KeywordsHaveParts, Scan, Shape, CommentLast, LastPartGrows, LastPart, Ready, AddNewlines, LayoutEngine.AddPart, AddText,
           Valid, Break, Outside, LastGroup;
      PartReady(current.value);
      NewlinesStep(opts, current.value, 0);
      for j := 0 to n
        invariant current == Some(AddNewlines(opts, old(current).value, j))
        invariant Valid() && current.Some? && Shape(current.value) == Shape(old(current).value) && HasPart(current.value)
        invariant written == if j > 0 then Break(old(written)).(ends := old(written).ends + end) else old(written)
        invariant opts.prettyPrint ==> CommentLast(LastGroup(current.value).parts, c, j)
        invariant !opts.prettyPrint && j > 0 ==> LastPart(current.value).str != ""
        invariant j == 0 ==> current == old(current)
      {
        BreakEnds(old(written), end);
        NewlinesStep(opts, old(current).value, j);
        NewlineAfter(j, c, end);
      }
    }

    /** How many newlines to put in front of a comment: one less if a keyword has already started a new line. */
    method CountNewlines(comment: Comment) returns (n: nat)
      requires Valid() && current.Some?
      modifies this`current
      ensures Valid() && IsReady(old(current)) && current == Some(CommentStarted(opts, old(current).value, comment))
      ensures n == NewlinesInFront(opts, old(current).value, comment)
      ensures (if n > 0 then Break(written) else written) == (if comment.newlinesBefore > 0 then Break(written) else written)
      ensures Shape(current.value) == Shape(old(current).value)
    {
      hide LevelOk, KeywordsHaveParts, LastPart, Scan, Shape, Break, Ready, Outside, Started, LastGroup;
      ValidReady();
      n := comment.newlinesBefore;
      if opts.prettyPrint && n > 0 {
        GetCurrentPartGroup();
        if LastGroup(current.value).keyword.Some? && LastPart(current.value).str == "" {
          EmptyLast(Outside(), current.value, written);
          n := n - 1;
        }
      }
    }

    /** A comment and the newlines in front of it. */
    method AppendCommentText(comment: Comment)
      requires Valid() && current.Some?
      modifies this`current, this`written
      ensures Valid() && current.Some? && written == Add(if comment.newlinesBefore > 0 then Break(old(written)) else old(written), comment.str)
      ensures IsReady(old(current)) && current == Some(CommentText(opts, old(current).value, comment))
      ensures Shape(current.value) == Shape(old(current).value)
      ensures HasPart(current.value) && EndsIn(LastPart(current.value).str, comment.str) && !LastPart(current.value).mergeable
      ensures IsLineComment(comment) ==> LastPartGrows(Outside(), current.value, written)
    {
      hide LevelOk, KeywordsHaveParts, HasPart, LastPart, Scan, Shape, LastPartGrows, Break, EndsIn, Ready, AddNewlines, AddText, Unmergeable,
           CommentStarted, NewlinesInFront, ParentsOk;
      var newlinesBefore := CountNewlines(comment);
      NewlinesBefore(newlinesBefore);
      AppendString(comment.str);
      // Comments are never merged with other parts
      MarkCurrentPartNonMergable();
      if IsLineComment(comment) {
        CommentGrows(Outside(), current.value, written, comment.str);
      }
    }

    method AppendComment(i: nat)
      requires Valid() && current.Some? && i < |opts.comments|
      modifies this`current, this`written, this`emittedComments
      ensures Valid() && current.Some? && written == AddComment(old(written), opts.comments[i], i)
      ensures IsReady(old(current)) && current == Some(AddOneComment(opts, old(current).value, opts.comments[i]))
      ensures emittedComments == old(emittedComments) + {i}
      ensures Shape(current.value) == Shape(old(current).value) && HasPart(current.value)
      ensures opts.prettyPrint ==> CommentLast(LastGroup(current.value).parts, opts.comments[i], opts.comments[i].newlinesAfter)
      ensures !opts.prettyPrint && opts.comments[i].str != "" ==> LastPart(current.value).str != ""
    {
      hide LevelOk, KeywordsHaveParts, HasPart, LastPart, Scan, Shape, CommentLast, LastPartGrows, IsLineComment, Break, AddComment, CommentEnd, Add, EndsIn;
      var comment := opts.comments[i];
      ghost var w0 := written;
      AppendCommentText(comment);
      ghost var end := CommentEnd(written, comment);
      CommentWritten(w0, comment, i, written);
      if comment.str != "" { EndsInSomething(LastPart(current.value).str, comment.str); }
      CommentIsLast(current.value, comment);
      NewlinesAfter(comment.newlinesAfter, comment, end);
      RecordComment(i);
    }

    method RecordComment(i: nat)
      requires Valid() && current.Some?
      modifies this`written, this`emittedComments
      ensures Valid() && written == old(written).(order := old(written).order + [i]) && emittedComments == old(emittedComments) + {i}
    {
      hide LevelOk;
      emittedComments := emittedComments + {i};
      OrderOk(Outside(), current.value, written, written.order + [i]);
      written := written.(order := written.order + [i]);
    }

    /** deparseAppendCommentsIfNeeded */
    method AppendCommentsIfNeeded(location: int)
      requires Valid() && current.Some?
      modifies this`current, this`written, this`emittedComments
      ensures Valid() && current.Some? && written == AddComments(opts.comments, old(written), location, 0)
      ensures IsReady(old(current))
      ensures IsWriting(current, emittedComments, AddCommentsFrom(opts, Writing(old(current).value, old(emittedComments)), location, 0))
      ensures Shape(current.value) == Shape(old(current).value)
      ensures if written.order == old(written).order then written == old(written) && current == old(current)
              else EndsInComment(opts, written.order, current.value)
    {
      hide LevelOk, AddComment, Shape, CommentLast, HasPart, LastPart, Ready, AddOneComment, AddCommentsFrom, AddComments, Valid, EndsInComment;
      ValidReady();
      for i := 0 to |opts.comments|
        invariant IsReady(current) && AddCommentsFrom(opts, Writing(current.value, emittedComments), location, i) ==
                                      AddCommentsFrom(opts, Writing(old(current).value, old(emittedComments)), location, 0)
        invariant Valid() && current.Some? && Shape(current.value) == Shape(old(current).value)
        invariant AddComments(opts.comments, written, location, i) == AddComments(opts.comments, old(written), location, 0)
        invariant if written.order == old(written).order then written == old(written) && current == old(current)
                  else |written.order| > |old(written).order| && EndsInComment(opts, written.order, current.value)
      {
        CommentsStep(opts, Writing(current.value, emittedComments), location, i);
        AddCommentsStep(opts.comments, written, location, i);
        EmittedOrder();
        if i in emittedComments || opts.comments[i].matchLocation > location {
          continue;
        }
        OrderGrows(written, opts.comments[i], i);
        AppendComment(i);
        ValidReady();
        EndsInThis(opts, written.order, current.value, i);
      }
      CommentsStep(opts, Writing(current.value, emittedComments), location, |opts.comments|);
      AddCommentsStep(opts.comments, written, location, |opts.comments|);
    }

    lemma EmittedOrder()
      requires Valid()
      ensures forall i :: i in emittedComments <==> i in written.order
    {
    }

    // ---------- Nesting levels ----------

    method IncreaseNestingLevel()
      requires Valid()
      modifies this`current, this`parents, this`written
      ensures Valid() && current.Some? && written == Break(old(written))
      ensures current.value.groups == []
      ensures if old(current).None? then current == Some(Level(0, []))
              else IsReady(old(current)) && var parent := Unmergeable(old(current).value, opts.indentSize);
                   |parents| > 0 && parents[|parents|-1] == parent && current == Some(NestedLevel(parent, opts.indentSize))
      ensures if old(current).None? then parents == [] else |parents| > 0 && parents[..|parents|-1] == old(parents)
    {
      hide LevelOk, Scan, GroupsContent, GroupsLines, LastPart, Shape, Around, Break;
      BreakOrder(written);
      var baseIndent := 0;
      if current.Some? {
        GetCurrentPartGroup();
        var parent := current.value;
        baseIndent := parent.baseIndent + opts.indentSize;
        if LastGroup(parent).indentMode != NoIndent {
          // Indent again if parts next to us are also indented
          baseIndent := baseIndent + opts.indentSize;
        }
        // Parts with nested elements don't get merged
        MarkCurrentPartNonMergable();
        ghost var f := Outside();
        AroundNext(parents, current.value);
        ParentHasKeywords(f, current.value, written);
        ParentFrame(f, current.value, written, Around(parents + [current.value]), baseIndent);
        parents := parents + [current.value];
      } else {
        NothingToBreak(written);
        EmptyLevelOk(Outside(), Level(baseIndent, []), written);
      }
      current := Some(Level(baseIndent, []));
      written := Break(written);
    }

    /** What closing a level needs: less than Valid, as its last part may be missing. */
    ghost predicate ReadyToClose()
      reads this
    {
      && ParentsOk() && current.Some? && Closable(Outside(), current.value, written)
    }

    lemma ValidReadyToClose()
      requires Valid() && current.Some?
      ensures ReadyToClose()
      ensures current.value.groups == [] || HasPart(current.value)
    {
      LevelOkClosable(Outside(), current.value, written);
    }

    method DecreaseNestingLevel()
      requires ReadyToClose()
      modifies this`current, this`parents, this`written, this`resultParts
      ensures Valid() && written == Break(old(written))
      ensures old(parents) == [] ==> resultParts == old(resultParts) + Lines(opts, old(current).value)
      ensures old(parents) != [] ==>
                var parent := old(parents)[|old(parents)|-1];
                HasPart(parent) && current == Some(WithNested(opts, parent, Lines(opts, old(current).value)))
      ensures if old(parents) == [] then current.None? else current.Some? && parents == old(parents)[..|old(parents)|-1]
      ensures old(parents) != [] ==> resultParts == old(resultParts) && HasPart(current.value)
      ensures old(parents) == [] && IsPlain(old(current).value) ==> resultParts == old(resultParts) + old(current).value.groups[0].parts
      ensures old(parents) == [] && old(current).value.groups == [] ==> resultParts == old(resultParts)
      ensures old(parents) == [] && HasPart(old(current).value) ==> resultParts != []
    {
      hide LevelOk, Scan, GroupsContent, GroupsLines, PartsContent, PartsLines, Shape, Lines, Concat, Closed, MakePart;
      var level := current.value;
      if parents != [] {
        var parent := parents[|parents|-1];
        ghost var outer := parents[..|parents|-1];
        ghost var f := Around(outer);
        assert parents == outer + [parent];
        AroundNext(outer, parent);
        hide Around;
        var lines, closed := FlattenLevel(opts, level, GroupsContent(f.text, parent.groups));
        ParentOk(f, parent, lines, Value(written).text, written.ends);
        parent := WithParts(parent, LastGroup(parent).parts + lines);
        parents := parents[..|parents|-1];
        current := Some(parent);
        // What follows is on a line of its own, and not merged
        AddPart(true);
        MarkCurrentPartNonMergable();
      } else {
        var lines, closed := FlattenLevel(opts, level, Outside().text);
        PartsContentAppend(start, resultParts, lines);
        PartsLinesAppend(start, resultParts, lines, opts.prettyPrint);
        resultParts := resultParts + lines;
        current := None;
        written := Break(written);
      }
    }

    // ---------- Runs ----------

    method RunSimple(op: Op)
      requires Valid() && current.Some? && IsSimple(op)
      modifies this`current, this`written
      ensures Valid() && current.Some? && current.value.groups != []
      ensures written == LayoutScript.RunOp(opts.comments, op, old(written))
      ensures IsReady(old(current)) && current == Some(WriteSimple(opts, op, old(current).value))
    {
      hide LevelOk, LastPart, Shape, Break, Add, StartGroup, EndsIn, AddText, LayoutEngine.AddPart, AddComma, AddGroup, WithoutSpace, Unmergeable, Ready, Valid;
      match op
      case Text(s) => AppendString(s);
      case Comma => AppendCommaAndPart();
      case NextPart => AppendPart(true);
      case Group(keyword, indentMode) => AppendPartGroup(keyword, indentMode);
      case TrimSpace => RemoveTrailingSpace();
      case NeverMerge => MarkCurrentPartNonMergable();
    }

    method RunOp(op: Op)
      requires Valid() && current.Some?
      modifies this
      ensures Valid() && current.Some? && parents == old(parents) && resultParts == old(resultParts)
      ensures written == LayoutScript.RunOp(opts.comments, op, old(written))
      ensures IsReady(old(current))
      ensures IsWriting(current, emittedComments, WriteOp(opts, op, Writing(old(current).value, old(emittedComments))))
      ensures current.value.groups == [] <==> old(current).value.groups == [] && !Touches(opts.comments, op, old(written))
      decreases op, 0
    {
      hide Shape, AddComments, EndsInComment, WriteSimple, AddCommentsFrom, Valid, Ready, WriteOps, RunOps, Break;
      match op
      case CommentsUpTo(location) =>
        CommentsReady(location);
        AppendCommentsIfNeeded(location);
        if old(written).order != written.order { EndsInPart(opts, written.order, current.value); }
      case Nested(body) => RunNested(body);
      case _ => RunSimple(op);
    }

    lemma CommentsReady(location: int)
      requires Valid() && current.Some?
      ensures Ready(current.value)
    {
      ValidReady();
    }

    method RunNested(body: seq<Op>)
      requires Valid() && current.Some?
      modifies this
      ensures Valid() && current.Some? && parents == old(parents) && resultParts == old(resultParts)
      ensures written == Break(RunOps(opts.comments, body, Break(old(written)))) && current.value.groups != []
      ensures IsReady(old(current))
      ensures IsWriting(current, emittedComments, WriteOp(opts, Nested(body), Writing(old(current).value, old(emittedComments))))
      decreases body, 2
    {
      hide LevelOk, LastPart, Shape, Break, ParentsOk, Outside, Unmergeable, Ready, WithNested, NestedLevel, Lines, WriteOps, RunOps, Touch, WriteOp, Valid, ReadyToClose;
      ValidReady();
      ghost var w := Writing(current.value, emittedComments);
      IncreaseNestingLevel();
      Run(body);
      ValidReadyToClose();
      DecreaseNestingLevel();
      NestedIs(opts, body, w);
    }

    method Run(ops: seq<Op>)
      requires Valid() && current.Some?
      modifies this
      ensures Valid() && current.Some? && parents == old(parents) && resultParts == old(resultParts)
      ensures written == RunOps(opts.comments, ops, old(written))
      ensures IsReady(old(current))
      ensures IsWriting(current, emittedComments, WriteOps(opts, ops, Writing(old(current).value, old(emittedComments))))
      ensures current.value.groups == [] <==> old(current).value.groups == [] && !Touch(opts.comments, ops, old(written))
      decreases ops, 1
    {
      hide LevelOk, HasPart, LayoutScript.RunOp, ParentsOk, Outside, Touches, WriteOp, Ready;
      ValidReady();
      if ops != [] {
        RunOp(ops[0]);
        Run(ops[1..]);
      }
    }

    /** A level at the top that holds comments only. */
    method RunComments(location: int)
      requires Valid() && current.None? && opts.comments != []
      modifies this
      ensures (resultParts, emittedComments) ==
              var (lines, emitted) := CommentLines(opts, old(emittedComments), location); (old(resultParts) + lines, emitted)
      ensures Valid() && current.None? && written == Break(AddComments(opts.comments, old(written), location, 0))
      ensures if written.order == old(written).order then resultParts == old(resultParts)
              else ResultEndsInComment(opts, written.order, resultParts)
      ensures old(resultParts) != [] ==> resultParts != []
    {
      hide LevelOk, HasPart, ParentsOk, Outside, AddComments, Closable, Break, CommentLast, Shape, EndsInComment, ResultEndsInComment,
           AddCommentsFrom, Lines, CommentLines, WithoutEmptyPart;
      CommentLinesAre(opts, emittedComments, location);
      NothingToBreak(written);
      BreakOrder(written);
      IncreaseNestingLevel();
      EmptyStarted(current.value, opts.indentSize);
      ghost var empty := current.value;
      AppendCommentsIfNeeded(location);
      BreakOrder(written);
      ghost var level := current.value;
      RemoveTrailingEmptyPart();
      DecreaseNestingLevel();
      if written.order == old(written).order {
        assert level == empty && resultParts == old(resultParts) + [];
      } else {
        CommentsInResult(opts, written.order, level, opts.indentSize, old(resultParts));
      }
    }

    lemma NothingWritten()
      requires Valid() && current.None?
      ensures written.cur == ""
    {
    }

    /** The statement itself, on a level at the top. */
    method RunBody(ops: seq<Op>)
      requires Valid() && current.None?
      modifies this
      ensures Valid() && current.None? && written == Break(RunOps(opts.comments, ops, old(written)))
      ensures (resultParts, emittedComments) ==
              var (lines, emitted) := BodyLines(opts, ops, old(emittedComments)); (old(resultParts) + lines, emitted)
      ensures resultParts != [] <==> old(resultParts) != [] || Touch(opts.comments, ops, old(written))
    {
      hide LevelOk, ParentsOk, Outside, RunOps, Scan, Touch, Lines, WriteOps, Break;
      NothingWritten();
      NothingToBreak(written);
      IncreaseNestingLevel();
      Run(ops);
      ValidReadyToClose();
      DecreaseNestingLevel();
    }

    /** Comments on a level of their own, if there are any. */
    method RunAround(location: int)
      requires Valid() && current.None?
      modifies this
      ensures (resultParts, emittedComments) ==
              var (lines, emitted) := CommentLines(opts, old(emittedComments), location); (old(resultParts) + lines, emitted)
      ensures Valid() && current.None?
      ensures written == if opts.comments != [] then Break(AddComments(opts.comments, old(written), location, 0)) else old(written)
      ensures if written.order == old(written).order then resultParts == old(resultParts)
              else ResultEndsInComment(opts, written.order, resultParts)
      ensures old(resultParts) != [] ==> resultParts != []
    {
      hide LevelOk, HasPart, ParentsOk, Outside, AddComments, Break, CommentLines, ResultEndsInComment;
      if opts.comments != [] {
        RunComments(location);
      } else {
        NoCommentLines(opts, emittedComments, location);
        assert resultParts + [] == resultParts;
      }
    }

    method RunStatement(ops: seq<Op>, location: int)
      requires Valid() && current.None? && written == Written(start, "", [], {}) && resultParts == []
      modifies this
      ensures Valid() && current.None? && written == LayoutScript.RunStatement(opts.comments, ops, location, start)
      ensures resultParts == StatementParts(opts, ops, location)
      ensures Sweeps(opts.comments, ops, location, start) ==> ResultEndsInComment(opts, written.order, resultParts)
      ensures (forall c | c in opts.comments :: c.str != "") ==> (resultParts != [] <==> Prints(opts.comments, ops, location, start))
    {
      hide LevelOk, HasPart, ParentsOk, Outside, AddComments, Closable, LayoutScript.RunOps, Scan, Touch, CommentLines, BodyLines, Valid;
      EmittedOrder();
      assert emittedComments == {};
      BreakOrder(written);
      RunAround(location);
      BreakOrder(written);
      RunBody(ops);
      BreakOrder(written);
      RunAround(INT_MAX);
    }

    lemma AllInResult()
      requires Valid() && current.None?
      ensures PartsContent(start, resultParts) == written.done
      ensures written.ends <= PartsLines(start, resultParts, opts.prettyPrint)
    {
    }
  }

  /** deparseRawStmtOpts, for a statement whose printer does `ops`.  It fails only if there is nothing to
      print.  Whatever the options other than the comments, it appends the same words.  Each line comment
      has the newline that it needs, except that a pretty-printing run may end in one without it.  Commas and
      texts are in their places, and a pretty-printing run writes line by line. */
  method DeparseRawStmtOpts(opts: Opts, ops: seq<Op>, location: int, str: string, outside: char) returns (ok: bool, out: string)
    requires Loose(OutputWords(str))
    ensures ok ==> out == Emit(WithDefaults(opts), StatementParts(WithDefaults(opts), ops, location), str, outside)
    ensures ok ==> InPlace(WithDefaults(opts), ops, location, str, out)
    ensures ok && opts.prettyPrint ==>
              var parts := WithoutEmptyLast(StatementParts(WithDefaults(opts), ops, location));
              out == InFront(str, parts) + InLines(LinesFor(parts)) + if opts.trailingNewline then "\n" else ""
    ensures var w := RunStatement(opts.comments, ops, location, WordsOf(str));
            if ok then WordsOf(out) == w.done else w.done == WordsOf(str)
    ensures (forall c | c in opts.comments :: c.str != "") ==> (ok <==> Prints(opts.comments, ops, location, WordsOf(str)))
    ensures ok ==> |WordsOf(str)| <= |WordsOf(out)| && OutputBreaks(str) <= OutputBreaks(out)
    ensures ok ==> forall p | p in OutputBreaks(out) && p !in OutputBreaks(str) :: |WordsOf(str)| <= p
    ensures ok ==> CommentsEnded(opts, ops, location, WordsOf(str), OutputBreaks(out))
  {
    hide LevelOk, HasPart, Scan, RunStatement, Loose, DeparseState.ParentsOk, DeparseState.Outside, DeparseState.Valid, CommentLast, Prints, Sweeps, OutLines, PartsLines, StatementParts, Emit,
         InPlace, LinesFor, InFront, InLines;
    var used := WithDefaults(opts);
    ghost var t := WordsOf(str);
    var state := new DeparseState(used, t);
    state.RunStatement(ops, location);
    state.AllInResult();
    ghost var parts := state.resultParts;
    ok, out := EmitParts(used, state.resultParts, str, outside);
    if ok {
      OutputInPlace(used, ops, location, str, outside);
      if used.prettyPrint { OutputInLines(used, parts, str, outside); }
      ResultBreaks(str, parts, used.prettyPrint);
      if used.prettyPrint && !used.trailingNewline && Sweeps(opts.comments, ops, location, t) {
        ghost var order := state.written.order;
        ghost var c := opts.comments[order[|order|-1]];
        if IsLineComment(c) && '\n' !in c.str {
          LastLineBreaks(t, str, parts, c, if c.newlinesAfter > 0 then c.newlinesAfter - 1 else 0);
        }
      }
    } else {
      assert parts == [];
    }
  }

  /** What the output has of the newlines of its parts. */
  lemma ResultBreaks(str: string, parts: seq<Part>, pretty: bool)
    requires parts != []
    ensures var t, rest := WordsOf(str), WithoutEmptyLast(parts);
            && PartsLines(t, parts, pretty) <= OutLines(t, rest, pretty) + (if pretty then {|PartsContent(t, parts)|} else {})
            && (forall p | p in OutLines(t, rest, pretty) :: |t| <= p) && |t| <= |PartsContent(t, parts)|
  {
    var t, rest := WordsOf(str), WithoutEmptyLast(parts);
    if parts[|parts|-1].str == "" { EmptyPartLines(t, parts, pretty); }
    OutLinesKeep(t, rest, pretty);
    OutLinesBounds(t, rest, pretty);
    ContentGrows(t, parts);
  }

  /** A result that ends in a line comment and n empty parts has a newline behind the comment if and only
      if n is 2 or more: one empty part is dropped, and there is no newline after the last part. */
  lemma LastLineBreaks(t: string, str: string, parts: seq<Part>, c: Comment, n: nat)
    requires t == WordsOf(str) && CommentLast(parts, c, n) && IsLineComment(c) && '\n' !in c.str
    ensures var p := |PartsContent(t, parts)|;
            p in OutputBreaks(str) + OutLines(t, WithoutEmptyLast(parts), true) <==> n > 1
  {
    var rest := WithoutEmptyLast(parts);
    var p := |PartsContent(t, parts)|;
    BreaksBounds(Words("", true), str);
    if n > 0 { EmptyPartLines(t, parts, true); }
    assert PartsContent(t, rest) == PartsContent(t, parts);
    if n > 1 {
      assert rest[|rest|-1].str == "" && |rest| > 1;
      EmptyPartLines(t, rest, true);
    } else {
      CommentBreaks(t, rest, c);
    }
  }

  lemma CommentBreaks(t: string, parts: seq<Part>, c: Comment)
    requires CommentLast(parts, c, 0) && IsLineComment(c) && '\n' !in c.str
    ensures |PartsContent(t, parts)| > |t| && |PartsContent(t, parts)| !in OutLines(t, parts, true)
  {
    var front, str := parts[..|parts|-1], parts[|parts|-1].str;
    var before := PartsContent(t, front);
    var a := str[..|str|-|c.str|];
    assert str == a + c.str;
    ContentGrows(t, front);
    OutLinesBounds(t, front, true);
    GlueGrows(before, a, c.str);
    BreaksAppend(Words(before, true), a, c.str);
    BreaksBounds(Words(before, true), a);
    NoBreaks(Scan(Words(before, true), a), c.str);
  }
}
