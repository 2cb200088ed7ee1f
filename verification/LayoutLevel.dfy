/** One step of writing at the current nesting level: the level goes on holding what has been written. */
module LayoutLevel {
  import opened LayoutText
  import opened LayoutState
  import opened LayoutScript
  import opened LayoutLines

  /** What is around a level: the words in front of it, the newlines in them, and the output mode. */
  datatype Frame = Frame(text: string, lines: set<nat>, pretty: bool)

  /** What has been written is the frame and the level, and each line comment that needs a newline has it. */
  predicate LevelOk(f: Frame, level: Level, w: Written) {
    && KeywordsHaveParts(level.groups)
    && if level.groups == [] then w.cur == "" && w.done == f.text && w.ends <= f.lines
       else HasPart(level) && LinkedPart(ContentBefore(f.text, level), LastPart(level).str, w)
            && w.ends <= f.lines + OpenLines(f.text, level, f.pretty)
  }

  /** A level that is ready to be closed: its last part may be missing. */
  predicate Closable(f: Frame, level: Level, w: Written) {
    && KeywordsHaveParts(level.groups) && GroupsContent(f.text, level.groups) == Value(w).text
    && w.ends <= f.lines + GroupsLines(f.text, level.groups, f.pretty)
  }

  function MakePart(level: Level, mode: IndentMode, indentSize: nat): Part {
    Part("", level.baseIndent + (if mode == NoIndent then 0 else indentSize), mode == IndentAndMerge)
  }

  /** The level with its first part group, which is made when needed. */
  function Started(level: Level, indentSize: nat): Level {
    if level.groups != [] then level
    else level.(groups := [PartGroup(None, NoIndent, [MakePart(level, NoIndent, indentSize)])])
  }

  lemma LevelOkClosable(f: Frame, level: Level, w: Written)
    requires LevelOk(f, level, w)
    ensures Closable(f, level, w)
  {
    if level.groups != [] {
      LastPartContent(f.text, level);
      ClosedLines(f.text, level, f.pretty);
      LinkedValue(ContentBefore(f.text, level), LastPart(level).str, w);
    }
  }

  lemma StartedOk(f: Frame, level: Level, w: Written, indentSize: nat)
    requires LevelOk(f, level, w)
    ensures LevelOk(f, Started(level, indentSize), w) && HasPart(Started(level, indentSize))
  {
    if level.groups == [] {
      assert w.cur == "";
      hide LevelOk;
      LevelOkClosable(f, level, w);
      NextGroupOk(f, level, w, PartGroup(None, NoIndent, [MakePart(level, NoIndent, indentSize)]));
      NoKeyword(w);
      hide *;
      LevelOkPart(f, Started(level, indentSize), w);
    } else {
      hide LevelOk;
      LevelOkPart(f, level, w);
    }
  }

  lemma LevelOkPart(f: Frame, level: Level, w: Written)
    requires LevelOk(f, level, w)
    ensures level.groups != [] ==> HasPart(level)
  {
  }

  lemma NoKeyword(w: Written)
    requires w.cur == ""
    ensures StartGroup(w, None) == w
  {
  }

  /** The last part replaced by one that is linked to w2. */
  lemma ReplacedOk(f: Frame, level: Level, w: Written, part: Part, w2: Written)
    requires LevelOk(f, level, w) && HasPart(level) && LinkedPart(ContentBefore(f.text, level), part.str, w2)
    requires w2.ends == w.ends
    requires Breaks(Words(ContentBefore(f.text, level), true), LastPart(level).str) <= Breaks(Words(ContentBefore(f.text, level), true), part.str)
    ensures LevelOk(f, WithLastPart(level, part), w2)
    ensures HasPart(WithLastPart(level, part)) && LastPart(WithLastPart(level, part)) == part
  {
    WithLastPartContent(f.text, level, part);
    WithLastPartLines(f.text, level, part, f.pretty);
  }

  lemma NonMergeableOk(f: Frame, level: Level, w: Written)
    requires LevelOk(f, level, w) && HasPart(level)
    ensures var l' := WithLastPart(level, LastPart(level).(mergeable := false));
            LevelOk(f, l', w) && HasPart(l') && LastPart(l') == LastPart(level).(mergeable := false)
  {
    ReplacedOk(f, level, w, LastPart(level).(mergeable := false), w);
  }

  lemma AddOk(f: Frame, level: Level, w: Written, s: string)
    requires LevelOk(f, level, w) && HasPart(level)
    ensures var part := LastPart(level).(str := LastPart(level).str + s); var l' := WithLastPart(level, part);
            LevelOk(f, l', Add(w, s)) && HasPart(l') && LastPart(l') == part && EndsIn(part.str, s)
  {
    LinkedAdd(ContentBefore(f.text, level), LastPart(level).str, w, s);
    BreaksAppend(Words(ContentBefore(f.text, level), true), LastPart(level).str, s);
    hide LinkedPart, ContentBefore;
    ReplacedOk(f, level, w, LastPart(level).(str := LastPart(level).str + s), Add(w, s));
  }

  /** A newline also ends a line comment that the text ends in. */
  lemma NewlineOk(f: Frame, level: Level, w: Written, end: set<nat>)
    requires LevelOk(f, level, w) && HasPart(level) && end <= {|Value(w).text|}
    ensures var part := LastPart(level).(str := LastPart(level).str + "\n"); var l' := WithLastPart(level, part);
            LevelOk(f, l', Break(w).(ends := w.ends + end)) && HasPart(l') && LastPart(l') == part
  {
    var before, part := ContentBefore(f.text, level), LastPart(level);
    LinkedNewline(before, part.str, w);
    LinkedValue(before, part.str, w);
    BreaksChar(Words(before, true), part.str, '\n');
    assert "\n" == ['\n'];
    hide LinkedPart, ContentBefore, Breaks, Scan, Break, Value, KeywordsHaveParts;
    BreakOrder(w);
    ReplacedOk(f, level, w, part.(str := part.str + "\n"), Break(w));
    var l' := WithLastPart(level, part.(str := part.str + "\n"));
    assert ContentBefore(f.text, l') == before by { WithLastPartContent(f.text, level, part.(str := part.str + "\n")); }
    hide WithLastPart;
    assert |Value(w).text| in OpenLines(f.text, l', f.pretty);
    MoreEnds(f, l', Break(w), end);
  }

  lemma MoreEnds(f: Frame, level: Level, w: Written, end: set<nat>)
    requires LevelOk(f, level, w) && HasPart(level) && end <= f.lines + OpenLines(f.text, level, f.pretty)
    ensures LevelOk(f, level, w.(ends := w.ends + end))
  {
    hide ContentBefore, KeywordsHaveParts, OpenLines;
  }

  lemma TrimOk(f: Frame, level: Level, w: Written)
    requires LevelOk(f, level, w) && HasPart(level)
    ensures var l' := WithLastPart(level, LastPart(level).(str := Trimmed(LastPart(level).str)));
            LevelOk(f, l', w.(cur := Trimmed(w.cur))) && HasPart(l')
  {
    LinkedTrim(ContentBefore(f.text, level), LastPart(level).str, w);
    TrimmedBreaks(Words(ContentBefore(f.text, level), true), LastPart(level).str);
    hide LinkedPart, ContentBefore;
    ReplacedOk(f, level, w, LastPart(level).(str := Trimmed(LastPart(level).str)), w.(cur := Trimmed(w.cur)));
  }

  /** ", " in a part that was just started. */
  lemma CommaOk(f: Frame, level: Level, w: Written)
    requires LevelOk(f, level, Break(w)) && HasPart(level) && LastPart(level).str == ""
    ensures var l' := WithLastPart(level, LastPart(level).(str := "" + ", ")); LevelOk(f, l', Break(Add(w, ","))) && HasPart(l')
  {
    LinkedEmpty(ContentBefore(f.text, level), "", Break(w));
    LinkedComma(ContentBefore(f.text, level), w);
    hide LinkedPart, ContentBefore, Break;
    assert "" + ", " == ", ";
    ReplacedOk(f, level, Break(w), LastPart(level).(str := ", "), Break(Add(w, ",")));
  }

  /** The level without its last part if that is empty. */
  function WithoutEmptyPart(level: Level): Level
    requires HasPart(level)
  {
    var parts := LastGroup(level).parts;
    if LastPart(level).str == "" then WithParts(level, parts[..|parts|-1]) else level
  }

  lemma WithoutEmptyPartContent(f: Frame, level: Level, w: Written)
    requires Closable(f, level, w) && HasPart(level)
    ensures var l' := WithoutEmptyPart(level);
            && l'.groups != [] && GroupsContent(f.text, l'.groups) == Value(w).text
            && w.ends <= f.lines + GroupsLines(f.text, l'.groups, f.pretty)
            && KeywordsHaveParts(l'.groups[..|l'.groups|-1])
            && LastGroup(l').keyword == LastGroup(level).keyword
  {
    LastPartContent(f.text, level);
    if LastPart(level).str == "" {
      var parts := LastGroup(level).parts;
      WithPartsContent(f.text, level, parts[..|parts|-1]);
      WithPartsLines(f.text, level, parts[..|parts|-1], f.pretty);
      EmptyPartLines(KeywordContent(GroupsContent(f.text, level.groups[..|level.groups|-1]), LastGroup(level).keyword), parts, f.pretty);
    }
  }

  lemma NextPartOk(f: Frame, level: Level, w: Written, part: Part)
    requires level.groups != [] && GroupsContent(f.text, level.groups) == Value(w).text && part.str == ""
    requires KeywordsHaveParts(level.groups[..|level.groups|-1])
    requires w.ends <= f.lines + GroupsLines(f.text, level.groups, f.pretty)
    ensures var l' := WithParts(level, LastGroup(level).parts + [part]);
            LevelOk(f, l', Break(w)) && HasPart(l') && LastPart(l') == part
  {
    NextPartContent(f.text, level, part);
    NextPartLines(f.text, level, part, f.pretty);
    FreshPart(GroupsContent(f.text, level.groups), Break(w));
    KeywordsOk(level, LastGroup(level).parts + [part]);
    hide GroupsContent, ContentBefore, LinkedPart, KeywordsHaveParts;
  }

  lemma KeywordsOk(level: Level, parts: seq<Part>)
    requires level.groups != [] && KeywordsHaveParts(level.groups[..|level.groups|-1]) && parts != []
    ensures KeywordsHaveParts(WithParts(level, parts).groups)
  {
  }

  lemma NextGroupOk(f: Frame, level: Level, w: Written, group: PartGroup)
    requires Closable(f, level, w) && |group.parts| == 1 && group.parts[0].str == ""
    ensures var l' := level.(groups := level.groups + [group]);
            LevelOk(f, l', StartGroup(w, group.keyword))
  {
    NextGroupContent(f.text, level, group);
    NextGroupLines(f.text, level, group, f.pretty);
    FreshPart(KeywordContent(GroupsContent(f.text, level.groups), group.keyword), StartGroup(w, group.keyword));
    hide GroupsContent, ContentBefore, LinkedPart;
  }

  lemma EmptyLast(f: Frame, level: Level, w: Written)
    requires LevelOk(f, level, w) && HasPart(level) && LastPart(level).str == ""
    ensures Break(w) == w
  {
    LinkedEmpty(ContentBefore(f.text, level), "", w);
  }

  lemma ClosableParts(f: Frame, level: Level, w: Written)
    requires Closable(f, level, w) && level.groups != []
    ensures GroupsContent(f.text, level.groups) == Value(w).text && KeywordsHaveParts(level.groups[..|level.groups|-1])
    ensures w.ends <= f.lines + GroupsLines(f.text, level.groups, f.pretty)
  {
  }

  /** The order in which comments came is not part of the text. */
  lemma OrderOk(f: Frame, level: Level, w: Written, order: seq<nat>)
    requires LevelOk(f, level, w)
    ensures LevelOk(f, level, w.(order := order))
  {
  }

  /** Closing a level adds its lines to the last group of its parent. */
  lemma ParentOk(f: Frame, parent: Level, lines: seq<Part>, content: string, all: set<nat>)
    requires HasPart(parent) && KeywordsHaveParts(parent.groups)
    requires PartsContent(GroupsContent(f.text, parent.groups), lines) == content
    requires all <= f.lines + GroupsLines(f.text, parent.groups, f.pretty) + PartsLines(GroupsContent(f.text, parent.groups), lines, f.pretty)
    ensures var l' := WithParts(parent, LastGroup(parent).parts + lines);
            && HasPart(l') && KeywordsHaveParts(l'.groups) && GroupsContent(f.text, l'.groups) == content
            && all <= f.lines + GroupsLines(f.text, l'.groups, f.pretty)
  {
    var g := LastGroup(parent);
    var before := KeywordContent(GroupsContent(f.text, parent.groups[..|parent.groups|-1]), g.keyword);
    WithPartsContent(f.text, parent, g.parts + lines);
    PartsContentAppend(before, g.parts, lines);
    WithPartsLines(f.text, parent, g.parts + lines, f.pretty);
    PartsLinesAppend(before, g.parts, lines, f.pretty);
  }

  lemma EmptyLevelOk(f: Frame, level: Level, w: Written)
    requires level.groups == [] && w.cur == "" && w.done == f.text && w.ends <= f.lines
    ensures LevelOk(f, level, w)
  {
  }

  /** Keywords and modes of the groups, a first group that is still to be made included. */
  function Shape(level: Level): seq<(Option<string>, IndentMode)> {
    if level.groups == [] then [(None, NoIndent)]
    else seq(|level.groups|, i requires 0 <= i < |level.groups| => (level.groups[i].keyword, level.groups[i].indentMode))
  }

  lemma ShapeKept(level: Level, parts: seq<Part>)
    requires level.groups != []
    ensures Shape(WithParts(level, parts)) == Shape(level)
  {
  }

  lemma LastPartShape(level: Level, part: Part)
    requires HasPart(level)
    ensures Shape(WithLastPart(level, part)) == Shape(level)
  {
  }

  lemma EmptyPartClosable(f: Frame, level: Level, w: Written)
    requires LevelOk(f, level, w) && HasPart(level) && Shape(level) == [(None, NoIndent)]
    ensures Closable(f, WithoutEmptyPart(level), w)
  {
    assert Shape(level)[0] == (None, NoIndent);
    hide Shape;
    LevelOkClosable(f, level, w);
    WithoutEmptyPartContent(f, level, w);
    hide LevelOk, GroupsContent, GroupsLines;
  }

  /** The next part, in place of an empty one or behind it. */
  function WithNextPart(level: Level, deduplicate: bool, indentSize: nat): Level
    requires HasPart(level)
  {
    var l := if deduplicate then WithoutEmptyPart(level) else level;
    l.(groups := WithParts(l, LastGroup(l).parts + [MakePart(l, LastGroup(level).indentMode, indentSize)]).groups)
  }

  lemma AddPartOk(f: Frame, level: Level, w: Written, deduplicate: bool, indentSize: nat)
    requires HasPart(level) && Closable(f, level, w)
    ensures var l' := WithNextPart(level, deduplicate, indentSize);
            && LevelOk(f, l', Break(w)) && HasPart(l') && LastPart(l').str == "" && Shape(l') == Shape(level)
            && (!deduplicate ==> LastGroup(l').parts == LastGroup(level).parts + [LastPart(l')])
  {
    var l := if deduplicate then WithoutEmptyPart(level) else level;
    var part := MakePart(l, LastGroup(level).indentMode, indentSize);
    WithoutEmptyPartContent(f, level, w);
    WithoutEmptyPartShape(level);
    ClosableParts(f, level, w);
    hide LevelOk, Closable, WithoutEmptyPart, GroupsContent, GroupsLines, Shape, KeywordsHaveParts, Break;
    NextPartOk(f, l, w, part);
    ShapeKept(l, LastGroup(l).parts + [part]);
    WithPartsContent(f.text, l, LastGroup(l).parts + [part]);
  }

  lemma StartedShape(level: Level, indentSize: nat)
    ensures Shape(Started(level, indentSize)) == Shape(level) && Started(level, indentSize).groups != []
  {
  }

  // ---------- After a comment ----------

  lemma GlueGrows(t: string, a: string, b: string)
    requires b != "" && !IsBlank(b[0])
    ensures |Glue(t, a + b)| > |Glue(t, a)| >= |t|
  {
    ScanAppend(Words(t, true), a, b);
    BreaksBounds(Words(t, true), a);
    BreaksBounds(Step(Scan(Words(t, true), a), b[0]), b[1..]);
  }

  /** The text ends in b. */
  predicate EndsIn(s: string, b: string) {
    |s| >= |b| && s[|s|-|b|..] == b
  }

  lemma EndsInSomething(s: string, b: string)
    requires EndsIn(s, b) && b != ""
    ensures s != ""
  {
  }

  /** The last part grows by a comment: the words in front of the part and those of the part differ. */
  predicate LastPartGrows(f: Frame, level: Level, w: Written) {
    HasPart(level) && |Value(w).text| > |ContentBefore(f.text, level)|
  }

  lemma CommentGrows(f: Frame, level: Level, w: Written, b: string)
    requires LevelOk(f, level, w) && HasPart(level) && EndsIn(LastPart(level).str, b) && b != "" && !IsBlank(b[0])
    ensures LastPartGrows(f, level, w)
  {
    var before, str := ContentBefore(f.text, level), LastPart(level).str;
    LinkedValue(before, str, w);
    assert str == str[..|str|-|b|] + b;
    GlueGrows(before, str[..|str|-|b|], b);
  }

  /** In a pretty-printing run the end of a part that is never merged is the end of a line. */
  lemma CommentClosable(f: Frame, level: Level, w: Written, end: set<nat>)
    requires LevelOk(f, level, w) && f.pretty && HasPart(level) && !LastPart(level).mergeable && end <= {|Value(w).text|}
    requires end != {} ==> LastPartGrows(f, level, w)
    ensures Closable(f, level, w.(ends := w.ends + end))
  {
    LevelOkClosable(f, level, w);
    ClosedLines(f.text, level, f.pretty);
    LinkedValue(ContentBefore(f.text, level), LastPart(level).str, w);
  }

  /** The n last parts are empty, and the one before them ends in the comment. */
  predicate CommentLast(parts: seq<Part>, c: Comment, n: nat) {
    && |parts| > n && (forall i | |parts| - n <= i < |parts| :: parts[i].str == "")
    && EndsIn(parts[|parts|-1-n].str, c.str)
  }

  lemma CommentIsLast(level: Level, c: Comment)
    requires HasPart(level) && EndsIn(LastPart(level).str, c.str)
    ensures CommentLast(LastGroup(level).parts, c, 0)
  {
  }

  lemma CommentLastStep(parts: seq<Part>, part: Part, c: Comment, n: nat)
    requires CommentLast(parts, c, n) && part.str == ""
    ensures CommentLast(parts + [part], c, n + 1)
  {
  }

  lemma StartedAlready(level: Level, indentSize: nat)
    ensures HasPart(level) ==> Started(level, indentSize) == level
  {
  }

  lemma WithoutEmptyPartShape(level: Level)
    requires HasPart(level)
    ensures Shape(WithoutEmptyPart(level)) == Shape(level)
    ensures WithoutEmptyPart(level).groups != []
  {
    ShapeKept(level, LastGroup(level).parts[..|LastGroup(level).parts|-1]);
  }

  /** A level around which another one is opened. */
  lemma ParentFrame(f: Frame, level: Level, w: Written, inner: Frame, baseIndent: nat)
    requires LevelOk(f, level, w)
    requires inner.text == GroupsContent(f.text, level.groups) && inner.lines == f.lines + GroupsLines(f.text, level.groups, f.pretty)
    ensures LevelOk(inner, Level(baseIndent, []), Break(w))
  {
    LevelOkClosable(f, level, w);
    hide LevelOk;
    EmptyLevelOk(inner, Level(baseIndent, []), Break(w));
  }
}
