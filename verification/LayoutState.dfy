/** Nesting levels, part groups and parts, what they contain, and how parts are merged into lines. */
module LayoutState {
  import opened LayoutText

  datatype Option<+T> = None | Some(value: T)

  datatype IndentMode = NoIndent | Indent | IndentAndMerge

  datatype Part = Part(str: string, indent: nat, mergeable: bool)

  datatype PartGroup = PartGroup(keyword: Option<string>, indentMode: IndentMode, parts: seq<Part>)

  datatype Level = Level(baseIndent: nat, groups: seq<PartGroup>)

  datatype Comment = Comment(matchLocation: int, newlinesBefore: nat, newlinesAfter: nat, str: string)

  datatype Opts = Opts(comments: seq<Comment>, prettyPrint: bool, indentSize: nat, maxLineLength: nat,
                       commasStartOfLine: bool, trailingNewline: bool)

  // ---------- Content: the words of parts, each on a line of its own ----------

  function PartsContent(t: string, parts: seq<Part>): string {
    if parts == [] then t
    else Glue(PartsContent(t, parts[..|parts|-1]), parts[|parts|-1].str)
  }

  function KeywordContent(t: string, keyword: Option<string>): string {
    if keyword.Some? then Glue(t, keyword.value) else t
  }

  function GroupsContent(t: string, groups: seq<PartGroup>): string {
    if groups == [] then t
    else
      var g := groups[|groups|-1];
      PartsContent(KeywordContent(GroupsContent(t, groups[..|groups|-1]), g.keyword), g.parts)
  }

  function LevelsContent(t: string, levels: seq<Level>): string {
    if levels == [] then t
    else GroupsContent(LevelsContent(t, levels[..|levels|-1]), levels[|levels|-1].groups)
  }

  lemma {:induction false} PartsContentAppend(t: string, a: seq<Part>, b: seq<Part>)
    ensures PartsContent(t, a + b) == PartsContent(PartsContent(t, a), b)
  {
    if b == [] {
      assert a + b == a;
    } else {
      PartsContentAppend(t, a, b[..|b|-1]);
      assert (a + b)[..|a + b|-1] == a + b[..|b|-1];
    }
  }

  lemma PartsContentOne(t: string, p: Part)
    ensures PartsContent(t, [p]) == Glue(t, p.str)
  {
    assert [p][..0] == [];
  }

  predicate KeywordsHaveParts(groups: seq<PartGroup>) {
    forall i | 0 <= i < |groups| && groups[i].keyword.Some? :: groups[i].parts != []
  }

  // ---------- Merging parts into lines ----------

  function JoinTwo(target: Part, part: Part): Part {
    var str := Trimmed(target.str);
    target.(str := str + (if str == "" || str[|str|-1] == '(' then "" else " ") + part.str)
  }

  /** Parts on one line. */
  function Joined(parts: seq<Part>): (line: Part)
    requires parts != []
    ensures line.indent == parts[0].indent && line.mergeable == parts[0].mergeable
  {
    if |parts| == 1 then parts[0] else JoinTwo(Joined(parts[..|parts|-1]), parts[|parts|-1])
  }

  /** Would this part still fit on the line? */
  predicate Mergeable(line: Part, part: Part, maxLineLength: nat) {
    line.mergeable && part.mergeable && line.indent + |line.str| + 1 + |part.str| <= maxLineLength
  }

  /** parts[from..to] make up a line.  Only mergeable parts share a line, a line that parts share is
      not too long, and the part after it did not fit. */
  predicate LineOk(parts: seq<Part>, from: nat, to: nat, line: Part, maxLineLength: nat) {
    && from < to <= |parts|
    && line == (if to < |parts| then Joined(parts[from..to]).(str := Trimmed(Joined(parts[from..to]).str)) else Joined(parts[from..to]))
    && (to - from > 1 ==> line.indent + |line.str| <= maxLineLength)
    && (to - from > 1 ==> forall k | from <= k < to :: parts[k].mergeable)
    && (to < |parts| ==> !Mergeable(line, parts[to], maxLineLength))
  }

  /** The lines are the parts in order, line i being parts[starts[i]..starts[i+1]]. */
  predicate Filled(parts: seq<Part>, lines: seq<Part>, starts: seq<nat>, maxLineLength: nat) {
    && |starts| == |lines| + 1
    && starts[0] == 0
    && starts[|lines|] == |parts|
    && forall i | 0 <= i < |lines| :: LineOk(parts, starts[i], starts[i+1], lines[i], maxLineLength)
  }

  lemma {:induction false} JoinedContent(t: string, parts: seq<Part>)
    requires parts != []
    ensures Glue(t, Joined(parts).str) == PartsContent(t, parts)
  {
    if |parts| == 1 {
      PartsContentOne(t, parts[0]);
      assert parts == [parts[0]];
    } else {
      var front := parts[..|parts|-1];
      JoinedContent(t, front);
      GlueTwo(t, Joined(front).str, parts[|parts|-1].str);
    }
  }

  lemma {:induction false} FilledPrefixContent(t: string, parts: seq<Part>, lines: seq<Part>, starts: seq<nat>, maxLineLength: nat, n: nat)
    requires Filled(parts, lines, starts, maxLineLength) && n <= |lines|
    ensures starts[n] <= |parts| && PartsContent(t, lines[..n]) == PartsContent(t, parts[..starts[n]])
  {
    if n > 0 {
      hide Filled;
      assert LineOk(parts, starts[n-1], starts[n], lines[n-1], maxLineLength) && |starts| == |lines| + 1 by {
        hide *;
        LineAt(parts, lines, starts, maxLineLength, n - 1);
      }
      FilledPrefixContent(t, parts, lines, starts, maxLineLength, n - 1);
      var from, to := starts[n-1], starts[n];
      assert parts[..to] == parts[..from] + parts[from..to];
      PartsContentAppend(t, parts[..from], parts[from..to]);
      var before := PartsContent(t, parts[..from]);
      JoinedContent(before, parts[from..to]);
      TrimmedWords(Words(before, true), Joined(parts[from..to]).str);
      assert lines[..n][..n-1] == lines[..n-1];
    }
  }

  lemma LineAt(parts: seq<Part>, lines: seq<Part>, starts: seq<nat>, maxLineLength: nat, i: nat)
    requires Filled(parts, lines, starts, maxLineLength) && i < |lines|
    ensures |starts| == |lines| + 1 && LineOk(parts, starts[i], starts[i+1], lines[i], maxLineLength)
  {
    hide LineOk;
  }

  /** Merging keeps the content. */
  lemma FilledContent(t: string, parts: seq<Part>, lines: seq<Part>, starts: seq<nat>, maxLineLength: nat)
    requires Filled(parts, lines, starts, maxLineLength)
    ensures PartsContent(t, lines) == PartsContent(t, parts)
  {
    FilledPrefixContent(t, parts, lines, starts, maxLineLength, |lines|);
    assert lines[..|lines|] == lines && parts[..|parts|] == parts;
  }

  /** Merging never drops all parts. */
  lemma FilledNotEmpty(parts: seq<Part>, lines: seq<Part>, starts: seq<nat>, maxLineLength: nat)
    requires Filled(parts, lines, starts, maxLineLength) && parts != []
    ensures lines != []
  {
  }

  // ---------- The part being written ----------

  /** The content before the last part of the last group of the last level. */
  predicate HasPart(level: Level) {
    level.groups != [] && level.groups[|level.groups|-1].parts != []
  }

  function LastGroup(level: Level): PartGroup
    requires level.groups != []
  {
    level.groups[|level.groups|-1]
  }

  function LastPart(level: Level): Part
    requires HasPart(level)
  {
    var g := LastGroup(level);
    g.parts[|g.parts|-1]
  }

  /** A level with other parts in its last group. */
  function WithParts(level: Level, parts: seq<Part>): Level
    requires level.groups != []
  {
    level.(groups := level.groups[..|level.groups|-1] + [LastGroup(level).(parts := parts)])
  }

  function WithLastPart(level: Level, part: Part): Level
    requires HasPart(level)
  {
    var parts := LastGroup(level).parts;
    WithParts(level, parts[..|parts|-1] + [part])
  }

  /** Content of everything but the last part. */
  function ContentBefore(t: string, level: Level): string
    requires HasPart(level)
  {
    var g := LastGroup(level);
    PartsContent(KeywordContent(GroupsContent(t, level.groups[..|level.groups|-1]), g.keyword), g.parts[..|g.parts|-1])
  }

  lemma WithPartsContent(t: string, level: Level, parts: seq<Part>)
    requires level.groups != []
    ensures var l' := WithParts(level, parts);
            && GroupsContent(t, l'.groups) ==
                 PartsContent(KeywordContent(GroupsContent(t, level.groups[..|level.groups|-1]), LastGroup(level).keyword), parts)
            && l'.groups != [] && LastGroup(l') == LastGroup(level).(parts := parts)
            && l'.groups[..|l'.groups|-1] == level.groups[..|level.groups|-1]
  {
    var l' := WithParts(level, parts);
    assert l'.groups[..|l'.groups|-1] == level.groups[..|level.groups|-1];
  }

  lemma LastPartContent(t: string, level: Level)
    requires HasPart(level)
    ensures GroupsContent(t, level.groups) == Glue(ContentBefore(t, level), LastPart(level).str)
  {
  }

  lemma WithLastPartContent(t: string, level: Level, part: Part)
    requires HasPart(level)
    ensures var l' := WithLastPart(level, part);
            HasPart(l') && LastPart(l') == part && ContentBefore(t, l') == ContentBefore(t, level)
  {
    var parts := LastGroup(level).parts[..|LastGroup(level).parts|-1] + [part];
    WithPartsContent(t, level, parts);
    assert parts[..|parts|-1] == LastGroup(level).parts[..|LastGroup(level).parts|-1];
  }

  lemma NextPartContent(t: string, level: Level, part: Part)
    requires level.groups != []
    ensures var l' := WithParts(level, LastGroup(level).parts + [part]);
            HasPart(l') && LastPart(l') == part && ContentBefore(t, l') == GroupsContent(t, level.groups)
  {
    var parts := LastGroup(level).parts + [part];
    WithPartsContent(t, level, parts);
    assert parts[..|parts|-1] == LastGroup(level).parts;
  }

  lemma NextGroupContent(t: string, level: Level, g: PartGroup)
    requires |g.parts| == 1
    ensures var l' := level.(groups := level.groups + [g]);
            HasPart(l') && LastPart(l') == g.parts[0] && ContentBefore(t, l') == KeywordContent(GroupsContent(t, level.groups), g.keyword)
  {
    var l' := level.(groups := level.groups + [g]);
    assert l'.groups[..|l'.groups|-1] == level.groups;
    assert g.parts[..0] == [];
  }

  lemma LevelsContentNext(t: string, levels: seq<Level>, level: Level)
    ensures LevelsContent(t, levels + [level]) == GroupsContent(LevelsContent(t, levels), level.groups)
  {
    assert (levels + [level])[..|levels|] == levels;
  }
}
