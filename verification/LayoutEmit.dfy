/** Turning a level into lines, and lines into output. */
module LayoutEmit {
  import opened LayoutText
  import opened LayoutState
  import opened LayoutLines

  // ---------- Merging ----------

  /** Extend the line as long as the next part may share it and fits. */
  function Merge(line: Part, rest: seq<Part>, maxLineLength: nat): (r: seq<Part>)
    ensures r != []
    decreases |rest|
  {
    if rest == [] then [line]
    else
      var trimmed := line.(str := Trimmed(line.str));
      if Mergeable(trimmed, rest[0], maxLineLength) then Merge(JoinTwo(line, rest[0]), rest[1..], maxLineLength)
      else [trimmed] + Merge(rest[0], rest[1..], maxLineLength)
  }

  function Merged(parts: seq<Part>, maxLineLength: nat): seq<Part> {
    if parts == [] then [] else Merge(parts[0], parts[1..], maxLineLength)
  }

  /** The greedy loop that merges the parts of a group. */
  method MergeParts(parts: seq<Part>, maxLineLength: nat) returns (lines: seq<Part>, ghost starts: seq<nat>)
    ensures lines == Merged(parts, maxLineLength) && Filled(parts, lines, starts, maxLineLength)
    ensures forall t :: PartsContent(t, lines) == PartsContent(t, parts)
    ensures forall t, pretty :: PartsLines(t, parts, pretty) <= PartsLines(t, lines, pretty)
  {
    hide *;
    lines, starts := [], [0];
    if parts == [] {
      NoLines(maxLineLength);
      assert lines == parts;
      MergedAre(parts, maxLineLength);
      return;
    }
    var target := parts[0];
    var i := 1;
    MergedAre(parts, maxLineLength);
    assert [] + Merge(target, parts[1..], maxLineLength) == Merged(parts, maxLineLength);
    FirstLine(parts, maxLineLength);
    while i < |parts|
      invariant 1 <= i <= |parts| && LinesSoFar(parts, lines, starts, i, target, maxLineLength)
      invariant lines + Merge(target, parts[i..], maxLineLength) == Merged(parts, maxLineLength)
    {
      var part := parts[i];
      MergeStep(target, parts, i, maxLineLength);
      LinesGoOn(parts, lines, starts, i, target, maxLineLength);
      var trimmed := target.(str := Trimmed(target.str));
      if Mergeable(trimmed, part, maxLineLength) {
        target := JoinTwo(target, part);
      } else {
        lines, starts := lines + [trimmed], starts + [i];
        target := part;
      }
      i := i + 1;
    }
    LastLine(parts, lines, starts, target, maxLineLength);
    MergeStep(target, parts, |parts|, maxLineLength);
    lines, starts := lines + [target], starts + [|parts|];
    forall t ensures PartsContent(t, lines) == PartsContent(t, parts) {
      FilledContent(t, parts, lines, starts, maxLineLength);
    }
    forall t, pretty ensures PartsLines(t, parts, pretty) <= PartsLines(t, lines, pretty) {
      FilledLines(t, parts, lines, starts, maxLineLength, pretty);
    }
  }

  lemma MergedAre(parts: seq<Part>, maxLineLength: nat)
    ensures Merged(parts, maxLineLength) == if parts == [] then [] else Merge(parts[0], parts[1..], maxLineLength)
  {
  }

  lemma MergeStep(line: Part, parts: seq<Part>, i: nat, maxLineLength: nat)
    requires i <= |parts|
    ensures Merge(line, parts[i..], maxLineLength) ==
            if i == |parts| then [line]
            else
              var trimmed := line.(str := Trimmed(line.str));
              if Mergeable(trimmed, parts[i], maxLineLength) then Merge(JoinTwo(line, parts[i]), parts[i+1..], maxLineLength)
              else [trimmed] + Merge(parts[i], parts[i+1..], maxLineLength)
  {
    if i < |parts| { assert parts[i..][0] == parts[i] && parts[i..][1..] == parts[i+1..]; }
  }

  /** The first i parts are in lines, the last of which is still being extended. */
  ghost predicate LinesSoFar(parts: seq<Part>, lines: seq<Part>, starts: seq<nat>, i: nat, target: Part, maxLineLength: nat) {
    && i <= |parts| && |starts| == |lines| + 1 && starts[0] == 0
    && LineSoFar(parts, starts[|lines|], i, target, maxLineLength)
    && forall j | 0 <= j < |lines| :: LineOk(parts, starts[j], starts[j+1], lines[j], maxLineLength)
  }

  lemma NoLines(maxLineLength: nat)
    ensures Filled([], [], [0], maxLineLength)
  {
  }

  lemma FirstLine(parts: seq<Part>, maxLineLength: nat)
    requires parts != []
    ensures LinesSoFar(parts, [], [0], 1, parts[0], maxLineLength)
  {
    assert parts[0..1] == [parts[0]];
  }

  lemma LinesGoOn(parts: seq<Part>, lines: seq<Part>, starts: seq<nat>, i: nat, target: Part, maxLineLength: nat)
    requires LinesSoFar(parts, lines, starts, i, target, maxLineLength) && i < |parts|
    ensures var trimmed := target.(str := Trimmed(target.str));
            if Mergeable(trimmed, parts[i], maxLineLength)
            then LinesSoFar(parts, lines, starts, i + 1, JoinTwo(target, parts[i]), maxLineLength)
            else LinesSoFar(parts, lines + [trimmed], starts + [i], i + 1, parts[i], maxLineLength)
  {
    hide LineOk, LineSoFar, Joined, Trimmed, Mergeable, JoinTwo;
    LineGoesOn(parts, starts[|lines|], i, target, maxLineLength);
  }

  lemma LastLine(parts: seq<Part>, lines: seq<Part>, starts: seq<nat>, target: Part, maxLineLength: nat)
    requires LinesSoFar(parts, lines, starts, |parts|, target, maxLineLength)
    ensures Filled(parts, lines + [target], starts + [|parts|], maxLineLength)
  {
    hide Joined, Trimmed, Mergeable, JoinTwo;
  }

  predicate LineSoFar(parts: seq<Part>, from: nat, to: nat, target: Part, maxLineLength: nat) {
    && from < to <= |parts| && target == Joined(parts[from..to])
    && (to - from > 1 ==> target.indent + |target.str| <= maxLineLength)
    && (to - from > 1 ==> forall k | from <= k < to :: parts[k].mergeable)
  }

  lemma LineGoesOn(parts: seq<Part>, from: nat, i: nat, target: Part, maxLineLength: nat)
    requires LineSoFar(parts, from, i, target, maxLineLength) && i < |parts|
    ensures var trimmed := target.(str := Trimmed(target.str));
            if Mergeable(trimmed, parts[i], maxLineLength)
            then LineSoFar(parts, from, i + 1, JoinTwo(target, parts[i]), maxLineLength)
            else LineOk(parts, from, i, trimmed, maxLineLength)
    ensures LineSoFar(parts, i, i + 1, parts[i], maxLineLength)
  {
    assert parts[i..i+1] == [parts[i]];
    assert parts[from..i+1][..i-from] == parts[from..i];
    assert i - from == 1 ==> parts[from..i] == [parts[from]];
  }

  /** The keyword of a group on a line of its own, or in front of the first line. */
  function WithKeyword(level: Level, keyword: Option<string>, mode: IndentMode, lines: seq<Part>): seq<Part>
    requires keyword.Some? ==> lines != []
  {
    if keyword.None? then lines
    else if |lines| == 1 || mode == NoIndent then
      var first := lines[0].str;
      [Part(if first == "" then keyword.value else keyword.value + " " + first, level.baseIndent, false)] + lines[1..]
    else [Part(keyword.value, level.baseIndent, false)] + lines
  }

  lemma WithKeywordContent(t: string, level: Level, keyword: Option<string>, mode: IndentMode, lines: seq<Part>)
    requires keyword.Some? ==> lines != []
    ensures PartsContent(t, WithKeyword(level, keyword, mode, lines)) == PartsContent(KeywordContent(t, keyword), lines)
  {
    if keyword.Some? {
      var r := WithKeyword(level, keyword, mode, lines);
      PartsContentOne(t, r[0]);
      PartsContentAppend(t, [r[0]], r[1..]);
      assert r == [r[0]] + r[1..];
      if |lines| == 1 || mode == NoIndent {
        assert lines == [lines[0]] + lines[1..];
        PartsContentAppend(Glue(t, keyword.value), [lines[0]], lines[1..]);
        PartsContentOne(Glue(t, keyword.value), lines[0]);
        GlueKeyword(t, keyword.value, lines[0].str);
      }
    }
  }

  lemma WithKeywordLines(t: string, level: Level, keyword: Option<string>, mode: IndentMode, lines: seq<Part>, pretty: bool)
    requires keyword.Some? ==> lines != []
    ensures PartsLines(KeywordContent(t, keyword), lines, pretty) <= PartsLines(t, WithKeyword(level, keyword, mode, lines), pretty)
  {
    hide PartsLines;
    if keyword.Some? {
      JoinedKeyword(t, keyword.value, level.baseIndent, lines, pretty);
      SeparateKeyword(t, keyword.value, level.baseIndent, lines, pretty);
    }
  }

  function GroupLines(opts: Opts, level: Level, g: PartGroup): seq<Part> {
    var lines := if g.indentMode == IndentAndMerge && |g.parts| > 1 then Merged(g.parts, opts.maxLineLength) else g.parts;
    if g.keyword.Some? && lines == [] then [Part(g.keyword.value, level.baseIndent, false)]
    else WithKeyword(level, g.keyword, g.indentMode, lines)
  }

  function LinesOf(opts: Opts, level: Level, groups: seq<PartGroup>): seq<Part> {
    if groups == [] then [] else LinesOf(opts, level, groups[..|groups|-1]) + GroupLines(opts, level, groups[|groups|-1])
  }

  function Lines(opts: Opts, level: Level): seq<Part> {
    LinesOf(opts, level, level.groups)
  }

  /** `parts` are the lines of a group: its parts merged if it asks for that, and its keyword. */
  predicate ClosedBy(opts: Opts, level: Level, group: PartGroup, parts: seq<Part>, lines: seq<Part>, starts: seq<nat>) {
    && (if group.indentMode == IndentAndMerge && |group.parts| > 1 then Filled(group.parts, lines, starts, opts.maxLineLength)
        else lines == group.parts)
    && (group.keyword.Some? ==> lines != []) && parts == WithKeyword(level, group.keyword, group.indentMode, lines)
  }

  ghost predicate Closed(opts: Opts, level: Level, group: PartGroup, parts: seq<Part>) {
    exists lines: seq<Part>, starts: seq<nat> :: ClosedBy(opts, level, group, parts, lines, starts)
  }

  /** The lines of one group: merged if it asks for that, and with its keyword. */
  method CloseGroup(opts: Opts, level: Level, group: PartGroup) returns (parts: seq<Part>, ghost lines: seq<Part>, ghost starts: seq<nat>)
    requires group.keyword.Some? ==> group.parts != []
    ensures ClosedBy(opts, level, group, parts, lines, starts) && parts == GroupLines(opts, level, group)
    ensures forall t :: PartsContent(t, parts) == PartsContent(KeywordContent(t, group.keyword), group.parts)
    ensures forall t, pretty :: PartsLines(KeywordContent(t, group.keyword), group.parts, pretty) <= PartsLines(t, parts, pretty)
    ensures group.keyword.None? && group.indentMode == NoIndent ==> parts == group.parts
    ensures group.parts != [] ==> parts != []
  {
    parts, starts := group.parts, [];
    if group.indentMode == IndentAndMerge && |parts| > 1 {
      parts, starts := MergeParts(parts, opts.maxLineLength);
      FilledNotEmpty(group.parts, parts, starts, opts.maxLineLength);
    }
    lines := parts;
    if group.keyword.Some? {
      var target := Part(group.keyword.value, level.baseIndent, false);
      parts := [target] + parts;
      if |parts| == 2 || group.indentMode == NoIndent {
        if parts[1].str != "" {
          target := target.(str := target.str + " " + parts[1].str);
        }
        parts := [target] + parts[2..];
      }
    }
    assert parts == WithKeyword(level, group.keyword, group.indentMode, lines);
    hide *;
    forall t ensures PartsContent(t, parts) == PartsContent(KeywordContent(t, group.keyword), group.parts) {
      WithKeywordContent(t, level, group.keyword, group.indentMode, lines);
    }
    forall t, pretty ensures PartsLines(KeywordContent(t, group.keyword), group.parts, pretty) <= PartsLines(t, parts, pretty) {
      WithKeywordLines(t, level, group.keyword, group.indentMode, lines, pretty);
      assert PartsLines(KeywordContent(t, group.keyword), group.parts, pretty) <= PartsLines(KeywordContent(t, group.keyword), lines, pretty);
    }
  }

  /** One group without a keyword, whose parts are not merged. */
  predicate IsPlain(level: Level) {
    |level.groups| == 1 && level.groups[0].keyword.None? && level.groups[0].indentMode == NoIndent
  }

  function Concat(lines: seq<seq<Part>>): seq<Part> {
    if lines == [] then [] else Concat(lines[..|lines|-1]) + lines[|lines|-1]
  }

  /** All lines of a level, group by group. */
  method FlattenLevel(opts: Opts, level: Level, ghost t: string) returns (parts: seq<Part>, ghost closed: seq<seq<Part>>)
    requires KeywordsHaveParts(level.groups)
    ensures parts == Lines(opts, level)
    ensures parts == Concat(closed) && |closed| == |level.groups|
    ensures forall i | 0 <= i < |closed| :: Closed(opts, level, level.groups[i], closed[i])
    ensures PartsContent(t, parts) == GroupsContent(t, level.groups)
    ensures GroupsLines(t, level.groups, opts.prettyPrint) <= PartsLines(t, parts, opts.prettyPrint)
    ensures IsPlain(level) ==> parts == level.groups[0].parts
    ensures if level.groups == [] then parts == [] else LastGroup(level).parts != [] ==> parts != []
  {
    hide *;
    parts, closed := [], [];
    ghost var pretty := opts.prettyPrint;
    NoConcat();
    FlattenStarts(t, level, pretty);
    NoLinesYet(opts, level);
    for i := 0 to |level.groups|
      invariant Flattened(t, level.groups, i, parts, pretty) && parts == LinesOf(opts, level, level.groups[..i])
      invariant if i == 0 then parts == [] else i == 1 && IsPlain(level) ==> parts == level.groups[0].parts
      invariant i > 0 && level.groups[i-1].parts != [] ==> parts != []
      invariant parts == Concat(closed) && |closed| == i && forall j | 0 <= j < i :: Closed(opts, level, level.groups[j], closed[j])
    {
      GroupWithParts(level.groups, i);
      var next, lines, starts := CloseGroup(opts, level, level.groups[i]);
      FlattenStep(t, level, i, parts, next, pretty);
      LinesNext(opts, level, i);
      ConcatNext(closed, next);
      IsClosed(opts, level, level.groups[i], next, lines, starts);
      parts, closed := parts + next, closed + [next];
    }
    FlattenEnds(t, level, parts, pretty);
    AllLines(opts, level);
  }

  lemma NoLinesYet(opts: Opts, level: Level)
    ensures LinesOf(opts, level, level.groups[..0]) == []
  {
  }

  lemma LinesNext(opts: Opts, level: Level, i: nat)
    requires i < |level.groups|
    ensures LinesOf(opts, level, level.groups[..i+1]) == LinesOf(opts, level, level.groups[..i]) + GroupLines(opts, level, level.groups[i])
  {
    assert level.groups[..i+1][..i] == level.groups[..i];
  }

  lemma AllLines(opts: Opts, level: Level)
    ensures Lines(opts, level) == LinesOf(opts, level, level.groups[..|level.groups|])
  {
    assert level.groups[..|level.groups|] == level.groups;
  }

  lemma NoConcat()
    ensures Concat([]) == []
  {
  }

  lemma ConcatNext(lines: seq<seq<Part>>, next: seq<Part>)
    ensures Concat(lines + [next]) == Concat(lines) + next
  {
    assert (lines + [next])[..|lines|] == lines;
  }

  lemma IsClosed(opts: Opts, level: Level, group: PartGroup, parts: seq<Part>, lines: seq<Part>, starts: seq<nat>)
    requires ClosedBy(opts, level, group, parts, lines, starts)
    ensures Closed(opts, level, group, parts)
  {
    hide ClosedBy;
  }

  /** The first i groups are flattened. */
  ghost predicate Flattened(t: string, groups: seq<PartGroup>, i: nat, parts: seq<Part>, pretty: bool) {
    && i <= |groups| && PartsContent(t, parts) == GroupsContent(t, groups[..i])
    && GroupsLines(t, groups[..i], pretty) <= PartsLines(t, parts, pretty)
  }

  lemma FlattenStarts(t: string, level: Level, pretty: bool)
    ensures Flattened(t, level.groups, 0, [], pretty)
  {
    assert level.groups[..0] == [];
  }

  lemma GroupWithParts(groups: seq<PartGroup>, i: nat)
    requires KeywordsHaveParts(groups) && i < |groups|
    ensures groups[i].keyword.Some? ==> groups[i].parts != []
  {
  }

  lemma FlattenStep(t: string, level: Level, i: nat, parts: seq<Part>, closed: seq<Part>, pretty: bool)
    requires i < |level.groups| && Flattened(t, level.groups, i, parts, pretty)
    requires forall u :: PartsContent(u, closed) == PartsContent(KeywordContent(u, level.groups[i].keyword), level.groups[i].parts)
    requires forall u, p :: PartsLines(KeywordContent(u, level.groups[i].keyword), level.groups[i].parts, p) <= PartsLines(u, closed, p)
    requires level.groups[i].keyword.None? && level.groups[i].indentMode == NoIndent ==> closed == level.groups[i].parts
    ensures Flattened(t, level.groups, i + 1, parts + closed, pretty)
    ensures parts == [] && IsPlain(level) && i == 0 ==> parts + closed == level.groups[0].parts
  {
    hide PartsContent, PartsLines, KeywordContent;
    PartsContentAppend(t, parts, closed);
    PartsLinesAppend(t, parts, closed, pretty);
    assert level.groups[..i+1][..i] == level.groups[..i];
    assert parts == [] ==> parts + closed == closed;
  }

  lemma FlattenEnds(t: string, level: Level, parts: seq<Part>, pretty: bool)
    requires Flattened(t, level.groups, |level.groups|, parts, pretty)
    ensures PartsContent(t, parts) == GroupsContent(t, level.groups)
    ensures GroupsLines(t, level.groups, pretty) <= PartsLines(t, parts, pretty)
    ensures IsPlain(level) ==> |level.groups| == 1
    ensures level.groups != [] ==> LastGroup(level) == level.groups[|level.groups|-1]
  {
    assert level.groups[..|level.groups|] == level.groups;
  }

  // ---------- Output ----------

  ghost function OutputWords(out: string): Words {
    Scan(Words("", true), out)
  }

  function Spaces(n: nat): (s: string)
    ensures |s| == n && forall i | 0 <= i < n :: s[i] == ' '
  {
    seq(n, _ => ' ')
  }

  ghost function OutputBreaks(out: string): set<nat> {
    Breaks(Words("", true), out)
  }

  lemma AfterOutput(out: string, s: string)
    ensures OutputWords(out + s) == Scan(OutputWords(out), s)
    ensures OutputBreaks(out + s) == OutputBreaks(out) + Breaks(OutputWords(out), s)
  {
    ScanAppend(Words("", true), out, s);
    BreaksAppend(Words("", true), out, s);
  }

  lemma AfterBlanks(out: string, s: string)
    requires forall i | 0 <= i < |s| :: IsBlank(s[i])
    ensures OutputWords(out + s) == if s == "" then OutputWords(out) else Words(OutputWords(out).text, true)
    ensures '\n' !in s ==> OutputBreaks(out + s) == OutputBreaks(out)
    ensures s == "\n" ==> OutputBreaks(out + s) == OutputBreaks(out) + {|OutputWords(out).text|}
  {
    AfterOutput(out, s);
    if '\n' !in s { NoBreaks(OutputWords(out), s); }
    if s == "\n" { assert Breaks(OutputWords(out), s) == {|OutputWords(out).text|} + Breaks(Step(OutputWords(out), '\n'), s[1..]) && s[1..] == ""; }
    if s == "" {
      assert out + s == out;
    } else {
      ScanBlanks(OutputWords(out), s);
    }
  }

  lemma AfterNewline(out: string)
    ensures WordsOf(out + "\n") == WordsOf(out) && OutputBreaks(out + "\n") == OutputBreaks(out) + {|WordsOf(out)|}
  {
    AfterBlanks(out, "\n");
  }

  /** The words in front of a part are set off from it wherever that matters. */
  lemma PartOutput(out: string, w: Words, part: string)
    requires OutputWords(out).text == w.text && (Loose(OutputWords(out)) || (part != "" && Closes(part[0])))
    ensures OutputWords(out + part).text == Glue(w.text, part)
    ensures OutputWords(Trimmed(out + part)).text == Glue(w.text, part)
    ensures OutputBreaks(Trimmed(out + part)) == OutputBreaks(out) + Breaks(Words(w.text, true), part)
  {
    LooseBreaks(OutputWords(out), part);
    TrimmedBreaks(Words("", true), out + part);
    AfterOutput(out, part);
    if Loose(OutputWords(out)) {
      LooseScan(OutputWords(out), part);
    } else {
      ClosingWord(OutputWords(out), part);
    }
    TrimmedWords(Words("", true), out + part);
  }

  /** Ready for the part: a space less in front of what closes, and the indentation. */
  function Indented(opts: Opts, part: Part, str: string): string {
    if opts.prettyPrint then str + Spaces(part.indent)
    else if part.str != "" && (part.str[0] == ')' || part.str[0] == ';') then Trimmed(str)
    else str
  }

  /** `outside` is the character that the original reads in front of an empty buffer. */
  function Ended(opts: Opts, isLast: bool, out: string, outside: char): string {
    if isLast then out
    else if opts.prettyPrint then out + "\n"
    else if (if out == "" then outside else out[|out|-1]) != '(' then out + " "
    else out
  }

  function EmitOne(opts: Opts, part: Part, isLast: bool, str: string, outside: char): string {
    Ended(opts, isLast, Trimmed(Indented(opts, part, str) + part.str), outside)
  }

  /** The first n parts behind str. */
  function EmitFirst(opts: Opts, parts: seq<Part>, n: nat, str: string, outside: char): string
    requires n <= |parts|
  {
    if n == 0 then str else EmitOne(opts, parts[n-1], n == |parts|, EmitFirst(opts, parts, n - 1, str, outside), outside)
  }

  function Emit(opts: Opts, parts: seq<Part>, str: string, outside: char): string {
    var ps := if parts != [] && parts[|parts|-1].str == "" then parts[..|parts|-1] else parts;
    EmitFirst(opts, ps, |ps|, str, outside) + if opts.prettyPrint && opts.trailingNewline then "\n" else ""
  }

  lemma IndentedOutput(opts: Opts, part: Part, str: string)
    requires Loose(OutputWords(str))
    ensures var out := Indented(opts, part, str);
            && OutputWords(out).text == OutputWords(str).text && OutputBreaks(out) == OutputBreaks(str)
            && (Loose(OutputWords(out)) || (part.str != "" && Closes(part.str[0])))
  {
    TrimmedWords(Words("", true), str);
    TrimmedBreaks(Words("", true), str);
    AfterBlanks(str, Spaces(part.indent));
  }

  lemma EndedOutput(opts: Opts, isLast: bool, out: string, outside: char)
    ensures var r := Ended(opts, isLast, out, outside);
            && OutputWords(r).text == OutputWords(out).text && (!isLast ==> Loose(OutputWords(r)))
            && OutputBreaks(r) == OutputBreaks(out) + if !isLast && opts.prettyPrint then {|OutputWords(out).text|} else {}
  {
    hide OutputWords, OutputBreaks;
    if !isLast {
      AfterBlanks(out, "\n");
      AfterBlanks(out, " ");
      if out == "" || out[|out|-1] == '(' { EndsLoose(out); }
    }
  }

  /** One part of the result. */
  method EmitPart(opts: Opts, part: Part, isLast: bool, str: string, outside: char) returns (out: string)
    requires Loose(OutputWords(str))
    ensures out == EmitOne(opts, part, isLast, str, outside)
    ensures OutputWords(out).text == Glue(OutputWords(str).text, part.str)
    ensures !isLast ==> Loose(OutputWords(out))
    ensures OutputBreaks(out) == OutputBreaks(str) + Breaks(Words(OutputWords(str).text, true), part.str)
                                 + if !isLast && opts.prettyPrint then {|OutputWords(out).text|} else {}
  {
    out := str;
    if !opts.prettyPrint && part.str != "" && (part.str[0] == ')' || part.str[0] == ';') {
      out := Trimmed(out);
    }
    if opts.prettyPrint {
      out := out + Spaces(part.indent);
    }
    assert out == Indented(opts, part, str);
    hide OutputWords, OutputBreaks, Glue, Breaks, Loose, Trimmed, Indented;
    IndentedOutput(opts, part, str);
    PartOutput(out, OutputWords(str), part.str);
    out := Trimmed(out + part.str);
    EndedOutput(opts, isLast, out, outside);
    if !isLast {
      if opts.prettyPrint {
        out := out + "\n";
      } else if (if out == "" then outside else out[|out|-1]) != '(' {
        out := out + " ";
      }
    }
  }

  lemma EndsLoose(out: string)
    requires out == "" || out[|out|-1] == '('
    ensures Loose(OutputWords(out))
  {
    if out != "" {
      LastChar(Words("", true), out);
    }
  }

  /** deparseEmit, which fails if there is nothing to emit. */
  method EmitParts(opts: Opts, resultParts: seq<Part>, str: string, outside: char) returns (ok: bool, out: string)
    requires Loose(OutputWords(str))
    ensures ok == (resultParts != [])
    ensures ok ==> out == Emit(opts, resultParts, str, outside) && WordsOf(out) == PartsContent(WordsOf(str), resultParts)
    ensures ok ==> OutputBreaks(out) == OutputBreaks(str) + OutLines(WordsOf(str), WithoutEmptyLast(resultParts), opts.prettyPrint)
                                        + if opts.prettyPrint && opts.trailingNewline then {|WordsOf(out)|} else {}
  {
    hide *;
    out := str;
    if resultParts == [] {
      return false, out;
    }
    ok := true;
    var parts := resultParts;
    ghost var t := WordsOf(str);
    DropEmptyLast(t, parts);
    if parts[|parts|-1].str == "" {
      parts := parts[..|parts|-1];
    }
    NothingEmitted(str, parts, opts.prettyPrint);
    EmitStep(opts, parts, str, outside);
    for i := 0 to |parts|
      invariant out == EmitFirst(opts, parts, i, str, outside)
      invariant Emitted(str, parts, i, out, opts.prettyPrint) && (i < |parts| ==> Loose(OutputWords(out)))
    {
      ghost var before := out;
      out := EmitPart(opts, parts[i], i == |parts| - 1, out, outside);
      EmittedNext(str, parts, i, before, out, opts.prettyPrint);
    }
    AllEmitted(str, parts, out, opts.prettyPrint);
    EmitIs(opts, resultParts, str, outside);
    if opts.prettyPrint && opts.trailingNewline {
      AfterNewline(out);
      out := out + "\n";
    }
  }

  lemma EmitStep(opts: Opts, parts: seq<Part>, str: string, outside: char)
    ensures EmitFirst(opts, parts, 0, str, outside) == str
    ensures forall n: nat {:trigger EmitFirst(opts, parts, n + 1, str, outside)} | n < |parts| ::
              EmitFirst(opts, parts, n + 1, str, outside) ==
              EmitOne(opts, parts[n], n == |parts| - 1, EmitFirst(opts, parts, n, str, outside), outside)
  {
  }

  lemma EmitIs(opts: Opts, parts: seq<Part>, str: string, outside: char)
    ensures var ps := WithoutEmptyLast(parts);
            Emit(opts, parts, str, outside) ==
            EmitFirst(opts, ps, |ps|, str, outside) + if opts.prettyPrint && opts.trailingNewline then "\n" else ""
  {
  }

  lemma DropEmptyLast(t: string, parts: seq<Part>)
    requires parts != []
    ensures WithoutEmptyLast(parts) == if parts[|parts|-1].str == "" then parts[..|parts|-1] else parts
    ensures PartsContent(t, WithoutEmptyLast(parts)) == PartsContent(t, parts)
  {
    if parts[|parts|-1].str == "" { EmptyPartLines(t, parts, false); }
  }

  /** The first i parts are in the output. */
  ghost predicate Emitted(str: string, parts: seq<Part>, i: nat, out: string, pretty: bool) {
    && i <= |parts| && OutputWords(out).text == PartsContent(WordsOf(str), parts[..i])
    && OutputBreaks(out) == OutputBreaks(str) + OutLines(WordsOf(str), parts[..i], pretty)
                            + if pretty && 0 < i < |parts| then {|OutputWords(out).text|} else {}
  }

  lemma NothingEmitted(str: string, parts: seq<Part>, pretty: bool)
    ensures Emitted(str, parts, 0, str, pretty)
  {
    assert parts[..0] == [];
  }

  lemma EmittedNext(str: string, parts: seq<Part>, i: nat, before: string, out: string, pretty: bool)
    requires i < |parts| && Emitted(str, parts, i, before, pretty)
    requires OutputWords(out).text == Glue(OutputWords(before).text, parts[i].str)
    requires OutputBreaks(out) == OutputBreaks(before) + Breaks(Words(OutputWords(before).text, true), parts[i].str)
                                  + if i != |parts| - 1 && pretty then {|OutputWords(out).text|} else {}
    ensures Emitted(str, parts, i + 1, out, pretty)
  {
    hide OutputWords, OutputBreaks, OutLines, PartsContent, Breaks, Glue;
    OutLinesNext(WordsOf(str), parts, i, pretty);
  }

  lemma AllEmitted(str: string, parts: seq<Part>, out: string, pretty: bool)
    requires Emitted(str, parts, |parts|, out, pretty)
    ensures OutputWords(out).text == WordsOf(out) == PartsContent(WordsOf(str), parts)
    ensures OutputBreaks(out) == OutputBreaks(str) + OutLines(WordsOf(str), parts, pretty)
  {
    assert parts[..|parts|] == parts;
    hide OutLines, PartsContent, Breaks;
  }
}
