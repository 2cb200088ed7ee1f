/** The output of a statement: where its commas and texts are, and the lines of a pretty-printing run. */
module LayoutOutput {
  import opened LayoutText
  import opened LayoutState
  import opened LayoutScript
  import opened LayoutLines
  import opened LayoutLevel
  import opened LayoutEmit
  import opened LayoutEngine
  import opened LayoutGaps
  import opened LayoutCommas
  import opened LayoutPlaces

  // ---------- Output ----------

  /** The first n parts are in the output: where they have gaps and nowhere else, up to gaps that are not
      needed and one at the end. */
  ghost predicate Put(newlines: bool, str: string, parts: seq<Part>, n: nat, out: string)
    requires n <= |parts|
  {
    var start, texts := |NonBlank(str)|, Strs(parts[..n]);
    && NonBlank(out) == NonBlank(str) + Chars(texts)
    && Gaps(newlines, 0, out) <= Gaps(newlines, 0, str) + TextGaps(newlines, start, texts)
    && (!newlines ==> forall k | k in TextGaps(false, start, texts) && start < k && (k < |NonBlank(out)| || n < |parts|) ::
          k in Gaps(false, 0, out) || NeedsNoGap(NonBlank(out), k))
  }

  lemma IndentedGaps(newlines: bool, opts: Opts, part: Part, str: string)
    ensures var ready := Indented(opts, part, str); var end := |NonBlank(str)|;
            && NonBlank(ready) == NonBlank(str)
            && Gaps(newlines, 0, ready) <= Gaps(newlines, 0, str) + {end}
            && Gaps(newlines, 0, str) <= Gaps(newlines, 0, ready) + {end}
            && (ready != Trimmed(str) ==> Gaps(newlines, 0, str) <= Gaps(newlines, 0, ready))
            && (ready == Trimmed(str) ==> ready == str || (part.str != "" && (part.str[0] == ')' || part.str[0] == ';')))
  {
    hide Gaps, NonBlank;
    TrimmedGaps(newlines, 0, str);
    var blanks := Spaces(part.indent);
    GapsAppend(newlines, 0, str, blanks);
    NonBlankAppend(str, blanks);
    BlanksGaps(newlines, |NonBlank(str)|, blanks);
    if opts.prettyPrint && Indented(opts, part, str) == Trimmed(str) {
      assert |str + blanks| >= |str|;
    }
  }

  /** What one more part does. */
  lemma OnePut(newlines: bool, opts: Opts, part: Part, isLast: bool, str: string, outside: char)
    ensures var out := EmitOne(opts, part, isLast, str, outside);
            var end := |NonBlank(str)|; var end2 := end + |NonBlank(part.str)|;
            && NonBlank(out) == NonBlank(str) + NonBlank(part.str)
            && Gaps(newlines, 0, out) <= Gaps(newlines, 0, str) + {end, end2} + Gaps(newlines, end, part.str)
            && (!newlines ==> forall k | k in Gaps(false, 0, str) + Gaps(false, end, part.str) && k < end2 ::
                  k in Gaps(false, 0, out) || NeedsNoGap(NonBlank(out), k))
            && (!newlines && !isLast && end2 > 0 ==> end2 in Gaps(false, 0, out) || NeedsNoGap(NonBlank(out), end2))
  {
    hide Gaps, NonBlank, Indented, Trimmed;
    var ready, end := Indented(opts, part, str), |NonBlank(str)|;
    var s := Trimmed(ready + part.str);
    var end2 := end + |NonBlank(part.str)|;
    IndentedGaps(newlines, opts, part, str);
    GapsAppend(newlines, 0, ready, part.str);
    NonBlankAppend(ready, part.str);
    TrimmedGaps(newlines, 0, ready + part.str);
    NoText(newlines, end2);
    GapsAppend(newlines, 0, s, " ");
    GapsAppend(newlines, 0, s, "\n");
    NonBlankAppend(s, " ");
    NonBlankAppend(s, "\n");
    assert " " == [' '] && "\n" == ['\n'];
    OneChar(newlines, end2, ' ');
    OneChar(newlines, end2, '\n');
    var out := EmitOne(opts, part, isLast, str, outside);
    assert NonBlank(s) == NonBlank(str) + NonBlank(part.str);
    assert NonBlank(out) == NonBlank(s);
    if !newlines && part.str != "" && (part.str[0] == ')' || part.str[0] == ';') {
      FirstChar(part.str);
      assert NonBlank(out)[end] == part.str[0];
    }
    if !newlines && !isLast && end2 > 0 && end2 !in Gaps(false, 0, out) {
      assert s != "" && s[|s|-1] == '(';
      NoGapAtEnd(false, 0, s);
    }
  }

  lemma FirstChar(s: string)
    requires s != "" && !IsBlank(s[0])
    ensures NonBlank(s) != "" && NonBlank(s)[0] == s[0]
  {
  }

  lemma {:induction false} FirstPut(newlines: bool, opts: Opts, parts: seq<Part>, n: nat, str: string, outside: char)
    requires n <= |parts|
    ensures Put(newlines, str, parts, n, EmitFirst(opts, parts, n, str, outside))
    decreases n
  {
    hide Gaps, NonBlank, EmitOne, Chars, TextGaps, Strs, NeedsNoGap;
    if n == 0 {
      NothingPut(newlines, str, parts);
    } else {
      var before, part := EmitFirst(opts, parts, n - 1, str, outside), parts[n-1];
      FirstPut(newlines, opts, parts, n - 1, str, outside);
      OnePut(newlines, opts, part, n == |parts|, before, outside);
      NextPut(newlines, str, parts, n, before, EmitOne(opts, part, n == |parts|, before, outside));
    }
  }

  lemma NothingPut(newlines: bool, str: string, parts: seq<Part>)
    ensures Put(newlines, str, parts, 0, str)
  {
    assert parts[..0] == [] && NonBlank(str) + "" == NonBlank(str);
  }

  lemma NextPut(newlines: bool, str: string, parts: seq<Part>, n: nat, before: string, out: string)
    requires 0 < n <= |parts| && Put(newlines, str, parts, n - 1, before)
    requires var part := parts[n-1]; var end := |NonBlank(before)|; var end2 := end + |NonBlank(part.str)|;
             && NonBlank(out) == NonBlank(before) + NonBlank(part.str)
             && Gaps(newlines, 0, out) <= Gaps(newlines, 0, before) + {end, end2} + Gaps(newlines, end, part.str)
             && (!newlines ==> forall k | k in Gaps(false, 0, before) + Gaps(false, end, part.str) && k < end2 ::
                   k in Gaps(false, 0, out) || NeedsNoGap(NonBlank(out), k))
             && (!newlines && n != |parts| && end2 > 0 ==> end2 in Gaps(false, 0, out) || NeedsNoGap(NonBlank(out), end2))
    ensures Put(newlines, str, parts, n, out)
  {
    hide Gaps, NonBlank, Chars, TextGaps, Strs, NeedsNoGap;
    var start, part := |NonBlank(str)|, parts[n-1];
    var end := |NonBlank(before)|;
    assert parts[..n] == parts[..n-1] + [part];
    StrsAppend(parts[..n-1], [part]);
    StrsOne(part);
    CharsAppend(Strs(parts[..n-1]), [part.str]);
    TextGapsAppend(newlines, start, Strs(parts[..n-1]), [part.str]);
    TextGapsBounds(newlines, start, Strs(parts[..n-1]));
    OneText(newlines, end, part.str);
    assert NonBlank(str) + (Chars(Strs(parts[..n-1])) + NonBlank(part.str)) == NonBlank(str) + Chars(Strs(parts[..n-1])) + NonBlank(part.str);
    forall k | !newlines && k in TextGaps(false, start, Strs(parts[..n])) && start < k && (k < |NonBlank(out)| || n < |parts|)
      ensures k in Gaps(false, 0, out) || NeedsNoGap(NonBlank(out), k)
    {
      GapsBounds(false, end, part.str);
      if k in TextGaps(false, start, Strs(parts[..n-1])) && k !in Gaps(false, 0, before) {
        NeedsNoGapLonger(NonBlank(before), NonBlank(part.str), k);
      }
    }
  }

  /** All of them, the last one dropped if it is empty, and a newline at the end. */
  lemma AllPut(newlines: bool, opts: Opts, parts: seq<Part>, str: string, outside: char)
    ensures var out := Emit(opts, parts, str, outside); var start, texts := |NonBlank(str)|, Strs(parts);
            && NonBlank(out) == NonBlank(str) + Chars(texts)
            && Gaps(newlines, 0, out) <= Gaps(newlines, 0, str) + TextGaps(newlines, start, texts)
            && (!newlines ==> forall k | k in TextGaps(false, start, texts) && start < k < |NonBlank(out)| ::
                  k in Gaps(false, 0, out) || NeedsNoGap(NonBlank(out), k))
  {
    hide Gaps, NonBlank, EmitFirst, Chars, TextGaps, Strs, NeedsNoGap;
    var ps := if parts != [] && parts[|parts|-1].str == "" then parts[..|parts|-1] else parts;
    var s := EmitFirst(opts, ps, |ps|, str, outside);
    assert ps[..|ps|] == ps;
    FirstPut(newlines, opts, ps, |ps|, str, outside);
    DroppedTexts(newlines, |NonBlank(str)|, parts);
    TextGapsBounds(newlines, |NonBlank(str)|, Strs(parts));
    GapsAppend(newlines, 0, s, "\n");
    NonBlankAppend(s, "\n");
    assert "\n" == ['\n'];
    OneChar(newlines, |NonBlank(s)|, '\n');
    assert s + "" == s;
  }

  lemma DroppedTexts(newlines: bool, n: nat, parts: seq<Part>)
    ensures var ps := if parts != [] && parts[|parts|-1].str == "" then parts[..|parts|-1] else parts;
            Chars(Strs(ps)) == Chars(Strs(parts)) && TextGaps(newlines, n, Strs(ps)) == TextGaps(newlines, n, Strs(parts))
  {
    hide Chars, TextGaps, Strs;
    if parts != [] && parts[|parts|-1].str == "" {
      var front, last := parts[..|parts|-1], parts[|parts|-1];
      assert parts == front + [last];
      StrsAppend(front, [last]);
      StrsOne(last);
      CharsAppend(Strs(front), [""]);
      TextGapsAppend(newlines, n, Strs(front), [""]);
      TextGapsBounds(newlines, n, Strs(front));
      NoText(newlines, n + |Chars(Strs(front))|);
      OneText(newlines, n + |Chars(Strs(front))|, "");
    }
  }

  // ---------- Statements ----------

  /** Lines of comments have the characters of the comments. */
  lemma LeadChars(opts: Opts, before: string, w: Written, emitted: set<nat>, location: int)
    requires Linked(before, w, Writing(Level(0, []), emitted))
    ensures var (lines, all) := CommentLines(opts, emitted, location);
            var w2 := if opts.comments != [] then Break(AddComments(opts.comments, w, location, 0)) else w;
            Linked(before + Chars(Strs(lines)), w2, Writing(Level(0, []), all))
  {
    hide Linked, Stepped, AddComments, AddCommentsFrom, Break, Chars, Lines;
    if opts.comments == [] {
      NoCommentLines(opts, emitted, location);
      assert Chars(Strs([])) == "" by { NothingMore(); assert Strs([]) == []; }
      assert before + "" == before;
    } else {
      CommentLinesAre(opts, emitted, location);
      var v := Writing(Level(0, []), emitted);
      CommentsPlaced(false, before, w, v, opts, location, 0);
      var w2, v2 := AddComments(opts.comments, w, location, 0), AddCommentsFrom(opts, v, location, 0);
      SteppedParts(false, before, v.level, w2, v2);
      StartedStep(false, before, w2, v2, opts.indentSize);
      var v3 := v2.(level := Started(v2.level, opts.indentSize));
      SteppedParts(false, before, v2.level, w2, v3);
      ClosedChars(opts, before, w2, v3);
    }
  }

  lemma ClosedChars(opts: Opts, before: string, w: Written, v: Writing)
    requires Linked(before, w, v) && HasPart(v.level)
    ensures Linked(before + Chars(Strs(Lines(opts, WithoutEmptyPart(v.level)))), Break(w), Writing(Level(0, []), v.emitted))
  {
    hide Chars, Break, CharsOf, LinesOf, Front, Laid, TextsOf;
    var l := WithoutEmptyPart(v.level);
    WithoutEmptyTexts(v.level);
    TextsAre(l);
    LinesAre(opts, l);
    LinesLaid(false, before, opts, l, l.groups);
    LaidChars(false, before, TextsOf(l), Strs(Lines(opts, l)));
    BreakChars(w);
    BreakIs(w);
    TextsAre(Level(0, []));
    NothingMore();
    assert GroupsTexts([]) == [];
  }

  lemma WithoutEmptyTexts(level: Level)
    requires HasPart(level)
    ensures Chars(TextsOf(WithoutEmptyPart(level))) == Chars(TextsOf(level))
  {
    hide TextsOf, Chars;
    if LastPart(level).str == "" {
      LastTexts(level, LastPart(level));
      CharsAppend(Front(level), [""]);
      NothingMore();
    }
  }

  lemma BodyPlaced(newlines: bool, opts: Opts, ops: seq<Op>, before: string, w: Written, emitted: set<nat>)
    requires Linked(before, w, Writing(Level(0, []), emitted))
    ensures SpotsHold(newlines, before, Strs(BodyLines(opts, ops, emitted).0), OpsSpots(opts, ops, w))
  {
    hide Linked, Stepped, SpotsHold, OpsSpots, WriteOps, RunOps, Laid, LinesOf, Placed, TextsOf;
    var v := Writing(Level(0, []), emitted);
    OpsPlaced(newlines, before, w, v, opts, ops);
    var w2, v2 := RunOps(opts.comments, ops, w), WriteOps(opts, ops, v);
    PlacedParts(newlines, before, v.level, w2, v2, OpsSpots(opts, ops, w));
    TextsAre(v2.level);
    LinesAre(opts, v2.level);
    LinesLaid(newlines, before, opts, v2.level, v2.level.groups);
    SpotsLaid(newlines, before, TextsOf(v2.level), Strs(Lines(opts, v2.level)), OpsSpots(opts, ops, w));
  }

  lemma StatementPlaced(newlines: bool, opts: Opts, ops: seq<Op>, location: int, start: string)
    ensures SpotsHold(newlines, NonBlank(start), Strs(StatementParts(opts, ops, location)), StatementSpots(opts, ops, location, start))
  {
    hide Linked, SpotsHold, OpsSpots, CommentLines, BodyLines, AddComments, Break, Strs, Chars, GoesOn;
    var before := NonBlank(start);
    var (lead, emitted) := CommentLines(opts, {}, location);
    var (body, all) := BodyLines(opts, ops, emitted);
    var tail := CommentLines(opts, all, INT_MAX).0;
    var w0 := Written(start, "", [], {});
    var w := AfterLead(opts.comments, location, start);
    NothingLinked(start);
    LeadChars(opts, before, w0, {}, location);
    BodyPlaced(newlines, opts, ops, before + Chars(Strs(lead)), w, emitted);
    var spots := StatementSpots(opts, ops, location, start);
    SpotsInside(newlines, before, Strs(lead), Strs(body), spots);
    GoesOnBehind(newlines, before, Strs(lead) + Strs(body), Strs(tail));
    SpotsStay(newlines, before, Strs(lead) + Strs(body), Strs(lead) + Strs(body) + Strs(tail), spots);
    StrsAppend(lead, body);
    StrsAppend(lead + body, tail);
  }

  lemma NothingLinked(start: string)
    ensures Linked(NonBlank(start), Written(start, "", [], {}), Writing(Level(0, []), {}))
  {
    assert TextsOf(Level(0, [])) == [] && Chars([]) == "";
  }

  /** The commas of a statement, and its texts, are in the output where they should be. */
  lemma OutputInPlace(opts: Opts, ops: seq<Op>, location: int, str: string, outside: char)
    ensures InPlace(opts, ops, location, str, Emit(opts, StatementParts(opts, ops, location), str, outside))
  {
    hide SpotsHold, StatementSpots, StatementParts, Emit, Gaps, TextGaps, Chars, Strs, NonBlank, NeedsNoGap, Glue;
    var parts := StatementParts(opts, ops, location);
    var spots := StatementSpots(opts, ops, location, WordsOf(str));
    var out := Emit(opts, parts, str, outside);
    GlueKeepsCharacters("", str);
    assert NonBlank(WordsOf(str)) == NonBlank(str) by { NoText(false, 0); assert "" + NonBlank(str) == NonBlank(str); }
    StatementPlaced(false, opts, ops, location, WordsOf(str));
    StatementPlaced(true, opts, ops, location, WordsOf(str));
    AllPut(false, opts, parts, str, outside);
    AllPut(true, opts, parts, str, outside);
    GapsBounds(false, 0, str);
    GapsBounds(true, 0, str);
    forall spot | spot in spots ensures HasSpot(out, |NonBlank(str)|, spot) {
      SpotInOutput(parts, str, out, spots, spot);
    }
  }

  lemma SpotInOutput(parts: seq<Part>, str: string, out: string, spots: set<Spot>, spot: Spot)
    requires var before := NonBlank(str);
             && SpotsHold(false, before, Strs(parts), spots) && SpotsHold(true, before, Strs(parts), spots) && spot in spots
    requires var start, texts := |NonBlank(str)|, Strs(parts);
             && NonBlank(out) == NonBlank(str) + Chars(texts)
             && Gaps(false, 0, out) <= Gaps(false, 0, str) + TextGaps(false, start, texts)
             && Gaps(true, 0, out) <= Gaps(true, 0, str) + TextGaps(true, start, texts)
             && (forall k | k in TextGaps(false, start, texts) && start < k < |NonBlank(out)| ::
                   k in Gaps(false, 0, out) || NeedsNoGap(NonBlank(out), k))
    ensures HasSpot(out, |NonBlank(str)|, spot)
  {
    hide Gaps, TextGaps, Chars, Strs, NonBlank, NeedsNoGap;
    var start, texts := |NonBlank(str)|, Strs(parts);
    GapsBounds(false, 0, str);
    GapsBounds(true, 0, str);
    TextGapsBounds(false, start, texts);
    TextGapsBounds(true, start, texts);
    assert SpotHolds(false, start, NonBlank(str) + Chars(texts), TextGaps(false, start, texts), spot);
    assert SpotHolds(true, start, NonBlank(str) + Chars(texts), TextGaps(true, start, texts), spot);
  }

  // ---------- The lines of a pretty-printing run ----------

  /** A part stands after its indentation, and loses one space at its end. */
  function LineOf(part: Part): string {
    if part.str != "" then Spaces(part.indent) + Trimmed(part.str)
    else if part.indent > 0 then Spaces(part.indent - 1) else ""
  }

  /** Lines, with newlines between them. */
  function InLines(lines: seq<string>): string {
    if lines == [] then "" else if |lines| == 1 then lines[0] else InLines(lines[..|lines|-1]) + "\n" + lines[|lines|-1]
  }

  function LinesFor(parts: seq<Part>): (lines: seq<string>)
    ensures |lines| == |parts| && forall i | 0 <= i < |lines| :: lines[i] == LineOf(parts[i])
  {
    if parts == [] then [] else LinesFor(parts[..|parts|-1]) + [LineOf(parts[|parts|-1])]
  }

  /** Only an empty part without indentation takes a space from what is in front of it. */
  function InFront(str: string, parts: seq<Part>): string {
    if parts != [] && parts[0].str == "" && parts[0].indent == 0 then Trimmed(str) else str
  }

  lemma TrimmedBehind(str: string, part: Part)
    ensures Trimmed(str + Spaces(part.indent) + part.str) == InFront(str, [part]) + LineOf(part)
    ensures str != "" && str[|str|-1] == '\n' ==> InFront(str, [part]) == str
  {
    var ready := str + Spaces(part.indent);
    if part.str != "" {
      var s := part.str;
      if s[|s|-1] == ' ' {
        assert (ready + s)[..|ready + s|-1] == str + (Spaces(part.indent) + s[..|s|-1]);
      } else {
        assert ready + s == str + (Spaces(part.indent) + s);
      }
    } else {
      assert ready + "" == ready;
      if part.indent > 0 {
        assert Spaces(part.indent)[..part.indent-1] == Spaces(part.indent - 1);
        assert ready[..|ready|-1] == str + Spaces(part.indent - 1);
      } else {
        assert Spaces(0) == "" && str + "" == str && Trimmed(str) + "" == Trimmed(str);
      }
    }
  }

  lemma OneLine(opts: Opts, part: Part, isLast: bool, str: string, outside: char)
    requires opts.prettyPrint
    ensures EmitOne(opts, part, isLast, str, outside) == InFront(str, [part]) + LineOf(part) + if isLast then "" else "\n"
    ensures str != "" && str[|str|-1] == '\n' ==> InFront(str, [part]) == str
  {
    hide LineOf, InFront;
    TrimmedBehind(str, part);
    assert InFront(str, [part]) + LineOf(part) + "" == InFront(str, [part]) + LineOf(part);
  }

  lemma {:induction false} LinesPut(opts: Opts, parts: seq<Part>, n: nat, str: string, outside: char)
    requires opts.prettyPrint && 0 < n <= |parts|
    ensures EmitFirst(opts, parts, n, str, outside) ==
            InFront(str, parts) + InLines(LinesFor(parts[..n])) + if n < |parts| then "\n" else ""
    decreases n
  {
    hide LineOf, EmitFirst, EmitOne, Spaces, LinesFor, InLines, InFront;
    var part := parts[n-1];
    EmitFirstIs(opts, parts, n, str, outside);
    LinesForNext(parts, n);
    if n == 1 {
      NoneEmitted(opts, parts, str, outside);
      OneLine(opts, part, n == |parts|, str, outside);
      FirstInFront(str, parts);
    } else {
      var before := EmitFirst(opts, parts, n - 1, str, outside);
      LinesPut(opts, parts, n - 1, str, outside);
      OneLine(opts, part, n == |parts|, before, outside);
      InLinesNext(LinesFor(parts[..n-1]), LineOf(part));
      Shift(InFront(str, parts), InLines(LinesFor(parts[..n-1])), "\n", LineOf(part));
    }
  }

  lemma Shift(a: string, b: string, c: string, d: string)
    ensures a + (b + c + d) == a + b + c + d
  {
  }

  lemma FirstInFront(str: string, parts: seq<Part>)
    requires parts != []
    ensures InFront(str, parts) == InFront(str, [parts[0]])
  {
  }

  lemma LinesForNext(parts: seq<Part>, n: nat)
    requires 0 < n <= |parts|
    ensures LinesFor(parts[..n]) == LinesFor(parts[..n-1]) + [LineOf(parts[n-1])]
    ensures n == 1 ==> InLines(LinesFor(parts[..n])) == LineOf(parts[0])
  {
    assert parts[..n][..n-1] == parts[..n-1];
    hide LineOf;
  }

  lemma InLinesNext(lines: seq<string>, line: string)
    requires lines != []
    ensures InLines(lines + [line]) == InLines(lines) + "\n" + line
  {
    assert (lines + [line])[..|lines|] == lines;
  }

  lemma NoneEmitted(opts: Opts, parts: seq<Part>, str: string, outside: char)
    ensures EmitFirst(opts, parts, 0, str, outside) == str
  {
  }

  lemma EmitFirstIs(opts: Opts, parts: seq<Part>, n: nat, str: string, outside: char)
    requires 0 < n <= |parts|
    ensures EmitFirst(opts, parts, n, str, outside) ==
            EmitOne(opts, parts[n-1], n == |parts|, EmitFirst(opts, parts, n - 1, str, outside), outside)
  {
  }

  /** A pretty-printing run writes each part on lines of its own, behind as many spaces as it is indented. */
  lemma OutputInLines(opts: Opts, parts: seq<Part>, str: string, outside: char)
    requires opts.prettyPrint
    ensures var ps := WithoutEmptyLast(parts);
            Emit(opts, parts, str, outside) == InFront(str, ps) + InLines(LinesFor(ps)) + if opts.trailingNewline then "\n" else ""
  {
    hide EmitFirst, LinesFor, LineOf, Trimmed;
    var ps := WithoutEmptyLast(parts);
    assert ps[..|ps|] == ps;
    if ps == [] {
      NoneEmitted(opts, ps, str, outside);
      assert LinesFor(ps) == [] && str + "" == str;
    } else {
      LinesPut(opts, ps, |ps|, str, outside);
      assert InFront(str, ps) + InLines(LinesFor(ps)) + "" == InFront(str, ps) + InLines(LinesFor(ps));
    }
  }

  // ---------- The spaces of other runs ----------

  function TotalLength(parts: seq<Part>): nat {
    if parts == [] then 0 else TotalLength(parts[..|parts|-1]) + |parts[|parts|-1].str|
  }

  lemma {:induction false} FirstLength(opts: Opts, parts: seq<Part>, n: nat, str: string, outside: char)
    requires !opts.prettyPrint && n <= |parts|
    ensures |EmitFirst(opts, parts, n, str, outside)| <=
            |str| + TotalLength(parts[..n]) + if 0 < n == |parts| then n - 1 else n
    decreases n
  {
    if n > 0 {
      FirstLength(opts, parts, n - 1, str, outside);
      assert parts[..n][..n-1] == parts[..n-1];
    }
  }

  /** A run that does not pretty-print puts one space at most between two parts, and nothing else. */
  lemma OneSpaceBetween(opts: Opts, parts: seq<Part>, str: string, outside: char)
    requires !opts.prettyPrint && parts != []
    ensures var ps := WithoutEmptyLast(parts);
            |Emit(opts, parts, str, outside)| <= |str| + TotalLength(ps) + if ps == [] then 0 else |ps| - 1
  {
    hide EmitFirst, TotalLength;
    var ps := WithoutEmptyLast(parts);
    assert ps[..|ps|] == ps;
    FirstLength(opts, ps, |ps|, str, outside);
  }
}
