/** Where the commas and the texts of a script are in the output.  With commas at the end of lines a comma is
    directly behind the text before it.  With commas at the start of lines it is set off from what is before
    it, and what comes next is on the same line. */
module LayoutCommas {
  import opened LayoutText
  import opened LayoutState
  import opened LayoutScript
  import opened LayoutLines
  import opened LayoutLevel
  import opened LayoutEmit
  import opened LayoutEngine
  import opened LayoutGaps

  // ---------- What the script asks for ----------

  /** Something about character k of the output, blanks not counted. */
  datatype Spot =
    | IsComma(k: nat)
    | Directly(k: nat)    // there is no blank in front of it
    | OnSameLine(k: nat)  // there is no newline in front of it
    | SetOff(k: nat)      // there is a blank in front of it, except behind an opening parenthesis

  ghost function CharsOf(w: Written): string {
    NonBlank(w.done) + NonBlank(w.cur)
  }

  /** A text at the end of a part stands as it is behind the other text of the part. */
  ghost function TextSpots(w: Written, s: string): set<Spot> {
    var done, from := |NonBlank(w.done)|, |CharsOf(w)|;
    (set k | from <= k < from + |NonBlank(s)| && done < k && k !in Gaps(false, done, w.cur + s) :: Directly(k)) +
    (set k | from <= k < from + |NonBlank(s)| && done < k && k !in Gaps(true, done, w.cur + s) :: OnSameLine(k))
  }

  ghost function CommaSpots(opts: Opts, w: Written): set<Spot> {
    {IsComma(|CharsOf(w)|)} + if opts.commasStartOfLine then {SetOff(|CharsOf(w)|)} else TextSpots(w, ",")
  }

  /** A text right behind a comma. */
  predicate TextFollows(ops: seq<Op>) {
    |ops| > 1 && ops[0] == Comma && ops[1].Text? && ops[1].s != "" && !IsBlank(ops[1].s[0])
  }

  ghost function FollowSpots(opts: Opts, ops: seq<Op>, w: Written): set<Spot> {
    if opts.commasStartOfLine && TextFollows(ops) then {OnSameLine(|CharsOf(w)| + 1)} else {}
  }

  ghost function OpSpots(opts: Opts, op: Op, w: Written): set<Spot>
    decreases op, 0
  {
    match op
    case Text(s) => TextSpots(w, s)
    case Comma => CommaSpots(opts, w)
    case Nested(body) => OpsSpots(opts, body, Break(w))
    case _ => {}
  }

  ghost function OpsSpots(opts: Opts, ops: seq<Op>, w: Written): set<Spot>
    decreases ops, 1
  {
    if ops == [] then {}
    else FollowSpots(opts, ops, w) + OpSpots(opts, ops[0], w) + OpsSpots(opts, ops[1..], RunOp(opts.comments, ops[0], w))
  }

  ghost function StatementSpots(opts: Opts, ops: seq<Op>, location: int, start: string): set<Spot> {
    OpsSpots(opts, ops, AfterLead(opts.comments, location, start))
  }

  /** Does the output have it?  What comes first in a statement is set off by the caller. */
  ghost predicate HasSpot(out: string, start: nat, spot: Spot) {
    && spot.k < |NonBlank(out)|
    && match spot
       case IsComma(k) => NonBlank(out)[k] == ','
       case Directly(k) => k !in Gaps(false, 0, out)
       case OnSameLine(k) => k !in Gaps(true, 0, out)
       case SetOff(k) => k == start || k in Gaps(false, 0, out) || NeedsNoGap(NonBlank(out), k)
  }

  /** Commas and texts are where the script asks for them. */
  ghost predicate InPlace(opts: Opts, ops: seq<Op>, location: int, str: string, out: string) {
    forall spot | spot in StatementSpots(opts, ops, location, WordsOf(str)) :: HasSpot(out, |NonBlank(str)|, spot)
  }

  /** With commas at the end of lines, the comma behind a text that does not end in a blank is directly behind it. */
  lemma CommaBehindText(opts: Opts, w: Written)
    requires !opts.commasStartOfLine && w.cur != "" && !IsBlank(w.cur[|w.cur|-1])
    ensures Directly(|CharsOf(w)|) in CommaSpots(opts, w)
  {
    var n := |NonBlank(w.done)|;
    NoGapAtEnd(false, n, w.cur);
    GapsAppend(false, n, w.cur, ",");
    OneChar(false, |CharsOf(w)|, ',');
  }

  // ---------- Texts of a level ----------

  ghost function TextsOf(level: Level): seq<string> {
    GroupsTexts(level.groups)
  }

  /** All but the last part. */
  ghost function Front(level: Level): seq<string>
    requires HasPart(level)
  {
    TextsOf(WithParts(level, LastGroup(level).parts[..|LastGroup(level).parts|-1]))
  }

  lemma MoreParts(level: Level, parts: seq<Part>, more: seq<Part>)
    requires level.groups != []
    ensures TextsOf(WithParts(level, parts + more)) == TextsOf(WithParts(level, parts)) + Strs(more)
  {
    hide Strs;
    var a, b := WithParts(level, parts).groups, WithParts(level, parts + more).groups;
    assert a[..|a|-1] == level.groups[..|level.groups|-1] && b[..|b|-1] == level.groups[..|level.groups|-1];
    StrsAppend(parts, more);
  }

  lemma SameParts(level: Level)
    requires level.groups != []
    ensures WithParts(level, LastGroup(level).parts) == level
  {
    assert level.groups[..|level.groups|-1] + [LastGroup(level)] == level.groups;
  }

  lemma LastTexts(level: Level, part: Part)
    requires HasPart(level)
    ensures TextsOf(level) == Front(level) + [LastPart(level).str]
    ensures TextsOf(WithLastPart(level, part)) == Front(level) + [part.str]
    ensures HasPart(WithLastPart(level, part)) && LastPart(WithLastPart(level, part)) == part
  {
    var parts := LastGroup(level).parts;
    SameParts(level);
    assert parts == parts[..|parts|-1] + [LastPart(level)];
    hide TextsOf;
    MoreParts(level, parts[..|parts|-1], [LastPart(level)]);
    MoreParts(level, parts[..|parts|-1], [part]);
    StrsOne(LastPart(level));
    StrsOne(part);
  }

  // ---------- The link between the level and the script ----------

  /** The level has the characters that have been written, and the current part ends in the current text. */
  ghost predicate Linked(before: string, w: Written, v: Writing) {
    && before + Chars(TextsOf(v.level)) == CharsOf(w)
    && (if v.level.groups == [] then w.cur == "" else HasPart(v.level) && EndsIn(LastPart(v.level).str, w.cur))
    && forall i :: i in v.emitted <==> i in w.order
  }

  /** What a step does: the link stays, and what has been laid out stays. */
  ghost predicate Stepped(newlines: bool, before: string, level: Level, w2: Written, v2: Writing) {
    Linked(before, w2, v2) && GoesOn(newlines, before, TextsOf(level), TextsOf(v2.level))
  }

  lemma SteppedTwice(newlines: bool, before: string, level: Level, w2: Written, v2: Writing, w3: Written, v3: Writing)
    requires Stepped(newlines, before, level, w2, v2) && Stepped(newlines, before, v2.level, w3, v3)
    ensures Stepped(newlines, before, level, w3, v3)
  {
    hide Linked, GoesOn, TextsOf;
    GoesOnTwice(newlines, before, TextsOf(level), TextsOf(v2.level), TextsOf(v3.level));
  }

  lemma SteppedSame(newlines: bool, before: string, w: Written, v: Writing)
    requires Linked(before, w, v)
    ensures Stepped(newlines, before, v.level, w, v)
  {
    hide Linked, GoesOn, TextsOf;
    GoesOnSame(newlines, before, TextsOf(v.level));
  }

  lemma LinkedReady(before: string, w: Written, v: Writing)
    requires Linked(before, w, v)
    ensures Ready(v.level)
  {
  }

  lemma BreakChars(w: Written)
    ensures CharsOf(Break(w)) == CharsOf(w)
  {
    ScanKeepsCharacters(Words(w.done, true), w.cur);
  }

  lemma BreakLinked(before: string, w: Written, v: Writing)
    requires Linked(before, w, v)
    ensures Linked(before, Break(w), v)
  {
    BreakChars(w);
  }

  lemma StartedStep(newlines: bool, before: string, w: Written, v: Writing, indentSize: nat)
    requires Linked(before, w, v)
    ensures var v2 := v.(level := Started(v.level, indentSize));
            HasPart(v2.level) && Stepped(newlines, before, v.level, w, v2)
  {
    hide CharsOf, GoesOn;
    if v.level.groups == [] {
      var level := Started(v.level, indentSize);
      StrsOne(LastPart(level));
      assert TextsOf(level) == [""] && TextsOf(v.level) == [] by {
        assert level.groups[..0] == [];
        assert GroupsTexts([]) == [] && [] + [""] == [""];
      }
      OneText(newlines, |before|, "");
      assert Chars([]) == "";
      GoesOnBehind(newlines, before, [], [""]);
      assert [] + [""] == [""];
    } else {
      GoesOnSame(newlines, before, TextsOf(v.level));
    }
  }

  /** The last part replaced, on a level that has one. */
  lemma ReplacedStep(newlines: bool, before: string, w: Written, v: Writing, part: Part, w2: Written)
    requires Linked(before, w, v) && HasPart(v.level)
    requires GoesOn(newlines, before + Chars(Front(v.level)), [LastPart(v.level).str], [part.str])
    requires EndsIn(part.str, w2.cur) && w2.order == w.order
    requires CharsOf(w2) == before + Chars(Front(v.level)) + NonBlank(part.str)
    ensures Stepped(newlines, before, v.level, w2, v.(level := WithLastPart(v.level, part)))
  {
    hide CharsOf, GoesOn, TextsOf, Chars, EndsIn, Front;
    LastTexts(v.level, part);
    OneText(newlines, 0, part.str);
    CharsAppend(Front(v.level), [part.str]);
    GoesOnInside(newlines, before, Front(v.level), [LastPart(v.level).str], [part.str]);
    assert before + (Chars(Front(v.level)) + NonBlank(part.str)) == before + Chars(Front(v.level)) + NonBlank(part.str);
  }

  lemma LastChars(before: string, w: Written, v: Writing)
    requires Linked(before, w, v) && HasPart(v.level)
    ensures CharsOf(w) == before + Chars(Front(v.level)) + NonBlank(LastPart(v.level).str)
    ensures EndsIn(LastPart(v.level).str, w.cur)
  {
    hide CharsOf, Chars, EndsIn, TextsOf, Front;
    LastTexts(v.level, LastPart(v.level));
    CharsAppend(Front(v.level), [LastPart(v.level).str]);
    OneText(false, 0, LastPart(v.level).str);
  }

  lemma AddStep(newlines: bool, before: string, w: Written, v: Writing, s: string, indentSize: nat)
    requires Linked(before, w, v) && Ready(v.level)
    ensures Stepped(newlines, before, v.level, Add(w, s), v.(level := AddText(v.level, s, indentSize)))
  {
    hide GoesOn, TextsOf, Chars, Front, Linked, Stepped, CharsOf;
    StartedStep(newlines, before, w, v, indentSize);
    var v1 := v.(level := Started(v.level, indentSize));
    SteppedParts(newlines, before, v.level, w, v1);
    LastChars(before, w, v1);
    var part := LastPart(v1.level);
    GoesOnLonger(newlines, before + Chars(Front(v1.level)), part.str, s);
    NonBlankAppend(part.str, s);
    AddChars(w, s);
    var c := before + Chars(Front(v1.level));
    assert c + NonBlank(part.str) + NonBlank(s) == c + (NonBlank(part.str) + NonBlank(s));
    EndsInMore(part.str, w.cur, s);
    ReplacedStep(newlines, before, w, v1, part.(str := part.str + s), Add(w, s));
    SteppedTwice(newlines, before, v.level, w, v1, Add(w, s), v1.(level := AddText(v.level, s, indentSize)));
  }

  lemma EndsInMore(a: string, b: string, s: string)
    requires EndsIn(a, b)
    ensures EndsIn(a + s, b + s)
  {
    assert a == a[..|a|-|b|] + b;
    assert (a + s)[|a|-|b|..] == b + s;
  }

  lemma SteppedParts(newlines: bool, before: string, level: Level, w: Written, v: Writing)
    requires Stepped(newlines, before, level, w, v)
    ensures Linked(before, w, v)
  {
  }

  lemma AddChars(w: Written, s: string)
    ensures CharsOf(Add(w, s)) == CharsOf(w) + NonBlank(s) && Add(w, s).order == w.order
  {
    NonBlankAppend(w.cur, s);
  }

  lemma SameTextStep(newlines: bool, before: string, w: Written, v: Writing, indentSize: nat)
    requires Linked(before, w, v) && Ready(v.level)
    ensures Stepped(newlines, before, v.level, w, v.(level := Unmergeable(v.level, indentSize)))
  {
    hide GoesOn, TextsOf, Chars, Front, Linked, Stepped, CharsOf, EndsIn;
    StartedStep(newlines, before, w, v, indentSize);
    var v1 := v.(level := Started(v.level, indentSize));
    SteppedParts(newlines, before, v.level, w, v1);
    LastChars(before, w, v1);
    GoesOnSame(newlines, before + Chars(Front(v1.level)), [LastPart(v1.level).str]);
    ReplacedStep(newlines, before, w, v1, LastPart(v1.level).(mergeable := false), w);
    SteppedTwice(newlines, before, v.level, w, v1, w, v1.(level := Unmergeable(v.level, indentSize)));
  }

  lemma TrimStep(newlines: bool, before: string, w: Written, v: Writing, indentSize: nat)
    requires Linked(before, w, v) && Ready(v.level)
    ensures Stepped(newlines, before, v.level, w.(cur := Trimmed(w.cur)), v.(level := WithoutSpace(v.level, indentSize)))
  {
    hide GoesOn, TextsOf, Chars, Front, Linked, Stepped;
    StartedStep(newlines, before, w, v, indentSize);
    var v1 := v.(level := Started(v.level, indentSize));
    SteppedParts(newlines, before, v.level, w, v1);
    LastChars(before, w, v1);
    var part := LastPart(v1.level);
    TrimmedGaps(newlines, 0, part.str);
    TrimmedGaps(newlines, 0, w.cur);
    GoesOnTrimmed(newlines, before + Chars(Front(v1.level)), part.str);
    TrimmedEnd(part.str, w.cur);
    ReplacedStep(newlines, before, w, v1, part.(str := Trimmed(part.str)), w.(cur := Trimmed(w.cur)));
    SteppedTwice(newlines, before, v.level, w, v1, w.(cur := Trimmed(w.cur)), v1.(level := WithoutSpace(v.level, indentSize)));
  }

  lemma TrimmedEnd(s: string, end: string)
    requires EndsIn(s, end)
    ensures EndsIn(Trimmed(s), Trimmed(end))
  {
    if end == "" {
      assert Trimmed(s)[|Trimmed(s)|..] == "";
    } else {
      assert s[|s|-1] == end[|end|-1];
      if end[|end|-1] == ' ' {
        assert s[..|s|-1][|s|-|end|..] == end[..|end|-1];
      }
    }
  }

  /** More texts behind the level, the last of which is empty. */
  lemma BehindStep(newlines: bool, before: string, w: Written, v: Writing, w2: Written, level2: Level, more: seq<string>)
    requires Linked(before, w, v) && HasPart(level2) && LastPart(level2).str == "" && w2.cur == "" && w2.order == w.order
    requires TextsOf(level2) == TextsOf(v.level) + more && CharsOf(w2) == CharsOf(w) + Chars(more)
    ensures Stepped(newlines, before, v.level, w2, v.(level := level2))
  {
    hide CharsOf, GoesOn, TextsOf, Chars;
    CharsAppend(TextsOf(v.level), more);
    GoesOnBehind(newlines, before, TextsOf(v.level), more);
  }

  lemma NothingMore()
    ensures Chars([""]) == "" && Chars([]) == ""
  {
    OneText(false, 0, "");
  }

  lemma NextPartTexts(level: Level, deduplicate: bool, indentSize: nat)
    requires HasPart(level)
    ensures var next := WithNextPart(level, deduplicate, indentSize);
            && HasPart(next) && LastPart(next).str == ""
            && TextsOf(next) == TextsOf(level) + if deduplicate && LastPart(level).str == "" then [] else [""]
  {
    hide TextsOf;
    var l := if deduplicate then WithoutEmptyPart(level) else level;
    var part := MakePart(l, LastGroup(level).indentMode, indentSize);
    MoreParts(l, LastGroup(l).parts, [part]);
    SameParts(l);
    StrsOne(part);
    LastTexts(level, part);
  }

  lemma PartStep(newlines: bool, before: string, w: Written, v: Writing, deduplicate: bool, indentSize: nat)
    requires Linked(before, w, v) && Ready(v.level)
    ensures Stepped(newlines, before, v.level, Break(w), v.(level := AddPart(v.level, deduplicate, indentSize)))
    ensures LastPart(AddPart(v.level, deduplicate, indentSize)).str == ""
  {
    hide GoesOn, TextsOf, Chars, Front, Linked, Stepped, CharsOf, Break, WithNextPart;
    StartedStep(newlines, before, w, v, indentSize);
    var v1 := v.(level := Started(v.level, indentSize));
    SteppedParts(newlines, before, v.level, w, v1);
    NextPartTexts(v1.level, deduplicate, indentSize);
    NothingMore();
    BreakChars(w);
    BreakIs(w);
    var level2 := AddPart(v.level, deduplicate, indentSize);
    BehindStep(newlines, before, w, v1, Break(w), level2, if deduplicate && LastPart(v1.level).str == "" then [] else [""]);
    SteppedTwice(newlines, before, v.level, w, v1, Break(w), v1.(level := level2));
  }

  lemma BreakIs(w: Written)
    ensures Break(w).cur == "" && Break(w).order == w.order
  {
  }

  lemma GroupStep(newlines: bool, before: string, w: Written, v: Writing, opts: Opts, keyword: Option<string>, indentMode: IndentMode)
    requires Linked(before, w, v) && Ready(v.level)
    ensures Stepped(newlines, before, v.level, StartGroup(w, keyword), v.(level := AddGroup(opts, v.level, keyword, indentMode)))
  {
    hide GoesOn, TextsOf, Chars, Front, Linked, Stepped, CharsOf, Break, WithNextPart, WithoutSpace;
    var w1 := if v.level.groups == [] then w else w.(cur := Trimmed(w.cur));
    var v1 := if v.level.groups == [] then v else v.(level := WithoutSpace(v.level, opts.indentSize));
    if v.level.groups == [] {
      SteppedSame(newlines, before, w, v);
    } else {
      TrimStep(newlines, before, w, v, opts.indentSize);
    }
    SteppedParts(newlines, before, v.level, w1, v1);
    var g := PartGroup(keyword, indentMode, [MakePart(v1.level, indentMode, opts.indentSize)]);
    GroupTextsNext(v1.level, g);
    TrimmedGaps(false, 0, w.cur);
    GroupChars(w, keyword);
    var level2 := AddGroup(opts, v.level, keyword, indentMode);
    assert CharsOf(w1) == CharsOf(w) by { hide Trimmed; assert CharsOf(w) == NonBlank(w.done) + NonBlank(w.cur) by { CharsAre(w); } CharsAre(w1); }
    BehindStep(newlines, before, w1, v1, StartGroup(w, keyword), level2, GroupTexts(g));
    SteppedTwice(newlines, before, v.level, w1, v1, StartGroup(w, keyword), v1.(level := level2));
  }

  lemma CharsAre(w: Written)
    ensures CharsOf(w) == NonBlank(w.done) + NonBlank(w.cur)
  {
  }

  lemma GroupTextsNext(level: Level, g: PartGroup)
    requires |g.parts| == 1 && g.parts[0].str == ""
    ensures TextsOf(level.(groups := level.groups + [g])) == TextsOf(level) + GroupTexts(g)
    ensures GroupTexts(g) == (if g.keyword.Some? then [g.keyword.value] else []) + [""]
    ensures Chars(GroupTexts(g)) == if g.keyword.Some? then NonBlank(g.keyword.value) else ""
  {
    assert (level.groups + [g])[..|level.groups|] == level.groups;
    StrsOne(g.parts[0]);
    assert g.parts == [g.parts[0]];
    if g.keyword.Some? {
      TwoTexts(false, 0, g.keyword.value, "");
      assert [g.keyword.value] + [""] == [g.keyword.value, ""];
      assert NonBlank(g.keyword.value) + "" == NonBlank(g.keyword.value);
    } else {
      NothingMore();
      assert [] + [""] == [""];
    }
  }

  lemma GroupChars(w: Written, keyword: Option<string>)
    ensures CharsOf(StartGroup(w, keyword)) == CharsOf(w) + if keyword.Some? then NonBlank(keyword.value) else ""
    ensures StartGroup(w, keyword).cur == "" && StartGroup(w, keyword).order == w.order
  {
    ScanKeepsCharacters(Words(w.done, true), w.cur);
    if keyword.Some? {
      GlueKeepsCharacters(Value(w).text, keyword.value);
    }
  }

  // ---------- Spots ----------

  /** Does a text with these characters and gaps, the first of them at from, have it? */
  ghost predicate SpotHolds(newlines: bool, from: nat, chars: string, gaps: set<nat>, spot: Spot) {
    && from <= spot.k < |chars|
    && match spot
       case IsComma(k) => chars[k] == ','
       case Directly(k) => newlines || k !in gaps
       case OnSameLine(k) => newlines ==> k !in gaps
       case SetOff(k) => newlines || k in gaps || NeedsNoGap(chars, k)
  }

  ghost predicate SpotsHold(newlines: bool, before: string, texts: seq<string>, spots: set<Spot>) {
    forall spot | spot in spots :: SpotHolds(newlines, |before|, before + Chars(texts), TextGaps(newlines, |before|, texts), spot)
  }

  /** What comes later changes nothing. */
  lemma SpotsStay(newlines: bool, before: string, a: seq<string>, b: seq<string>, spots: set<Spot>)
    requires GoesOn(newlines, before, a, b) && SpotsHold(newlines, before, a, spots)
    ensures SpotsHold(newlines, before, b, spots)
  {
    hide TextGaps, Chars, NeedsNoGap;
    var more := Chars(b)[|Chars(a)|..];
    assert before + Chars(a) + more == before + Chars(b);
    forall spot | spot in spots
      ensures SpotHolds(newlines, |before|, before + Chars(b), TextGaps(newlines, |before|, b), spot)
    {
      if NeedsNoGap(before + Chars(a), spot.k) { NeedsNoGapLonger(before + Chars(a), more, spot.k); }
    }
  }

  /** Spots of some texts are spots of all of them. */
  lemma SpotsInside(newlines: bool, before: string, x: seq<string>, a: seq<string>, spots: set<Spot>)
    requires SpotsHold(newlines, before + Chars(x), a, spots)
    ensures SpotsHold(newlines, before, x + a, spots)
  {
    hide TextGaps, Chars, NeedsNoGap;
    var n := |before|;
    CharsAppend(x, a);
    TextGapsAppend(newlines, n, x, a);
    TextGapsBounds(newlines, n, x);
    TextGapsBounds(newlines, n + |Chars(x)|, a);
    assert before + Chars(x) + Chars(a) == before + Chars(x + a);
    assert |before + Chars(x)| == n + |Chars(x)|;
  }

  lemma SpotsLaid(newlines: bool, before: string, a: seq<string>, b: seq<string>, spots: set<Spot>)
    requires Laid(newlines, before, a, b) && SpotsHold(newlines, before, a, spots)
    ensures SpotsHold(newlines, before, b, spots)
  {
    LaidGoesOn(newlines, before, a, b);
    hide *;
    SpotsStay(newlines, before, a, b, spots);
  }

  /** A text added to the last part. */
  lemma LastGaps(newlines: bool, before: string, w: Written, v: Writing, s: string)
    requires Linked(before, w, v) && HasPart(v.level)
    ensures var part := LastPart(v.level).str; var done := |NonBlank(w.done)|;
            forall k | done < k < |CharsOf(Add(w, s))| && k !in Gaps(newlines, done, w.cur + s) ::
              k !in TextGaps(newlines, |before|, Front(v.level) + [part + s])
  {
    hide TextGaps, Chars, Front, TextsOf, Gaps, NonBlank;
    var part := LastPart(v.level).str;
    LastChars(before, w, v);
    var x := part[..|part|-|w.cur|];
    assert part == x + w.cur && part + s == x + (w.cur + s);
    NonBlankAppend(x, w.cur);
    AddChars(w, s);
    hide Linked, EndsIn, LastPart, HasPart;
    GapsBehind(newlines, |before|, Front(v.level), x, w.cur + s);
    NonBlankAppend(w.cur, s);
  }

  /** The last of some texts has the gaps of its end, and none behind where that begins but at the very end. */
  lemma GapsBehind(newlines: bool, n: nat, front: seq<string>, x: string, y: string)
    ensures var from := n + |Chars(front)| + |NonBlank(x)|;
            forall k | from < k < from + |NonBlank(y)| && k in TextGaps(newlines, n, front + [x + y]) :: k in Gaps(newlines, from, y)
  {
    hide TextGaps, Chars, Gaps, NonBlank;
    var p := n + |Chars(front)|;
    TextGapsAppend(newlines, n, front, [x + y]);
    TextGapsBounds(newlines, n, front);
    OneText(newlines, p, x + y);
    NonBlankAppend(x, y);
    GapsAppend(newlines, p, x, y);
    GapsBounds(newlines, p, x);
  }

  lemma TextPlaced(newlines: bool, before: string, w: Written, v: Writing, s: string, indentSize: nat)
    requires Linked(before, w, v) && Ready(v.level)
    ensures SpotsHold(newlines, before, TextsOf(AddText(v.level, s, indentSize)), TextSpots(w, s))
  {
    hide GoesOn, TextsOf, Chars, Front, TextGaps, Gaps, CharsOf;
    StartedStep(newlines, before, w, v, indentSize);
    var v1 := v.(level := Started(v.level, indentSize));
    LastGaps(newlines, before, w, v1, s);
    LastTexts(v1.level, LastPart(v1.level).(str := LastPart(v1.level).str + s));
    AddStep(newlines, before, w, v, s, indentSize);
    AddChars(w, s);
    LinkedBounds(before, w, v);
  }

  lemma LinkedBounds(before: string, w: Written, v: Writing)
    requires Linked(before, w, v)
    ensures |before| <= |CharsOf(w)|
  {
  }

  /** The comma of a script. */
  lemma CommaPlaced(newlines: bool, before: string, w: Written, v: Writing, opts: Opts)
    requires Linked(before, w, v) && Ready(v.level)
    ensures var v2 := v.(level := AddComma(opts, v.level));
            && Stepped(newlines, before, v.level, Break(Add(w, ",")), v2)
            && SpotsHold(newlines, before, TextsOf(v2.level), CommaSpots(opts, w))
            && (opts.commasStartOfLine ==> LastPart(v2.level).str == ", ")
  {
    hide GoesOn, TextsOf, Chars, Front, TextGaps, Gaps, CharsOf, Break, Stepped, Linked, SpotsHold, AddPart, TextSpots;
    LinkedBounds(before, w, v);
    var v2 := v.(level := AddComma(opts, v.level));
    if opts.commasStartOfLine {
      PartStep(newlines, before, w, v, true, opts.indentSize);
      var v1 := v.(level := AddPart(v.level, true, opts.indentSize));
      SteppedParts(newlines, before, v.level, Break(w), v1);
      AddStep(newlines, before, Break(w), v1, ", ", opts.indentSize);
      SteppedTwice(newlines, before, v.level, Break(w), v1, Add(Break(w), ", "), v2);
      StepMoved(newlines, before, v.level, Add(Break(w), ", "), v2, Break(Add(w, ","))) by { CommaChars(w); }
      StartedAlready(v1.level, opts.indentSize);
      var part := LastPart(v1.level);
      assert part.str + ", " == ", ";
      LastTexts(v1.level, part.(str := part.str + ", "));
      BreakChars(w);
      BreakIs(w);
      CommaStarts(newlines, before, w, v1, v2.level);
      assert CommaSpots(opts, w) == {IsComma(|CharsOf(w)|), SetOff(|CharsOf(w)|)};
    } else {
      AddStep(newlines, before, w, v, ",", opts.indentSize);
      TextPlaced(newlines, before, w, v, ",", opts.indentSize);
      var v1 := v.(level := AddText(v.level, ",", opts.indentSize));
      SteppedParts(newlines, before, v.level, Add(w, ","), v1);
      PartStep(newlines, before, Add(w, ","), v1, true, opts.indentSize);
      SteppedTwice(newlines, before, v.level, Add(w, ","), v1, Break(Add(w, ",")), v2);
      CommaHere(newlines, before, w, v1);
      SteppedGoesOn(newlines, before, v1.level, Break(Add(w, ",")), v2);
      SpotsStay(newlines, before, TextsOf(v1.level), TextsOf(v2.level), CommaSpots(opts, w)) by {
        SpotsBoth(newlines, before, TextsOf(v1.level), {IsComma(|CharsOf(w)|)}, TextSpots(w, ","));
      }
    }
  }

  lemma SpotsBoth(newlines: bool, before: string, texts: seq<string>, a: set<Spot>, b: set<Spot>)
    requires SpotsHold(newlines, before, texts, a) && SpotsHold(newlines, before, texts, b)
    ensures SpotsHold(newlines, before, texts, a + b)
  {
    hide SpotHolds, Chars, TextGaps;
  }

  lemma SteppedGoesOn(newlines: bool, before: string, level: Level, w: Written, v: Writing)
    requires Stepped(newlines, before, level, w, v)
    ensures GoesOn(newlines, before, TextsOf(level), TextsOf(v.level))
  {
  }

  /** The same characters, and a part begins. */
  lemma StepMoved(newlines: bool, before: string, level: Level, w: Written, v: Writing, w2: Written)
    requires Stepped(newlines, before, level, w, v) && HasPart(v.level)
    requires CharsOf(w2) == CharsOf(w) && w2.cur == "" && w2.order == w.order
    ensures Stepped(newlines, before, level, w2, v)
  {
  }

  lemma CommaChars(w: Written)
    ensures CharsOf(Break(Add(w, ","))) == CharsOf(Add(Break(w), ", ")) == CharsOf(w) + ","
    ensures Break(Add(w, ",")).cur == "" && Break(Add(w, ",")).order == Add(Break(w), ", ").order
  {
    BreakChars(Add(w, ","));
    BreakChars(w);
    AddChars(w, ",");
    AddChars(Break(w), ", ");
    assert ", " == [','] + [' '] && "," == [','];
    NonBlankAppend([','], [' ']);
    OneChar(false, 0, ',');
    OneChar(false, 0, ' ');
  }

  /** A comma at the end of the last part. */
  lemma CommaHere(newlines: bool, before: string, w: Written, v: Writing)
    requires Linked(before, Add(w, ","), v) && |before| <= |CharsOf(w)|
    ensures SpotsHold(newlines, before, TextsOf(v.level), {IsComma(|CharsOf(w)|)})
  {
    hide TextsOf, TextGaps, CharsOf;
    AddChars(w, ",");
    assert "," == [','];
    OneChar(false, 0, ',');
  }

  /** A comma at the start of the last part. */
  lemma CommaStarts(newlines: bool, before: string, w: Written, v: Writing, level: Level)
    requires Linked(before, Break(w), v) && HasPart(v.level) && LastPart(v.level).str == "" && CharsOf(Break(w)) == CharsOf(w)
    requires TextsOf(level) == Front(v.level) + [", "]
    ensures SpotsHold(newlines, before, TextsOf(level), {IsComma(|CharsOf(w)|), SetOff(|CharsOf(w)|)})
  {
    hide TextsOf, Front, TextGaps, CharsOf, Chars, Gaps, Linked, Break, NonBlank;
    LastChars(before, Break(w), v);
    NoText(newlines, 0);
    var front := Front(v.level);
    assert CharsOf(w) == before + Chars(front);
    TextStarts(newlines, |before|, front, ", ");
    CharsAppend(front, [", "]);
    OneText(newlines, 0, ", ");
    CommaAlone();
    assert before + (Chars(front) + ",") == before + Chars(front) + ",";
  }

  lemma TextStarts(newlines: bool, n: nat, front: seq<string>, s: string)
    ensures n + |Chars(front)| in TextGaps(newlines, n, front + [s])
  {
    TextGapsAppend(newlines, n, front, [s]);
    TextGapsBounds(newlines, n, front);
  }

  lemma CommaAlone()
    ensures NonBlank(", ") == ","
  {
    assert ", " == [','] + [' '];
    NonBlankAppend([','], [' ']);
    OneChar(false, 0, ',');
    OneChar(false, 0, ' ');
  }
}
