/** Where the blanks of a text are: a gap is given by the number of characters other than blanks in front of
    it.  Texts that are laid one behind the other have gaps inside them and wherever one of them begins. */
module LayoutGaps {
  import opened LayoutText
  import opened LayoutState
  import opened LayoutEmit

  /** The gaps of a text behind n characters: all of them, or only those that hold a newline. */
  ghost function Gaps(newlines: bool, n: nat, s: string): set<nat>
    decreases |s|
  {
    if s == "" then {}
    else if !IsBlank(s[0]) then Gaps(newlines, n + 1, s[1..])
    else (if newlines && s[0] != '\n' then {} else {n}) + Gaps(newlines, n, s[1..])
  }

  ghost function Chars(texts: seq<string>): string {
    if texts == [] then "" else NonBlank(texts[0]) + Chars(texts[1..])
  }

  /** The gaps inside the texts and at their ends. */
  ghost function TextGaps(newlines: bool, n: nat, texts: seq<string>): set<nat>
    decreases |texts|
  {
    if texts == [] then {n}
    else {n} + Gaps(newlines, n, texts[0]) + TextGaps(newlines, n + |NonBlank(texts[0])|, texts[1..])
  }

  /** No space is needed behind an opening parenthesis, or in front of what closes one or a statement. */
  ghost predicate NeedsNoGap(chars: string, k: nat) {
    || (0 < k <= |chars| && chars[k-1] == '(')
    || (k < |chars| && (chars[k] == ')' || chars[k] == ';'))
  }

  /** b has the characters of a.  It has no new gaps, and only those gaps less that are not needed. */
  ghost predicate Laid(newlines: bool, before: string, a: seq<string>, b: seq<string>) {
    && Chars(a) == Chars(b)
    && TextGaps(newlines, |before|, b) <= TextGaps(newlines, |before|, a)
    && (!newlines ==> forall k | k in TextGaps(false, |before|, a) ::
          k in TextGaps(false, |before|, b) || NeedsNoGap(before + Chars(b), k))
  }

  /** b goes on where a ends: up to there it is laid out as a is. */
  ghost predicate GoesOn(newlines: bool, before: string, a: seq<string>, b: seq<string>) {
    && Chars(a) <= Chars(b)
    && (forall k | k in TextGaps(newlines, |before|, b) && k < |before + Chars(a)| :: k in TextGaps(newlines, |before|, a))
    && (!newlines ==> forall k | k in TextGaps(false, |before|, a) && k < |before + Chars(a)| ::
          k in TextGaps(false, |before|, b) || NeedsNoGap(before + Chars(b), k))
  }

  // ---------- Gaps ----------

  lemma {:induction false} GapsAppend(newlines: bool, n: nat, a: string, b: string)
    ensures Gaps(newlines, n, a + b) == Gaps(newlines, n, a) + Gaps(newlines, n + |NonBlank(a)|, b)
    decreases |a|
  {
    if a == "" {
      assert a + b == b;
    } else {
      assert (a + b)[0] == a[0] && (a + b)[1..] == a[1..] + b;
      GapsAppend(newlines, if IsBlank(a[0]) then n else n + 1, a[1..], b);
    }
  }

  lemma {:induction false} GapsBounds(newlines: bool, n: nat, s: string)
    ensures forall k | k in Gaps(newlines, n, s) :: n <= k <= n + |NonBlank(s)|
    decreases |s|
  {
    if s != "" {
      GapsBounds(newlines, if IsBlank(s[0]) then n else n + 1, s[1..]);
    }
  }

  lemma NoText(newlines: bool, n: nat)
    ensures Gaps(newlines, n, "") == {} && NonBlank("") == ""
  {
  }

  lemma OneChar(newlines: bool, n: nat, c: char)
    ensures Gaps(newlines, n, [c]) == if IsBlank(c) && (newlines ==> c == '\n') then {n} else {}
    ensures NonBlank([c]) == if IsBlank(c) then "" else [c]
  {
    assert [c][1..] == "";
    NoText(newlines, n);
    NoText(newlines, n + 1);
  }

  lemma {:induction false} BlanksGaps(newlines: bool, n: nat, s: string)
    requires forall i | 0 <= i < |s| :: IsBlank(s[i])
    ensures NonBlank(s) == "" && Gaps(newlines, n, s) <= {n}
  {
    if s != "" {
      BlanksGaps(newlines, n, s[1..]);
    }
  }

  /** A gap at the end of a text that does not end in a blank: there is none. */
  lemma NoGapAtEnd(newlines: bool, n: nat, s: string)
    requires s != "" && !IsBlank(s[|s|-1])
    ensures forall k | k in Gaps(newlines, n, s) :: k < n + |NonBlank(s)|
    ensures NonBlank(s) != "" && NonBlank(s)[|NonBlank(s)|-1] == s[|s|-1]
  {
    var front, c := s[..|s|-1], s[|s|-1];
    assert s == front + [c];
    GapsAppend(newlines, n, front, [c]);
    NonBlankAppend(front, [c]);
    GapsBounds(newlines, n, front);
    OneChar(newlines, n + |NonBlank(front)|, c);
  }

  /** Only a gap at the end is lost. */
  lemma TrimmedGaps(newlines: bool, n: nat, s: string)
    ensures NonBlank(Trimmed(s)) == NonBlank(s)
    ensures Gaps(newlines, n, Trimmed(s)) <= Gaps(newlines, n, s) <= Gaps(newlines, n, Trimmed(s)) + {n + |NonBlank(s)|}
  {
    if s != "" && s[|s|-1] == ' ' {
      var front := s[..|s|-1];
      assert s == front + [' '];
      GapsAppend(newlines, n, front, [' ']);
      NonBlankAppend(front, [' ']);
      OneChar(newlines, n + |NonBlank(front)|, ' ');
    }
  }

  // ---------- Texts ----------

  lemma {:induction false} CharsAppend(a: seq<string>, b: seq<string>)
    ensures Chars(a + b) == Chars(a) + Chars(b)
  {
    if a == [] {
      assert a + b == b;
    } else {
      assert (a + b)[0] == a[0] && (a + b)[1..] == a[1..] + b;
      CharsAppend(a[1..], b);
    }
  }

  lemma {:induction false} TextGapsAppend(newlines: bool, n: nat, a: seq<string>, b: seq<string>)
    ensures TextGaps(newlines, n, a + b) == TextGaps(newlines, n, a) + TextGaps(newlines, n + |Chars(a)|, b)
    decreases |a|
  {
    if a == [] {
      assert a + b == b;
      assert n in TextGaps(newlines, n, b);
    } else {
      assert (a + b)[0] == a[0] && (a + b)[1..] == a[1..] + b;
      TextGapsAppend(newlines, n + |NonBlank(a[0])|, a[1..], b);
    }
  }

  lemma {:induction false} TextGapsBounds(newlines: bool, n: nat, texts: seq<string>)
    ensures forall k | k in TextGaps(newlines, n, texts) :: n <= k <= n + |Chars(texts)|
    ensures n in TextGaps(newlines, n, texts) && n + |Chars(texts)| in TextGaps(newlines, n, texts)
    decreases |texts|
  {
    if texts != [] {
      GapsBounds(newlines, n, texts[0]);
      TextGapsBounds(newlines, n + |NonBlank(texts[0])|, texts[1..]);
    }
  }

  lemma OneText(newlines: bool, n: nat, s: string)
    ensures Chars([s]) == NonBlank(s)
    ensures TextGaps(newlines, n, [s]) == {n, n + |NonBlank(s)|} + Gaps(newlines, n, s)
  {
    assert [s][1..] == [];
    assert NonBlank(s) + Chars([]) == NonBlank(s);
  }

  lemma TwoTexts(newlines: bool, n: nat, a: string, b: string)
    ensures Chars([a, b]) == NonBlank(a) + NonBlank(b)
    ensures var m := n + |NonBlank(a)|;
            TextGaps(newlines, n, [a, b]) == {n, m, m + |NonBlank(b)|} + Gaps(newlines, n, a) + Gaps(newlines, m, b)
  {
    assert [a, b] == [a] + [b];
    CharsAppend([a], [b]);
    TextGapsAppend(newlines, n, [a], [b]);
    OneText(newlines, n, a);
    OneText(newlines, n + |NonBlank(a)|, b);
  }

  // ---------- Laying out ----------

  lemma LaidTwice(newlines: bool, before: string, a: seq<string>, b: seq<string>, c: seq<string>)
    requires Laid(newlines, before, a, b) && Laid(newlines, before, b, c)
    ensures Laid(newlines, before, a, c)
  {
    hide TextGaps, Chars, NeedsNoGap;
  }

  lemma LaidSame(newlines: bool, before: string, a: seq<string>)
    ensures Laid(newlines, before, a, a)
  {
  }

  lemma NeedsNoGapLonger(chars: string, more: string, k: nat)
    requires NeedsNoGap(chars, k)
    ensures NeedsNoGap(chars + more, k)
  {
  }

  /** Texts may be laid out piece by piece. */
  lemma LaidInside(newlines: bool, before: string, x: seq<string>, a: seq<string>, b: seq<string>, y: seq<string>)
    requires Laid(newlines, before + Chars(x), a, b)
    ensures Laid(newlines, before, x + a + y, x + b + y)
  {
    hide TextGaps, Chars, NeedsNoGap;
    var n := |before|;
    var m := n + |Chars(x)|;
    assert |before + Chars(x)| == m;
    CharsAppend(x + a, y);
    CharsAppend(x + b, y);
    CharsAppend(x, a);
    CharsAppend(x, b);
    TextGapsAppend(newlines, n, x + a, y);
    TextGapsAppend(newlines, n, x + b, y);
    TextGapsAppend(newlines, n, x, a);
    TextGapsAppend(newlines, n, x, b);
    var all := before + Chars(x + b + y);
    assert all == before + Chars(x) + Chars(b) + Chars(y);
    forall k | !newlines && k in TextGaps(newlines, n, x + a + y)
      ensures k in TextGaps(newlines, n, x + b + y) || NeedsNoGap(all, k)
    {
      if k in TextGaps(newlines, m, a) && k !in TextGaps(newlines, m, b) {
        NeedsNoGapLonger(before + Chars(x) + Chars(b), Chars(y), k);
      }
    }
  }

  lemma LaidBoth(newlines: bool, before: string, a: seq<string>, a2: seq<string>, b: seq<string>, b2: seq<string>)
    requires Laid(newlines, before, a, a2) && Laid(newlines, before + Chars(a), b, b2)
    ensures Laid(newlines, before, a + b, a2 + b2)
  {
    hide TextGaps, NeedsNoGap, Laid;
    assert Chars([]) == "";
    assert before + Chars([]) == before;
    hide Chars;
    LaidInside(newlines, before, [], a, a2, b);
    LaidInside(newlines, before, a2, b, b2, []) by { LaidChars(newlines, before, a, a2); }
    assert [] + a + b == a + b && [] + a2 + b == a2 + b && a2 + b + [] == a2 + b && a2 + b2 + [] == a2 + b2;
    LaidTwice(newlines, before, a + b, a2 + b, a2 + b2);
  }

  lemma LaidChars(newlines: bool, before: string, a: seq<string>, b: seq<string>)
    requires Laid(newlines, before, a, b)
    ensures Chars(a) == Chars(b)
  {
  }

  lemma LaidGoesOn(newlines: bool, before: string, a: seq<string>, b: seq<string>)
    requires Laid(newlines, before, a, b)
    ensures GoesOn(newlines, before, a, b)
  {
    hide TextGaps, Chars, NeedsNoGap;
  }

  lemma GoesOnTwice(newlines: bool, before: string, a: seq<string>, b: seq<string>, c: seq<string>)
    requires GoesOn(newlines, before, a, b) && GoesOn(newlines, before, b, c)
    ensures GoesOn(newlines, before, a, c)
  {
    hide TextGaps, Chars, NeedsNoGap;
    assert |Chars(a)| <= |Chars(b)|;
    forall k | !newlines && k in TextGaps(false, |before|, a) && k < |before + Chars(a)|
      ensures k in TextGaps(false, |before|, c) || NeedsNoGap(before + Chars(c), k)
    {
      if k !in TextGaps(false, |before|, b) {
        NeedsNoGapLonger(before + Chars(b), Chars(c)[|Chars(b)|..], k);
        assert before + Chars(b) + Chars(c)[|Chars(b)|..] == before + Chars(c);
      }
    }
  }

  lemma GoesOnSame(newlines: bool, before: string, a: seq<string>)
    ensures GoesOn(newlines, before, a, a)
  {
    hide TextGaps, Chars, NeedsNoGap;
  }

  lemma GoesOnBehind(newlines: bool, before: string, a: seq<string>, b: seq<string>)
    ensures GoesOn(newlines, before, a, a + b)
  {
    hide TextGaps, Chars, NeedsNoGap;
    CharsAppend(a, b);
    TextGapsAppend(newlines, |before|, a, b);
    TextGapsBounds(newlines, |before| + |Chars(a)|, b);
  }

  lemma GoesOnInside(newlines: bool, before: string, x: seq<string>, a: seq<string>, b: seq<string>)
    requires GoesOn(newlines, before + Chars(x), a, b)
    ensures GoesOn(newlines, before, x + a, x + b)
  {
    hide TextGaps, Chars, NeedsNoGap;
    var n := |before|;
    assert |before + Chars(x)| == n + |Chars(x)|;
    CharsAppend(x, a);
    CharsAppend(x, b);
    TextGapsAppend(newlines, n, x, a);
    TextGapsAppend(newlines, n, x, b);
    TextGapsBounds(newlines, n, x);
    assert before + Chars(x) + Chars(a) == before + (Chars(x) + Chars(a));
    assert before + Chars(x) + Chars(b) == before + (Chars(x) + Chars(b));
  }

  /** A longer text in place of the last one. */
  lemma GoesOnLonger(newlines: bool, before: string, a: string, s: string)
    ensures GoesOn(newlines, before, [a], [a + s])
  {
    hide TextGaps, Chars, NeedsNoGap;
    var n := |before|;
    OneText(newlines, n, a);
    OneText(newlines, n, a + s);
    NonBlankAppend(a, s);
    GapsAppend(newlines, n, a, s);
    GapsBounds(newlines, n + |NonBlank(a)|, s);
  }

  lemma GoesOnTrimmed(newlines: bool, before: string, a: string)
    ensures GoesOn(newlines, before, [a], [Trimmed(a)]) && Laid(newlines, before, [a], [Trimmed(a)])
  {
    hide TextGaps, Chars, NeedsNoGap;
    OneText(newlines, |before|, a);
    OneText(newlines, |before|, Trimmed(a));
    TrimmedGaps(newlines, |before|, a);
  }

  // ---------- Lines ----------

  ghost function Strs(parts: seq<Part>): seq<string> {
    if parts == [] then [] else [parts[0].str] + Strs(parts[1..])
  }

  lemma {:induction false} StrsAppend(a: seq<Part>, b: seq<Part>)
    ensures Strs(a + b) == Strs(a) + Strs(b)
  {
    if a == [] {
      assert a + b == b;
    } else {
      assert (a + b)[0] == a[0] && (a + b)[1..] == a[1..] + b;
      StrsAppend(a[1..], b);
    }
  }

  lemma StrsOne(part: Part)
    ensures Strs([part]) == [part.str]
  {
    assert [part][1..] == [];
  }

  /** One text behind the other on one line. */
  lemma LaidOnOneLine(newlines: bool, before: string, a: string, b: string)
    ensures var t := Trimmed(a);
            Laid(newlines, before, [a, b], [t + (if t == "" || t[|t|-1] == '(' then "" else " ") + b])
  {
    hide TextGaps, Chars, Gaps, NonBlank, Trimmed;
    var n, t := |before|, Trimmed(a);
    var sep := if t == "" || t[|t|-1] == '(' then "" else " ";
    var m := n + |NonBlank(a)|;
    TwoTexts(newlines, n, a, b);
    OneText(newlines, n, t + sep + b);
    TrimmedGaps(newlines, n, a);
    GapsAppend(newlines, n, t + sep, b);
    GapsAppend(newlines, n, t, sep);
    NonBlankAppend(t + sep, b);
    NonBlankAppend(t, sep);
    NoText(newlines, n);
    NoText(newlines, m);
    assert " " == [' '];
    OneChar(newlines, m, ' ');
    assert |NonBlank(t + sep)| == |NonBlank(t)|;
    if t == "" {
      assert m == n;
    } else if sep == "" {
      NoGapAtEnd(newlines, n, t);
      assert NeedsNoGap(before + (NonBlank(a) + NonBlank(b)), m);
    }
  }

  lemma LaidKeyword(newlines: bool, before: string, keyword: string, s: string)
    ensures Laid(newlines, before, [keyword, s], [if s == "" then keyword else keyword + " " + s])
  {
    hide TextGaps, Chars, Gaps, NonBlank;
    var n, m := |before|, |before| + |NonBlank(keyword)|;
    TwoTexts(newlines, n, keyword, s);
    NoText(newlines, m);
    if s == "" {
      OneText(newlines, n, keyword);
      assert NonBlank(keyword) + "" == NonBlank(keyword);
    } else {
      OneText(newlines, n, keyword + " " + s);
      GapsAppend(newlines, n, keyword + " ", s);
      GapsAppend(newlines, n, keyword, " ");
      NonBlankAppend(keyword + " ", s);
      NonBlankAppend(keyword, " ");
      assert " " == [' '];
      OneChar(newlines, m, ' ');
      assert NonBlank(keyword) + "" == NonBlank(keyword);
    }
  }

  lemma {:induction false} MergeLaid(newlines: bool, before: string, line: Part, rest: seq<Part>, maxLineLength: nat)
    ensures Laid(newlines, before, [line.str] + Strs(rest), Strs(Merge(line, rest, maxLineLength)))
    decreases |rest|
  {
    hide TextGaps, Chars, Laid, Mergeable;
    if rest == [] {
      StrsOne(line);
      assert [line.str] + [] == [line.str];
      LaidSame(newlines, before, [line.str]);
    } else {
      var trimmed := line.(str := Trimmed(line.str));
      var next, tail := rest[0], rest[1..];
      assert [line.str] + Strs(rest) == [line.str, next.str] + Strs(tail);
      if Mergeable(trimmed, next, maxLineLength) {
        var joined := JoinTwo(line, next);
        LaidOnOneLine(newlines, before, line.str, next.str);
        LaidSame(newlines, before + Chars([line.str, next.str]), Strs(tail));
        LaidBoth(newlines, before, [line.str, next.str], [joined.str], Strs(tail), Strs(tail));
        MergeLaid(newlines, before, joined, tail, maxLineLength);
        LaidTwice(newlines, before, [line.str] + Strs(rest), [joined.str] + Strs(tail), Strs(Merge(joined, tail, maxLineLength)));
      } else {
        GoesOnTrimmed(newlines, before, line.str);
        MergeLaid(newlines, before + Chars([line.str]), next, tail, maxLineLength);
        LaidBoth(newlines, before, [line.str], [trimmed.str], [next.str] + Strs(tail), Strs(Merge(next, tail, maxLineLength)));
        StrsAppend([trimmed], Merge(next, tail, maxLineLength));
        StrsOne(trimmed);
        assert [line.str] + ([next.str] + Strs(tail)) == [line.str, next.str] + Strs(tail);
      }
    }
  }

  /** The texts of a group, its keyword first. */
  ghost function GroupTexts(g: PartGroup): seq<string> {
    (if g.keyword.Some? then [g.keyword.value] else []) + Strs(g.parts)
  }

  ghost function GroupsTexts(groups: seq<PartGroup>): seq<string> {
    if groups == [] then [] else GroupsTexts(groups[..|groups|-1]) + GroupTexts(groups[|groups|-1])
  }

  lemma GroupLaid(newlines: bool, before: string, opts: Opts, level: Level, g: PartGroup)
    ensures Laid(newlines, before, GroupTexts(g), Strs(GroupLines(opts, level, g)))
  {
    hide TextGaps, Chars, Laid, Merge, NeedsNoGap;
    var lines := if g.indentMode == IndentAndMerge && |g.parts| > 1 then Merged(g.parts, opts.maxLineLength) else g.parts;
    var keyword := if g.keyword.Some? then [g.keyword.value] else [];
    var behind := before + Chars(keyword);
    if g.indentMode == IndentAndMerge && |g.parts| > 1 {
      MergeLaid(newlines, behind, g.parts[0], g.parts[1..], opts.maxLineLength);
    } else {
      LaidSame(newlines, behind, Strs(g.parts));
    }
    LaidSame(newlines, before, keyword);
    LaidBoth(newlines, before, keyword, keyword, Strs(g.parts), Strs(lines));
    KeywordLaid(newlines, before, level, g, lines);
    LaidTwice(newlines, before, GroupTexts(g), keyword + Strs(lines), Strs(GroupLines(opts, level, g)));
  }

  lemma KeywordLaid(newlines: bool, before: string, level: Level, g: PartGroup, lines: seq<Part>)
    ensures var all := if g.keyword.Some? && lines == [] then [Part(g.keyword.value, level.baseIndent, false)]
                       else WithKeyword(level, g.keyword, g.indentMode, lines);
            Laid(newlines, before, (if g.keyword.Some? then [g.keyword.value] else []) + Strs(lines), Strs(all))
  {
    hide TextGaps, Chars, Laid, NeedsNoGap;
    var keyword := if g.keyword.Some? then [g.keyword.value] else [];
    if g.keyword.None? {
      assert [] + Strs(lines) == Strs(lines);
      LaidSame(newlines, before, Strs(lines));
    } else if lines == [] {
      StrsOne(Part(g.keyword.value, level.baseIndent, false));
      assert keyword + [] == keyword;
      LaidSame(newlines, before, keyword);
    } else if |lines| == 1 || g.indentMode == NoIndent {
      var all := WithKeyword(level, g.keyword, g.indentMode, lines);
      StrsAppend([all[0]], lines[1..]);
      StrsOne(all[0]);
      LaidKeyword(newlines, before, g.keyword.value, lines[0].str);
      LaidSame(newlines, before + Chars([g.keyword.value, lines[0].str]), Strs(lines[1..]));
      LaidBoth(newlines, before, [g.keyword.value, lines[0].str], [all[0].str], Strs(lines[1..]), Strs(lines[1..]));
      assert keyword + Strs(lines) == [g.keyword.value, lines[0].str] + Strs(lines[1..]);
    } else {
      StrsAppend([Part(g.keyword.value, level.baseIndent, false)], lines);
      StrsOne(Part(g.keyword.value, level.baseIndent, false));
      LaidSame(newlines, before, keyword + Strs(lines));
    }
  }

  /** The lines of a level have the characters of its parts, and a gap wherever one of them begins, except
      where none is needed; and no gap anywhere else. */
  lemma {:induction false} LinesLaid(newlines: bool, before: string, opts: Opts, level: Level, groups: seq<PartGroup>)
    ensures Laid(newlines, before, GroupsTexts(groups), Strs(LinesOf(opts, level, groups)))
  {
    hide TextGaps, Chars, Laid, NeedsNoGap, GroupLines, GroupTexts;
    if groups == [] {
      LaidSame(newlines, before, []);
    } else {
      var front, last := groups[..|groups|-1], groups[|groups|-1];
      LinesLaid(newlines, before, opts, level, front);
      GroupLaid(newlines, before + Chars(GroupsTexts(front)), opts, level, last);
      LaidBoth(newlines, before, GroupsTexts(front), Strs(LinesOf(opts, level, front)), GroupTexts(last), Strs(GroupLines(opts, level, last)));
      StrsAppend(LinesOf(opts, level, front), GroupLines(opts, level, last));
    }
  }
}
