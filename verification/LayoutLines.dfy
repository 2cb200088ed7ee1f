/** Where a text has newlines, counted in its words: what the end of a line comment depends on. */
module LayoutLines {
  import opened LayoutText
  import opened LayoutState

  /** The lengths of the words in front of the newlines of s.  A newline at p means that nothing but spaces
      is between the words up to p and that newline. */
  function Breaks(w: Words, s: string): set<nat>
    decreases |s|
  {
    if s == "" then {} else (if s[0] == '\n' then {|w.text|} else {}) + Breaks(Step(w, s[0]), s[1..])
  }

  lemma {:induction false} BreaksAppend(w: Words, a: string, b: string)
    ensures Breaks(w, a + b) == Breaks(w, a) + Breaks(Scan(w, a), b)
    decreases |a|
  {
    if a == "" {
      assert a + b == b;
    } else {
      assert (a + b)[1..] == a[1..] + b;
      BreaksAppend(Step(w, a[0]), a[1..], b);
    }
  }

  lemma BreaksChar(w: Words, s: string, c: char)
    ensures Breaks(w, s + [c]) == Breaks(w, s) + if c == '\n' then {|Scan(w, s).text|} else {}
  {
    BreaksAppend(w, s, [c]);
    assert [c][1..] == "";
  }

  /** Newlines of a text are at or behind the words in front of it, and not behind its own. */
  lemma {:induction false} BreaksBounds(w: Words, s: string)
    ensures forall p | p in Breaks(w, s) :: |w.text| <= p <= |Scan(w, s).text|
    ensures |w.text| <= |Scan(w, s).text|
    decreases |s|
  {
    if s != "" {
      BreaksBounds(Step(w, s[0]), s[1..]);
    }
  }

  lemma SameBreaks(a: Words, b: Words, s: string)
    requires SameWords(a, b)
    ensures Breaks(a, s) == Breaks(b, s)
  {
    if s != "" {
      assert Step(a, s[0]) == Step(b, s[0]);
    }
  }

  lemma TrimmedBreaks(w: Words, s: string)
    ensures Breaks(w, Trimmed(s)) == Breaks(w, s)
  {
    if s != "" && s[|s|-1] == ' ' {
      assert s == s[..|s|-1] + [' '];
      BreaksChar(w, s[..|s|-1], ' ');
    }
  }

  lemma LooseBreaks(w: Words, s: string)
    requires Loose(w) || (s != "" && Closes(s[0]))
    ensures Breaks(w, s) == Breaks(Words(w.text, true), s)
  {
    if Loose(w) {
      SameBreaks(w, Words(w.text, true), s);
    } else {
      assert Step(w, s[0]) == Step(Words(w.text, true), s[0]);
    }
  }

  lemma {:induction false} NoBreaks(w: Words, s: string)
    requires '\n' !in s
    ensures Breaks(w, s) == {}
    decreases |s|
  {
    if s != "" {
      NoBreaks(Step(w, s[0]), s[1..]);
    }
  }

  /** Two texts on one line. */
  lemma JoinBreaks(t: string, a: string, b: string)
    ensures Breaks(Words(t, true), Trimmed(a) + (if Trimmed(a) == "" || Trimmed(a)[|Trimmed(a)|-1] == '(' then "" else " ") + b) ==
            Breaks(Words(t, true), a) + Breaks(Words(Glue(t, a), true), b)
  {
    var a' := Trimmed(a);
    var w := Scan(Words(t, true), a');
    TrimmedWords(Words(t, true), a);
    TrimmedBreaks(Words(t, true), a);
    assert w.text == Glue(t, a);
    if a' == "" {
      assert a' + "" + b == b;
    } else if a'[|a'|-1] == '(' {
      LastChar(Words(t, true), a');
      assert a' + "" + b == a' + b;
      BreaksAppend(Words(t, true), a', b);
      LooseBreaks(w, b);
    } else {
      BreaksAppend(Words(t, true), a' + " ", b);
      BreaksChar(Words(t, true), a', ' ');
      ScanChar(Words(t, true), a', ' ');
    }
  }

  lemma KeywordBreaks(t: string, keyword: string, b: string)
    ensures Breaks(Words(Glue(t, keyword), true), b) <= Breaks(Words(t, true), keyword + " " + b)
  {
    BreaksAppend(Words(t, true), keyword + " ", b);
    BreaksChar(Words(t, true), keyword, ' ');
    ScanChar(Words(t, true), keyword, ' ');
  }

  // ---------- Newlines of parts, however they are laid out ----------

  /** A pretty-printing run begins a new line after a part that is never merged. */
  function PartEnd(t: string, part: Part, pretty: bool): set<nat> {
    if pretty && !part.mergeable && |Glue(t, part.str)| > |t| then {|Glue(t, part.str)|} else {}
  }

  /** The newlines that parts are sure to have, a line after the last one included. */
  function PartsLines(t: string, parts: seq<Part>, pretty: bool): set<nat> {
    if parts == [] then {}
    else
      var part, before := parts[|parts|-1], PartsContent(t, parts[..|parts|-1]);
      PartsLines(t, parts[..|parts|-1], pretty) + Breaks(Words(before, true), part.str) + PartEnd(before, part, pretty)
  }

  function GroupsLines(t: string, groups: seq<PartGroup>, pretty: bool): set<nat> {
    if groups == [] then {}
    else
      var g, before := groups[|groups|-1], GroupsContent(t, groups[..|groups|-1]);
      GroupsLines(t, groups[..|groups|-1], pretty) + PartsLines(KeywordContent(before, g.keyword), g.parts, pretty)
  }

  function LevelsLines(t: string, levels: seq<Level>, pretty: bool): set<nat> {
    if levels == [] then {}
    else LevelsLines(t, levels[..|levels|-1], pretty) + GroupsLines(LevelsContent(t, levels[..|levels|-1]), levels[|levels|-1].groups, pretty)
  }

  lemma LevelsLinesNext(t: string, levels: seq<Level>, level: Level, pretty: bool)
    ensures LevelsLines(t, levels + [level], pretty) == LevelsLines(t, levels, pretty) + GroupsLines(LevelsContent(t, levels), level.groups, pretty)
  {
    assert (levels + [level])[..|levels|] == levels;
  }

  lemma {:induction false} PartsLinesAppend(t: string, a: seq<Part>, b: seq<Part>, pretty: bool)
    ensures PartsLines(t, a + b, pretty) == PartsLines(t, a, pretty) + PartsLines(PartsContent(t, a), b, pretty)
  {
    if b == [] {
      assert a + b == a;
    } else {
      PartsLinesAppend(t, a, b[..|b|-1], pretty);
      PartsContentAppend(t, a, b[..|b|-1]);
      assert (a + b)[..|a + b|-1] == a + b[..|b|-1];
    }
  }

  lemma PartsLinesOne(t: string, p: Part, pretty: bool)
    ensures PartsLines(t, [p], pretty) == Breaks(Words(t, true), p.str) + PartEnd(t, p, pretty)
  {
    assert [p][..0] == [];
  }

  lemma PartsLinesFirst(t: string, parts: seq<Part>, pretty: bool)
    requires parts != []
    ensures PartsLines(t, parts, pretty) ==
            Breaks(Words(t, true), parts[0].str) + PartEnd(t, parts[0], pretty) + PartsLines(Glue(t, parts[0].str), parts[1..], pretty)
  {
    assert parts == [parts[0]] + parts[1..];
    PartsLinesAppend(t, [parts[0]], parts[1..], pretty);
    PartsLinesOne(t, parts[0], pretty);
    PartsContentOne(t, parts[0]);
  }

  /** Parts that share a line are mergeable, so that only their own newlines count. */
  lemma {:induction false} JoinedLines(t: string, parts: seq<Part>, pretty: bool)
    requires parts != [] && forall k | 0 <= k < |parts| :: parts[k].mergeable
    ensures PartsLines(t, parts, pretty) == Breaks(Words(t, true), Joined(parts).str)
  {
    if |parts| == 1 {
      PartsLinesOne(t, parts[0], pretty);
      assert parts == [parts[0]];
    } else {
      var front := parts[..|parts|-1];
      JoinedLines(t, front, pretty);
      JoinedContent(t, front);
      JoinBreaks(t, Joined(front).str, parts[|parts|-1].str);
    }
  }

  lemma LineLines(t: string, parts: seq<Part>, from: nat, to: nat, line: Part, maxLineLength: nat, pretty: bool)
    requires LineOk(parts, from, to, line, maxLineLength)
    ensures PartsLines(t, parts[from..to], pretty) <= PartsLines(t, [line], pretty)
  {
    var joined := Joined(parts[from..to]);
    PartsLinesOne(t, line, pretty);
    TrimmedBreaks(Words(t, true), joined.str);
    TrimmedWords(Words(t, true), joined.str);
    if to - from > 1 {
      JoinedLines(t, parts[from..to], pretty);
    } else {
      assert parts[from..to] == [parts[from]];
      PartsLinesOne(t, parts[from], pretty);
      TrimmedEnd(t, joined.str);
    }
  }

  lemma TrimmedEnd(t: string, s: string)
    ensures Glue(t, Trimmed(s)) == Glue(t, s)
  {
    TrimmedWords(Words(t, true), s);
  }

  /** Merging keeps them. */
  lemma {:induction false} FilledPrefixLines(t: string, parts: seq<Part>, lines: seq<Part>, starts: seq<nat>, maxLineLength: nat, n: nat, pretty: bool)
    requires Filled(parts, lines, starts, maxLineLength) && n <= |lines|
    ensures starts[n] <= |parts| && PartsLines(t, parts[..starts[n]], pretty) <= PartsLines(t, lines[..n], pretty)
  {
    if n > 0 {
      hide Filled, LineOk, PartsLines;
      assert LineOk(parts, starts[n-1], starts[n], lines[n-1], maxLineLength) && |starts| == |lines| + 1 by {
        LineAt(parts, lines, starts, maxLineLength, n - 1);
      }
      FilledPrefixLines(t, parts, lines, starts, maxLineLength, n - 1, pretty);
      FilledPrefixContent(t, parts, lines, starts, maxLineLength, n - 1);
      hide PartsContent;
      NextLine(t, parts, lines, starts[n-1], starts[n], maxLineLength, n, pretty);
    }
  }

  lemma NextLine(t: string, parts: seq<Part>, lines: seq<Part>, from: nat, to: nat, maxLineLength: nat, n: nat, pretty: bool)
    requires 0 < n <= |lines| && LineOk(parts, from, to, lines[n-1], maxLineLength)
    requires PartsLines(t, parts[..from], pretty) <= PartsLines(t, lines[..n-1], pretty)
    requires PartsContent(t, lines[..n-1]) == PartsContent(t, parts[..from])
    ensures PartsLines(t, parts[..to], pretty) <= PartsLines(t, lines[..n], pretty)
  {
    assert parts[..to] == parts[..from] + parts[from..to] && lines[..n] == lines[..n-1] + [lines[n-1]];
    LineLines(PartsContent(t, parts[..from]), parts, from, to, lines[n-1], maxLineLength, pretty);
    hide *;
    PartsLinesAppend(t, parts[..from], parts[from..to], pretty);
    PartsLinesAppend(t, lines[..n-1], [lines[n-1]], pretty);
  }

  lemma FilledLines(t: string, parts: seq<Part>, lines: seq<Part>, starts: seq<nat>, maxLineLength: nat, pretty: bool)
    requires Filled(parts, lines, starts, maxLineLength)
    ensures PartsLines(t, parts, pretty) <= PartsLines(t, lines, pretty)
  {
    FilledPrefixLines(t, parts, lines, starts, maxLineLength, |lines|, pretty);
    assert lines[..|lines|] == lines && parts[..|parts|] == parts;
  }

  // ---------- The level being written ----------

  /** All but a line after the part that is being written. */
  function OpenLines(t: string, level: Level, pretty: bool): set<nat>
    requires HasPart(level)
  {
    var g := LastGroup(level);
    var before := KeywordContent(GroupsContent(t, level.groups[..|level.groups|-1]), g.keyword);
    GroupsLines(t, level.groups[..|level.groups|-1], pretty) + PartsLines(before, g.parts[..|g.parts|-1], pretty)
      + Breaks(Words(ContentBefore(t, level), true), LastPart(level).str)
  }

  lemma ClosedLines(t: string, level: Level, pretty: bool)
    requires HasPart(level)
    ensures GroupsLines(t, level.groups, pretty) == OpenLines(t, level, pretty) + PartEnd(ContentBefore(t, level), LastPart(level), pretty)
  {
  }

  lemma WithPartsLines(t: string, level: Level, parts: seq<Part>, pretty: bool)
    requires level.groups != []
    ensures var before := KeywordContent(GroupsContent(t, level.groups[..|level.groups|-1]), LastGroup(level).keyword);
            GroupsLines(t, WithParts(level, parts).groups, pretty) ==
            GroupsLines(t, level.groups[..|level.groups|-1], pretty) + PartsLines(before, parts, pretty)
  {
    assert WithParts(level, parts).groups[..|level.groups|-1] == level.groups[..|level.groups|-1];
  }

  lemma WithLastPartLines(t: string, level: Level, part: Part, pretty: bool)
    requires HasPart(level)
    requires Breaks(Words(ContentBefore(t, level), true), LastPart(level).str) <= Breaks(Words(ContentBefore(t, level), true), part.str)
    ensures HasPart(WithLastPart(level, part)) && OpenLines(t, level, pretty) <= OpenLines(t, WithLastPart(level, part), pretty)
  {
    WithLastPartContent(t, level, part);
    var l' := WithLastPart(level, part);
    assert l'.groups[..|l'.groups|-1] == level.groups[..|level.groups|-1];
    var parts := LastGroup(level).parts;
    assert (parts[..|parts|-1] + [part])[..|parts|-1] == parts[..|parts|-1];
  }

  lemma NextPartLines(t: string, level: Level, part: Part, pretty: bool)
    requires level.groups != [] && part.str == ""
    ensures var l' := WithParts(level, LastGroup(level).parts + [part]);
            HasPart(l') && OpenLines(t, l', pretty) == GroupsLines(t, level.groups, pretty)
  {
    var l' := WithParts(level, LastGroup(level).parts + [part]);
    assert l'.groups[..|l'.groups|-1] == level.groups[..|level.groups|-1];
    assert (LastGroup(level).parts + [part])[..|LastGroup(level).parts|] == LastGroup(level).parts;
  }

  lemma NextGroupLines(t: string, level: Level, g: PartGroup, pretty: bool)
    requires |g.parts| == 1 && g.parts[0].str == ""
    ensures var l' := level.(groups := level.groups + [g]); HasPart(l') && OpenLines(t, l', pretty) == GroupsLines(t, level.groups, pretty)
  {
    var l' := level.(groups := level.groups + [g]);
    assert l'.groups[..|l'.groups|-1] == level.groups;
    assert g.parts[..0] == [];
  }

  /** An empty part can go. */
  lemma EmptyPartLines(t: string, parts: seq<Part>, pretty: bool)
    requires parts != [] && parts[|parts|-1].str == ""
    ensures PartsLines(t, parts[..|parts|-1], pretty) == PartsLines(t, parts, pretty)
    ensures PartsContent(t, parts[..|parts|-1]) == PartsContent(t, parts)
  {
  }

  /** A keyword in front keeps them. */
  lemma JoinedKeyword(t: string, keyword: string, indent: nat, lines: seq<Part>, pretty: bool)
    requires lines != []
    ensures PartsLines(Glue(t, keyword), lines, pretty) <= PartsLines(t, [Part(keyword + " " + lines[0].str, indent, false)] + lines[1..], pretty)
    ensures lines[0].str == "" ==> PartsLines(Glue(t, keyword), lines, pretty) <= PartsLines(t, [Part(keyword, indent, false)] + lines[1..], pretty)
  {
    var t', first := Glue(t, keyword), lines[0].str;
    var one := [Part(keyword + " " + first, indent, false)] + lines[1..];
    var two := [Part(keyword, indent, false)] + lines[1..];
    assert one[1..] == lines[1..] && two[1..] == lines[1..];
    PartsLinesFirst(t', lines, pretty);
    PartsLinesFirst(t, one, pretty);
    PartsLinesFirst(t, two, pretty);
    GlueKeyword(t, keyword, first);
    KeywordBreaks(t, keyword, first);
    BreaksBounds(Words(t, true), keyword);
  }

  lemma SeparateKeyword(t: string, keyword: string, indent: nat, lines: seq<Part>, pretty: bool)
    ensures PartsLines(Glue(t, keyword), lines, pretty) <= PartsLines(t, [Part(keyword, indent, false)] + lines, pretty)
  {
    PartsLinesAppend(t, [Part(keyword, indent, false)], lines, pretty);
    PartsContentOne(t, Part(keyword, indent, false));
  }

  // ---------- Newlines of the output ----------

  /** The newlines of parts in the output: none after the last one. */
  function OutLines(t: string, parts: seq<Part>, pretty: bool): set<nat> {
    if parts == [] then {}
    else
      var front, before := parts[..|parts|-1], PartsContent(t, parts[..|parts|-1]);
      OutLines(t, front, pretty) + (if pretty && front != [] then {|before|} else {}) + Breaks(Words(before, true), parts[|parts|-1].str)
  }

  lemma OutLinesNext(t: string, parts: seq<Part>, i: nat, pretty: bool)
    requires i < |parts|
    ensures var before := PartsContent(t, parts[..i]);
            && OutLines(t, parts[..i+1], pretty) ==
                 OutLines(t, parts[..i], pretty) + (if pretty && i > 0 then {|before|} else {}) + Breaks(Words(before, true), parts[i].str)
            && PartsContent(t, parts[..i+1]) == Glue(before, parts[i].str)
  {
    assert parts[..i+1][..i] == parts[..i];
  }

  /** All that the parts are sure to have is there, except after the last part of a pretty-printing run. */
  lemma {:induction false} OutLinesKeep(t: string, parts: seq<Part>, pretty: bool)
    ensures PartsLines(t, parts, pretty) <= OutLines(t, parts, pretty) + if pretty then {|PartsContent(t, parts)|} else {}
  {
    if parts != [] {
      OutLinesKeep(t, parts[..|parts|-1], pretty);
      if |parts| == 1 {
        assert parts[..0] == [];
      }
    }
  }

  lemma {:induction false} ContentGrows(t: string, parts: seq<Part>)
    ensures |t| <= |PartsContent(t, parts)|
  {
    if parts != [] {
      ContentGrows(t, parts[..|parts|-1]);
      BreaksBounds(Words(PartsContent(t, parts[..|parts|-1]), true), parts[|parts|-1].str);
    }
  }

  lemma {:induction false} OutLinesBounds(t: string, parts: seq<Part>, pretty: bool)
    ensures forall p | p in OutLines(t, parts, pretty) :: |t| <= p <= |PartsContent(t, parts)|
  {
    if parts != [] {
      var front := parts[..|parts|-1];
      OutLinesBounds(t, front, pretty);
      ContentGrows(t, front);
      BreaksBounds(Words(PartsContent(t, front), true), parts[|parts|-1].str);
    }
  }

  function WithoutEmptyLast(parts: seq<Part>): seq<Part> {
    if parts != [] && parts[|parts|-1].str == "" then parts[..|parts|-1] else parts
  }
}
