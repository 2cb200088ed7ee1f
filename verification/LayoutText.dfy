/** Text up to layout: which characters other than blanks it has, and which of them are kept apart. */
module LayoutText {

  /** Blanks that the layout engine adds or removes.  Blanks inside quoted names and literals belong to
      one text and are characters like any other. */
  predicate IsBlank(c: char) {
    c == ' ' || c == '\n'
  }

  /** Blanks after these characters are of no importance ... */
  predicate Opens(c: char) {
    c == '(' || c == ','
  }

  /** ... nor are blanks before these. */
  predicate Closes(c: char) {
    c == ')' || c == ',' || c == ';'
  }

  /** The characters so far, with one space where words are apart, and whether blanks follow. */
  datatype Words = Words(text: string, gap: bool)

  function Step(w: Words, c: char): Words {
    if IsBlank(c) then Words(w.text, true)
    else if w.gap && w.text != "" && !Opens(w.text[|w.text|-1]) && !Closes(c) then Words(w.text + " " + [c], false)
    else Words(w.text + [c], false)
  }

  function Scan(w: Words, s: string): Words
    decreases |s|
  {
    if s == "" then w else Scan(Step(w, s[0]), s[1..])
  }

  /** t with s after it, on a new line. */
  function Glue(t: string, s: string): string {
    Scan(Words(t, true), s).text
  }

  /** The words of a text. */
  function WordsOf(s: string): string {
    Glue("", s)
  }

  /** Does it make no difference whether blanks follow? */
  predicate Loose(w: Words) {
    w.gap || w.text == "" || Opens(w.text[|w.text|-1])
  }

  /** The same for whatever text comes next. */
  predicate SameWords(a: Words, b: Words) {
    a.text == b.text && (a.gap == b.gap || (Loose(a) && Loose(b)))
  }

  function NonBlank(s: string): string {
    if s == "" then "" else (if IsBlank(s[0]) then "" else [s[0]]) + NonBlank(s[1..])
  }

  function Trimmed(s: string): string {
    if s != "" && s[|s|-1] == ' ' then s[..|s|-1] else s
  }

  // ---------- Scanning ----------

  lemma {:induction false} ScanAppend(w: Words, a: string, b: string)
    ensures Scan(w, a + b) == Scan(Scan(w, a), b)
    decreases |a|
  {
    if a == "" {
      assert a + b == b;
    } else {
      assert (a + b)[1..] == a[1..] + b;
      ScanAppend(Step(w, a[0]), a[1..], b);
    }
  }

  lemma ScanChar(w: Words, s: string, c: char)
    ensures Scan(w, s + [c]) == Step(Scan(w, s), c)
  {
    ScanAppend(w, s, [c]);
    assert [c][1..] == "";
  }

  lemma SameWordsScan(a: Words, b: Words, s: string)
    requires SameWords(a, b)
    ensures SameWords(Scan(a, s), Scan(b, s))
  {
    if s != "" {
      assert Step(a, s[0]) == Step(b, s[0]);
    }
  }

  lemma TrimmedWords(w: Words, s: string)
    ensures Scan(w, Trimmed(s)).text == Scan(w, s).text
    ensures Trimmed(s) == s || s == Trimmed(s) + " "
  {
    if s != "" && s[|s|-1] == ' ' {
      assert s == s[..|s|-1] + [' '];
      ScanChar(w, s[..|s|-1], ' ');
    }
  }

  /** A gap before a word that closes something makes no difference. */
  lemma ClosingWord(w: Words, s: string)
    requires s != "" && Closes(s[0])
    ensures Scan(w, s) == Scan(Words(w.text, true), s)
  {
  }

  lemma LooseScan(w: Words, s: string)
    requires Loose(w)
    ensures SameWords(Scan(w, s), Scan(Words(w.text, true), s))
  {
    SameWordsScan(w, Words(w.text, true), s);
  }

  lemma {:induction false} ScanBlanks(w: Words, s: string)
    requires s != "" && forall i | 0 <= i < |s| :: IsBlank(s[i])
    ensures Scan(w, s) == Words(w.text, true)
    decreases |s|
  {
    if |s| > 1 {
      ScanBlanks(Step(w, s[0]), s[1..]);
    } else {
      assert s[1..] == "";
    }
  }

  lemma GlueNothing(t: string)
    ensures Glue(t, "") == t
  {
  }

  /** The last character of a text that does not end in a blank is the last of its words. */
  lemma LastChar(w: Words, s: string)
    requires s != "" && !IsBlank(s[|s|-1])
    ensures var r := Scan(w, s); r.text != "" && r.text[|r.text|-1] == s[|s|-1] && !r.gap
  {
    assert s == s[..|s|-1] + [s[|s|-1]];
    ScanChar(w, s[..|s|-1], s[|s|-1]);
  }

  /** b on a new line after a, or on the same line after one space or an opening parenthesis. */
  lemma GlueTwo(t: string, a: string, b: string)
    ensures Glue(t, Trimmed(a) + (if Trimmed(a) == "" || Trimmed(a)[|Trimmed(a)|-1] == '(' then "" else " ") + b) == Glue(Glue(t, a), b)
  {
    var a' := Trimmed(a);
    var w := Scan(Words(t, true), a');
    TrimmedWords(Words(t, true), a);
    assert w.text == Glue(t, a);
    if a' == "" {
      assert a' + "" + b == b;
    } else if a'[|a'|-1] == '(' {
      LastChar(Words(t, true), a');
      assert a' + "" + b == a' + b;
      ScanAppend(Words(t, true), a', b);
      LooseScan(w, b);
    } else {
      ScanAppend(Words(t, true), a' + " ", b);
      ScanChar(Words(t, true), a', ' ');
    }
  }

  /** A keyword, a space and more text. */
  lemma GlueKeyword(t: string, keyword: string, b: string)
    ensures Glue(t, keyword + " " + b) == Glue(Glue(t, keyword), b)
  {
    ScanAppend(Words(t, true), keyword + " ", b);
    ScanChar(Words(t, true), keyword, ' ');
  }

  // ---------- Characters that are not blank ----------

  lemma {:induction false} NonBlankAppend(a: string, b: string)
    ensures NonBlank(a + b) == NonBlank(a) + NonBlank(b)
  {
    if a == "" {
      assert a + b == b;
    } else {
      assert (a + b)[1..] == a[1..] + b;
      NonBlankAppend(a[1..], b);
    }
  }

  /** Words keep every character that is not blank, in order. */
  lemma {:induction false} ScanKeepsCharacters(w: Words, s: string)
    ensures NonBlank(Scan(w, s).text) == NonBlank(w.text) + NonBlank(s)
    decreases |s|
  {
    if s != "" {
      var w' := Step(w, s[0]);
      NonBlankAppend(w.text, [s[0]]);
      NonBlankAppend(w.text + " ", [s[0]]);
      NonBlankAppend(w.text, " ");
      assert [s[0]][1..] == "" && " "[1..] == "";
      assert NonBlank(w'.text) == NonBlank(w.text) + (if IsBlank(s[0]) then "" else [s[0]]);
      ScanKeepsCharacters(w', s[1..]);
    }
  }

  lemma GlueKeepsCharacters(t: string, s: string)
    ensures NonBlank(Glue(t, s)) == NonBlank(t) + NonBlank(s)
  {
    ScanKeepsCharacters(Words(t, true), s);
  }
}
