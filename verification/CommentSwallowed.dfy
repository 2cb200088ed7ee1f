/** A query whose second statement ends up in a comment: `SELECT 1 -- c`, a newline and `; SELECT 2`. */
module CommentSwallowed {
  import opened LayoutText
  import opened LayoutState
  import opened LayoutScript
  import opened LayoutComments
  import opened LayoutEmit
  import opened Comments

  const QUERY := "SELECT 1 -- c\n; SELECT 2"

  function Tokens(): (tokens: seq<ScanToken>)
    ensures TokensOk(QUERY, tokens) && |tokens| == 6
  {
    [ScanToken(false, 0, 6), ScanToken(false, 7, 8), ScanToken(true, 9, 13), ScanToken(false, 14, 15),
     ScanToken(false, 16, 22), ScanToken(false, 23, 24)]
  }

  /** What the printer of a SELECT with one constant does. */
  function SelectOps(constant: string, location: int): seq<Op> {
    [Group(Some("SELECT"), IndentAndMerge), CommentsUpTo(location), Text(constant), Text(" "), TrimSpace]
  }

  function Statements(): (stmts: seq<RawStmt>)
    ensures |stmts| == 2
  {
    [RawStmt(SelectOps("1", 7), 0, 14), RawStmt(SelectOps("2", 23), 16, 0)]
  }

  const NOTE := Comment(8, 0, 1, "-- c")

  lemma NoteFound()
    ensures CommentsIn(QUERY, Tokens(), 6) == [NOTE]
  {
    var q, ts := QUERY, Tokens();
    assert q[8..9] == " " && q[13..14] == "\n" && q[9..13] == "-- c";
    assert " "[..0] == "" && "\n"[..0] == "";
    assert CommentAt(q, ts, 2) == NOTE;
    assert CommentsIn(q, ts, 2) == [] by { assert CommentsIn(q, ts, 1) == []; }
    assert CommentsIn(q, ts, 3) == [NOTE];
    assert CommentsIn(q, ts, 5) == CommentsIn(q, ts, 4) == CommentsIn(q, ts, 3);
  }

  // ---------- The words ----------

  lemma {:induction false} ScanWord(w: Words, s: string)
    requires !w.gap && forall i | 0 <= i < |s| :: !IsBlank(s[i])
    ensures Scan(w, s) == Words(w.text + s, false)
    decreases |s|
  {
    if s == "" {
      assert w.text + s == w.text;
    } else {
      ScanWord(Words(w.text + [s[0]], false), s[1..]);
      assert w.text + [s[0]] + s[1..] == w.text + s;
    }
  }

  /** A word behind other text. */
  lemma GlueWord(t: string, s: string)
    requires s != "" && !Closes(s[0]) && forall i | 0 <= i < |s| :: !IsBlank(s[i])
    ensures Glue(t, s) == if t == "" || Opens(t[|t|-1]) then t + s else t + " " + s
  {
    var start := if t == "" || Opens(t[|t|-1]) then t else t + " ";
    ScanWord(Words(start + [s[0]], false), s[1..]);
    assert start + [s[0]] + s[1..] == start + s;
  }

  lemma GlueSemicolon(t: string)
    ensures Glue(t, "; ") == t + ";"
  {
    ScanChar(Words(t, true), "", ';');
    ScanChar(Words(t, true), ";", ' ');
    assert "" + [';'] == ";" && ";" + [' '] == "; ";
  }

  lemma FirstWords()
    ensures Glue(Glue("", "SELECT"), "1") == "SELECT 1"
  {
    GlueWord("", "SELECT");
    GlueWord("SELECT", "1");
    hide Glue;
    assert "SELECT" + " " + "1" == "SELECT 1";
  }

  lemma NoteWords()
    ensures Glue("SELECT 1", "-- c") == "SELECT 1 -- c"
  {
    GlueKeyword("SELECT 1", "--", "c");
    GlueWord("SELECT 1", "--");
    GlueWord("SELECT 1" + " " + "--", "c");
    hide Glue;
    assert "--" + " " + "c" == "-- c" && "SELECT 1" + " " + "--" + " " + "c" == "SELECT 1 -- c";
  }

  predicate IsWord(s: string) {
    s != "" && !Closes(s[0]) && !Opens(s[|s|-1]) && forall i | 0 <= i < |s| :: !IsBlank(s[i])
  }

  lemma TwoWords(t: string, a: string, b: string)
    requires IsWord(a) && IsWord(b)
    ensures Glue(Glue(Glue(t, "; "), a), b) == t + ";" + " " + a + " " + b
  {
    GlueSemicolon(t);
    GlueWord(t + ";", a);
    GlueWord(t + ";" + " " + a, b);
  }

  lemma SecondWords(t: string)
    ensures Glue(Glue(Glue(t, "; "), "SELECT"), "2") == t + "; SELECT 2"
  {
    TwoWords(t, "SELECT", "2");
    hide Glue;
    assert ";" + (" " + "SELECT" + " " + "2") == "; SELECT 2";
    assert t + ";" + " " + "SELECT" + " " + "2" == t + (";" + (" " + "SELECT" + " " + "2"));
  }

  // ---------- The statements ----------

  lemma {:induction false} NotReached(comments: seq<Comment>, w: Written, location: int, i: nat)
    requires forall c | c in comments :: c.matchLocation > location
    ensures AddComments(comments, w, location, i) == w
    decreases |comments| - i
  {
    if i < |comments| {
      assert comments[i] in comments;
      NotReached(comments, w, location, i + 1);
    }
  }

  /** The space behind the constant is removed again. */
  lemma TextWords(comments: seq<Comment>, w: Written, constant: string)
    requires w.cur == "" && constant != "" && !IsBlank(constant[|constant|-1])
    ensures RunOps(comments, [Text(constant), Text(" "), TrimSpace], w) == w.(cur := constant)
  {
    assert "" + constant == constant && Trimmed(constant + " ") == constant;
    assert [Text(constant), Text(" "), TrimSpace][1..] == [Text(" "), TrimSpace];
    assert [Text(" "), TrimSpace][1..] == [TrimSpace] && [TrimSpace][1..] == [];
    assert RunOps(comments, [TrimSpace], w.(cur := constant + " ")) == w.(cur := constant);
    assert RunOps(comments, [Text(" "), TrimSpace], w.(cur := constant)) == w.(cur := constant);
  }

  lemma SelectWords(comments: seq<Comment>, w: Written, constant: string, location: int)
    requires forall c | c in comments :: c.matchLocation > location
    requires w.cur == "" && constant != "" && !IsBlank(constant[|constant|-1])
    ensures Break(RunOps(comments, SelectOps(constant, location), w)) == w.(done := Glue(Glue(w.done, "SELECT"), constant))
  {
    var ops := SelectOps(constant, location);
    var w1 := w.(done := Glue(w.done, "SELECT"));
    assert RunOp(comments, ops[0], w) == w1;
    NotReached(comments, w1, location, 0);
    TextWords(comments, w1, constant);
    assert ops[1..][1..] == [Text(constant), Text(" "), TrimSpace];
    assert RunOps(comments, ops[1..], w1) == w1.(cur := constant);
  }

  lemma FirstBody()
    ensures AfterBody([NOTE], SelectOps("1", 7), 0, "") == Written("SELECT 1", "", [], {})
  {
    var w0 := Written("", "", [], {});
    NotReached([NOTE], w0, 0, 0);
    GlueNothing("");
    SelectWords([NOTE], w0, "1", 7);
    FirstWords();
    hide RunOps, SelectOps, AddComments;
    assert AfterLead([NOTE], 0, "") == w0;
  }

  lemma NoteAdded()
    ensures Break(AddComments([NOTE], Written("SELECT 1", "", [], {}), INT_MAX, 0)) == Written("SELECT 1 -- c", "", [0], {13})
  {
    var w, r := Written("SELECT 1", "", [], {}), Written("SELECT 1 -- c", "", [0], {13});
    NoteWords();
    GlueNothing("SELECT 1 -- c");
    hide Scan;
    assert "" + "-- c" == "-- c";
    assert AddComment(w, NOTE, 0) == r;
    assert AddComments([NOTE], r, INT_MAX, 1) == r;
  }

  lemma FirstStatement()
    ensures RunStatement([NOTE], SelectOps("1", 7), 0, "") == Written("SELECT 1 -- c", "", [0], {13})
  {
    hide AfterBody, AddComments, Break, SelectOps;
    FirstBody();
    NoteAdded();
  }

  lemma SecondStatement(t: string)
    requires t != ""
    ensures RunStatement([], SelectOps("2", 23), 16, Glue(t, "; ")) == Written(t + "; SELECT 2", "", [], {})
  {
    hide Scan, SelectOps, RunOps;
    SelectWords([], Written(Glue(t, "; "), "", [], {}), "2", 23);
    SecondWords(t);
  }

  lemma NoteGiven()
    ensures CommentsOf([NOTE], Statements(), 0) == [NOTE] && CommentsOf([NOTE], Statements(), 1) == []
  {
    hide SelectOps;
    assert [NOTE][1..] == [];
    assert EndOf(Statements(), 0) == 14 && EndOf(Statements(), 1) == INT_MAX;
    assert Select([NOTE], 0, 14) == [NOTE] + Select([], 0, 14) && Select([NOTE], 14, INT_MAX) == [] + Select([], 14, INT_MAX);
  }

  lemma SelectPrints(comments: seq<Comment>, constant: string, at: int, location: int, start: string)
    ensures Prints(comments, SelectOps(constant, at), location, start)
  {
    assert Touches(comments, SelectOps(constant, at)[0], AfterLead(comments, location, start));
  }

  lemma BothStatements(t: string)
    requires t != "" && RunStatement([NOTE], SelectOps("1", 7), 0, "") == Written(t, "", [0], {13})
    ensures var stmts := Statements();
            && StatementsWords([NOTE], stmts, 2) == t + "; SELECT 2" && StatementsEnds([NOTE], stmts, 2) == {13}
            && (forall i | 0 <= i < 2 :: PrintsAt([NOTE], stmts, i))
  {
    var stmts := Statements();
    assert StatementsWords([NOTE], stmts, 0) == "" && StatementsEnds([NOTE], stmts, 0) == {};
    hide StatementsWords, StatementsEnds, PrintsAt, RunStatement, SelectOps, Prints, CommentsOf, Glue;
    NoteGiven();
    NextStatement([NOTE], stmts, 0);
    SelectPrints([NOTE], "1", 7, 0, "");
    SecondStatement(t);
    NextStatement([NOTE], stmts, 1);
    SelectPrints([], "2", 23, 16, Glue(t, "; "));
  }

  lemma SelectEndsInText(constant: string, location: nat)
    requires HasText(constant)
    ensures EndsInText(SelectOps(constant, location), false) && LastAskedIn(SelectOps(constant, location), 0) == location
  {
    var ops := SelectOps(constant, location);
    assert [Text(" "), TrimSpace][1..] == [TrimSpace] && [TrimSpace][1..] == [];
    assert EndsInText([TrimSpace], true) && LastAskedIn([TrimSpace], location) == location;
    assert EndsInText([Text(" "), TrimSpace], true) && LastAskedIn([Text(" "), TrimSpace], location) == location;
    assert [Text(constant), Text(" "), TrimSpace][1..] == [Text(" "), TrimSpace];
    assert EndsInText([Text(constant), Text(" "), TrimSpace], false) && LastAskedIn([Text(constant), Text(" "), TrimSpace], location) == location;
    assert ops[1..][1..] == [Text(constant), Text(" "), TrimSpace];
    assert EndsInText(ops[1..], true) && LastAskedIn(ops[1..], 0) == location;
  }

  lemma LastNote()
    ensures FinalComment([NOTE], SelectOps("1", 7), 0) == Some(NOTE) && IsLineComment(NOTE)
  {
    assert LastAskedIn(SelectOps("1", 7), 0) == 7 by { SelectEndsInText("1", 7); }
    hide SelectOps, LastAskedIn;
    assert LastBehind([NOTE], 7, 1) == None;
    assert LastBehind([NOTE], 7, 0) == Some(0);
  }

  lemma NewlineLost(opts: Opts)
    requires opts.comments == [NOTE]
    ensures LosesNewlineAt(opts, Statements(), 0) <==> opts.prettyPrint && !opts.trailingNewline
  {
    LastNote();
    NoteGiven();
    hide CommentsOf, SelectOps, FinalComment, IsLineComment;
  }

  lemma NoteReadable()
    ensures Readable([NOTE], Statements()) && NoEmptyComment([NOTE])
  {
    SelectEndsInText("1", 7);
    SelectEndsInText("2", 23);
    hide SelectOps, EndsInText, LastAskedIn;
  }

  /** The comment ends 13 characters into the words.  A pretty-printing run without a newline at the end, and
      no other run, has no newline there, so that the semicolon and the second statement are part of it. */
  method SecondStatementSwallowed(opts: Opts, outside: char) returns (ok: bool, out: string)
    requires opts.comments == CommentsIn(QUERY, Tokens(), 6)
    ensures ok && WordsOf(out) == "SELECT 1 -- c" + "; SELECT 2"
    ensures 13 in OutputBreaks(out) <==> !opts.prettyPrint || opts.trailingNewline
  {
    hide *;
    var stmts := Statements();
    NoteFound();
    FirstStatement();
    BothStatements("SELECT 1 -- c");
    NewlineLost(opts);
    NoteReadable();
    ok, out := DeparseProtobufOpts(opts, stmts, outside);
  }
}
