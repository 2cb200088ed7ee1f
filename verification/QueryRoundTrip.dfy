/** What deparseSelectStmt prints reads back as the same tree, and when it does not. */
module QueryRoundTrip {
  import opened QuerySyntax
  import opened QueryPrinter
  import opened QueryGrammar

  // ---------- What may follow ----------

  predicate IsOption(t: Token) {
    t.TSort? || t.TLimit? || t.TOffset? || t.TFetchFirst? || t.TLocking?
  }

  predicate IsJoinWord(t: Token) {
    t.TNatural? || t.TCross? || t.TJoinKind? || t.TJoin?
  }

  predicate EndsSelect(k: seq<Token>) {
    k == [] || k[0] == TRParen
  }

  /** What comes after an operand of a set operation, or after a SELECT without its clauses. */
  predicate EndsBody(k: seq<Token>) {
    k != [] ==> k[0] == TRParen || k[0].TSetOp? || IsOption(k[0])
  }

  predicate EndsTable(k: seq<Token>) {
    NoAlias(k) && (k != [] ==> !IsJoinWord(k[0]))
  }

  predicate NoAlias(k: seq<Token>) {
    k != [] ==> !k[0].TAlias? && k[0] != TAs
  }

  const NO_OPTIONS := Options(None, None, None, [])

  // ---------- Clauses ----------

  lemma {:induction false} LockingReads(locking: seq<nat>, k: seq<Token>)
    requires k != [] ==> !k[0].TLocking?
    ensures ParseLocking(LockingOn(locking, k)) == Parsed(locking, k)
  {
    if locking != [] {
      LockingReads(locking[1..], k);
      var ts := LockingOn(locking, k);
      assert ts == [TLocking(locking[0])] + LockingOn(locking[1..], k) && ts[1..] == LockingOn(locking[1..], k);
      assert [locking[0]] + locking[1..] == locking;
    }
  }

  lemma LockingStarts(locking: seq<nat>, k: seq<Token>)
    ensures locking == [] ==> LockingOn(locking, k) == k
    ensures locking != [] ==> LockingOn(locking, k) != [] && LockingOn(locking, k)[0].TLocking?
  {
  }

  lemma LimitReads(limit: Option<Limit>, offset: Option<nat>, k: seq<Token>)
    requires limit.Some? ==> !(limit.value.withTies && limit.value.count.AllRows?)
    requires k != [] ==> !k[0].TLimit? && !k[0].TFetchFirst? && !k[0].TOffset?
    ensures ParseLimits(LimitOn(limit, OffsetOn(offset, k))) == Some(Parsed(Options(None, limit, offset, []), k))
  {
    OffsetReads(offset, k);
    var o := OffsetOn(offset, k);
    if limit.Some? {
      OneLimitReads(limit.value, o);
      assert limit == Some(limit.value);
      hide ParseOffset, ParseLimit, LimitOn, OffsetOn;
    } else {
      hide ParseOffset, OffsetOn;
      assert ParseLimit(k) == Some(Parsed(None, k));
      assert offset.None? ==> o == k && ParseOffset(k) == Some(Parsed(None, k)) by { OffsetReads(None, k); NoOffset(k); }
      assert offset.Some? ==> StartsWith(o, TOffset) by { OffsetFirst(offset, k); }
    }
  }

  lemma NoOffset(k: seq<Token>)
    ensures OffsetOn(None, k) == k
  {
  }

  lemma OffsetFirst(offset: Option<nat>, k: seq<Token>)
    ensures offset.Some? ==> StartsWith(OffsetOn(offset, k), TOffset)
  {
  }

  lemma OffsetReads(offset: Option<nat>, k: seq<Token>)
    requires k != [] ==> !k[0].TOffset?
    ensures ParseOffset(OffsetOn(offset, k)) == Some(Parsed(offset, k))
  {
    if offset.Some? { assert OffsetOn(offset, k)[2..] == k; }
  }

  lemma OneLimitReads(limit: Limit, k: seq<Token>)
    requires !(limit.withTies && limit.count.AllRows?)
    ensures ParseLimit(LimitOn(Some(limit), k)) == Some(Parsed(Some(limit), k))
    ensures !StartsWith(LimitOn(Some(limit), k), TOffset)
  {
    var ts := LimitOn(Some(limit), k);
    if limit.withTies { assert ts[3..] == k; } else { assert ts[2..] == k; }
  }

  lemma OptionsRead(s: Select, k: seq<Token>)
    requires EndsSelect(k) && (s.limit.Some? ==> !(s.limit.value.withTies && s.limit.value.count.AllRows?))
    ensures ParseOptions(OptionsOn(s, k)) == Some(Parsed(Options(s.sort, s.limit, s.offset, s.locking), k))
  {
    var locking := LockingOn(s.locking, k);
    LockingReads(s.locking, k);
    LockingStarts(s.locking, k);
    hide ParseLocking, LockingOn;
    LimitReads(s.limit, s.offset, locking);
    LimitStarts(s.limit, s.offset, locking);
    if s.limit.None? && s.offset.None? {
      NoLimits(locking);
      NoLimits(k);
    }
    AfterSort(s, LimitOn(s.limit, OffsetOn(s.offset, locking)), locking, k);
    hide ParseOptions, SortOn, LimitOn, OffsetOn;
  }

  lemma AfterSort(s: Select, ts: seq<Token>, locking: seq<Token>, k: seq<Token>)
    requires ts != [] ==> !ts[0].TSort?
    requires ParseLimits(ts) == Some(Parsed(Options(None, s.limit, s.offset, []), locking)) && ParseLocking(locking) == Parsed(s.locking, k)
    requires ts != [] && ts[0].TLocking? ==> ts == locking && s.limit.None? && s.offset.None? && ParseLimits(k) == Some(Parsed(NO_OPTIONS, k))
    ensures ParseOptions(SortOn(s.sort, ts)) == Some(Parsed(Options(s.sort, s.limit, s.offset, s.locking), k))
  {
    hide ParseLimits, ParseLocking;
    assert s.sort.Some? ==> SortOn(s.sort, ts)[1..] == ts;
  }

  lemma LimitStarts(limit: Option<Limit>, offset: Option<nat>, k: seq<Token>)
    ensures var ts := LimitOn(limit, OffsetOn(offset, k));
            if limit.None? && offset.None? then ts == k
            else ts != [] && (ts[0].TLimit? || ts[0].TFetchFirst? || ts[0].TOffset?)
  {
  }

  lemma NoLimits(k: seq<Token>)
    requires k != [] ==> !k[0].TLimit? && !k[0].TFetchFirst? && !k[0].TOffset?
    ensures ParseLimits(k) == Some(Parsed(NO_OPTIONS, k))
  {
  }

  /** Nothing that follows a SELECT in parentheses is taken for one of its clauses. */
  lemma NoOptionsRead(k: seq<Token>)
    requires k != [] ==> !IsOption(k[0])
    ensures ParseOptions(k) == Some(Parsed(NO_OPTIONS, k))
  {
    NoLimits(k);
  }

  lemma OptionsStart(s: Select, k: seq<Token>)
    requires EndsSelect(k)
    ensures EndsBody(OptionsOn(s, k)) && (OptionsOn(s, k) != [] ==> !OptionsOn(s, k)[0].TSetOp?)
  {
    LockingStarts(s.locking, k);
    LimitStarts(s.limit, s.offset, LockingOn(s.locking, k));
    hide LockingOn, LimitOn, OffsetOn;
  }

  // ---------- SELECT ----------

  predicate Good(s: Select) {
    GrammaticalSelect(s) && PrintableSelect(s)
  }

  predicate GoodTable(t: Table) {
    GrammaticalTable(t) && PrintableTable(t)
  }

  lemma {:induction false} SelectReads(s: Select, k: seq<Token>)
    requires Good(s) && EndsSelect(k)
    ensures ParseSelect(SelectOn(s, k)) == Some(Parsed(s, k))
    decreases s, 2
  {
    hide ParseSelect, ParseUnderWith, WithOn, BodyOn, OptionsOn, ParseWith;
    var options := OptionsOn(s, k);
    var body := BodyOn(s.body, options);
    UnderWithReads(s, s.with, k);
    BodyFirst(s.body, options);
    if s.with.Some? {
      GoodParts(s);
      WithReads(s.with.value, body);
      WithFirst(s.with.value, body);
    } else {
      NoWith(body);
    }
    SelectIs(s.with, body);
  }

  lemma GoodParts(s: Select)
    requires Good(s)
    ensures GrammaticalBody(s.body) && PrintableBody(s.body)
    ensures s.with.Some? ==> s.with.value.ctes != [] && GrammaticalCtes(s.with.value.ctes) && PrintableCtes(s.with.value.ctes)
  {
  }

  /** ParseSelect in terms of its parts. */
  lemma SelectIs(with: Option<With>, body: seq<Token>)
    requires with.None? ==> !StartsWith(body, TWith)
    requires with.Some? ==> WithOn(with, body) != [] && WithOn(with, body)[0] == TWith && ParseWith(WithOn(with, body)[1..]) == Some(Parsed(with.value, body))
    ensures ParseSelect(WithOn(with, body)) == ParseUnderWith(with, body)
  {
    hide ParseUnderWith, ParseWith, CtesOn;
  }

  lemma NoWith(ts: seq<Token>)
    requires ts != [] ==> ts[0] != TWith
    ensures !StartsWith(ts, TWith)
  {
  }

  lemma WithFirst(with: With, k: seq<Token>)
    ensures WithOn(Some(with), k) != [] && WithOn(Some(with), k)[0] == TWith
  {
    hide CtesOn;
  }

  lemma {:induction false} BodyFirst(b: Body, k: seq<Token>)
    ensures BodyOn(b, k) != [] && (BodyOn(b, k)[0] == TSelect || BodyOn(b, k)[0].TValues? || BodyOn(b, k)[0] == TLParen)
    decreases b
  {
    match b
    case SetOp(op, all, larg, rarg) =>
      hide SelectOn;
      var rest := [TSetOp(op)] + OptionalToken(all, TAll, OperandOn(rarg, k));
      if !NeedsParens(larg) {
        PlainOperand(larg, rest);
        BodyFirst(larg.body, rest);
      }
    case _ =>
  }

  /** An operand without parentheses is just a SELECT or VALUES. */
  lemma PlainOperand(s: Select, k: seq<Token>)
    requires !NeedsParens(s)
    ensures OperandOn(s, k) == BodyOn(s.body, k) && s == MakeCore(s.body)
  {
    hide BodyOn;
    assert s == MakeCore(s.body);
    assert LockingOn(s.locking, k) == k;
    assert OptionsOn(s, k) == k;
    assert SelectOn(s, k) == BodyOn(s.body, k);
  }

  lemma {:induction false} UnderWithReads(s: Select, with: Option<With>, k: seq<Token>)
    requires Good(s) && EndsSelect(k) && with == s.with
    ensures ParseUnderWith(with, BodyOn(s.body, OptionsOn(s, k))) == Some(Parsed(s, k))
    decreases s, 1
  {
    hide ParseSetOps, ParseOptions, BodyOn, OptionsOn;
    var options := OptionsOn(s, k);
    OptionsStart(s, k);
    BodyReads(s.body, options);
    OptionsRead(s, k);
    assert [] + s.locking == s.locking;
  }

  lemma {:induction false} WithReads(with: With, k: seq<Token>)
    requires with.ctes != [] && GrammaticalCtes(with.ctes) && PrintableCtes(with.ctes) && (k != [] ==> k[0] != TComma)
    ensures ParseWith(WithOn(Some(with), k)[1..]) == Some(Parsed(with, k))
    decreases with, 1
  {
    hide ParseCtes, CtesOn;
    CtesRead(with.ctes, k);
    CtesFirst(with.ctes, k);
    var ctes := CtesOn(with.ctes, k);
    assert WithOn(Some(with), k)[1..] == OptionalToken(with.recursive, TRecursive, ctes);
    assert ([TRecursive] + ctes)[1..] == ctes;
  }

  lemma CtesFirst(ctes: seq<Cte>, k: seq<Token>)
    requires ctes != []
    ensures CtesOn(ctes, k) != [] && CtesOn(ctes, k)[0].TCte?
  {
    hide SelectOn;
  }

  lemma {:induction false} CtesRead(ctes: seq<Cte>, k: seq<Token>)
    requires ctes != [] && GrammaticalCtes(ctes) && PrintableCtes(ctes) && (k != [] ==> k[0] != TComma)
    ensures ParseCtes(CtesOn(ctes, k)) == Some(Parsed(ctes, k))
    decreases ctes, 0
  {
    hide ParseCte, CteOn, GrammaticalCte, PrintableCte;
    var rest := if |ctes| == 1 then k else [TComma] + CtesOn(ctes[1..], k);
    CteReads(ctes[0], rest);
    if |ctes| > 1 {
      CtesRead(ctes[1..], k);
      assert ctes == [ctes[0]] + ctes[1..];
    } else {
      assert ctes == [ctes[0]];
    }
  }

  lemma {:induction false} CteReads(c: Cte, k: seq<Token>)
    requires GrammaticalCte(c) && PrintableCte(c)
    ensures ParseCte(CteOn(c, k)) == Some(Parsed(c, k))
    decreases c, 1
  {
    hide ParseSelect, SelectOn;
    var select := SelectOn(c.query, [TRParen] + k);
    SelectReads(c.query, [TRParen] + k);
    var marked := c.materialized != Default;
    var ts := CteOn(c, k);
    var at := if marked then ts[3..] else ts[2..];
    assert at == [TLParen] + select;
    assert at[1..] == select;
  }

  /** Enough tokens in front of a select_clause: it reads back whatever its level, up to the clauses. */
  lemma {:induction false} BodyReads(b: Body, k: seq<Token>)
    requires GrammaticalBody(b) && PrintableBody(b) && EndsBody(k) && (k != [] ==> !k[0].TSetOp?)
    ensures ParseSetOps(1, BodyOn(b, k)) == Some(Parsed(MakeCore(b), k))
    decreases b, 3
  {
    match b
    case SetOp(op, all, larg, rarg) =>
      hide ParsePrimary, OperandOn;
      var right := OperandOn(rarg, k);
      var rest := [TSetOp(op)] + OptionalToken(all, TAll, right);
      OperandReads(larg, rest);
      OperandReads(rarg, k);
      OperandFirst(rarg, k);
      SetOpStep(larg, op, all, rarg, right, k);
    case _ =>
      hide ParsePrimary, BodyOn;
      CoreReads(b, k);
  }

  lemma OperandFirst(s: Select, k: seq<Token>)
    ensures OperandOn(s, k) != [] && OperandOn(s, k)[0] != TAll
  {
    if !NeedsParens(s) {
      PlainOperand(s, k);
      BodyFirst(s.body, k);
    }
    hide SelectOn, BodyOn;
  }

  /** After the left operand: the operator, and the right operand up to k. */
  lemma SetOpStep(left: Select, op: SetOperator, all: bool, right: Select, ts: seq<Token>, k: seq<Token>)
    requires ParsePrimary(ts) == Some(Parsed(right, k)) && (k != [] ==> !k[0].TSetOp?) && !StartsWith(ts, TAll)
    ensures SetOpLoop(left, 1, [TSetOp(op)] + OptionalToken(all, TAll, ts)) == Some(Parsed(MakeSetOp(op, all, left, right), k))
  {
    hide ParsePrimary;
    var rest := [TSetOp(op)] + OptionalToken(all, TAll, ts);
    assert rest[1..] == OptionalToken(all, TAll, ts);
    assert all ==> rest[2..] == ts;
    assert SetOpLoop(right, Level(op) + 1, k) == Some(Parsed(right, k));
    assert ParseSetOps(Level(op) + 1, ts) == Some(Parsed(right, k));
    assert SetOpLoop(MakeSetOp(op, all, left, right), 1, k) == Some(Parsed(MakeSetOp(op, all, left, right), k));
  }

  lemma {:induction false} OperandReads(s: Select, k: seq<Token>)
    requires Good(s) && EndsBody(k)
    ensures ParsePrimary(OperandOn(s, k)) == Some(Parsed(s, k))
    decreases s, 3
  {
    if NeedsParens(s) {
      hide ParseSelect, SelectOn;
      SelectReads(s, [TRParen] + k);
      var select := SelectOn(s, [TRParen] + k);
      assert ([TLParen] + select)[1..] == select && ([TRParen] + k)[1..] == k;
    } else {
      PlainOperand(s, k);
      hide ParsePrimary, OperandOn, BodyOn;
      CoreReads(s.body, k);
    }
  }

  lemma {:induction false} CoreReads(b: Body, k: seq<Token>)
    requires !b.SetOp? && GrammaticalBody(b) && PrintableBody(b) && EndsBody(k)
    ensures ParsePrimary(BodyOn(b, k)) == Some(Parsed(MakeCore(b), k))
    decreases b, 2
  {
    match b
    case Values(rows) => assert BodyOn(b, k)[1..] == k;
    case Core(targets, from, tail) =>
      hide ParsePrimary, ParseTables, TablesOn;
      TailFirst(tail, k);
      if from != [] {
        TablesRead(from, TailOn(tail, k));
      }
      CoreTextReads(targets, from, tail, k);
      hide ParseCore, TargetsOn, FromOn, TailOn;
      SelectWord(TargetsOn(targets, FromOn(from, TailOn(tail, k))));
  }

  lemma SelectWord(ts: seq<Token>)
    ensures ParsePrimary([TSelect] + ts) == ParseCore(ts)
  {
    hide ParseCore;
    assert ([TSelect] + ts)[1..] == ts;
  }

  lemma TailFirst(tail: Option<nat>, k: seq<Token>)
    requires EndsBody(k)
    ensures EndsTable(TailOn(tail, k)) && (TailOn(tail, k) != [] ==> TailOn(tail, k)[0] != TComma)
  {
  }

  lemma TailReads(targets: Option<nat>, from: seq<Table>, tail: Option<nat>, k: seq<Token>)
    requires EndsBody(k)
    ensures ParseTail(targets, from, TailOn(tail, k)) == Parsed(MakeCore(Core(targets, from, tail)), k)
    ensures !StartsWith(TailOn(tail, k), TFrom) && (TailOn(tail, k) != [] ==> !TailOn(tail, k)[0].TTargets?)
  {
    assert tail.Some? ==> TailOn(tail, k)[1..] == k;
  }

  lemma FromReads(targets: Option<nat>, from: seq<Table>, tail: Option<nat>, k: seq<Token>)
    requires EndsBody(k)
    requires from != [] ==> ParseTables(TablesOn(from, TailOn(tail, k))) == Some(Parsed(from, TailOn(tail, k)))
    ensures var ts := FromOn(from, TailOn(tail, k));
            && (ts != [] ==> !ts[0].TTargets?)
            && StartsWith(ts, TFrom) == (from != [])
            && (from != [] ==> ParseTables(ts[1..]) == Some(Parsed(from, TailOn(tail, k))))
            && (from == [] ==> ts == TailOn(tail, k))
  {
    hide ParseTables, TablesOn;
    TailReads(targets, from, tail, k);
    hide TailOn;
    assert from != [] ==> FromOn(from, TailOn(tail, k))[1..] == TablesOn(from, TailOn(tail, k));
  }

  lemma CoreTextReads(targets: Option<nat>, from: seq<Table>, tail: Option<nat>, k: seq<Token>)
    requires EndsBody(k)
    requires from != [] ==> ParseTables(TablesOn(from, TailOn(tail, k))) == Some(Parsed(from, TailOn(tail, k)))
    ensures ParseCore(TargetsOn(targets, FromOn(from, TailOn(tail, k)))) == Some(Parsed(MakeCore(Core(targets, from, tail)), k))
  {
    TailReads(targets, from, tail, k);
    FromReads(targets, from, tail, k);
    hide ParseTables, FromOn, TailOn, ParseTail;
    var ts := FromOn(from, TailOn(tail, k));
    assert targets.Some? ==> TargetsOn(targets, ts)[1..] == ts;
  }

  // ---------- Tables ----------

  lemma {:induction false} TablesRead(from: seq<Table>, k: seq<Token>)
    requires from != [] && GrammaticalTables(from) && PrintableTables(from) && EndsTable(k) && (k != [] ==> k[0] != TComma)
    ensures ParseTables(TablesOn(from, k)) == Some(Parsed(from, k))
    decreases from, 0
  {
    hide ParseTable, TableOn, GrammaticalTable, PrintableTable, JoinLoop;
    var rest := if |from| == 1 then k else [TComma] + TablesOn(from[1..], k);
    TableReads(from[0], rest);
    NoJoin(from[0], rest);
    if |from| > 1 {
      TablesRead(from[1..], k);
      assert from == [from[0]] + from[1..];
    } else {
      assert from == [from[0]];
    }
  }

  lemma NoJoin(t: Table, k: seq<Token>)
    requires k != [] ==> !IsJoinWord(k[0])
    ensures JoinLoop(t, k) == Some(Parsed(t, k))
  {
  }

  lemma AliasReads(alias: Option<nat>, k: seq<Token>)
    requires NoAlias(k)
    ensures ParseAlias(AliasOn(alias, k)) == Parsed(alias, k)
  {
    assert alias.Some? ==> AliasOn(alias, k)[1..] == k;
  }

  /** A table reads back, and then whatever joins follow are added to it. */
  lemma {:induction false} TableReads(t: Table, k: seq<Token>)
    requires GoodTable(t) && NoAlias(k)
    ensures ParseTable(TableOn(t, k)) == JoinLoop(t, k)
    decreases t, 3
  {
    if t.Join? && t.alias.None? {
      hide ParseTable, JoinLoop, TableOn, JoinWordsOn, RightArgOn, ConditionOn;
      var right := RightArgOn(t.rarg, ConditionOn(t, k));
      var rest := JoinWordsOn(t, right);
      JoinWordsFirst(t, right);
      TableReads(t.larg, rest);
      JoinReads(t, k);
      TableIsJoin(t, k);
    } else {
      hide ParseTablePrimary, JoinLoop, TableOn;
      PrimaryReads(t, k);
    }
  }

  lemma TableIsJoin(t: Table, k: seq<Token>)
    requires t.Join? && t.alias.None?
    ensures TableOn(t, k) == JoinOn(t, k) == TableOn(t.larg, JoinWordsOn(t, RightArgOn(t.rarg, ConditionOn(t, k))))
  {
    hide JoinWordsOn, RightArgOn, ConditionOn;
  }

  lemma JoinWordsFirst(t: Table, k: seq<Token>)
    requires t.Join?
    ensures JoinWordsOn(t, k) != [] && IsJoinWord(JoinWordsOn(t, k)[0])
  {
  }

  /** Everything but a join without an alias. */
  lemma {:induction false} PrimaryReads(t: Table, k: seq<Token>)
    requires GoodTable(t) && NoAlias(k) && !(t.Join? && t.alias.None?)
    ensures ParseTablePrimary(TableOn(t, k)) == Some(Parsed(t, k))
    decreases t, 1
  {
    hide ParseSelect, SelectOn, ParseTable, JoinOn;
    match t
    case Relation(name, alias) =>
      AliasReads(alias, k);
      assert TableOn(t, k)[1..] == AliasOn(alias, k);
    case Subselect(lateral, query, alias) =>
      SubselectReads(lateral, query, alias, k);
      var select := SelectOn(query, [TRParen] + AliasOn(alias, k));
      hide ParseSubselect;
      assert ([TLParen] + select)[1..] == select;
      assert lateral ==> TableOn(t, k)[1..] == [TLParen] + select && TableOn(t, k)[2..] == select;
    case Join(_, _, _, _, _, _, alias) =>
      var close := [TRParen] + ([TAlias(alias.value)] + k);
      var join := JoinOn(t, close);
      ParenthesizedJoinReads(t, alias, k);
      assert TableOn(t, k)[1..] == join;
      NotASelect(t, close);
  }

  lemma {:induction false} SubselectReads(lateral: bool, query: Select, alias: Option<nat>, k: seq<Token>)
    requires Good(query) && NoAlias(k)
    ensures ParseSubselect(lateral, SelectOn(query, [TRParen] + AliasOn(alias, k))) == Some(Parsed(Subselect(lateral, query, alias), k))
    decreases query, 4
  {
    hide ParseSelect, SelectOn;
    SelectReads(query, [TRParen] + AliasOn(alias, k));
    AliasReads(alias, k);
    assert ([TRParen] + AliasOn(alias, k))[1..] == AliasOn(alias, k);
  }

  /** A join in parentheses, with or without an alias outside. */
  lemma {:induction false} ParenthesizedJoinReads(t: Table, alias: Option<nat>, k: seq<Token>)
    requires t.Join? && GoodTable(t) && NoAlias(k) && alias == t.alias
    ensures ParseParenthesizedJoin(JoinOn(t, [TRParen] + AliasOn(alias, k))) == Some(Parsed(t, k))
    decreases t, 0
  {
    hide ParseTable, JoinLoop, TableOn, JoinWordsOn, RightArgOn, ConditionOn;
    var close := [TRParen] + AliasOn(alias, k);
    var bare := WithAlias(t, None);
    var right := RightArgOn(t.rarg, ConditionOn(t, close));
    JoinWordsFirst(t, right);
    TableReads(t.larg, JoinWordsOn(t, right));
    JoinReads(t, close);
    NoJoin(bare, close);
    AliasReads(alias, k);
    assert close[1..] == AliasOn(alias, k);
    assert JoinOn(t, close) == TableOn(t.larg, JoinWordsOn(t, right));
  }

  /** The rest of a join after its left operand. */
  lemma {:induction false} JoinReads(t: Table, k: seq<Token>)
    requires t.Join? && GoodTable(t) && NoAlias(k)
    ensures JoinLoop(t.larg, JoinWordsOn(t, RightArgOn(t.rarg, ConditionOn(t, k)))) == JoinLoop(WithAlias(t, None), k)
    decreases t.rarg, 5
  {
    var cond := ConditionOn(t, k);
    var right := RightArgOn(t.rarg, cond);
    ConditionFirst(t, k);
    RightArgReads(t.rarg, cond);
    RightArgFirst(t.rarg, cond);
    if t.natural || IsCross(t) {
      WordsUnconditional(t, right, k);
    } else {
      WordsConditional(t, right, k);
    }
  }

  lemma ConditionFirst(t: Table, k: seq<Token>)
    requires t.Join? && GoodTable(t) && NoAlias(k)
    ensures NoAlias(ConditionOn(t, k))
    ensures if t.natural || IsCross(t) then ConditionOn(t, k) == k
            else ConditionOn(t, k) != [] && (ConditionOn(t, k)[0] == TOn || ConditionOn(t, k)[0].TUsing?)
  {
  }

  lemma RightArgFirst(t: Table, k: seq<Token>)
    ensures RightArgOn(t, k) != [] && !IsJoinWord(RightArgOn(t, k)[0])
  {
    if !(t.Join? && t.alias.None?) {
      TableFirst(t, k);
    }
    hide TableOn;
  }

  lemma TableFirst(t: Table, k: seq<Token>)
    requires !(t.Join? && t.alias.None?)
    ensures TableOn(t, k) != [] && !IsJoinWord(TableOn(t, k)[0])
  {
    hide SelectOn, JoinOn;
  }

  lemma WordsUnconditional(t: Table, right: seq<Token>, k: seq<Token>)
    requires t.Join? && GrammaticalTable(t) && (t.natural || IsCross(t)) && ParseTablePrimary(right) == Some(Parsed(t.rarg, k))
    requires right != [] && !IsJoinWord(right[0])
    ensures JoinLoop(t.larg, JoinWordsOn(t, right)) == JoinLoop(WithAlias(t, None), k)
  {
    UnconditionalReads(t, right, k);
    JoinWordsRead(t, right);
    hide *;
  }

  lemma JoinWordsRead(t: Table, right: seq<Token>)
    requires t.Join? && GrammaticalTable(t) && right != [] && !IsJoinWord(right[0])
    ensures JoinLoop(t.larg, JoinWordsOn(t, right)) ==
            if t.natural || IsCross(t) then ParseUnconditional(t.larg, t.kind, t.natural, right) else ParseConditional(t.larg, t.kind, right)
  {
    hide ParseUnconditional, ParseConditional, GrammaticalTable;
    var words := [TJoin] + right;
    if t.natural {
      assert JoinWordsOn(t, right) == [TNatural] + (if t.kind != Inner then [TJoinKind(t.kind)] + words else words);
    } else if IsCross(t) {
      assert JoinWordsOn(t, right) == [TCross] + words;
    } else {
      assert JoinWordsOn(t, right) == if t.kind != Inner then [TJoinKind(t.kind)] + words else words;
    }
  }

  lemma UnconditionalReads(t: Table, right: seq<Token>, k: seq<Token>)
    requires t.Join? && GrammaticalTable(t) && (t.natural || IsCross(t)) && ParseTablePrimary(right) == Some(Parsed(t.rarg, k))
    ensures ParseUnconditional(t.larg, t.kind, t.natural, right) == JoinLoop(WithAlias(t, None), k)
  {
    hide ParseTablePrimary, JoinLoop;
    assert WithAlias(t, None) == Join(t.kind, t.natural, t.larg, t.rarg, None, None, None);
  }

  lemma WordsConditional(t: Table, right: seq<Token>, k: seq<Token>)
    requires t.Join? && GoodTable(t) && !t.natural && !IsCross(t)
    requires ParseTable(right) == Some(Parsed(t.rarg, ConditionOn(t, k)))
    requires NoAlias(k) && right != [] && !IsJoinWord(right[0])
    ensures JoinLoop(t.larg, JoinWordsOn(t, right)) == JoinLoop(WithAlias(t, None), k)
  {
    ConditionReads(t, right, k);
    JoinWordsRead(t, right);
    hide *;
  }

  lemma ConditionReads(t: Table, right: seq<Token>, k: seq<Token>)
    requires t.Join? && GoodTable(t) && !t.natural && !IsCross(t)
    requires ParseTable(right) == Some(Parsed(t.rarg, ConditionOn(t, k)))
    requires NoAlias(k)
    ensures ParseConditional(t.larg, t.kind, right) == JoinLoop(WithAlias(t, None), k)
  {
    hide ParseTable, JoinLoop;
    var cond := ConditionOn(t, k);
    if t.quals.Some? {
      assert cond == [TOn, TExpr(t.quals.value)] + k;
      assert cond[2..] == k;
    } else {
      var u := t.using.value;
      var after := if u.alias.Some? then [TAs] + ([TRawName(u.alias.value)] + k) else k;
      hide ParseUsingAlias, Unquoted;
      UsingAliasReads(u.alias, k);
      assert cond == [TUsing(u.names)] + after && cond[1..] == after;
    }
  }

  lemma UsingAliasReads(alias: Option<string>, k: seq<Token>)
    requires NoAlias(k) && (alias.Some? ==> Unquoted(alias.value))
    ensures ParseUsingAlias(if alias.Some? then [TAs] + ([TRawName(alias.value)] + k) else k) == Some(Parsed(alias, k))
  {
    if alias.Some? {
      ReadsItself(alias.value);
      hide ReadName, Unquoted;
      assert ([TAs] + ([TRawName(alias.value)] + k))[2..] == k;
    }
  }

  lemma {:induction false} RightArgReads(t: Table, k: seq<Token>)
    requires GoodTable(t) && NoAlias(k)
    ensures ParseTablePrimary(RightArgOn(t, k)) == Some(Parsed(t, k))
    ensures k != [] && (k[0] == TOn || k[0].TUsing?) ==> ParseTable(RightArgOn(t, k)) == Some(Parsed(t, k))
    decreases t, 4
  {
    hide ParseSelect, SelectOn, ParseTable, JoinOn, ParseParenthesizedJoin, JoinLoop;
    if t.Join? && t.alias.None? {
      var close := [TRParen] + k;
      ParenthesizedJoinReads(t, None, k);
      NotASelect(t, close);
      assert TableOn(t, close) == JoinOn(t, close);
      assert ([TLParen] + JoinOn(t, close))[1..] == JoinOn(t, close);
    } else {
      hide ParseTablePrimary, TableOn;
      PrimaryReads(t, k);
    }
    TableByPrimary(t, RightArgOn(t, k), k);
  }

  lemma TableByPrimary(t: Table, ts: seq<Token>, k: seq<Token>)
    requires ParseTablePrimary(ts) == Some(Parsed(t, k))
    ensures k != [] && (k[0] == TOn || k[0].TUsing?) ==> ParseTable(ts) == Some(Parsed(t, k))
  {
    hide ParseTablePrimary;
  }

  // ---------- A join in parentheses is not taken for a SELECT in parentheses ----------

  predicate NotClosed(r: Option<Parsed<Select>>) {
    r.Some? ==> !StartsWith(r.value.rest, TRParen)
  }

  lemma {:induction false} NotASelect(t: Table, k: seq<Token>)
    requires t.Join? && GoodTable(t)
    ensures NotClosed(ParseSelect(JoinOn(t, k)))
    ensures ParseSubselect(false, JoinOn(t, k)) == None
    decreases t, 0
  {
    hide ParseSelect, TableOn, JoinWordsOn, RightArgOn, ConditionOn;
    var right := RightArgOn(t.rarg, ConditionOn(t, k));
    JoinWordsFirst(t, right);
    LeftIsNoSelect(t.larg, JoinWordsOn(t, right));
  }

  lemma {:induction false} LeftIsNoSelect(t: Table, k: seq<Token>)
    requires GoodTable(t) && k != [] && IsJoinWord(k[0])
    ensures NotClosed(ParseSelect(TableOn(t, k)))
    decreases t, 1
  {
    match t
    case Relation(name, alias) => NoSelectHere(TableOn(t, k));
    case Subselect(lateral, query, alias) =>
      if lateral {
        NoSelectHere(TableOn(t, k));
      } else {
        SubselectAlone(query, alias, k);
      }
    case Join(_, _, _, _, _, _, alias) =>
      if alias.Some? {
        var close := [TRParen] + ([TAlias(alias.value)] + k);
        NotASelect(t, close);
        NoPrimary(JoinOn(t, close));
      } else {
        NotASelect(t, k);
      }
  }

  lemma NoSelectHere(ts: seq<Token>)
    requires ts != [] && (ts[0].TRelation? || ts[0] == TLateral)
    ensures ParseSelect(ts) == None
  {
    assert ParsePrimary(ts) == None;
    NoBody(ts);
  }

  lemma NoBody(ts: seq<Token>)
    requires ts != [] && ts[0] != TWith && ParsePrimary(ts) == None
    ensures ParseSelect(ts) == None
  {
    hide ParsePrimary;
    assert ParseSetOps(1, ts) == None;
    hide ParseSetOps;
    assert ParseUnderWith(None, ts) == None;
    hide ParseUnderWith;
  }

  lemma NoPrimary(ts: seq<Token>)
    requires NotClosed(ParseSelect(ts))
    ensures ParseSelect([TLParen] + ts) == None
  {
    var all := [TLParen] + ts;
    assert all[1..] == ts;
    assert ParsePrimary(all) == None by { hide ParseSelect; }
    NoBody(all);
  }

  lemma {:induction false} SubselectAlone(query: Select, alias: Option<nat>, k: seq<Token>)
    requires Good(query) && k != [] && IsJoinWord(k[0])
    ensures NotClosed(ParseSelect([TLParen] + SelectOn(query, [TRParen] + AliasOn(alias, k))))
    decreases query, 4
  {
    var rest := AliasOn(alias, k);
    var close := [TRParen] + rest;
    SelectReads(query, close);
    hide SelectOn, ParseSelect;
    assert close[1..] == rest;
    InParens(query, SelectOn(query, close), rest);
    NoOptionsRead(rest);
    SelectAlone(query, [TLParen] + SelectOn(query, close), rest);
  }

  lemma InParens(query: Select, ts: seq<Token>, k: seq<Token>)
    requires ParseSelect(ts) == Some(Parsed(query, [TRParen] + k))
    ensures ParsePrimary([TLParen] + ts) == Some(Parsed(query, k))
  {
    hide ParseSelect;
    assert ([TLParen] + ts)[1..] == ts && ([TRParen] + k)[1..] == k;
  }

  lemma SelectAlone(query: Select, ts: seq<Token>, k: seq<Token>)
    requires ParsePrimary(ts) == Some(Parsed(query, k)) && ParseOptions(k) == Some(Parsed(NO_OPTIONS, k))
    requires k != [] && !k[0].TSetOp? && k[0] != TRParen && ts != [] && ts[0] != TWith
    ensures NotClosed(ParseSelect(ts))
  {
    hide ParsePrimary, ParseOptions;
    assert ParseSetOps(1, ts) == Some(Parsed(query, k));
    hide ParseSetOps;
  }
}
