/** The round trip of SELECT statements: which trees survive it, and that all others do not. */
module QueryTheorems {
  import opened QuerySyntax
  import opened QueryPrinter
  import opened QueryGrammar
  import opened QueryRoundTrip

  // ---------- Texts without quotes and NULL ----------

  predicate FetchesAll(limit: Option<Limit>) {
    limit.Some? && limit.value.withTies && limit.value.count.AllRows?
  }

  /** The printer puts no USING alias in quotes, and writes no NULL in a LIMIT or FETCH FIRST clause. */
  predicate Clean(ts: seq<Token>) {
    forall i | 0 <= i < |ts| :: !ts[i].TName? && ts[i] != TNull
  }

  lemma CleanFrom(ts: seq<Token>, n: nat)
    requires n <= |ts|
    ensures Clean(ts) ==> Clean(ts[n..])
  {
  }

  lemma CleanPlus(ts: seq<Token>, k: seq<Token>)
    requires Clean(ts) && Clean(k)
    ensures Clean(ts + k)
  {
  }

  /** What the grammar reads is a grammatical tree, and a clean text gives one that can be printed. */
  lemma {:induction false} SelectBuilds(ts: seq<Token>)
    ensures var r := ParseSelect(ts); r.Some? ==> GrammaticalSelect(r.value.tree) && (Clean(ts) ==> PrintableSelect(r.value.tree) && Clean(r.value.rest))
    decreases |ts|, 5
  {
    hide ParseWith, ParseUnderWith, Clean;
    if StartsWith(ts, TWith) {
      var w := ParseWith(ts[1..]);
      WithBuilds(ts[1..]);
      if w.Some? {
        UnderWithBuilds(Some(w.value.tree), w.value.rest);
        CleanFrom(ts, 1);
      }
    } else {
      UnderWithBuilds(None, ts);
    }
  }

  lemma {:induction false} UnderWithBuilds(with: Option<With>, ts: seq<Token>)
    requires with.Some? ==> with.value.ctes != [] && GrammaticalCtes(with.value.ctes)
    ensures var r := ParseUnderWith(with, ts); r.Some? ==> GrammaticalSelect(r.value.tree) && (Clean(ts) && (with.Some? ==> PrintableCtes(with.value.ctes)) ==> PrintableSelect(r.value.tree) && Clean(r.value.rest))
    decreases |ts|, 4
  {
    hide ParseSetOps, ParseOptions, Clean;
    SetOpsBuild(1, ts);
    var p := ParseSetOps(1, ts);
    if p.Some? {
      OptionsBuild(p.value.rest);
    }
  }

  lemma {:induction false} WithBuilds(ts: seq<Token>)
    ensures var r := ParseWith(ts);
            r.Some? ==> r.value.tree.ctes != [] && GrammaticalCtes(r.value.tree.ctes) && (Clean(ts) ==> PrintableCtes(r.value.tree.ctes) && Clean(r.value.rest))
    decreases |ts|, 2
  {
    hide ParseCtes, Clean;
    if StartsWith(ts, TRecursive) {
      CtesBuild(ts[1..]);
      CleanFrom(ts, 1);
    } else {
      CtesBuild(ts);
    }
  }

  lemma {:induction false} CtesBuild(ts: seq<Token>)
    ensures var r := ParseCtes(ts); r.Some? ==> GrammaticalCtes(r.value.tree) && (Clean(ts) ==> PrintableCtes(r.value.tree) && Clean(r.value.rest))
    decreases |ts|, 1
  {
    hide ParseCte, Clean, GrammaticalCte;
    CteBuilds(ts);
    var c := ParseCte(ts);
    if c.Some? {
      var rest := c.value.rest;
      if StartsWith(rest, TComma) {
        CtesBuild(rest[1..]);
        CleanFrom(rest, 1);
      } else {
        assert GrammaticalCtes([c.value.tree]);
      }
    }
  }

  lemma {:induction false} CteBuilds(ts: seq<Token>)
    ensures var r := ParseCte(ts); r.Some? ==> GrammaticalCte(r.value.tree) && (Clean(ts) ==> PrintableCte(r.value.tree) && Clean(r.value.rest))
    decreases |ts|, 0
  {
    hide ParseSelect, Clean;
    var r := ParseCte(ts);
    if r.Some? {
      var n := if ts[2].TMaterialized? && ts[2].m != Default then 3 else 2;
      assert ts[n..][1..] == ts[n+1..];
      SelectBuilds(ts[n+1..]);
      var rest := ParseSelect(ts[n+1..]).value.rest;
      CleanFrom(ts, n + 1);
      CleanFrom(rest, 1);
    }
  }

  lemma {:induction false} SetOpsBuild(level: nat, ts: seq<Token>)
    ensures var r := ParseSetOps(level, ts); r.Some? ==> GrammaticalSelect(r.value.tree) && (Clean(ts) ==> PrintableSelect(r.value.tree) && Clean(r.value.rest))
    decreases |ts|, 3
  {
    hide ParsePrimary, SetOpLoop, Clean;
    PrimaryBuilds(ts);
    var p := ParsePrimary(ts);
    if p.Some? {
      SetOpLoopBuilds(p.value.tree, level, p.value.rest);
    }
  }

  lemma {:induction false} SetOpLoopBuilds(left: Select, level: nat, ts: seq<Token>)
    requires GrammaticalSelect(left)
    ensures var r := SetOpLoop(left, level, ts); r.Some? ==> GrammaticalSelect(r.value.tree) && (Clean(ts) && PrintableSelect(left) ==> PrintableSelect(r.value.tree) && Clean(r.value.rest))
    decreases |ts|, 2
  {
    hide ParseSetOps, Clean, GrammaticalSelect, PrintableSelect;
    if ts == [] || !ts[0].TSetOp? || Level(ts[0].op) < level {
      assert SetOpLoop(left, level, ts) == Some(Parsed(left, ts));
    } else {
      var all := StartsWith(ts[1..], TAll);
      var n := if all then 2 else 1;
      SetOpsBuild(Level(ts[0].op) + 1, ts[n..]);
      var p := ParseSetOps(Level(ts[0].op) + 1, ts[n..]);
      if p.Some? {
        var next := MakeSetOp(ts[0].op, all, left, p.value.tree);
        SetOpTrees(ts[0].op, all, left, p.value.tree);
        SetOpLoopBuilds(next, level, p.value.rest);
        CleanFrom(ts, n);
      }
    }
  }

  lemma SetOpTrees(op: SetOperator, all: bool, left: Select, right: Select)
    requires GrammaticalSelect(left) && GrammaticalSelect(right)
    ensures var s := MakeSetOp(op, all, left, right);
            GrammaticalSelect(s) && (PrintableSelect(left) && PrintableSelect(right) ==> PrintableSelect(s))
  {
  }

  lemma {:induction false} PrimaryBuilds(ts: seq<Token>)
    ensures var r := ParsePrimary(ts); r.Some? ==> GrammaticalSelect(r.value.tree) && (Clean(ts) ==> PrintableSelect(r.value.tree) && Clean(r.value.rest))
    decreases |ts|, 2
  {
    hide ParseSelect, ParseCore, Clean;
    var r := ParsePrimary(ts);
    if r.Some? {
      if ts[0] == TLParen {
        SelectBuilds(ts[1..]);
        var rest := ParseSelect(ts[1..]).value.rest;
        CleanFrom(rest, 1);
      } else if ts[0] == TSelect {
        CoreBuilds(ts[1..]);
      }
      CleanFrom(ts, 1);
    }
  }

  lemma {:induction false} CoreBuilds(ts: seq<Token>)
    ensures var r := ParseCore(ts); r.Some? ==> GrammaticalSelect(r.value.tree) && (Clean(ts) ==> PrintableSelect(r.value.tree) && Clean(r.value.rest))
    decreases |ts|, 2
  {
    hide ParseTables, Clean;
    var targets := if ts != [] && ts[0].TTargets? then Some(ts[0].targets) else None;
    var ts1 := if targets.Some? then ts[1..] else ts;
    if StartsWith(ts1, TFrom) {
      TablesBuild(ts1[1..]);
      var p := ParseTables(ts1[1..]);
      if p.Some? {
        TailBuilds(targets, p.value.tree, p.value.rest);
        CleanFrom(ts1, 1);
      }
    } else {
      TailBuilds(targets, [], ts1);
    }
    if targets.Some? { CleanFrom(ts, 1); }
  }

  lemma TailBuilds(targets: Option<nat>, from: seq<Table>, ts: seq<Token>)
    requires GrammaticalTables(from)
    ensures var r := ParseTail(targets, from, ts); GrammaticalSelect(r.tree) && (Clean(ts) && PrintableTables(from) ==> PrintableSelect(r.tree) && Clean(r.rest))
  {
    hide Clean;
    if ts != [] { CleanFrom(ts, 1); }
  }

  lemma OptionsBuild(ts: seq<Token>)
    ensures var r := ParseOptions(ts); r.Some? && Clean(ts) ==> Clean(r.value.rest) && !FetchesAll(r.value.tree.limit)
  {
    hide ParseLimits, ParseLocking, Clean;
    var sorted := ts != [] && ts[0].TSort?;
    var ts1 := if sorted then ts[1..] else ts;
    LockingBuilds(ts1);
    LimitsBuild(ParseLocking(ts1).rest);
    LimitsBuild(ts1);
    if ParseLimits(ts1).Some? { LockingBuilds(ParseLimits(ts1).value.rest); }
    if sorted { CleanFrom(ts, 1); }
  }

  lemma {:induction false} LockingBuilds(ts: seq<Token>)
    ensures Clean(ts) ==> Clean(ParseLocking(ts).rest)
  {
    hide Clean;
    if ts != [] && ts[0].TLocking? {
      LockingBuilds(ts[1..]);
      CleanFrom(ts, 1);
    }
  }

  lemma LimitsBuild(ts: seq<Token>)
    ensures var r := ParseLimits(ts); r.Some? && Clean(ts) ==> Clean(r.value.rest) && !FetchesAll(r.value.tree.limit)
  {
    hide ParseOffset, ParseLimit, Clean;
    OffsetBuilds(ts);
    LimitBuilds(ts);
    if ParseOffset(ts).Some? { LimitBuilds(ParseOffset(ts).value.rest); }
    if ParseLimit(ts).Some? { OffsetBuilds(ParseLimit(ts).value.rest); }
  }

  lemma OffsetBuilds(ts: seq<Token>)
    ensures var r := ParseOffset(ts); r.Some? && Clean(ts) ==> Clean(r.value.rest)
  {
    if |ts| > 1 { CleanFrom(ts, 2); }
  }

  lemma LimitBuilds(ts: seq<Token>)
    ensures var r := ParseLimit(ts); r.Some? && Clean(ts) ==> Clean(r.value.rest) && !FetchesAll(r.value.tree)
  {
    var r := ParseLimit(ts);
    if r.Some? {
      CleanFrom(ts, |ts| - |r.value.rest|);
    }
  }

  lemma {:induction false} TablesBuild(ts: seq<Token>)
    ensures var r := ParseTables(ts); r.Some? ==> GrammaticalTables(r.value.tree) && (Clean(ts) ==> PrintableTables(r.value.tree) && Clean(r.value.rest))
    decreases |ts|, 8
  {
    hide ParseTable, Clean, GrammaticalTable;
    TableBuilds(ts);
    var t := ParseTable(ts);
    if t.Some? {
      var rest := t.value.rest;
      if StartsWith(rest, TComma) {
        TablesBuild(rest[1..]);
        CleanFrom(rest, 1);
      } else {
        assert GrammaticalTables([t.value.tree]);
      }
    }
  }

  lemma {:induction false} TableBuilds(ts: seq<Token>)
    ensures var r := ParseTable(ts); r.Some? ==> GrammaticalTable(r.value.tree) && (Clean(ts) ==> PrintableTable(r.value.tree) && Clean(r.value.rest))
    decreases |ts|, 7
  {
    hide ParseTablePrimary, JoinLoop, Clean;
    TablePrimaryBuilds(ts);
    var p := ParseTablePrimary(ts);
    if p.Some? {
      JoinLoopBuilds(p.value.tree, p.value.rest);
    }
  }

  lemma AliasBuilds(ts: seq<Token>)
    ensures Clean(ts) ==> Clean(ParseAlias(ts).rest)
  {
    if ts != [] { CleanFrom(ts, 1); }
  }

  lemma {:induction false} TablePrimaryBuilds(ts: seq<Token>)
    ensures var r := ParseTablePrimary(ts); r.Some? ==> GrammaticalTable(r.value.tree) && (Clean(ts) ==> PrintableTable(r.value.tree) && Clean(r.value.rest))
    decreases |ts|, 6
  {
    hide ParseSubselect, ParseParenthesizedJoin, Clean, ParseAlias;
    var r := ParseTablePrimary(ts);
    if r.Some? {
      if ts[0].TRelation? {
        AliasBuilds(ts[1..]);
      } else if ts[0] == TLateral {
        SubselectBuilds(true, ts[2..]);
        CleanFrom(ts, 2);
      } else {
        SubselectBuilds(false, ts[1..]);
        ParenthesizedJoinBuilds(ts[1..]);
      }
      CleanFrom(ts, 1);
    }
  }

  lemma {:induction false} SubselectBuilds(lateral: bool, ts: seq<Token>)
    ensures var r := ParseSubselect(lateral, ts); r.Some? ==> GrammaticalTable(r.value.tree) && (Clean(ts) ==> PrintableTable(r.value.tree) && Clean(r.value.rest))
    decreases |ts|, 6
  {
    hide ParseSelect, Clean, ParseAlias;
    SelectBuilds(ts);
    if ParseSubselect(lateral, ts).Some? {
      var rest := ParseSelect(ts).value.rest;
      AliasBuilds(rest[1..]);
      CleanFrom(rest, 1);
    }
  }

  lemma {:induction false} ParenthesizedJoinBuilds(ts: seq<Token>)
    ensures var r := ParseParenthesizedJoin(ts); r.Some? ==> GrammaticalTable(r.value.tree) && (Clean(ts) ==> PrintableTable(r.value.tree) && Clean(r.value.rest))
    decreases |ts|, 8
  {
    hide ParseTable, Clean, ParseAlias;
    TableBuilds(ts);
    if ParseParenthesizedJoin(ts).Some? {
      var rest := ParseTable(ts).value.rest;
      AliasBuilds(rest[1..]);
      CleanFrom(rest, 1);
    }
  }

  lemma {:induction false} JoinLoopBuilds(left: Table, ts: seq<Token>)
    requires GrammaticalTable(left)
    ensures var r := JoinLoop(left, ts); r.Some? ==> GrammaticalTable(r.value.tree) && (Clean(ts) && PrintableTable(left) ==> PrintableTable(r.value.tree) && Clean(r.value.rest))
    decreases |ts|, 5
  {
    hide ParseUnconditional, ParseConditional, Clean;
    if ts != [] && JoinLoop(left, ts).Some? {
      var next := ts[1..];
      match ts[0]
      case TCross =>
        UnconditionalBuilds(left, Inner, false, next[1..]);
        CleanFrom(next, 1); CleanFrom(ts, 1);
      case TNatural =>
        if StartsWith(next, TJoin) {
          UnconditionalBuilds(left, Inner, true, next[1..]);
          CleanFrom(next, 1); CleanFrom(ts, 1);
        } else {
          UnconditionalBuilds(left, next[0].kind, true, next[1..][1..]);
          CleanFrom(next[1..], 1); CleanFrom(next, 1); CleanFrom(ts, 1);
        }
      case TJoinKind(kind) =>
        ConditionalBuilds(left, kind, next[1..]);
        CleanFrom(next, 1); CleanFrom(ts, 1);
      case TJoin =>
        ConditionalBuilds(left, Inner, next);
        CleanFrom(ts, 1);
      case _ =>
    }
  }

  lemma {:induction false} UnconditionalBuilds(left: Table, kind: JoinKind, natural: bool, ts: seq<Token>)
    requires GrammaticalTable(left) && (natural || kind == Inner)
    ensures var r := ParseUnconditional(left, kind, natural, ts); r.Some? ==> GrammaticalTable(r.value.tree) && (Clean(ts) && PrintableTable(left) ==> PrintableTable(r.value.tree) && Clean(r.value.rest))
    decreases |ts|, 7
  {
    hide ParseTablePrimary, JoinLoop, Clean;
    TablePrimaryBuilds(ts);
    var p := ParseTablePrimary(ts);
    if p.Some? {
      JoinLoopBuilds(Join(kind, natural, left, p.value.tree, None, None, None), p.value.rest);
    }
  }

  lemma {:induction false} ConditionalBuilds(left: Table, kind: JoinKind, ts: seq<Token>)
    requires GrammaticalTable(left)
    ensures var r := ParseConditional(left, kind, ts); r.Some? ==> GrammaticalTable(r.value.tree) && (Clean(ts) && PrintableTable(left) ==> PrintableTable(r.value.tree) && Clean(r.value.rest))
    decreases |ts|, 8
  {
    hide ParseTable, JoinLoop, Clean, ParseUsingAlias;
    TableBuilds(ts);
    if ParseConditional(left, kind, ts).Some? {
      var right, rest := ParseTable(ts).value.tree, ParseTable(ts).value.rest;
      if rest[0] == TOn {
        JoinLoopBuilds(Join(kind, false, left, right, Some(rest[1].expr), None, None), rest[2..]);
        CleanFrom(rest, 2);
      } else {
        UsingAliasBuilds(rest[1..]);
        var a := ParseUsingAlias(rest[1..]).value;
        JoinLoopBuilds(Join(kind, false, left, right, None, Some(Using(rest[0].names, a.tree)), None), a.rest);
        CleanFrom(rest, 1);
      }
    }
  }

  lemma UsingAliasBuilds(ts: seq<Token>)
    ensures var r := ParseUsingAlias(ts);
            r.Some? && Clean(ts) ==> Clean(r.value.rest) && (r.value.tree.Some? ==> Unquoted(r.value.tree.value))
  {
    var r := ParseUsingAlias(ts);
    if r.Some? && StartsWith(ts, TAs) {
      CleanFrom(ts, 2);
      if ts[1].TRawName? { ReadsItself(ts[1].raw); }
    }
  }

  // ---------- Whatever is printed is clean ----------

  lemma TokensClean()
    ensures forall t, k {:trigger Clean([t] + k)} :: Clean([t] + k) == (!t.TName? && t != TNull && Clean(k))
  {
    forall t, k ensures Clean([t] + k) == (!t.TName? && t != TNull && Clean(k)) {
      var ts := [t] + k;
      assert ts[0] == t && ts[1..] == k;
      if !t.TName? && t != TNull && Clean(k) { CleanPlus([t], k); } else if Clean(ts) { CleanFrom(ts, 1); }
    }
  }

  lemma {:induction false} CleanSelect(s: Select, k: seq<Token>)
    requires Clean(k)
    ensures Clean(SelectOn(s, k))
    decreases s, 1
  {
    TokensClean();
    hide Clean, BodyOn, OptionsOn, CtesOn;
    CleanOptions(s, k);
    CleanBody(s.body, OptionsOn(s, k));
    if s.with.Some? {
      CleanCtes(s.with.value.ctes, BodyOn(s.body, OptionsOn(s, k)));
    }
  }

  lemma {:induction false} CleanCtes(ctes: seq<Cte>, k: seq<Token>)
    requires Clean(k)
    ensures Clean(CtesOn(ctes, k))
    decreases ctes, 0
  {
    TokensClean();
    hide Clean, CteOn;
    if ctes != [] {
      if |ctes| > 1 { CleanCtes(ctes[1..], k); }
      CleanCte(ctes[0], if |ctes| == 1 then k else [TComma] + CtesOn(ctes[1..], k));
    }
  }

  lemma {:induction false} CleanCte(c: Cte, k: seq<Token>)
    requires Clean(k)
    ensures Clean(CteOn(c, k))
    decreases c, 1
  {
    TokensClean();
    hide Clean, SelectOn;
    CleanSelect(c.query, [TRParen] + k);
  }

  lemma {:induction false} CleanOperand(s: Select, k: seq<Token>)
    requires Clean(k)
    ensures Clean(OperandOn(s, k))
    decreases s, 2
  {
    TokensClean();
    hide Clean, SelectOn;
    CleanSelect(s, if NeedsParens(s) then [TRParen] + k else k);
  }

  lemma {:induction false} CleanBody(b: Body, k: seq<Token>)
    requires Clean(k)
    ensures Clean(BodyOn(b, k))
    decreases b, 1
  {
    TokensClean();
    hide Clean, OperandOn, TablesOn;
    match b
    case Values(_) =>
    case SetOp(op, all, larg, rarg) =>
      CleanOperand(rarg, k);
      CleanOperand(larg, [TSetOp(op)] + OptionalToken(all, TAll, OperandOn(rarg, k)));
    case Core(targets, from, tail) =>
      CleanTables(from, TailOn(tail, k));
  }

  lemma CleanOptions(s: Select, k: seq<Token>)
    requires Clean(k)
    ensures Clean(OptionsOn(s, k))
  {
    TokensClean();
    hide Clean, LockingOn;
    CleanLocking(s.locking, k);
  }

  lemma {:induction false} CleanLocking(locking: seq<nat>, k: seq<Token>)
    requires Clean(k)
    ensures Clean(LockingOn(locking, k))
  {
    TokensClean();
    hide Clean;
    if locking != [] {
      CleanLocking(locking[1..], k);
    }
  }

  lemma {:induction false} CleanTables(from: seq<Table>, k: seq<Token>)
    requires Clean(k)
    ensures Clean(TablesOn(from, k))
    decreases from, 0
  {
    TokensClean();
    hide Clean, TableOn;
    if from != [] {
      if |from| > 1 { CleanTables(from[1..], k); }
      CleanTable(from[0], if |from| == 1 then k else [TComma] + TablesOn(from[1..], k));
    }
  }

  lemma {:induction false} CleanTable(t: Table, k: seq<Token>)
    requires Clean(k)
    ensures Clean(TableOn(t, k))
    decreases t, 1
  {
    TokensClean();
    hide Clean, SelectOn, JoinOn;
    match t
    case Relation(_, _) =>
    case Subselect(_, query, alias) => CleanSelect(query, [TRParen] + AliasOn(alias, k));
    case Join(_, _, _, _, _, _, alias) =>
      CleanJoin(t, if alias.Some? then [TRParen] + ([TAlias(alias.value)] + k) else k);
  }

  lemma {:induction false} CleanJoin(t: Table, k: seq<Token>)
    requires t.Join? && Clean(k)
    ensures Clean(JoinOn(t, k))
    decreases t, 0
  {
    TokensClean();
    hide Clean, TableOn, RightArgOn;
    assert Clean(ConditionOn(t, k));
    CleanRightArg(t.rarg, ConditionOn(t, k));
    var right := RightArgOn(t.rarg, ConditionOn(t, k));
    assert Clean(JoinWordsOn(t, right));
    CleanTable(t.larg, JoinWordsOn(t, right));
  }

  lemma {:induction false} CleanRightArg(t: Table, k: seq<Token>)
    requires Clean(k)
    ensures Clean(RightArgOn(t, k))
    decreases t, 2
  {
    TokensClean();
    hide Clean, TableOn;
    CleanTable(t, if t.Join? && t.alias.None? then [TRParen] + k else k);
  }

  // ---------- Main results ----------

  /** Trees that come out of the grammar are grammatical. */
  lemma ParseGivesGrammatical(ts: seq<Token>)
    ensures ParseText(ts).Some? ==> GrammaticalSelect(ParseText(ts).value)
  {
    hide ParseSelect;
    SelectBuilds(ts);
  }

  /** A SELECT survives the round trip if and only if no join has a USING alias that needs quotes (one that
      is no identifier in lower case, or a keyword that is no ColId), and no FETCH FIRST clause has a NULL
      count, at any depth. */
  lemma RoundTrip(s: Select)
    requires GrammaticalSelect(s)
    ensures ParseText(Print(s)) == Some(s) <==> PrintableSelect(s)
  {
    hide ParseSelect, SelectOn, Clean;
    if PrintableSelect(s) {
      SelectReads(s, []);
    } else {
      CleanEmpty();
      CleanSelect(s, []);
      SelectBuilds(Print(s));
    }
  }

  lemma CleanEmpty()
    ensures Clean([])
  {
  }

  /** Different trees are printed differently: joins, set operations and clauses stay where they are. */
  lemma PrintIsInjective(a: Select, b: Select)
    requires GrammaticalSelect(a) && GrammaticalSelect(b) && PrintableSelect(a) && PrintableSelect(b) && Print(a) == Print(b)
    ensures a == b
  {
    hide ParseText, Print, GrammaticalSelect, PrintableSelect;
    RoundTrip(a);
    RoundTrip(b);
  }

  // ---------- Both exceptions can come from a text ----------

  lemma Assembled(core: Select, ts: seq<Token>, options: seq<Token>, o: Options, s: Select)
    requires ts != [] && ts[0] != TWith && ParsePrimary(ts) == Some(Parsed(core, options)) && (options != [] ==> !options[0].TSetOp?)
    requires ParseOptions(options) == Some(Parsed(o, [])) && Attach(core, None, o) == Some(s)
    ensures ParseText(ts) == Some(s)
  {
    hide ParsePrimary, ParseOptions, Attach;
    assert ParseSetOps(1, ts) == Some(Parsed(core, options));
    hide ParseSetOps;
    assert ParseUnderWith(None, ts) == Some(Parsed(s, []));
    hide ParseUnderWith;
  }

  lemma FetchNullOptions()
    ensures ParseOptions([TSort(0)] + [TFetchFirst, TNull, TRowsWithTies]) ==
            Some(Parsed(Options(Some(0), Some(Limit(AllRows, true)), None, []), []))
  {
    var limits := [TFetchFirst, TNull, TRowsWithTies];
    assert ([TSort(0)] + limits)[1..] == limits;
    assert limits[3..] == [];
    assert ParseLimit(limits) == Some(Parsed(Some(Limit(AllRows, true)), []));
    hide ParseLimit;
    assert ParseOffset([]) == Some(Parsed(None, []));
    hide ParseOffset;
    assert ParseLimits(limits) == Some(Parsed(Options(None, Some(Limit(AllRows, true)), None, []), []));
    hide ParseLimits;
    assert ParseLocking([]) == Parsed([], []);
    hide ParseLocking;
  }

  /** SELECT ORDER BY x FETCH FIRST NULL ROWS WITH TIES */
  lemma FetchNullIsRead() returns (ts: seq<Token>)
    ensures ParseText(ts).Some? && ParseText(Print(ParseText(ts).value)) != ParseText(ts)
  {
    var options := [TSort(0)] + [TFetchFirst, TNull, TRowsWithTies];
    ts := [TSelect] + options;
    CoreTextReads(None, [], None, options);
    SelectWord(options);
    FetchNullOptions();
    var core := MakeCore(Core(None, [], None));
    var s := Select(None, Core(None, [], None), Some(0), Some(Limit(AllRows, true)), None, []);
    assert ParsePrimary(ts) == Some(Parsed(core, options)) by { hide ParsePrimary, ParseCore; }
    assert Attach(core, None, Options(Some(0), Some(Limit(AllRows, true)), None, [])) == Some(s) by { assert core.locking + [] == []; }
    hide ParsePrimary, ParseOptions, Attach, ParseText;
    Assembled(core, ts, options, Options(Some(0), Some(Limit(AllRows, true)), None, []), s);
    ParseGivesGrammatical(ts);
    RoundTrip(s);
  }

  /** A join whose USING clause has the given alias, in quotes. */
  lemma QuotedAliasTable(name: string) returns (from: seq<Token>, join: Table)
    requires name != ""
    ensures join == Join(Inner, false, Relation(0, None), Relation(1, None), None, Some(Using(2, Some(name))), None)
    ensures ParseTable(from) == Some(Parsed(join, []))
  {
    var a, b := Relation(0, None), Relation(1, None);
    var alias := [TAs] + [TName(name)];
    var cond := [TUsing(2)] + alias;
    var right := TableOn(b, cond);
    from := TableOn(a, [TJoin] + right);
    join := Join(Inner, false, a, b, None, Some(Using(2, Some(name))), None);
    hide *;
    QuotedAliasReads(name);
    RelationReads(1, cond);
    RelationReads(0, [TJoin] + right);
    ConditionIs(a, b, right, 2, alias, Some(name));
    JoinIs(a, right);
    NoJoin(join, []);
  }

  lemma QuotedAliasReads(name: string)
    requires name != ""
    ensures ParseUsingAlias([TAs] + [TName(name)]) == Some(Parsed(Some(name), []))
  {
    assert ([TAs] + [TName(name)])[2..] == [];
  }

  lemma RelationReads(name: nat, k: seq<Token>)
    requires k != [] && (k[0].TUsing? || k[0] == TJoin)
    ensures ParseTable(TableOn(Relation(name, None), k)) == JoinLoop(Relation(name, None), k)
    ensures k[0].TUsing? ==> ParseTable(TableOn(Relation(name, None), k)) == Some(Parsed(Relation(name, None), k))
  {
    TableReads(Relation(name, None), k);
    if k[0].TUsing? { NoJoin(Relation(name, None), k); }
    hide ParseTable, TableOn, JoinLoop;
  }

  lemma ConditionIs(left: Table, right: Table, ts: seq<Token>, names: nat, k: seq<Token>, alias: Option<string>)
    requires ParseTable(ts) == Some(Parsed(right, [TUsing(names)] + k)) && ParseUsingAlias(k) == Some(Parsed(alias, []))
    ensures ParseConditional(left, Inner, ts) == JoinLoop(Join(Inner, false, left, right, None, Some(Using(names, alias)), None), [])
  {
    hide ParseTable, ParseUsingAlias, JoinLoop;
    assert ([TUsing(names)] + k)[1..] == k;
  }

  lemma JoinIs(left: Table, ts: seq<Token>)
    ensures JoinLoop(left, [TJoin] + ts) == ParseConditional(left, Inner, ts)
  {
    hide ParseConditional;
    assert ([TJoin] + ts)[1..] == ts;
  }

  lemma SelectFromOne(from: seq<Token>, t: Table)
    requires ParseTable(from) == Some(Parsed(t, []))
    ensures ParseText([TSelect] + ([TFrom] + from)) == Some(MakeCore(Core(None, [t], None)))
  {
    hide ParseTable;
    assert ParseTables(from) == Some(Parsed([t], []));
    hide ParseTables;
    var core := MakeCore(Core(None, [t], None));
    assert ([TFrom] + from)[1..] == from;
    assert ParseCore([TFrom] + from) == Some(Parsed(core, []));
    SelectWord([TFrom] + from);
    hide ParseCore;
    NoOptionsRead([]);
    assert core.locking + [] == [];
    assert Attach(core, None, NO_OPTIONS) == Some(core);
    hide ParsePrimary, ParseOptions, Attach, ParseText;
    Assembled(core, [TSelect] + ([TFrom] + from), [], NO_OPTIONS, core);
  }

  /** SELECT FROM a JOIN b USING (x) AS "name", for any name that needs its quotes: the grammar reads it,
      and its tree is printed as something else. */
  lemma QuotedAliasIsRead(name: string) returns (ts: seq<Token>)
    requires !Unquoted(name) && name != ""
    ensures ParseText(ts).Some? && ParseText(Print(ParseText(ts).value)) != ParseText(ts)
  {
    hide ParseText, ParseTable, Unquoted, GrammaticalSelect, Print;
    var from, join := QuotedAliasTable(name);
    SelectFromOne(from, join);
    ts := [TSelect] + ([TFrom] + from);
    assert !PrintableTable(join);
    assert !PrintableTables([join]);
    assert !PrintableBody(Core(None, [join], None));
    ParseGivesGrammatical(ts);
    RoundTrip(ParseText(ts).value);
  }

  /** Three such names: with a blank, with a capital, and a keyword. */
  lemma NamesThatNeedQuotes()
    ensures !Unquoted("a b") && !Unquoted("X") && !Unquoted("order")
  {
    assert !IdentCont("a b"[1]);
    assert "X"[0] == 'X';
    assert "order" in NOT_COLUMN_IDS;
  }

  // ---------- Set operations ----------

  function Plain(b: Body): Select {
    Select(None, b, None, None, None, [])
  }

  lemma LastOperand(level: nat, rows: nat)
    ensures ParseSetOps(level, [TValues(rows)]) == Some(Parsed(Plain(Values(rows)), []))
  {
    assert [TValues(rows)][1..] == [];
  }

  lemma NothingLeft(left: Select)
    ensures SetOpLoop(left, 1, []) == Some(Parsed(left, []))
  {
  }

  lemma ThenOperand(left: Select, level: nat, op: SetOperator, rows: nat)
    ensures SetOpLoop(left, level, [TSetOp(op), TValues(rows)]) ==
            if Level(op) < level then Some(Parsed(left, [TSetOp(op), TValues(rows)]))
            else Some(Parsed(MakeSetOp(op, false, left, Plain(Values(rows))), []))
  {
    hide ParseSetOps;
    var ts := [TSetOp(op), TValues(rows)];
    assert ts[1..] == [TValues(rows)] && ts[2..] == [];
    LastOperand(Level(op) + 1, rows);
    assert SetOpLoop(MakeSetOp(op, false, left, Plain(Values(rows))), level, []) ==
           Some(Parsed(MakeSetOp(op, false, left, Plain(Values(rows))), []));
  }

  /** INTERSECT binds tighter than UNION and EXCEPT; apart from that, set operations go from left to right. */
  lemma SetOperationsBind(first: SetOperator, second: SetOperator, a: nat, b: nat, c: nat)
    ensures var x, y, z := Plain(Values(a)), Plain(Values(b)), Plain(Values(c));
            ParseText([TValues(a), TSetOp(first), TValues(b), TSetOp(second), TValues(c)]) ==
            Some(if first != Intersect && second == Intersect then Plain(SetOp(first, false, x, Plain(SetOp(second, false, y, z))))
                 else Plain(SetOp(second, false, Plain(SetOp(first, false, x, y)), z)))
  {
    hide ParseSetOps, SetOpLoop;
    var x, y, z := Plain(Values(a)), Plain(Values(b)), Plain(Values(c));
    var ts := [TValues(a), TSetOp(first), TValues(b), TSetOp(second), TValues(c)];
    var rest := [TSetOp(second), TValues(c)];
    FirstOperand(1, a, ts[1..]);
    assert [TValues(a)] + ts[1..] == ts && ts[1..] == [TSetOp(first)] + ([TValues(b)] + rest);
    FirstOperand(Level(first) + 1, b, rest);
    ThenOperand(y, Level(first) + 1, second, c);
    NextOperand(x, first, [TValues(b)] + rest);
    ThenOperand(MakeSetOp(first, false, x, y), 1, second, c);
    var tree := if first != Intersect && second == Intersect then MakeSetOp(first, false, x, MakeSetOp(second, false, y, z))
                else MakeSetOp(second, false, MakeSetOp(first, false, x, y), z);
    NothingLeft(tree);
    assert ParseSetOps(1, ts) == Some(Parsed(tree, []));
    WholeText(ts, tree);
  }

  lemma WholeText(ts: seq<Token>, s: Select)
    requires !StartsWith(ts, TWith) && ParseSetOps(1, ts) == Some(Parsed(s, [])) && s.with.None? && s.locking == []
    ensures ParseText(ts) == Some(s)
  {
    hide ParseSetOps;
    assert ParseOptions([]) == Some(Parsed(Options(None, None, None, []), []));
    assert [] + [] == s.locking;
    assert Attach(s, None, Options(None, None, None, [])) == Some(s);
    assert ParseUnderWith(None, ts) == Some(Parsed(s, []));
    assert ParseSelect(ts) == Some(Parsed(s, []));
  }

  lemma FirstOperand(level: nat, rows: nat, rest: seq<Token>)
    ensures ParseSetOps(level, [TValues(rows)] + rest) == SetOpLoop(Plain(Values(rows)), level, rest)
  {
    hide SetOpLoop;
    assert ([TValues(rows)] + rest)[1..] == rest;
  }

  lemma NextOperand(left: Select, op: SetOperator, ts: seq<Token>)
    requires !StartsWith(ts, TAll)
    ensures SetOpLoop(left, 1, [TSetOp(op)] + ts) ==
            match ParseSetOps(Level(op) + 1, ts)
            case None => None
            case Some(p) => SetOpLoop(MakeSetOp(op, false, left, p.tree), 1, p.rest)
  {
    hide ParseSetOps;
    assert ([TSetOp(op)] + ts)[1..] == ts;
  }

  /** Operands that have no clauses of their own and are no set operations are printed without parentheses. */
  lemma PlainOperands(op: SetOperator, all: bool, a: nat, b: nat)
    ensures Print(Plain(SetOp(op, all, Plain(Values(a)), Plain(Values(b))))) ==
            [TValues(a), TSetOp(op)] + (if all then [TAll] else []) + [TValues(b)]
  {
    hide OperandOn;
    ValuesOn(b, []);
    var right := OperandOn(Plain(Values(b)), []);
    assert OptionalToken(all, TAll, right) == (if all then [TAll] else []) + [TValues(b)];
    var k := [TSetOp(op)] + OptionalToken(all, TAll, right);
    ValuesOn(a, k);
    var s := Plain(SetOp(op, all, Plain(Values(a)), Plain(Values(b))));
    assert OptionsOn(s, []) == [] && BodyOn(s.body, []) == OperandOn(Plain(Values(a)), k);
    assert SelectOn(s, []) == BodyOn(s.body, []);
  }

  lemma ValuesOn(rows: nat, k: seq<Token>)
    ensures OperandOn(Plain(Values(rows)), k) == [TValues(rows)] + k
  {
    var s := Plain(Values(rows));
    assert OptionsOn(s, k) == k && BodyOn(s.body, k) == [TValues(rows)] + k;
    assert SelectOn(s, k) == [TValues(rows)] + k;
  }
}
