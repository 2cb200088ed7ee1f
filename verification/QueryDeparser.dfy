/** The printer of SELECT statements and tables as it works in the source: it appends to a buffer.

    Each method has a ghost parameter k, the text its caller will append next, and promises that the
    buffer followed by k has grown by what the printer function puts in front of k. */
module QueryDeparser {
  import opened QuerySyntax
  import opened QueryPrinter

  class Deparser {
    /** The text printed so far. */
    var out: seq<Token>

    constructor ()
      ensures out == []
    {
      out := [];
    }

    /** The text of a whole statement. */
    method DeparseWhole(s: Select)
      modifies this
      ensures out == old(out) + Print(s)
    {
      hide SelectOn;
      DeparseSelectStmt(s, false, []);
      assert out + [] == out;
    }

    method Append(t: Token, ghost k: seq<Token>)
      modifies this
      ensures out == old(out) + [t] && out + k == old(out) + ([t] + k)
    {
      out := out + [t];
    }

    method AppendIf(present: bool, t: Token, ghost k: seq<Token>)
      modifies this
      ensures out + k == old(out) + OptionalToken(present, t, k)
    {
      if present {
        Append(t, k);
      }
    }

    /** deparseSelectStmt, as an operand of a set operation or not */
    method DeparseSelectStmt(s: Select, setOp: bool, ghost k: seq<Token>)
      modifies this
      ensures out + k == old(out) + if setOp then OperandOn(s, k) else SelectOn(s, k)
      decreases s, 2
    {
      hide WithOn, BodyOn, OptionsOn;
      var needParens := setOp &&
        (s.sort.Some? || s.offset.Some? || s.limit.Some? || s.locking != [] || s.with.Some? || s.body.SetOp?);
      ghost var close := if needParens then [TRParen] + k else k;
      if needParens {
        Append(TLParen, SelectOn(s, close));
      }
      DeparseWithClause(s.with, BodyOn(s.body, OptionsOn(s, close)));
      DeparseBody(s.body, OptionsOn(s, close));
      DeparseOptions(s, close);
      if needParens {
        Append(TRParen, k);
      }
    }

    method DeparseWithClause(with: Option<With>, ghost k: seq<Token>)
      modifies this
      ensures out + k == old(out) + WithOn(with, k)
      decreases with, 1
    {
      hide CtesOn;
      match with
      case None =>
      case Some(w) =>
        Append(TWith, OptionalToken(w.recursive, TRecursive, CtesOn(w.ctes, k)));
        AppendIf(w.recursive, TRecursive, CtesOn(w.ctes, k));
        DeparseCtes(w.ctes, k);
    }

    method DeparseCtes(ctes: seq<Cte>, ghost k: seq<Token>)
      modifies this
      ensures out + k == old(out) + CtesOn(ctes, k)
      decreases ctes, 0
    {
      hide CteOn;
      for i := 0 to |ctes|
        invariant out + CtesOn(ctes[i..], k) == old(out) + CtesOn(ctes, k)
      {
        assert ctes[i..][0] == ctes[i] && ctes[i..][1..] == ctes[i+1..];
        var isLast := i + 1 == |ctes|;
        ghost var rest := CtesOn(ctes[i+1..], k);
        DeparseCommonTableExpr(ctes[i], if isLast then k else [TComma] + rest);
        if !isLast {
          Append(TComma, rest);
        }
      }
    }

    /** deparseCommonTableExpr */
    method DeparseCommonTableExpr(c: Cte, ghost k: seq<Token>)
      modifies this
      ensures out + k == old(out) + CteOn(c, k)
      decreases c, 1
    {
      hide SelectOn;
      ghost var close := [TRParen] + k;
      ghost var select := [TLParen] + SelectOn(c.query, close);
      ghost var marked := OptionalToken(c.materialized != Default, TMaterialized(c.materialized), select);
      Append(TCte(c.name), [TAs] + marked);
      Append(TAs, marked);
      AppendIf(c.materialized != Default, TMaterialized(c.materialized), select);
      Append(TLParen, SelectOn(c.query, close));
      DeparseSelectStmt(c.query, false, close);
      Append(TRParen, k);
    }

    method DeparseBody(b: Body, ghost k: seq<Token>)
      modifies this
      ensures out + k == old(out) + BodyOn(b, k)
      decreases b, 1
    {
      hide OperandOn, TablesOn;
      match b
      case Core(targets, from, tail) =>
        ghost var t := TailOn(tail, k);
        Append(TSelect, TargetsOn(targets, FromOn(from, t)));
        if targets.Some? {
          Append(TTargets(targets.value), FromOn(from, t));
        }
        DeparseFromClause(from, t);
        if tail.Some? {
          Append(TTail(tail.value), k);
        }
      case Values(rows) => Append(TValues(rows), k);
      case SetOp(op, all, larg, rarg) =>
        ghost var right := OperandOn(rarg, k);
        DeparseSelectStmt(larg, true, [TSetOp(op)] + OptionalToken(all, TAll, right));
        Append(TSetOp(op), OptionalToken(all, TAll, right));
        AppendIf(all, TAll, right);
        DeparseSelectStmt(rarg, true, k);
    }

    /** deparseFromClause */
    method DeparseFromClause(from: seq<Table>, ghost k: seq<Token>)
      modifies this
      ensures out + k == old(out) + FromOn(from, k)
      decreases from, 1
    {
      hide TableOn;
      if from == [] {
        return;
      }
      Append(TFrom, TablesOn(from, k));
      ghost var before := out;
      for i := 0 to |from|
        invariant out + TablesOn(from[i..], k) == before + TablesOn(from, k)
      {
        assert from[i..][0] == from[i] && from[i..][1..] == from[i+1..];
        var isLast := i + 1 == |from|;
        ghost var rest := TablesOn(from[i+1..], k);
        DeparseTableRef(from[i], if isLast then k else [TComma] + rest);
        if !isLast {
          Append(TComma, rest);
        }
      }
    }

    /** ORDER BY, LIMIT, OFFSET and locking clauses */
    method DeparseOptions(s: Select, ghost k: seq<Token>)
      modifies this
      ensures out + k == old(out) + OptionsOn(s, k)
      decreases s, 0
    {
      hide LimitOn, OffsetOn, LockingOn;
      ghost var locking := LockingOn(s.locking, k);
      if s.sort.Some? {
        Append(TSort(s.sort.value), LimitOn(s.limit, OffsetOn(s.offset, locking)));
      }
      DeparseLimit(s.limit, OffsetOn(s.offset, locking));
      DeparseOffset(s.offset, locking);
      DeparseLocking(s.locking, k);
    }

    method DeparseLimit(limit: Option<Limit>, ghost k: seq<Token>)
      modifies this
      ensures out + k == old(out) + LimitOn(limit, k)
    {
      if limit.None? {
        return;
      }
      var count := if limit.value.count.AllRows? then TAll else TExpr(limit.value.count.expr);
      ghost var ties := OptionalToken(limit.value.withTies, TRowsWithTies, k);
      Append(if limit.value.withTies then TFetchFirst else TLimit, [count] + ties);
      Append(count, ties);
      AppendIf(limit.value.withTies, TRowsWithTies, k);
    }

    method DeparseOffset(offset: Option<nat>, ghost k: seq<Token>)
      modifies this
      ensures out + k == old(out) + OffsetOn(offset, k)
    {
      if offset.Some? {
        Append(TOffset, [TExpr(offset.value)] + k);
        Append(TExpr(offset.value), k);
      }
    }

    method DeparseLocking(locking: seq<nat>, ghost k: seq<Token>)
      modifies this
      ensures out + k == old(out) + LockingOn(locking, k)
    {
      for i := 0 to |locking|
        invariant out + LockingOn(locking[i..], k) == old(out) + LockingOn(locking, k)
      {
        assert locking[i..][0] == locking[i] && locking[i..][1..] == locking[i+1..];
        Append(TLocking(locking[i]), LockingOn(locking[i+1..], k));
      }
    }

    /** deparseTableRef */
    method DeparseTableRef(t: Table, ghost k: seq<Token>)
      modifies this
      ensures out + k == old(out) + TableOn(t, k)
      decreases t, 1
    {
      hide SelectOn, JoinOn;
      match t
      case Relation(name, alias) =>
        Append(TRelation(name), AliasOn(alias, k));
        DeparseAlias(alias, k);
      case Subselect(lateral, query, alias) =>
        ghost var close := [TRParen] + AliasOn(alias, k);
        AppendIf(lateral, TLateral, [TLParen] + SelectOn(query, close));
        Append(TLParen, SelectOn(query, close));
        DeparseSelectStmt(query, false, close);
        Append(TRParen, AliasOn(alias, k));
        DeparseAlias(alias, k);
      case Join(_, _, _, _, _, _, _) => DeparseJoinExpr(t, k);
    }

    method DeparseAlias(alias: Option<nat>, ghost k: seq<Token>)
      modifies this
      ensures out + k == old(out) + AliasOn(alias, k)
    {
      if alias.Some? {
        Append(TAlias(alias.value), k);
      }
    }

    /** deparseJoinExpr */
    method DeparseJoinExpr(t: Table, ghost k: seq<Token>)
      requires t.Join?
      modifies this
      ensures out + k == old(out) + TableOn(t, k)
      decreases t, 0
    {
      hide JoinWordsOn, ConditionOn;
      var needAliasParens := t.alias.Some?;
      var needRargParens := t.rarg.Join? && t.rarg.alias.None?;
      ghost var close := if needAliasParens then [TRParen] + AliasOn(t.alias, k) else k;
      ghost var cond := ConditionOn(t, close);
      ghost var right := RightArgOn(t.rarg, cond);
      ghost var words := JoinWordsOn(t, right);
      assert TableOn(t, k) == if needAliasParens then [TLParen] + JoinOn(t, close) else JoinOn(t, close);
      assert JoinOn(t, close) == TableOn(t.larg, words);
      ghost var rightClose := if needRargParens then [TRParen] + cond else cond;
      assert right == if needRargParens then [TLParen] + TableOn(t.rarg, rightClose) else TableOn(t.rarg, rightClose);
      hide TableOn, JoinOn, RightArgOn;
      if needAliasParens {
        Append(TLParen, JoinOn(t, close));
      }
      DeparseTableRef(t.larg, words);
      DeparseJoinWords(t, right);
      if needRargParens {
        Append(TLParen, TableOn(t.rarg, rightClose));
      }
      DeparseTableRef(t.rarg, rightClose);
      if needRargParens {
        Append(TRParen, cond);
      }
      DeparseJoinCondition(t, close);
      if needAliasParens {
        Append(TRParen, AliasOn(t.alias, k));
        DeparseAlias(t.alias, k);
      }
    }

    method DeparseJoinWords(t: Table, ghost k: seq<Token>)
      requires t.Join?
      modifies this
      ensures out + k == old(out) + JoinWordsOn(t, k)
    {
      ghost var kind := OptionalToken(t.kind != Inner, TJoinKind(t.kind), [TJoin] + k);
      AppendIf(t.natural, TNatural, OptionalToken(IsCross(t), TCross, kind));
      AppendIf(t.kind == Inner && !t.natural && t.quals.None? && t.using.None?, TCross, kind);
      AppendIf(t.kind != Inner, TJoinKind(t.kind), [TJoin] + k);
      Append(TJoin, k);
    }

    method DeparseJoinCondition(t: Table, ghost k: seq<Token>)
      requires t.Join?
      modifies this
      ensures out + k == old(out) + ConditionOn(t, k)
    {
      ghost var alias := if t.using.Some? && t.using.value.alias.Some? then [TAs] + ([TRawName(t.using.value.alias.value)] + k) else k;
      ghost var using := if t.using.Some? then [TUsing(t.using.value.names)] + alias else k;
      if t.quals.Some? {
        Append(TOn, [TExpr(t.quals.value)] + using);
        Append(TExpr(t.quals.value), using);
      }
      if t.using.Some? {
        Append(TUsing(t.using.value.names), alias);
        if t.using.value.alias.Some? {
          Append(TAs, [TRawName(t.using.value.alias.value)] + k);
          Append(TRawName(t.using.value.alias.value), k);
        }
      }
    }
  }
}
