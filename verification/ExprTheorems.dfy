/** What the grammar builds, and the round trip for everything it builds. */
module ExprTheorems {
  import opened ExprSyntax
  import opened ExprPrinter
  import opened ExprGrammar
  import opened ExprRoundTrip

  predicate IsBareOperator(t: Token) {
    t.TOperator? && t.opName.Plain?
  }

  /** No operator is written as OPERATOR(op), without a schema. */
  predicate NoBareOperator(ts: seq<Token>) {
    forall t | t in ts :: !IsBareOperator(t)
  }

  predicate Allowed(any: bool, ts: seq<Token>) {
    any || NoBareOperator(ts)
  }

  predicate Builds(any: bool, r: Option<Parsed<Expr>>) {
    r.Some? ==> Buildable(r.value.tree, any) && Allowed(any, r.value.rest)
  }

  predicate BuildsAll(any: bool, r: Option<Parsed<seq<Expr>>>) {
    r.Some? ==> (forall e | e in r.value.tree :: Buildable(e, any)) && Allowed(any, r.value.rest)
  }

  lemma AllowedDrop(any: bool, ts: seq<Token>, n: nat)
    requires Allowed(any, ts) && n <= |ts|
    ensures Allowed(any, ts[n..])
  {
    assert forall t | t in ts[n..] :: t in ts;
  }

  // ---------- Every tree the grammar builds is Buildable ----------

  lemma {:induction false} ParseBuilds(any: bool, context: Context, q: int, ts: seq<Token>)
    requires Allowed(any, ts)
    ensures Builds(any, Parse(context, q, ts))
    decreases |ts|, 3
  {
    hide Buildable, ParseStart, Loop;
    ParseStartBuilds(any, context, ts);
    match ParseStart(context, ts)
    case None =>
    case Some(p) => LoopBuilds(any, context, p.tree, q, p.rest);
  }

  lemma {:induction false} LoopBuilds(any: bool, context: Context, left: Expr, q: int, ts: seq<Token>)
    requires Allowed(any, ts) && Buildable(left, any)
    ensures Builds(any, Loop(context, left, q, ts))
    decreases |ts|, 2
  {
    hide Buildable, Shift;
    if InfixPrecedence(context, ts) != BOTTOM && q < InfixPrecedence(context, ts) {
      ShiftBuilds(any, context, left, ts);
      match Shift(context, left, ts)
      case None =>
      case Some(s) => LoopBuilds(any, context, s.tree, q, s.rest);
    }
  }

  lemma {:induction false} ParseStartBuilds(any: bool, context: Context, ts: seq<Token>)
    requires Allowed(any, ts)
    ensures Builds(any, ParseStart(context, ts))
    decreases |ts|, 2
  {
    hide Parse, ParsePrimary;
    if ts != [] {
      var us := ts[1..];
      AllowedDrop(any, ts, 1);
      match ts[0]
      case TNot => ParseBuilds(any, context, NOT_PREC, us);
      case TOp(op) =>
        ParseBuilds(any, context, UMINUS_PREC, us);
        ParseBuilds(any, context, OP_PREC, us);
      case TOperator(opName) =>
        ParseBuilds(any, context, OP_PREC, us);
        assert any || !IsBareOperator(ts[0]);
      case _ => ParsePrimaryBuilds(any, context, ts);
    }
  }

  lemma {:induction false} ParsePrimaryBuilds(any: bool, context: Context, ts: seq<Token>)
    requires Allowed(any, ts)
    ensures Builds(any, ParsePrimary(context, ts))
    decreases |ts|, 1
  {
    hide ParseArgs, ParsePosition;
    if ts != [] {
      var us := ts[1..];
      AllowedDrop(any, ts, 1);
      match ts[0]
      case TCall(_) => ParseArgsBuilds(any, us);
      case TNullIf => ArgPairBuilds(any, us);
      case TPosition => ParsePositionBuilds(any, us);
      case LParen => ParenBuilds(any, context, ts);
      case _ =>
    }
  }

  lemma {:induction false} ParenBuilds(any: bool, context: Context, ts: seq<Token>)
    requires Allowed(any, ts) && StartsWith(ts, LParen)
    ensures Builds(any, ParsePrimary(context, ts))
    decreases |ts|, 0, 2
  {
    hide ParseArgs, Buildable;
    ParseArgsBuilds(any, ts);
    match ParseArgs(ts) {
      case None =>
      case Some(p) =>
        if p.tree != [] { assert p.tree[0] in p.tree; }
        RowIsBuildable(any, p.tree);
        if |p.tree| == 2 && StartsWith(p.rest, TOverlaps) {
          assert p.tree[1] in p.tree;
          AllowedDrop(any, p.rest, 1);
          ArgPairBuilds(any, p.rest[1..]);
          OverlapsIsBuildable(any, p.tree[0], p.tree[1]);
        }
    }
  }

  lemma RowIsBuildable(any: bool, items: seq<Expr>)
    requires forall e | e in items :: Buildable(e, any)
    ensures |items| >= 2 ==> Buildable(Row(items), any)
  {
  }

  lemma OverlapsIsBuildable(any: bool, a: Expr, b: Expr)
    requires Buildable(a, any) && Buildable(b, any)
    ensures forall c, d | Buildable(c, any) && Buildable(d, any) :: Buildable(Overlaps(a, b, c, d), any)
  {
  }

  lemma {:induction false} ArgPairBuilds(any: bool, ts: seq<Token>)
    requires Allowed(any, ts)
    ensures var r := ParseArgs(ts);
            BuildsAll(any, r) && (r.Some? && |r.value.tree| == 2 ==> Buildable(r.value.tree[0], any) && Buildable(r.value.tree[1], any))
    decreases |ts|, 0, 1
  {
    hide Buildable, ParseArgs;
    ParseArgsBuilds(any, ts);
    match ParseArgs(ts)
    case None =>
    case Some(p) => if |p.tree| == 2 { assert p.tree[0] in p.tree && p.tree[1] in p.tree; }
  }

  lemma {:induction false} ParsePositionBuilds(any: bool, ts: seq<Token>)
    requires Allowed(any, ts)
    ensures Builds(any, ParsePosition(ts))
    decreases |ts|, 4
  {
    hide Parse;
    if StartsWith(ts, LParen) {
      AllowedDrop(any, ts, 1);
      ParseBuilds(any, BExpr, BOTTOM, ts[1..]);
      match Parse(BExpr, BOTTOM, ts[1..])
      case None =>
      case Some(n) =>
        if StartsWith(n.rest, TIn(false)) {
          AllowedDrop(any, n.rest, 1);
          ParseBuilds(any, BExpr, BOTTOM, n.rest[1..]);
          match Parse(BExpr, BOTTOM, n.rest[1..])
          case None =>
          case Some(h) => if h.rest != [] { AllowedDrop(any, h.rest, 1); }
        }
    }
  }

  lemma {:induction false} ParseArgsBuilds(any: bool, ts: seq<Token>)
    requires Allowed(any, ts)
    ensures BuildsAll(any, ParseArgs(ts))
    decreases |ts|, 0, 0
  {
    hide Buildable, ParseList;
    if StartsWith(ts, LParen) {
      AllowedDrop(any, ts, 1);
      if |ts| > 1 { AllowedDrop(any, ts, 2); }
      ParseListBuilds(any, ts[1..]);
    }
  }

  lemma {:induction false} ParseListBuilds(any: bool, ts: seq<Token>)
    requires Allowed(any, ts)
    ensures BuildsAll(any, ParseList(ts))
    decreases |ts|, 4
  {
    hide Buildable, Parse;
    ParseBuilds(any, AExpr, BOTTOM, ts);
    match Parse(AExpr, BOTTOM, ts)
    case None =>
    case Some(p) =>
      if p.rest != [] { AllowedDrop(any, p.rest, 1); }
      if StartsWith(p.rest, Comma) {
        ParseListBuilds(any, p.rest[1..]);
      }
  }

  lemma PostfixIsBuildable(any: bool, left: Expr)
    requires Buildable(left, any)
    ensures forall s :: Buildable(Cast(left, s), any)
    ensures forall s :: Buildable(IsTest(s, left), any)
    ensures forall s :: Buildable(Collate(left, s), any)
    ensures Buildable(AtLocal(left), any) && Buildable(IsDocument(left), any)
    ensures forall s :: Buildable(InSub(left, s), any)
  {
  }

  lemma NegatedIsBuildable(any: bool, left: Expr)
    requires Buildable(left, any)
    ensures Buildable(Not(IsDocument(left)), any)
    ensures forall s :: Buildable(Not(InSub(left, s)), any)
  {
    PostfixIsBuildable(any, left);
  }

  lemma InfixIsBuildable(any: bool, left: Expr, right: Expr)
    requires Buildable(left, any) && Buildable(right, any)
    ensures forall o :: Buildable(Binary(o, left, right), any)
    ensures forall n :: Buildable(Distinct(n, left, right), any)
    ensures Buildable(AtTimeZone(left, right), any)
  {
  }

  lemma PatternIsBuildable(any: bool, c: bool, n: bool, left: Expr, right: Expr)
    requires Buildable(left, any) && Buildable(right, any)
    ensures Buildable(Like(c, n, left, right), any) && Buildable(Similar(n, left, right), any)
  {
  }

  lemma {:induction false} InfixBuilds(any: bool, context: Context, prec: int, left: Expr, ts: seq<Token>)
    requires Allowed(any, ts) && Buildable(left, any)
    ensures var r := Parse(context, prec, ts);
            Builds(any, r) && (r.Some? ==>
              && (forall n :: Buildable(Distinct(n, left, r.value.tree), any))
              && Buildable(AtTimeZone(left, r.value.tree), any)
              && (forall o :: Buildable(Binary(o, left, r.value.tree), any)))
    decreases |ts|, 4
  {
    hide Parse, Buildable;
    ParseBuilds(any, context, prec, ts);
    match Parse(context, prec, ts)
    case None =>
    case Some(p) => InfixIsBuildable(any, left, p.tree);
  }

  lemma {:induction false} ShiftBuilds(any: bool, context: Context, left: Expr, ts: seq<Token>)
    requires InfixPrecedence(context, ts) != BOTTOM
    requires Allowed(any, ts) && Buildable(left, any)
    ensures Builds(any, Shift(context, left, ts))
    decreases |ts|, 1
  {
    hide Parse, Buildable, ShiftOperator, ShiftQuantified, ShiftIn, ShiftBetween;
    var us := ts[1..];
    AllowedDrop(any, ts, 1);
    PostfixIsBuildable(any, left);
    match ts[0]
    case TOp(op) => ShiftOperatorBuilds(any, context, left, Plain(op), OperPrecedence(op), ts);
    case TOperator(opName) => ShiftOperatorBuilds(any, context, left, opName, OP_PREC, ts);
    case TIsDistinct(_) => InfixBuilds(any, context, IS_PREC, left, us);
    case TConnective(c) => ConnectiveBuilds(any, c, left, us);
    case TIn(negated) => ShiftInBuilds(any, negated, left, us);
    case TLike(caseless, negated) =>
      if us != [] && us[0].TQuantifier? {
        ShiftQuantifiedBuilds(any, left, Plain(LikeOper(caseless, negated)), us);
      } else {
        EscapeBuilds(any, caseless, negated, left, us);
      }
    case TSimilar(negated) => EscapeBuilds(any, false, negated, left, us);
    case TBetween(kind) => ShiftBetweenBuilds(any, kind, left, us);
    case TIsDocument(_) => NegatedIsBuildable(any, left);
    case TAtTimeZone => InfixBuilds(any, context, AT_PREC, left, us);
    case _ =>
  }

  lemma {:induction false} ConnectiveBuilds(any: bool, c: Connective, left: Expr, ts: seq<Token>)
    requires Allowed(any, ts) && Buildable(left, any)
    ensures var r := Parse(AExpr, ConnectivePrecedence(c), ts);
            r.Some? ==> Buildable(MakeBool(c, left, r.value.tree), any) && Allowed(any, r.value.rest)
    decreases |ts|, 4
  {
    hide Parse;
    ParseBuilds(any, AExpr, ConnectivePrecedence(c), ts);
    if left.Bool? && left.connective == c {
      assert forall x :: (left.args + [x])[0] == left.args[0];
    }
  }

  lemma EscapeIsBuildable(any: bool, c: bool, n: bool, left: Expr, pattern: Expr, escape: Expr)
    requires Buildable(left, any) && Buildable(pattern, any) && Buildable(escape, any)
    ensures Buildable(SimilarEscape(n, left, pattern, escape), any)
    ensures Buildable(Like(c, n, left, LikeEscape(pattern, escape)), any)
  {
    assert Buildable(LikeEscape(pattern, escape), any);
  }

  /** A pattern and the ESCAPE that may follow it. */
  lemma {:induction false} EscapeBuilds(any: bool, c: bool, n: bool, left: Expr, ts: seq<Token>)
    requires Allowed(any, ts) && Buildable(left, any)
    ensures
      var r := Parse(AExpr, BETWEEN_PREC, ts);
      Builds(any, r) &&
      (r.Some? ==>
         && Buildable(Similar(n, left, r.value.tree), any)
         && Buildable(Like(c, n, left, r.value.tree), any)
         && (StartsWith(r.value.rest, TEscape) ==>
               var s := Parse(AExpr, BETWEEN_PREC, r.value.rest[1..]);
               Builds(any, s) && (s.Some? ==>
                 && Buildable(SimilarEscape(n, left, r.value.tree, s.value.tree), any)
                 && Buildable(Like(c, n, left, LikeEscape(r.value.tree, s.value.tree)), any))))
    decreases |ts|, 4
  {
    hide Parse, Buildable;
    ParseBuilds(any, AExpr, BETWEEN_PREC, ts);
    match Parse(AExpr, BETWEEN_PREC, ts)
    case None =>
    case Some(p) =>
      PatternIsBuildable(any, c, n, left, p.tree);
      if StartsWith(p.rest, TEscape) {
        AllowedDrop(any, p.rest, 1);
        ParseBuilds(any, AExpr, BETWEEN_PREC, p.rest[1..]);
        match Parse(AExpr, BETWEEN_PREC, p.rest[1..])
        case None =>
        case Some(e) => EscapeIsBuildable(any, c, n, left, p.tree, e.tree);
      }
  }

  lemma {:induction false} ShiftOperatorBuilds(any: bool, context: Context, left: Expr, opName: OpRef, prec: int, ts: seq<Token>)
    requires ts != [] && Allowed(any, ts) && Buildable(left, any)
    ensures Builds(any, ShiftOperator(context, left, opName, prec, ts))
    decreases |ts|, 0
  {
    hide Parse, ShiftQuantified, Buildable;
    AllowedDrop(any, ts, 1);
    if |ts| > 1 && ts[1].TQuantifier? {
      ShiftQuantifiedBuilds(any, left, opName, ts[1..]);
    }
    InfixBuilds(any, context, prec, left, ts[1..]);
  }

  lemma {:induction false} QuantifiedIsBuildable(any: bool, o: OpRef, q: Quantifier, left: Expr, right: Expr)
    requires Buildable(left, any) && Buildable(right, any)
    ensures Buildable(MakeQuantified(o, q, left, right), any)
  {
    if right.ScalarSub? {
      QuantifiedSubIsBuildable(any, o, q, left, right.select);
      hide Buildable;
    }
  }

  lemma QuantifiedSubIsBuildable(any: bool, o: OpRef, q: Quantifier, left: Expr, select: string)
    requires Buildable(left, any)
    ensures Buildable(QuantifiedSub(o, q, left, select), any)
  {
  }

  lemma {:induction false} ShiftQuantifiedBuilds(any: bool, left: Expr, opName: OpRef, ts: seq<Token>)
    requires ts != [] && ts[0].TQuantifier? && Allowed(any, ts) && Buildable(left, any)
    ensures Builds(any, ShiftQuantified(left, opName, ts))
    decreases |ts|, 4
  {
    hide Parse, Buildable;
    if |ts| > 1 {
      AllowedDrop(any, ts, 2);
      if |ts| > 3 { AllowedDrop(any, ts, 4); }
      if |ts| > 2 && ts[2].TSelect? { QuantifiedSubIsBuildable(any, opName, ts[0].quantifier, left, ts[2].select); }
      ParseBuilds(any, AExpr, BOTTOM, ts[2..]);
      match Parse(AExpr, BOTTOM, ts[2..])
      case None =>
      case Some(p) =>
        QuantifiedIsBuildable(any, opName, ts[0].quantifier, left, p.tree);
        if p.rest != [] { AllowedDrop(any, p.rest, 1); }
    }
  }

  lemma {:induction false} InListIsBuildable(any: bool, negated: bool, left: Expr, items: seq<Expr>)
    requires Buildable(left, any) && items != [] && forall e | e in items :: Buildable(e, any)
    ensures Buildable(MakeIn(negated, left, items), any)
  {
    if |items| == 1 && items[0].ScalarSub? {
      InSubIsBuildable(any, negated, left, items[0].select);
      hide Buildable;
    }
  }

  lemma {:induction false} InSubIsBuildable(any: bool, negated: bool, left: Expr, select: string)
    requires Buildable(left, any)
    ensures Buildable(MakeInSub(negated, left, select), any)
  {
    assert Buildable(InSub(left, select), any);
  }

  lemma {:induction false} ShiftInBuilds(any: bool, negated: bool, left: Expr, ts: seq<Token>)
    requires Allowed(any, ts) && Buildable(left, any)
    ensures Builds(any, ShiftIn(negated, left, ts))
    decreases |ts|, 4
  {
    hide ParseArgs, Buildable, MakeIn, MakeInSub, Allowed;
    if |ts| > 2 && ts[0] == LParen && ts[1].TSelect? {
      AllowedDrop(any, ts, 3);
      InSubIsBuildable(any, negated, left, ts[1].select);
    } else {
      ParseArgsBuilds(any, ts);
      match ParseArgs(ts) {
        case None =>
        case Some(p) => if p.tree != [] { InListIsBuildable(any, negated, left, p.tree); }
      }
    }
  }

  lemma BetweenIsBuildable(any: bool, kind: BetweenKind, left: Expr, low: Expr, high: Expr)
    requires Buildable(left, any) && Buildable(low, any) && Buildable(high, any)
    ensures Buildable(BetweenTest(kind, left, low, high), any)
  {
  }

  lemma {:induction false} ShiftBetweenBuilds(any: bool, kind: BetweenKind, left: Expr, ts: seq<Token>)
    requires Allowed(any, ts) && Buildable(left, any)
    ensures Builds(any, ShiftBetween(kind, left, ts))
    decreases |ts|, 4
  {
    hide Parse, Buildable;
    ParseBuilds(any, BExpr, BOTTOM, ts);
    match Parse(BExpr, BOTTOM, ts)
    case None =>
    case Some(low) =>
      if StartsWith(low.rest, TConnective(AND)) {
        AllowedDrop(any, low.rest, 1);
        ParseBuilds(any, AExpr, BETWEEN_PREC, low.rest[1..]);
        match Parse(AExpr, BETWEEN_PREC, low.rest[1..])
        case None =>
        case Some(high) => BetweenIsBuildable(any, kind, left, low.tree, high.tree);
      }
  }

  // ---------- What the printed text looks like from outside ----------

  /** The tokens that belong to a b_expr at its own level, that is outside all parentheses. */
  predicate IsBExprToken(t: Token) {
    match t
    case TAtom(_) | TScalarSub(_) | TNum(_) | TOp(_) | TOperator(_) | TTypecast(_) => true
    case TIsDistinct(_) | TIsDocument(_) | TCall(_) | TNullIf | TPosition => true
    case _ => false
  }

  /** Numbers are written without a sign, which is a token of its own, and no operator as OPERATOR(op). */
  predicate Writable(t: Token) {
    !IsBareOperator(t) && !(t.TNum? && IsNegative(t.number))
  }

  /** Text that begins at the given depth of parentheses, closes none that is not open, has only tokens that
      the printer may write, and only b_expr tokens outside of parentheses. */
  predicate IsBExprText(ts: seq<Token>, depth: nat) {
    if ts == [] then true else
    match ts[0]
    case LParen => IsBExprText(ts[1..], depth + 1)
    case RParen => depth > 0 && IsBExprText(ts[1..], depth - 1)
    case t => Writable(t) && (depth > 0 || IsBExprToken(t)) && IsBExprText(ts[1..], depth)
  }

  predicate TextStep(t: Token, k: seq<Token>, depth: nat) {
    if t.LParen? then IsBExprText(k, depth + 1)
    else if t.RParen? then depth > 0 && IsBExprText(k, depth - 1)
    else Writable(t) && (depth > 0 || IsBExprToken(t)) && IsBExprText(k, depth)
  }

  lemma TextSteps()
    ensures forall t, k, depth: nat {:trigger IsBExprText([t] + k, depth)} :: IsBExprText([t] + k, depth) == TextStep(t, k, depth)
  {
    assert forall t: Token, k: seq<Token> :: ([t] + k)[1..] == k;
  }

  predicate IsLeaf(e: Expr) {
    e.Bool? || (GetExprPrecedence(e) == ATOM_PREC && !e.Prefix? && !e.Binary?)
  }

  predicate IsInfixOperation(e: Expr) {
    e.Binary? || e.Like? || e.Similar? || e.Distinct? || e.AtTimeZone? || e.SimilarEscape? || e.BetweenTest?
  }

  /** Inside parentheses every expression is passed over. */
  lemma {:induction false} PrintIsBalanced(e: Expr)
    ensures forall c, k, depth: nat | depth > 0 :: IsBExprText(PrintOn(e, c, k), depth) == IsBExprText(k, depth)
    decreases e, 1
  {
    hide IsBExprText, PrintOn, IsLeaf, IsInfixOperation;
    forall c, k, depth: nat | depth > 0 ensures IsBExprText(PrintOn(e, c, k), depth) == IsBExprText(k, depth) {
      if IsLeaf(e) {
        LeafIsBalanced(e, c, k, depth);
      } else if IsInfixOperation(e) {
        InfixIsBalanced(e, c, k, depth);
      } else {
        OperationIsBalanced(e, c, k, depth);
      }
    }
  }

  lemma {:induction false} LeafIsBalanced(e: Expr, c: Context, k: seq<Token>, depth: nat)
    requires IsLeaf(e) && depth > 0
    ensures IsBExprText(PrintOn(e, c, k), depth) == IsBExprText(k, depth)
    decreases e, 0
  {
    TextSteps();
    hide IsBExprText, BExprOn, NeedsParensAsCExpr;
    match e
    case Atom(_) =>
    case ScalarSub(_) =>
    case Num(_) =>
    case Call(_, args) => ListIsBalanced(args);
    case Row(items) => ListIsBalanced(items);
    case Bool(_, args) => BoolIsBalanced(args);
    case Cast(l, _) => PrintIsBalanced(l);
    case NullIf(l, r) => PrintIsBalanced(l); PrintIsBalanced(r);
    case Position(l, r) => PartIsBalanced(l); PartIsBalanced(r);
    case Overlaps(_, _, _, _) => OverlapsIsBalanced(e, c, k, depth);
  }

  lemma {:induction false} OverlapsIsBalanced(e: Expr, c: Context, k: seq<Token>, depth: nat)
    requires e.Overlaps? && depth > 0
    ensures IsBExprText(PrintOn(e, c, k), depth) == IsBExprText(k, depth)
    decreases e, 0, 0
  {
    TextSteps();
    hide IsBExprText;
    match e
    case Overlaps(l, r, s, t) => PrintIsBalanced(l); PrintIsBalanced(r); PrintIsBalanced(s); PrintIsBalanced(t);
  }

  lemma {:induction false} InfixIsBalanced(e: Expr, c: Context, k: seq<Token>, depth: nat)
    requires IsInfixOperation(e) && depth > 0
    ensures IsBExprText(PrintOn(e, c, k), depth) == IsBExprText(k, depth)
    decreases e, 0
  {
    TextSteps();
    hide IsBExprText, OperandOn, GetOperatorPrecedence;
    match e
    case Binary(_, l, r) => PartIsBalanced(l); PartIsBalanced(r);
    case Like(_, _, l, r) => PartIsBalanced(l); PartIsBalanced(r);
    case Similar(_, l, r) => PartIsBalanced(l); PartIsBalanced(r);
    case Distinct(_, l, r) => PartIsBalanced(l); PartIsBalanced(r);
    case AtTimeZone(l, r) => PartIsBalanced(l); PartIsBalanced(r);
    case SimilarEscape(_, l, r, s) => PartIsBalanced(l); PartIsBalanced(r); PartIsBalanced(s);
    case BetweenTest(_, l, r, s) => PartIsBalanced(l); PartIsBalanced(r); PartIsBalanced(s);
  }

  lemma {:induction false} OperationIsBalanced(e: Expr, c: Context, k: seq<Token>, depth: nat)
    requires !IsLeaf(e) && !IsInfixOperation(e) && depth > 0
    ensures IsBExprText(PrintOn(e, c, k), depth) == IsBExprText(k, depth)
    decreases e, 0
  {
    TextSteps();
    hide IsBExprText, OperandOn, BoolArgOn, GetOperatorPrecedence, GetSubqueryOperatorPrecedence;
    match e
    case InList(_, l, items) => PartIsBalanced(l); ListIsBalanced(items);
    case Prefix(_, r) => PartIsBalanced(r);
    case QuantifiedSub(_, _, l, _) => PartIsBalanced(l);
    case InSub(l, _) => PartIsBalanced(l);
    case IsTest(_, l) => PartIsBalanced(l);
    case IsDocument(l) => PartIsBalanced(l);
    case Not(l) => PartIsBalanced(l);
    case Collate(l, _) => PartIsBalanced(l);
    case AtLocal(l) => PartIsBalanced(l);
    case Quantified(_, _, l, r) => PartIsBalanced(l); PrintIsBalanced(r);
  }

  /** An expression in one of its places, with or without parentheses. */
  lemma {:induction false} PartIsBalanced(e: Expr)
    ensures forall parent, side, c, k, depth: nat | depth > 0 :: IsBExprText(OperandOn(e, parent, side, c, k), depth) == IsBExprText(k, depth)
    ensures forall k, depth: nat | depth > 0 :: IsBExprText(BExprOn(e, k), depth) == IsBExprText(k, depth)
    ensures forall k, depth: nat | depth > 0 :: IsBExprText(BoolArgOn(e, k), depth) == IsBExprText(k, depth)
    decreases e, 2
  {
    TextSteps();
    hide IsBExprText, PrintOn, OperandNeedsParens, NeedsParensAsBExpr;
    PrintIsBalanced(e);
  }

  lemma {:induction false} ListIsBalanced(es: seq<Expr>)
    ensures forall k, depth: nat | depth > 0 :: IsBExprText(PrintListOn(es, k), depth) == IsBExprText(k, depth)
    decreases es
  {
    TextSteps();
    hide PrintOn, IsBExprText;
    if es == [] {
    } else if |es| == 1 {
      PrintIsBalanced(es[0]);
    } else {
      PrintIsBalanced(es[0]);
      ListIsBalanced(es[1..]);
    }
  }

  lemma {:induction false} BoolIsBalanced(es: seq<Expr>)
    ensures forall c, k, depth: nat | depth > 0 :: IsBExprText(BoolArgsOn(c, es, k), depth) == IsBExprText(k, depth)
    decreases es
  {
    TextSteps();
    hide PrintOn, BoolArgOn, IsBExprText;
    if es == [] {
    } else if |es| == 1 {
      PartIsBalanced(es[0]);
    } else {
      PartIsBalanced(es[0]);
      BoolIsBalanced(es[1..]);
    }
  }

  /** A c_expr has nothing but b_expr tokens outside of parentheses, in any context. */
  lemma {:induction false} CExprIsBExprText(e: Expr)
    requires !NeedsParensAsCExpr(e)
    ensures forall c, k :: IsBExprText(PrintOn(e, c, k), 0) == IsBExprText(k, 0)
    decreases e
  {
    TextSteps();
    hide IsBExprText, BExprOn;
    match e
    case Atom(_) =>
    case ScalarSub(_) =>
    case Num(_) =>
    case Call(_, args) => ListIsBalanced(args);
    case Row(items) => ListIsBalanced(items);
    case NullIf(l, r) => PrintIsBalanced(l); PrintIsBalanced(r);
    case Position(l, r) => PartIsBalanced(l); PartIsBalanced(r);
    case Cast(l, _) =>
      PrintIsBalanced(l);
      if !NeedsParensAsCExpr(l) { CExprIsBExprText(l); }
  }

  /** An expression printed for a b_expr position has only b_expr tokens outside of parentheses. */
  lemma {:induction false} PrintIsBExprText(e: Expr)
    requires !NeedsParensAsBExpr(e)
    ensures forall k :: IsBExprText(PrintOn(e, BExpr, k), 0) == IsBExprText(k, 0)
    decreases e, 0
  {
    TextSteps();
    hide IsBExprText;
    match e
    case Prefix(_, r) => OperandIsBExprText(r);
    case Binary(_, l, r) => OperandIsBExprText(l); OperandIsBExprText(r);
    case Distinct(_, l, r) => OperandIsBExprText(l); OperandIsBExprText(r);
    case IsDocument(l) => OperandIsBExprText(l);
    case _ => CExprIsBExprText(e);
  }

  lemma {:induction false} OperandIsBExprText(e: Expr)
    ensures forall parent, side, k :: IsBExprText(OperandOn(e, parent, side, BExpr, k), 0) == IsBExprText(k, 0)
    ensures forall k :: IsBExprText(BExprOn(e, k), 0) == IsBExprText(k, 0)
    decreases e, 1
  {
    TextSteps();
    hide PrintOn, IsBExprText, GetExprPrecedence, NeedsParensAsBExpr, NeedsParensForPrecedence;
    PrintIsBalanced(e);
    if !NeedsParensAsBExpr(e) {
      PrintIsBExprText(e);
    }
  }

  // ---------- Main results ----------

  /** Balanced text, seen from inside one pair of parentheses, has only tokens that may be written. */
  lemma {:induction false} BalancedIsWritable(ts: seq<Token>, depth: nat)
    requires IsBExprText(ts, depth)
    ensures forall t | t in ts :: Writable(t)
  {
    if ts != [] {
      BalancedIsWritable(ts[1..], if ts[0].LParen? then depth + 1 else if ts[0].RParen? then depth - 1 else depth);
      assert ts == [ts[0]] + ts[1..];
    }
  }

  /** No operator is printed as OPERATOR(op), and no number with a sign. */
  lemma PrintIsWritable(e: Expr)
    ensures NoBareOperator(Print(e))
    ensures forall t | t in Print(e) && t.TNum? :: if t.number.IntNum? then t.number.value >= 0 else !t.number.negative
  {
    PrintIsBalanced(e);
    BalancedIsWritable(Print(e), 1);
  }

  /** A minus sign in front of a number is printed for negative numbers only. */
  lemma SignPrinted(n: Number)
    ensures Print(Num(n)) ==
            match n {
              case IntNum(v) => if v < 0 then [TOp(Minus), TNum(IntNum(-v))] else [TNum(n)]
              case FloatNum(negative, digits) => if negative then [TOp(Minus), TNum(FloatNum(false, digits))] else [TNum(n)]
            }
  {
  }

  lemma AtomOperand(a: string, parent: int, side: Side, k: seq<Token>)
    requires parent < ATOM_PREC
    ensures OperandOn(Atom(a), parent, side, AExpr, k) == [TAtom(a)] + k
  {
  }

  lemma OfAtoms(op: Oper, a: string, b: string, k: seq<Token>)
    ensures PrintOn(Binary(Plain(op), Atom(a), Atom(b)), AExpr, k) == [TAtom(a), TOp(op), TAtom(b)] + k
  {
    AtomOperand(b, OperPrecedence(op), RightOperand, k);
    AtomOperand(a, OperPrecedence(op), LeftOperand, [TOp(op)] + ([TAtom(b)] + k));
    hide OperandOn;
    assert [TAtom(a)] + ([TOp(op)] + ([TAtom(b)] + k)) == [TAtom(a), TOp(op), TAtom(b)] + k;
  }

  /** Everything the grammar can read is a tree of the class the round trip is about, and what it
      reads from a text without OPERATOR(op) has no prefix operator that needs it. */
  lemma ParseGivesGrammatical(ts: seq<Token>)
    ensures ParseText(ts).Some? ==> Grammatical(ParseText(ts).value)
    ensures ParseText(ts).Some? && NoBareOperator(ts) ==> Printable(ParseText(ts).value)
  {
    ParseBuilds(true, AExpr, BOTTOM, ts);
    if NoBareOperator(ts) {
      ParseBuilds(false, AExpr, BOTTOM, ts);
    }
  }

  /** Printing and reading back gives the same tree exactly for the trees in which every prefix
      operator can be written without OPERATOR(...). */
  lemma RoundTrip(e: Expr)
    requires Grammatical(e)
    ensures ParseText(Print(e)) == Some(e) <==> Printable(e)
  {
    if Printable(e) {
      StopFits(e, AExpr, AExpr, []);
      RoundTripOn(e, AExpr, AExpr, BOTTOM, []);
      OperandEnds(AExpr, BOTTOM, Print(e), e, []);
    } else {
      PrintIsWritable(e);
      ParseGivesGrammatical(Print(e));
    }
  }

  /** Deparsing what was parsed gives text that parses to the same tree. */
  lemma DeparsePreservesMeaning(ts: seq<Token>)
    requires NoBareOperator(ts) && ParseText(ts).Some?
    ensures ParseText(Print(ParseText(ts).value)) == ParseText(ts)
  {
    ParseGivesGrammatical(ts);
    PrintableIsGrammatical(ParseText(ts).value);
    RoundTrip(ParseText(ts).value);
  }

  /** Two different trees never have the same text. */
  lemma PrintIsInjective(a: Expr, b: Expr)
    requires Printable(a) && Printable(b) && Print(a) == Print(b)
    ensures a == b
  {
    PrintableIsGrammatical(a);
    PrintableIsGrammatical(b);
    RoundTrip(a);
    RoundTrip(b);
  }

  lemma {:induction false} PrintableIsGrammatical(e: Expr)
    requires Printable(e)
    ensures Grammatical(e)
    decreases e
  {
    StopFits(e, AExpr, AExpr, []);
    RoundTripOn(e, AExpr, AExpr, BOTTOM, []);
    OperandEnds(AExpr, BOTTOM, Print(e), e, []);
    ParseGivesGrammatical(Print(e));
  }

  /** The two families that fail, each with a query text that gives such a tree: OPERATOR(-) 1 comes
      back as the constant -1, and OPERATOR(*) a does not read back at all. */
  lemma PrefixOperatorsThatFail()
    ensures var ts := [TOperator(Plain(Minus)), TNum(IntNum(1))];
            var e := Prefix(Plain(Minus), Num(IntNum(1)));
            ParseText(ts) == Some(e) && ParseText(Print(e)) == Some(Num(IntNum(-1)))
    ensures var ts := [TOperator(Plain(Star)), TAtom("a")];
            var e := Prefix(Plain(Star), Atom("a"));
            ParseText(ts) == Some(e) && ParseText(Print(e)) == None
  {
    MinusOneFails();
    StarFails();
  }

  lemma MinusOneFails()
    ensures var ts := [TOperator(Plain(Minus)), TNum(IntNum(1))];
            var e := Prefix(Plain(Minus), Num(IntNum(1)));
            ParseText(ts) == Some(e) && ParseText(Print(e)) == Some(Num(IntNum(-1)))
  {
    var one := [TNum(IntNum(1))];
    assert ParsePrimary(AExpr, one) == Some(Parsed(Num(IntNum(1)), []));
    StartReads(AExpr, OP_PREC, one, Num(IntNum(1)), []);
    OperandEnds(AExpr, OP_PREC, one, Num(IntNum(1)), []);
    StartReads(AExpr, UMINUS_PREC, one, Num(IntNum(1)), []);
    OperandEnds(AExpr, UMINUS_PREC, one, Num(IntNum(1)), []);
    assert [TOperator(Plain(Minus)), TNum(IntNum(1))][1..] == one;
    assert Print(Prefix(Plain(Minus), Num(IntNum(1)))) == [TOp(Minus)] + one;
  }

  lemma StarFails()
    ensures var ts := [TOperator(Plain(Star)), TAtom("a")];
            var e := Prefix(Plain(Star), Atom("a"));
            ParseText(ts) == Some(e) && ParseText(Print(e)) == None
  {
    var a := [TAtom("a")];
    var e := Prefix(Plain(Star), Atom("a"));
    assert ParsePrimary(AExpr, a) == Some(Parsed(Atom("a"), []));
    StartReads(AExpr, OP_PREC, a, Atom("a"), []);
    OperandEnds(AExpr, OP_PREC, a, Atom("a"), []);
    assert Print(e) == [TOp(Star)] + a && ParseStart(AExpr, [TOp(Star)] + a) == None;
    var ts := [TOperator(Plain(Star)), TAtom("a")];
    assert ts[1..] == a;
    assert ParseStart(AExpr, ts) == Some(Parsed(e, []));
    StartReads(AExpr, BOTTOM, ts, e, []);
    OperandEnds(AExpr, BOTTOM, ts, e, []);
    hide ParseStart, Loop, PrintOn, ParsePrimary;
  }
}
