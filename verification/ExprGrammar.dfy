/** The expression rules of gram.y as an operator-precedence parser.

    gram.y is ambiguous and its conflicts are settled by the precedence table: with a rule of
    precedence q waiting for its right operand, an operator token of precedence p is shifted when
    p > q, the rule is reduced when p < q, and at equal precedence associativity decides (left:
    reduce, none: syntax error).  Parse and Loop make exactly that decision. */
module ExprGrammar {
  import opened ExprSyntax

  datatype Option<+T> = None | Some(value: T)

  datatype Parsed<+T> = Parsed(tree: T, rest: seq<Token>)

  /** No rule waits for a right operand. */
  const BOTTOM := -1

  /** Precedence of the first token as an infix or postfix operator, or BOTTOM if it is none in
      this context.  A b_expr only has the operators of its own rules. */
  function InfixPrecedence(context: Context, ts: seq<Token>): int {
    if ts == [] then BOTTOM else
    match ts[0]
    case TTypecast(_) => ATOM_PREC
    case TOp(op) => OperPrecedence(op)
    case TOperator(_) => OP_PREC
    case TIsDistinct(_) => IS_PREC
    case TIsDocument(_) => IS_PREC
    case t =>
      if context.BExpr? then BOTTOM else
      match t
      case TConnective(c) => ConnectivePrecedence(c)
      case TIn(_) => BETWEEN_PREC
      case TLike(_, _) => BETWEEN_PREC
      case TSimilar(_) => BETWEEN_PREC
      case TBetween(_) => BETWEEN_PREC
      case TIsTest(_) => IS_PREC
      case TCollate(_) => COLLATE_PREC
      case TAtTimeZone => AT_PREC
      case TAtLocal => AT_PREC
      case _ => BOTTOM
  }

  /** The lexer gives these a token of their own, so they are not in class Op. */
  predicate IsMathOp(op: Oper) {
    OperPrecedence(op) != OP_PREC
  }

  predicate StartsWith(ts: seq<Token>, t: Token) {
    ts != [] && ts[0] == t
  }

  /** "a AND b AND c" becomes one node as it is read. */
  function MakeBool(c: Connective, left: Expr, right: Expr): Expr {
    if left.Bool? && left.connective == c then Bool(c, left.args + [right]) else Bool(c, [left, right])
  }

  /** A minus sign in front of a numeric constant becomes part of it. */
  function MakeMinus(arg: Expr): Expr {
    if arg.Num? then Num(Negate(arg.number)) else Prefix(Plain(Minus), arg)
  }

  /** An a_expr or b_expr, read while a rule of precedence q waits for it. */
  function Parse(context: Context, q: int, ts: seq<Token>): (r: Option<Parsed<Expr>>)
    ensures r.Some? ==> |r.value.rest| < |ts|
    decreases |ts|, 3
  {
    match ParseStart(context, ts)
    case None => None
    case Some(p) => Loop(context, p.tree, q, p.rest)
  }

  /** Extend left by the operators that bind tighter than the waiting rule. */
  function Loop(context: Context, left: Expr, q: int, ts: seq<Token>): (r: Option<Parsed<Expr>>)
    ensures r.Some? ==> |r.value.rest| <= |ts|
    decreases |ts|, 2
  {
    var p := InfixPrecedence(context, ts);
    if p == BOTTOM || p < q then Some(Parsed(left, ts))
    else if p == q then
      if NonAssociative(p) then None else Some(Parsed(left, ts))
    else
      match Shift(context, left, ts)
      case None => None
      case Some(s) => Loop(context, s.tree, q, s.rest)
  }

  /** Prefix operators and primary expressions. */
  function ParseStart(context: Context, ts: seq<Token>): (r: Option<Parsed<Expr>>)
    ensures r.Some? ==> |r.value.rest| < |ts|
    decreases |ts|, 2
  {
    if ts == [] then None else
    match ts[0]
    case TNot =>
      if context.BExpr? then None else
      (match Parse(context, NOT_PREC, ts[1..])
       case None => None
       case Some(p) => Some(Parsed(Not(p.tree), p.rest)))
    case TOp(Plus) =>
      (match Parse(context, UMINUS_PREC, ts[1..])
       case None => None
       case Some(p) => Some(Parsed(Prefix(Plain(Plus), p.tree), p.rest)))
    case TOp(Minus) =>
      (match Parse(context, UMINUS_PREC, ts[1..])
       case None => None
       case Some(p) => Some(Parsed(MakeMinus(p.tree), p.rest)))
    case TOp(op) =>
      if IsMathOp(op) then None else
      (match Parse(context, OP_PREC, ts[1..])
       case None => None
       case Some(p) => Some(Parsed(Prefix(Plain(op), p.tree), p.rest)))
    case TOperator(opName) =>
      (match Parse(context, OP_PREC, ts[1..])
       case None => None
       case Some(p) => Some(Parsed(Prefix(opName, p.tree), p.rest)))
    case _ => ParsePrimary(context, ts)
  }

  /** c_expr, and OVERLAPS, which only takes rows. */
  function ParsePrimary(context: Context, ts: seq<Token>): (r: Option<Parsed<Expr>>)
    ensures r.Some? ==> |r.value.rest| < |ts|
    decreases |ts|, 1
  {
    if ts == [] then None else
    match ts[0]
    case TAtom(name) => Some(Parsed(Atom(name), ts[1..]))
    case TScalarSub(select) => Some(Parsed(ScalarSub(select), ts[1..]))
    case TNum(n) => Some(Parsed(Num(n), ts[1..]))
    case TCall(fn) =>
      (match ParseArgs(ts[1..])
       case None => None
       case Some(p) => Some(Parsed(Call(fn, p.tree), p.rest)))
    case TNullIf =>
      (match ParseArgs(ts[1..])
       case None => None
       case Some(p) => if |p.tree| == 2 then Some(Parsed(NullIf(p.tree[0], p.tree[1]), p.rest)) else None)
    case TPosition => ParsePosition(ts[1..])
    case LParen =>
      (match ParseArgs(ts)
       case None => None
       case Some(p) =>
         if p.tree == [] then None
         else if |p.tree| == 1 then Some(Parsed(p.tree[0], p.rest))
         else if context.AExpr? && |p.tree| == 2 && StartsWith(p.rest, TOverlaps) then
           (match ParseArgs(p.rest[1..])
            case None => None
            case Some(o) =>
              if |o.tree| == 2
              then Some(Parsed(Overlaps(p.tree[0], p.tree[1], o.tree[0], o.tree[1]), o.rest))
              else None)
         else Some(Parsed(Row(p.tree), p.rest)))
    case _ => None
  }

  /** POSITION has a b_expr on both sides of IN. */
  function ParsePosition(ts: seq<Token>): (r: Option<Parsed<Expr>>)
    ensures r.Some? ==> |r.value.rest| < |ts|
    decreases |ts|, 4
  {
    if !StartsWith(ts, LParen) then None else
    match Parse(BExpr, BOTTOM, ts[1..])
    case None => None
    case Some(n) =>
      if !StartsWith(n.rest, TIn(false)) then None else
      match Parse(BExpr, BOTTOM, n.rest[1..])
      case None => None
      case Some(h) =>
        if !StartsWith(h.rest, RParen) then None
        else Some(Parsed(Position(n.tree, h.tree), h.rest[1..]))
  }

  /** A parenthesised, possibly empty, list of a_exprs. */
  function ParseArgs(ts: seq<Token>): (r: Option<Parsed<seq<Expr>>>)
    ensures r.Some? ==> |r.value.rest| < |ts|
    decreases |ts|, 0
  {
    if !StartsWith(ts, LParen) then None
    else if StartsWith(ts[1..], RParen) then Some(Parsed([], ts[2..]))
    else ParseList(ts[1..])
  }

  /** A non-empty list of a_exprs up to and including the closing parenthesis. */
  function ParseList(ts: seq<Token>): (r: Option<Parsed<seq<Expr>>>)
    ensures r.Some? ==> |r.value.rest| < |ts| && r.value.tree != []
    decreases |ts|, 4
  {
    match Parse(AExpr, BOTTOM, ts)
    case None => None
    case Some(p) =>
      if StartsWith(p.rest, RParen) then Some(Parsed([p.tree], p.rest[1..]))
      else if !StartsWith(p.rest, Comma) then None
      else
        match ParseList(p.rest[1..])
        case None => None
        case Some(q) => Some(Parsed([p.tree] + q.tree, q.rest))
  }

  /** One operator applied to left, with its right operand if it has one. */
  function Shift(context: Context, left: Expr, ts: seq<Token>): (r: Option<Parsed<Expr>>)
    requires InfixPrecedence(context, ts) != BOTTOM
    ensures r.Some? ==> |r.value.rest| < |ts|
    decreases |ts|, 1
  {
    match ts[0]
    case TTypecast(ty) => Some(Parsed(Cast(left, ty), ts[1..]))
    case TOp(op) => ShiftOperator(context, left, Plain(op), OperPrecedence(op), ts)
    case TOperator(opName) => ShiftOperator(context, left, opName, OP_PREC, ts)
    case TIsDistinct(negated) =>
      (match Parse(context, IS_PREC, ts[1..])
       case None => None
       case Some(p) => Some(Parsed(Distinct(negated, left, p.tree), p.rest)))
    case TIsDocument(negated) =>
      Some(Parsed(if negated then Not(IsDocument(left)) else IsDocument(left), ts[1..]))
    case TConnective(c) =>
      (match Parse(AExpr, ConnectivePrecedence(c), ts[1..])
       case None => None
       case Some(p) => Some(Parsed(MakeBool(c, left, p.tree), p.rest)))
    case TIn(negated) => ShiftIn(negated, left, ts[1..])
    case TLike(caseless, negated) =>
      if |ts| > 1 && ts[1].TQuantifier? then
        ShiftQuantified(left, Plain(LikeOper(caseless, negated)), ts[1..])
      else
        (match Parse(AExpr, BETWEEN_PREC, ts[1..])
         case None => None
         case Some(p) =>
           if !StartsWith(p.rest, TEscape) then Some(Parsed(Like(caseless, negated, left, p.tree), p.rest))
           else
             match Parse(AExpr, BETWEEN_PREC, p.rest[1..])
             case None => None
             case Some(e) => Some(Parsed(Like(caseless, negated, left, LikeEscape(p.tree, e.tree)), e.rest)))
    case TSimilar(negated) =>
      (match Parse(AExpr, BETWEEN_PREC, ts[1..])
       case None => None
       case Some(p) =>
         if !StartsWith(p.rest, TEscape) then Some(Parsed(Similar(negated, left, p.tree), p.rest))
         else
           match Parse(AExpr, BETWEEN_PREC, p.rest[1..])
           case None => None
           case Some(e) => Some(Parsed(SimilarEscape(negated, left, p.tree, e.tree), e.rest)))
    case TBetween(kind) => ShiftBetween(kind, left, ts[1..])
    case TIsTest(test) => Some(Parsed(IsTest(test, left), ts[1..]))
    case TCollate(collation) => Some(Parsed(Collate(left, collation), ts[1..]))
    case TAtTimeZone =>
      (match Parse(AExpr, AT_PREC, ts[1..])
       case None => None
       case Some(p) => Some(Parsed(AtTimeZone(left, p.tree), p.rest)))
    case TAtLocal => Some(Parsed(AtLocal(left), ts[1..]))
    case _ => None
  }

  /** An operator token begins a binary operation, or in an a_expr a comparison with ANY or ALL. */
  function ShiftOperator(context: Context, left: Expr, opName: OpRef, prec: int, ts: seq<Token>): (r: Option<Parsed<Expr>>)
    requires ts != []
    ensures r.Some? ==> |r.value.rest| < |ts|
    decreases |ts|, 0
  {
    if context.AExpr? && |ts| > 1 && ts[1].TQuantifier? then ShiftQuantified(left, opName, ts[1..])
    else
      match Parse(context, prec, ts[1..])
      case None => None
      case Some(p) => Some(Parsed(Binary(opName, left, p.tree), p.rest))
  }

  function LikeOper(caseless: bool, negated: bool): Oper {
    if caseless then (if negated then NotIMatch else IMatch) else (if negated then NotMatch else Match)
  }

  /** A pattern with an ESCAPE clause is a function call in the tree. */
  function LikeEscape(pattern: Expr, escape: Expr): Expr {
    Call("pg_catalog.like_escape", [pattern, escape])
  }

  /** "ANY ((SELECT ...))" is ANY (SELECT ...): extra parentheses around a SELECT mean nothing. */
  function MakeQuantified(opName: OpRef, quantifier: Quantifier, left: Expr, right: Expr): Expr {
    if right.ScalarSub? then QuantifiedSub(opName, quantifier, left, right.select) else Quantified(opName, quantifier, left, right)
  }

  function MakeInSub(negated: bool, left: Expr, select: string): Expr {
    if negated then Not(InSub(left, select)) else InSub(left, select)
  }

  /** "IN ((SELECT ...))" likewise. */
  function MakeIn(negated: bool, left: Expr, items: seq<Expr>): Expr {
    if |items| == 1 && items[0].ScalarSub? then MakeInSub(negated, left, items[0].select) else InList(negated, left, items)
  }

  /** ANY or ALL and what it ranges over, a subquery or an array in parentheses. */
  function ShiftQuantified(left: Expr, opName: OpRef, ts: seq<Token>): (r: Option<Parsed<Expr>>)
    requires ts != [] && ts[0].TQuantifier?
    ensures r.Some? ==> |r.value.rest| < |ts|
    decreases |ts|, 4
  {
    if !StartsWith(ts[1..], LParen) then None
    else if |ts| > 3 && ts[2].TSelect? then
      if ts[3] == RParen then Some(Parsed(QuantifiedSub(opName, ts[0].quantifier, left, ts[2].select), ts[4..])) else None
    else
      match Parse(AExpr, BOTTOM, ts[2..])
      case None => None
      case Some(p) =>
        if !StartsWith(p.rest, RParen) then None
        else Some(Parsed(MakeQuantified(opName, ts[0].quantifier, left, p.tree), p.rest[1..]))
  }

  /** What follows IN: a subquery or a non-empty list.  NOT IN (SELECT ...) is a negated IN. */
  function ShiftIn(negated: bool, left: Expr, ts: seq<Token>): (r: Option<Parsed<Expr>>)
    ensures r.Some? ==> |r.value.rest| < |ts|
    decreases |ts|, 4
  {
    if |ts| > 2 && ts[0] == LParen && ts[1].TSelect? then
      if ts[2] == RParen then
        Some(Parsed(MakeInSub(negated, left, ts[1].select), ts[3..]))
      else None
    else
      match ParseArgs(ts)
      case None => None
      case Some(p) => if p.tree == [] then None else Some(Parsed(MakeIn(negated, left, p.tree), p.rest))
  }

  /** What follows BETWEEN: a b_expr, AND, and an a_expr. */
  function ShiftBetween(kind: BetweenKind, left: Expr, ts: seq<Token>): (r: Option<Parsed<Expr>>)
    ensures r.Some? ==> |r.value.rest| < |ts|
    decreases |ts|, 4
  {
    match Parse(BExpr, BOTTOM, ts)
    case None => None
    case Some(low) =>
      if !StartsWith(low.rest, TConnective(AND)) then None else
      match Parse(AExpr, BETWEEN_PREC, low.rest[1..])
      case None => None
      case Some(high) => Some(Parsed(BetweenTest(kind, left, low.tree, high.tree), high.rest))
  }

  /** A whole text as one a_expr. */
  function ParseText(ts: seq<Token>): Option<Expr> {
    match Parse(AExpr, BOTTOM, ts)
    case None => None
    case Some(p) => if p.rest == [] then Some(p.tree) else None
  }
}
