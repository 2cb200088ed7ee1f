/** Deciding on parentheses and printing expressions. */
module ExprPrinter {
  import opened ExprSyntax

  function GetOperatorPrecedence(opName: OpRef): int {
    match opName
    case Qualified(_, _) => OP_PREC
    case Plain(op) => OperPrecedence(op)
  }

  /** Precedence of the operator token in "x op ANY (...)"; the match operators print as LIKE. */
  function GetSubqueryOperatorPrecedence(opName: OpRef): int {
    match opName
    case Plain(Match) | Plain(NotMatch) | Plain(IMatch) | Plain(NotIMatch) => BETWEEN_PREC
    case _ => GetOperatorPrecedence(opName)
  }

  function Min(a: int, b: int): int {
    if a < b then a else b
  }

  function GetExprPrecedence(e: Expr): int {
    match e
    case Binary(opName, _, _) => GetOperatorPrecedence(opName)
    case Prefix(opName, _) => if GetOperatorPrecedence(opName) == ADD_PREC then UMINUS_PREC else OP_PREC
    case Quantified(opName, _, _, _) => Min(GetSubqueryOperatorPrecedence(opName), OP_PREC)
    case QuantifiedSub(opName, _, _, _) => Min(GetSubqueryOperatorPrecedence(opName), OP_PREC)
    case InList(_, _, _) => BETWEEN_PREC
    case InSub(_, _) => BETWEEN_PREC
    case Like(_, _, _, _) => BETWEEN_PREC
    case Similar(_, _, _) => BETWEEN_PREC
    case SimilarEscape(_, _, _, _) => BETWEEN_PREC
    case BetweenTest(_, _, _, _) => BETWEEN_PREC
    case Distinct(_, _, _) => IS_PREC
    case IsTest(_, _) => IS_PREC
    case IsDocument(_) => IS_PREC
    case Bool(c, _) => ConnectivePrecedence(c)
    case Not(_) => NOT_PREC
    case Collate(_, _) => COLLATE_PREC
    case AtTimeZone(_, _) => AT_PREC
    case AtLocal(_) => AT_PREC
    case _ => ATOM_PREC
  }

  predicate IsSubqueryComparisonForm(e: Expr) {
    e.Quantified? || e.QuantifiedSub? || e.InList? || e.InSub?
  }

  predicate NeedsParensForPrecedence(e: Expr, parent: int, side: Side) {
    var prec := GetExprPrecedence(e);
    if side.LeftOperand? && IsSubqueryComparisonForm(e) && prec == parent then
      false
    else if prec != parent then
      prec < parent
    else if NonAssociative(parent) then
      true
    else if parent == NOT_PREC || parent == UMINUS_PREC then
      false
    else
      side.RightOperand?
  }

  predicate NeedsParensAsBExpr(e: Expr) {
    match e
    case Binary(_, _, _) => false
    case Prefix(_, _) => false
    case Distinct(_, _, _) => false
    case NullIf(_, _) => false
    case IsDocument(_) => false
    case Overlaps(_, _, _, _) => true
    case _ => GetExprPrecedence(e) != ATOM_PREC
  }

  predicate NeedsParensAsCExpr(e: Expr) {
    GetExprPrecedence(e) != ATOM_PREC || NeedsParensAsBExpr(e)
  }

  predicate IsNegative(n: Number) {
    match n
    case IntNum(v) => v < 0
    case FloatNum(negative, _) => negative
  }

  predicate OperandNeedsParens(e: Expr, parent: int, side: Side, context: Context) {
    NeedsParensForPrecedence(e, parent, side) || (context.BExpr? && NeedsParensAsBExpr(e))
  }

  /** A cast is never an operand that can be split, so its argument is a c_expr or in parentheses.
      Constants that could carry a sign get parentheses too. */
  predicate CastNeedsParens(arg: Expr) {
    NeedsParensAsCExpr(arg) || (arg.Num? && (arg.number.FloatNum? || arg.number.value < 0))
  }

  /** AND and OR decide on the kind of their argument alone, not on precedence. */
  predicate BoolArgNeedsParens(arg: Expr) {
    arg.Bool?
  }

  /** The operator of "x op ANY (...)". */
  function SubqueryOpToken(opName: OpRef): Token {
    match opName
    case Plain(Match) => TLike(false, false)
    case Plain(NotMatch) => TLike(false, true)
    case Plain(IMatch) => TLike(true, false)
    case Plain(NotIMatch) => TLike(true, true)
    case _ => QualOpToken(opName)
  }

  function QualOpToken(opName: OpRef): Token {
    match opName
    case Plain(op) => TOp(op)
    case Qualified(_, _) => TOperator(opName)
  }

  /** The tokens of e in the given context, followed by k. */
  function PrintOn(e: Expr, context: Context, k: seq<Token>): seq<Token>
    decreases e, 0
  {
    match e
    case Atom(name) => [TAtom(name)] + k
    case ScalarSub(select) => [TScalarSub(select)] + k
    case Num(n) => if IsNegative(n) then [TOp(Minus)] + ([TNum(Negate(n))] + k) else [TNum(n)] + k
    case Call(fn, args) => [TCall(fn)] + ([LParen] + PrintListOn(args, [RParen] + k))
    case Row(items) => [LParen] + PrintListOn(items, [RParen] + k)
    case NullIf(l, r) =>
      [TNullIf] + ([LParen] + PrintOn(l, context, [Comma] + PrintOn(r, context, [RParen] + k)))
    case Position(needle, haystack) =>
      [TPosition] + ([LParen] + BExprOn(needle, [TIn(false)] + BExprOn(haystack, [RParen] + k)))
    case Cast(arg, ty) =>
      if CastNeedsParens(arg)
      then [LParen] + PrintOn(arg, AExpr, [RParen] + ([TTypecast(ty)] + k))
      else PrintOn(arg, AExpr, [TTypecast(ty)] + k)
    case Binary(opName, l, r) =>
      var prec := GetOperatorPrecedence(opName);
      OperandOn(l, prec, LeftOperand, context,
                [QualOpToken(opName)] + OperandOn(r, prec, RightOperand, context, k))
    case Prefix(opName, r) =>
      [QualOpToken(opName)] + OperandOn(r, GetExprPrecedence(e), RightOperand, context, k)
    case Quantified(opName, q, l, r) =>
      OperandOn(l, GetSubqueryOperatorPrecedence(opName), LeftOperand, context,
                [SubqueryOpToken(opName)] + ([TQuantifier(q)] + ([LParen] + PrintOn(r, AExpr, [RParen] + k))))
    case QuantifiedSub(opName, q, l, select) =>
      OperandOn(l, GetSubqueryOperatorPrecedence(opName), LeftOperand, AExpr,
                [SubqueryOpToken(opName)] + ([TQuantifier(q)] + ([LParen] + ([TSelect(select)] + ([RParen] + k)))))
    case InList(negated, l, items) =>
      OperandOn(l, BETWEEN_PREC, LeftOperand, context,
                [TIn(negated)] + ([LParen] + PrintListOn(items, [RParen] + k)))
    case InSub(l, select) =>
      OperandOn(l, BETWEEN_PREC, LeftOperand, AExpr,
                [TIn(false)] + ([LParen] + ([TSelect(select)] + ([RParen] + k))))
    case Like(caseless, negated, l, r) =>
      OperandOn(l, BETWEEN_PREC, LeftOperand, context,
                [TLike(caseless, negated)] + OperandOn(r, BETWEEN_PREC, RightOperand, context, k))
    case Similar(negated, l, pattern) =>
      OperandOn(l, BETWEEN_PREC, LeftOperand, context,
                [TSimilar(negated)] + OperandOn(pattern, BETWEEN_PREC, RightOperand, context, k))
    case SimilarEscape(negated, l, pattern, escape) =>
      OperandOn(l, BETWEEN_PREC, LeftOperand, context,
                [TSimilar(negated)] +
                OperandOn(pattern, BETWEEN_PREC, RightOperand, context,
                          [TEscape] + OperandOn(escape, BETWEEN_PREC, RightOperand, context, k)))
    case BetweenTest(kind, l, low, high) =>
      OperandOn(l, BETWEEN_PREC, LeftOperand, context,
                [TBetween(kind)] +
                OperandOn(low, BETWEEN_PREC, RightOperand, BExpr,
                          [TConnective(AND)] + OperandOn(high, BETWEEN_PREC, RightOperand, context, k)))
    case Distinct(negated, l, r) =>
      OperandOn(l, IS_PREC, LeftOperand, context,
                [TIsDistinct(negated)] + OperandOn(r, IS_PREC, RightOperand, context, k))
    case IsTest(test, arg) => OperandOn(arg, IS_PREC, LeftOperand, AExpr, [TIsTest(test)] + k)
    case IsDocument(arg) => OperandOn(arg, IS_PREC, LeftOperand, context, [TIsDocument(false)] + k)
    case Bool(c, args) => BoolArgsOn(c, args, k)
    case Not(arg) => [TNot] + BoolArgOn(arg, k)
    case Collate(arg, collation) => OperandOn(arg, COLLATE_PREC, LeftOperand, AExpr, [TCollate(collation)] + k)
    case AtTimeZone(arg, zone) =>
      OperandOn(arg, AT_PREC, LeftOperand, AExpr,
                [TAtTimeZone] + OperandOn(zone, AT_PREC, RightOperand, AExpr, k))
    case AtLocal(arg) => OperandOn(arg, AT_PREC, LeftOperand, AExpr, [TAtLocal] + k)
    case Overlaps(s1, e1, s2, e2) =>
      [LParen] + PrintOn(s1, AExpr, [Comma] + PrintOn(e1, AExpr,
      [RParen] + ([TOverlaps] + ([LParen] + PrintOn(s2, AExpr, [Comma] + PrintOn(e2, AExpr, [RParen] + k))))))
  }

  /** An operand of a rule with precedence parent. */
  function OperandOn(e: Expr, parent: int, side: Side, context: Context, k: seq<Token>): seq<Token>
    decreases e, 1
  {
    if OperandNeedsParens(e, parent, side, context)
    then [LParen] + PrintOn(e, AExpr, [RParen] + k)
    else PrintOn(e, context, k)
  }

  /** An expression where gram.y asks for a "b_expr". */
  function BExprOn(e: Expr, k: seq<Token>): seq<Token>
    decreases e, 1
  {
    if NeedsParensAsBExpr(e)
    then [LParen] + PrintOn(e, AExpr, [RParen] + k)
    else PrintOn(e, BExpr, k)
  }

  function BoolArgOn(arg: Expr, k: seq<Token>): seq<Token>
    decreases arg, 1
  {
    if BoolArgNeedsParens(arg)
    then [LParen] + PrintOn(arg, AExpr, [RParen] + k)
    else PrintOn(arg, AExpr, k)
  }

  function BoolArgsOn(c: Connective, args: seq<Expr>, k: seq<Token>): seq<Token>
    decreases args, 0
  {
    if args == [] then k
    else if |args| == 1 then BoolArgOn(args[0], k)
    else BoolArgOn(args[0], [TConnective(c)] + BoolArgsOn(c, args[1..], k))
  }

  /** A comma-separated list of "a_expr"s. */
  function PrintListOn(es: seq<Expr>, k: seq<Token>): seq<Token>
    decreases es, 0
  {
    if es == [] then k
    else if |es| == 1 then PrintOn(es[0], AExpr, k)
    else PrintOn(es[0], AExpr, [Comma] + PrintListOn(es[1..], k))
  }

  /** The text of an expression. */
  function Print(e: Expr): seq<Token> {
    PrintOn(e, AExpr, [])
  }
}
