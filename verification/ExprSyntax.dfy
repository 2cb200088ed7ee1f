/** The trees and tokens of SQL expressions, as far as operator precedence matters.

    A multi-word operator that gram.y decides on by its first token (IS NOT NULL, NOT LIKE,
    AT TIME ZONE, NOT BETWEEN SYMMETRIC, ...) is one token here.  The words that separate the
    operands of another construct keep their own token: the AND of BETWEEN is the AND of a
    conjunction, and the IN of POSITION is the IN of a list test. */
module ExprSyntax {

  /** An operator name.  The names that gram.y or the printer singles out are constructors;
      OtherOp is any other name made of operator characters.  "!=" is absent: the lexer turns it
      into "<>" before a tree is built. */
  datatype Oper =
    | Plus | Minus | Star | Slash | Percent | Caret
    | Less | Greater | Equal | LessEq | GreaterEq | NotEq
    | Match | NotMatch | IMatch | NotIMatch // "~~", "!~~", "~~*", "!~~*"
    | OtherOp(name: string)

  /** The operator list of a node: one name, or a schema and a name. */
  datatype OpRef = Plain(op: Oper) | Qualified(schema: string, op: Oper)

  /** A numeric constant.  A float keeps its digits, and its sign apart. */
  datatype Number = IntNum(value: int) | FloatNum(negative: bool, digits: string)

  datatype Quantifier = ANY | ALL

  datatype BetweenKind = Between | NotBetween | BetweenSymmetric | NotBetweenSymmetric

  datatype Connective = AND | OR

  datatype Expr =
    | Atom(name: string)                                   // column, parameter, string, ...
    | ScalarSub(select: string)                            // (SELECT ...)
    | Num(number: Number)
    | Call(fn: string, args: seq<Expr>)                    // any c_expr that brackets a list of a_exprs
    | Row(items: seq<Expr>)                                // (a, b, ...)
    | NullIf(left: Expr, right: Expr)
    | Position(needle: Expr, haystack: Expr)               // POSITION(b_expr IN b_expr)
    | Cast(arg: Expr, typeName: string)
    | Binary(opName: OpRef, left: Expr, right: Expr)
    | Prefix(opName: OpRef, right: Expr)
    | Quantified(opName: OpRef, quantifier: Quantifier, left: Expr, right: Expr)       // x op ANY (array)
    | QuantifiedSub(opName: OpRef, quantifier: Quantifier, left: Expr, select: string) // x op ANY (SELECT ...)
    | InList(negated: bool, left: Expr, items: seq<Expr>)
    | InSub(left: Expr, select: string)
    | Like(caseless: bool, negated: bool, left: Expr, right: Expr)
    | Similar(negated: bool, left: Expr, pattern: Expr)
    | SimilarEscape(negated: bool, left: Expr, pattern: Expr, escape: Expr)
    | BetweenTest(kind: BetweenKind, left: Expr, low: Expr, high: Expr)
    | Distinct(negated: bool, left: Expr, right: Expr)
    | IsTest(test: string, arg: Expr)                      // IS NULL, IS TRUE, IS JSON, IS NORMALIZED, ...
    | IsDocument(arg: Expr)
    | Bool(connective: Connective, args: seq<Expr>)
    | Not(arg: Expr)
    | Collate(arg: Expr, collation: string)
    | AtTimeZone(arg: Expr, zone: Expr)
    | AtLocal(arg: Expr)
    | Overlaps(start1: Expr, end1: Expr, start2: Expr, end2: Expr)

  datatype Token =
    | TAtom(name: string)
    | TScalarSub(select: string)       // a SELECT with its parentheses
    | TNum(number: Number)
    | LParen | RParen | Comma
    | TOp(op: Oper)                    // a bare operator
    | TOperator(opName: OpRef)         // OPERATOR(op) or OPERATOR(schema.op)
    | TTypecast(typeName: string)      // ::type
    | TConnective(connective: Connective)
    | TNot
    | TIn(negated: bool)
    | TLike(caseless: bool, negated: bool)
    | TSimilar(negated: bool)
    | TEscape
    | TBetween(kind: BetweenKind)
    | TIsTest(test: string)
    | TIsDistinct(negated: bool)
    | TIsDocument(negated: bool)
    | TCollate(collation: string)
    | TAtTimeZone
    | TAtLocal
    | TOverlaps
    | TQuantifier(quantifier: Quantifier)
    | TSelect(select: string)          // a whole SELECT, without its parentheses
    | TCall(fn: string)
    | TNullIf
    | TPosition

  /** Which rule of gram.y an expression has to be: "a_expr" (unrestricted) or "b_expr". */
  datatype Context = AExpr | BExpr

  datatype Side = LeftOperand | RightOperand

  // Precedence of the "a_expr" rules, lowest to highest.
  const OR_PREC := 0
  const AND_PREC := 1
  const NOT_PREC := 2
  const IS_PREC := 3
  const COMPARISON_PREC := 4
  const BETWEEN_PREC := 5
  const OP_PREC := 6
  const ADD_PREC := 7
  const MUL_PREC := 8
  const EXP_PREC := 9
  const AT_PREC := 10
  const COLLATE_PREC := 11
  const UMINUS_PREC := 12
  const ATOM_PREC := 13

  predicate NonAssociative(prec: int) {
    prec == IS_PREC || prec == COMPARISON_PREC || prec == BETWEEN_PREC
  }

  /** Precedence of an operator token, as the grammar declares it. */
  function OperPrecedence(op: Oper): int {
    match op
    case Plus | Minus => ADD_PREC
    case Star | Slash | Percent => MUL_PREC
    case Caret => EXP_PREC
    case Less | Greater | Equal | LessEq | GreaterEq | NotEq => COMPARISON_PREC
    case _ => OP_PREC
  }

  function ConnectivePrecedence(c: Connective): int {
    match c
    case AND => AND_PREC
    case OR => OR_PREC
  }

  function Negate(n: Number): Number {
    match n
    case IntNum(v) => IntNum(-v)
    case FloatNum(neg, digits) => FloatNum(!neg, digits)
  }
}
