/** SELECT statements and the tables they read from: trees, and the tokens they are written in.

    Expressions, lists of expressions and names without structure of their own are single tokens. */
module QuerySyntax {

  datatype Option<+T> = None | Some(value: T)

  datatype SetOperator = Union | Intersect | Except

  datatype JoinKind = Inner | Left | Full | Right

  datatype Materialized = Default | Always | Never

  /** The row count of a LIMIT or FETCH FIRST clause; AllRows is a NULL constant. */
  datatype Count = AllRows | Rows(expr: nat)

  datatype Limit = Limit(count: Count, withTies: bool)

  datatype Cte = Cte(name: nat, materialized: Materialized, query: Select)

  datatype With = With(recursive: bool, ctes: seq<Cte>)

  datatype Select = Select(with: Option<With>, body: Body, sort: Option<nat>, limit: Option<Limit>, offset: Option<nat>, locking: seq<nat>)

  /** tail: WHERE, GROUP BY, HAVING and WINDOW. */
  datatype Body =
    | Core(targets: Option<nat>, from: seq<Table>, tail: Option<nat>)
    | Values(rows: nat)
    | SetOp(op: SetOperator, all: bool, larg: Select, rarg: Select)

  datatype Using = Using(names: nat, alias: Option<string>)

  datatype Table =
    | Relation(name: nat, alias: Option<nat>)
    | Subselect(lateral: bool, query: Select, alias: Option<nat>)
    | Join(kind: JoinKind, natural: bool, larg: Table, rarg: Table, quals: Option<nat>, using: Option<Using>, alias: Option<nat>)

  datatype Token =
    | TWith | TRecursive | TCte(name: nat) | TAs | TMaterialized(m: Materialized)
    | TLParen | TRParen | TComma
    | TSelect | TTargets(targets: nat) | TFrom | TTail(tail: nat) | TValues(rows: nat)
    | TSetOp(op: SetOperator) | TAll
    | TSort(sort: nat) | TLimit | TOffset | TFetchFirst | TRowsWithTies | TExpr(expr: nat) | TNull | TLocking(locking: nat)
    | TLateral | TRelation(relation: nat) | TAlias(alias: nat)
    | TNatural | TCross | TJoinKind(kind: JoinKind) | TJoin | TOn | TUsing(names: nat) | TName(quoted: string) | TRawName(raw: string)   // in quotes, and without

  // ---------- Names without quotes ----------

  /** The keywords that are no ColId: reserved ones, and names of types and functions. */
  const NOT_COLUMN_IDS: set<string> := {
    "all", "analyse", "analyze", "and", "any", "array", "as", "asc", "asymmetric", "authorization", "binary", "both",
    "case", "cast", "check", "collate", "collation", "column", "concurrently", "constraint", "create", "cross",
    "current_catalog", "current_date", "current_role", "current_schema", "current_time", "current_timestamp",
    "current_user", "default", "deferrable", "desc", "distinct", "do", "else", "end", "except", "false", "fetch",
    "for", "foreign", "freeze", "from", "full", "grant", "group", "having", "ilike", "in", "initially", "inner",
    "intersect", "into", "is", "isnull", "join", "lateral", "leading", "left", "like", "limit", "localtime",
    "localtimestamp", "natural", "not", "notnull", "null", "offset", "on", "only", "or", "order", "outer", "overlaps",
    "placing", "primary", "references", "returning", "right", "select", "session_user", "similar", "some",
    "symmetric", "system_user", "table", "tablesample", "then", "to", "trailing", "true", "union", "unique", "user",
    "using", "variadic", "verbose", "when", "where", "window", "with"
  }

  predicate IdentStart(c: char) {
    'a' <= c <= 'z' || 'A' <= c <= 'Z' || c == '_' || c >= '\U{80}'
  }

  predicate IdentCont(c: char) {
    IdentStart(c) || '0' <= c <= '9' || c == '$'
  }

  predicate IsIdentifier(s: string) {
    s != "" && IdentStart(s[0]) && forall i | 0 <= i < |s| :: IdentCont(s[i])
  }

  function Fold(s: string): (r: string)
    ensures |r| == |s|
  {
    seq(|s|, i requires 0 <= i < |s| => if 'A' <= s[i] <= 'Z' then s[i] + ' ' else s[i])
  }

  /** The name that the grammar reads in a text without quotes.  A text that is no identifier is more than
      one token, or none, or a name in quotes of its own: never that name. */
  function ReadName(text: string): Option<string> {
    if IsIdentifier(text) && Fold(text) !in NOT_COLUMN_IDS then Some(Fold(text)) else None
  }

  /** Names that can go without quotes: identifiers in lower case that are no keywords of that kind. */
  predicate Unquoted(name: string) {
    IsIdentifier(name) && (forall i | 0 <= i < |name| :: !('A' <= name[i] <= 'Z')) && name !in NOT_COLUMN_IDS
  }

  lemma FoldTwice(s: string)
    ensures forall i | 0 <= i < |s| :: !('A' <= Fold(s)[i] <= 'Z')
    ensures (forall i | 0 <= i < |s| :: !('A' <= s[i] <= 'Z')) <==> Fold(s) == s
    ensures IsIdentifier(s) ==> IsIdentifier(Fold(s))
  {
    if IsIdentifier(s) {
      forall i | 0 <= i < |s| ensures IdentCont(Fold(s)[i]) {
        assert IdentCont(s[i]);
      }
    }
    if Fold(s) == s {
      forall i | 0 <= i < |s| ensures !('A' <= s[i] <= 'Z') {
        assert Fold(s)[i] == s[i];
      }
    }
  }

  /** A name is read back without quotes if and only if it is one of those, and all names that are read
      without quotes are. */
  lemma ReadsItself(s: string)
    ensures ReadName(s) == Some(s) <==> Unquoted(s)
    ensures ReadName(s).Some? ==> Unquoted(ReadName(s).value)
  {
    FoldTwice(s);
    hide Fold, IsIdentifier;
  }

  // ---------- Trees that gram.y builds ----------

  predicate GrammaticalSelect(s: Select)
    decreases s, 1
  {
    (s.with.Some? ==> s.with.value.ctes != [] && GrammaticalCtes(s.with.value.ctes)) && GrammaticalBody(s.body)
  }

  predicate GrammaticalCtes(ctes: seq<Cte>)
    decreases ctes, 0
  {
    ctes == [] || (GrammaticalCte(ctes[0]) && GrammaticalCtes(ctes[1..]))
  }

  predicate GrammaticalCte(c: Cte)
    decreases c, 1
  {
    GrammaticalSelect(c.query)
  }

  predicate GrammaticalBody(b: Body)
    decreases b, 1
  {
    match b
    case Core(_, from, _) => GrammaticalTables(from)
    case Values(_) => true
    case SetOp(_, _, larg, rarg) => GrammaticalSelect(larg) && GrammaticalSelect(rarg)
  }

  predicate GrammaticalTables(ts: seq<Table>)
    decreases ts, 0
  {
    ts == [] || (GrammaticalTable(ts[0]) && GrammaticalTables(ts[1..]))
  }

  /** NATURAL goes without a condition, ON and USING exclude each other, only an inner join that is not
      NATURAL can do without both, and no name is empty. */
  predicate GrammaticalTable(t: Table)
    decreases t, 1
  {
    match t
    case Relation(_, _) => true
    case Subselect(_, query, _) => GrammaticalSelect(query)
    case Join(kind, natural, larg, rarg, quals, using, _) =>
      && GrammaticalTable(larg) && GrammaticalTable(rarg)
      && (natural ==> quals.None? && using.None?)
      && !(quals.Some? && using.Some?)
      && (using.Some? && using.value.alias.Some? ==> using.value.alias.value != "")
      && (!natural && kind != Inner ==> quals.Some? || using.Some?)
  }

  // ---------- Trees that read back ----------

  /** The alias of a USING clause is written without quotes, and a FETCH FIRST clause with a NULL
      count is written as FETCH FIRST ALL: everything else reads back. */
  predicate PrintableSelect(s: Select)
    decreases s, 1
  {
    && (s.with.Some? ==> PrintableCtes(s.with.value.ctes))
    && PrintableBody(s.body)
    && (s.limit.Some? ==> !(s.limit.value.withTies && s.limit.value.count.AllRows?))
  }

  predicate PrintableCtes(ctes: seq<Cte>)
    decreases ctes, 0
  {
    ctes == [] || (PrintableCte(ctes[0]) && PrintableCtes(ctes[1..]))
  }

  predicate PrintableCte(c: Cte)
    decreases c, 1
  {
    PrintableSelect(c.query)
  }

  predicate PrintableBody(b: Body)
    decreases b, 1
  {
    match b
    case Core(_, from, _) => PrintableTables(from)
    case Values(_) => true
    case SetOp(_, _, larg, rarg) => PrintableSelect(larg) && PrintableSelect(rarg)
  }

  predicate PrintableTables(ts: seq<Table>)
    decreases ts, 0
  {
    ts == [] || (PrintableTable(ts[0]) && PrintableTables(ts[1..]))
  }

  predicate PrintableTable(t: Table)
    decreases t, 1
  {
    match t
    case Relation(_, _) => true
    case Subselect(_, query, _) => PrintableSelect(query)
    case Join(_, _, larg, rarg, _, using, _) =>
      && PrintableTable(larg) && PrintableTable(rarg)
      && (using.Some? && using.value.alias.Some? ==> Unquoted(using.value.alias.value))
  }
}
