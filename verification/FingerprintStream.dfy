/** Parse trees as the fingerprinter sees them, and what a tree contributes to the hashed stream.

    Every node type that parsenodes.h and primnodes.h declare is one schema: a tag and its fields in
    name order, each with one of the templates of the code generator. */
module FingerprintStream {
  import opened Decimals

  datatype Option<+T> = None | Some(value: T)

  /** Tags and field names are never empty. */
  type Name = s: string | s != "" witness "x"

  datatype Value =
    | Integer(ival: int)
    | Float(fval: Option<string>)
    | Boolean(boolval: bool)
    | Str(sval: string)
    | BitString(bsval: Option<string>)

  datatype Node =
    | Null
    | Val(value: Value)
    | Ignored(tag: Name)                                    // A_Const, ParamRef, SetToDefault, ...
    | List(id: nat, items: seq<Node>)                       // id: the identity of the list
    | Struct(tag: Name, fields: seq<Field>)
    | RangeVar(alias: Option<Option<string>>, catalogname: Option<string>, inh: bool,
               relname: Option<string>, relpersistence: string, schemaname: Option<string>)

  datatype Field =
    | TextField(name: Name, text: Option<string>)         // numbers, strings, booleans, enums; None if left out
    | TargetName(text: Option<string>)                      // ResTarget.name
    | BitmapField(name: Name, members: seq<string>)
    | NodeField(name: Name, node: Node)                   // Node*, Expr*
    | ListField(name: Name, node: Node)                   // List*
    | SpecificField(name: Name, node: Node)               // pointer to one node type
    | EmbeddedField(name: Name, node: Node)               // CreateStmt inside CreateForeignTableStmt

  /** The options, and the digest of a hash state.  A state is the string of all bytes fed to it. */
  datatype Env = Env(digest: string -> nat, fullRelname: bool, ignoreAliases: bool, includeSchema: bool)

  const MAX_DEPTH := 100

  predicate OrderInsensitive(field: string) {
    field in {"fromClause", "targetList", "cols", "rexpr", "valuesLists", "args"}
  }

  function ValueStrings(v: Value): seq<string> {
    match v
    case Integer(ival) => if ival == 0 then [] else ["Integer", "ival", SignedDecimal(ival)]
    case Float(None) => []
    case Float(Some(s)) => ["Float", "str", s]
    case Boolean(b) => ["Boolean", "boolval", if b then "true" else "false"]
    case Str(s) => ["String", "str", s]
    case BitString(None) => []
    case BitString(Some(s)) => ["BitString", "str", s]
  }

  /** Is position i part of a run of two or more digits? */
  predicate InDigitRun(s: string, i: nat)
    requires i < |s|
  {
    IsDigit(s[i]) && ((i + 1 < |s| && IsDigit(s[i+1])) || (i > 0 && IsDigit(s[i-1])))
  }

  /** s[..n] without the characters that belong to a run of two or more digits of s. */
  function WithoutDigitRuns(s: string, n: nat): string
    requires n <= |s|
  {
    if n == 0 then "" else
    WithoutDigitRuns(s, n - 1) + (if InDigitRun(s, n - 1) then "" else [s[n-1]])
  }

  function RelnameStrings(env: Env, relname: string): seq<string> {
    ["relname", if env.fullRelname then relname else WithoutDigitRuns(relname, |relname|)]
  }

  predicate IsDmlContext(parent: string, field: string) {
    match parent
    case "SelectStmt" => field == "fromClause"
    case "InsertStmt" => field == "relation"
    case "UpdateStmt" => field == "relation" || field == "fromClause"
    case "DeleteStmt" => field == "relation" || field == "usingClause"
    case "MergeStmt" => field == "relation" || field == "sourceRelation"
    case _ => parent == "JoinExpr" || parent == "RangeTableSample" || parent == "LockingClause"
  }

  function Labelled(name: string, text: Option<string>): seq<string> {
    if text.Some? then [name, text.value] else []
  }

  function RangeVarStrings(env: Env, n: Node, parent: string, field: string): seq<string>
    requires n.RangeVar?
  {
    var dml := IsDmlContext(parent, field);
    (if !env.ignoreAliases && n.alias.Some? then Labelled("aliasname", n.alias.value) else []) +
    Labelled("catalogname", n.catalogname) +
    (if n.inh then ["inh", "true"] else []) +
    (if n.relname.Some? && n.relpersistence != "t" && !(dml && !env.ignoreAliases && n.alias.Some?)
     then RelnameStrings(env, n.relname.value) else []) +
    (if n.relpersistence != "" then ["relpersistence", n.relpersistence] else []) +
    (if !dml || env.includeSchema then Labelled("schemaname", n.schemaname) else [])
  }

  function Flat(ss: seq<string>): string {
    if ss == [] then "" else ss[0] + Flat(ss[1..])
  }

  lemma {:induction false} FlatAppend(a: seq<string>, b: seq<string>)
    ensures Flat(a + b) == Flat(a) + Flat(b)
  {
    if a == [] {
      assert a + b == b;
    } else {
      FlatAppend(a[1..], b);
      assert (a + b)[1..] == a[1..] + b;
    }
  }

  // ---------- Items of an order-insensitive list: sorted by digest, duplicates dropped ----------

  predicate StrictlySorted(env: Env, ss: seq<string>) {
    forall i, j | 0 <= i < j < |ss| :: env.digest(ss[i]) < env.digest(ss[j])
  }

  predicate InjectiveOn(env: Env, ss: seq<string>) {
    forall i, j | 0 <= i < |ss| && 0 <= j < |ss| && env.digest(ss[i]) == env.digest(ss[j]) :: ss[i] == ss[j]
  }

  function Insert(env: Env, s: string, sorted: seq<string>): seq<string> {
    if sorted == [] then [s]
    else if env.digest(s) < env.digest(sorted[0]) then [s] + sorted
    else if env.digest(s) == env.digest(sorted[0]) then sorted
    else [sorted[0]] + Insert(env, s, sorted[1..])
  }

  function SortDistinct(env: Env, ss: seq<string>): seq<string> {
    if ss == [] then [] else Insert(env, ss[0], SortDistinct(env, ss[1..]))
  }

  // ---------- The stream of a tree, without any cache ----------

  /** A cast of a constant or parameter is left out like the constant itself. */
  predicate IsConstant(n: Node) {
    n.Ignored? && (n.tag == "A_Const" || n.tag == "ParamRef")
  }

  predicate CastOfConstant(tag: string, fields: seq<Field>) {
    tag == "TypeCast" && exists f | f in fields :: f.NodeField? && f.name == "arg" && IsConstant(f.node)
  }

  function NodeStream(env: Env, n: Node, parent: string, field: string, depth: nat): string
    decreases n, 1
  {
    if depth >= MAX_DEPTH then "" else
    match n
    case Null => ""
    case Ignored(_) => ""
    case Val(v) => Flat(ValueStrings(v))
    case List(_, items) =>
      var ss := ItemStreams(env, items, parent, field, depth + 1);
      Flat(if OrderInsensitive(field) then SortDistinct(env, ss) else ss)
    case RangeVar(_, _, _, _, _, _) => "RangeVar" + Flat(RangeVarStrings(env, n, parent, field))
    case Struct(tag, fields) =>
      if CastOfConstant(tag, fields) then "" else tag + FieldsStream(env, fields, tag, parent, field, depth)
  }

  function ItemStreams(env: Env, items: seq<Node>, parent: string, field: string, depth: nat): (ss: seq<string>)
    ensures |ss| == |items|
    ensures forall i | 0 <= i < |items| :: ss[i] == NodeStream(env, items[i], parent, field, depth)
    decreases items, 0
  {
    if items == [] then [] else
    [NodeStream(env, items[0], parent, field, depth)] + ItemStreams(env, items[1..], parent, field, depth)
  }

  /** The fields of a node with tag `self` that sits in `field` of a node with tag `parent`. */
  function FieldsStream(env: Env, fields: seq<Field>, self: string, parent: string, field: string, depth: nat): string
    decreases fields, 2
  {
    if fields == [] then "" else
    FieldStream(env, fields[0], self, parent, field, depth) + FieldsStream(env, fields[1..], self, parent, field, depth)
  }

  /** The fields of a node, without the tag: what the function of one node type contributes. */
  function BodyStream(env: Env, n: Node, parent: string, field: string, depth: nat): string
    decreases n, 0
  {
    match n
    case Struct(tag, fields) => FieldsStream(env, fields, tag, parent, field, depth)
    case RangeVar(_, _, _, _, _, _) => Flat(RangeVarStrings(env, n, parent, field))
    case _ => ""
  }

  /** A list with a NULL item alone (a plain DISTINCT) counts even though it contributes nothing. */
  predicate KeepsName(list: Node) {
    list.List? && |list.items| == 1 && list.items[0].Null?
  }

  /** A name goes in front of what a field contributes, and is taken back if that is nothing. */
  function Named(name: string, content: string): string {
    if content == "" then "" else name + content
  }

  function FieldStream(env: Env, f: Field, self: string, parent: string, field: string, depth: nat): string
    decreases f, 1
  {
    match f
    case TextField(name, text) => Flat(Labelled(name, text))
    case TargetName(text) =>
      if parent == "SelectStmt" && field == "targetList" then "" else Flat(Labelled("name", text))
    case BitmapField(name, members) => Flat([name] + members)
    case NodeField(name, node) => Named(name, NodeStream(env, node, self, name, depth + 1))
    case ListField(name, node) =>
      if !node.List? || node.items == [] then ""
      else if KeepsName(node) then name + NodeStream(env, node, self, name, depth + 1)
      else Named(name, NodeStream(env, node, self, name, depth + 1))
    case SpecificField(name, node) =>
      if depth + 1 < MAX_DEPTH then Named(name, BodyStream(env, node, self, name, depth + 1)) else ""
    case EmbeddedField(name, node) => name + BodyStream(env, node, self, name, depth)
  }
}
