/** Parse trees and the messages they are written to.  Which fields a node type has, and of which kinds,
    is one schema for both sides. */
module ProtobufTree {

  datatype Option<+T> = None | Some(value: T)

  /** The values of a C enum, in the order of their declaration. */
  type EnumType = seq<int>

  datatype Kind =
    | KNumber | KChar | KText | KEnum(values: EnumType)
    | KList | KBitmapset | KNodePtr | KStringPtr
    | KStructPtr(tag: nat) | KStruct(tag: nat)              // a pointer to one node type, and one embedded

  /** The kinds of the fields of each node type that the generator knows. */
  type Schema = map<nat, seq<Kind>>

  datatype Value = VInteger(ival: int) | VFloat(fval: string) | VBoolean(boolval: bool) | VString(sval: string) | VBitString(bsval: string)

  /** What grammar actions build: they make no integer or OID lists. */
  datatype Node =
    | Null
    | Val(value: Value)
    | List(items: seq<Node>)                                // not empty: an empty list is NULL
    | AConst(isnull: bool, val: Option<Value>, location: int)
    | Struct(tag: nat, fields: seq<Field>)

  datatype Field =
    | Number(n: int)                                        // int, uint, long, uint64, bool, float
    | Char(c: nat)
    | Text(text: Option<string>)                            // char*
    | Enum(value: int)
    | NodeList(items: seq<Node>)                            // List*
    | Bitmapset(members: seq<nat>)
    | NodePtr(node: Node)
    | StringPtr(str: Option<string>)                        // String*
    | StructNull | StructPtr(target: seq<Field>)            // a pointer to a node of one type
    | Embedded(fields: seq<Field>)

  // ---------- Messages ----------

  datatype NodeMsg =
    | NotSet
    | MVal(value: Value)
    | MList(items: seq<NodeMsg>)
    | MAConst(isnull: bool, val: Option<Value>, location: int)
    | MStruct(tag: nat, fields: seq<FieldMsg>)

  datatype FieldMsg =
    | MNumber(n: int)
    | MString(s: string)                                    // "" if not set
    | MEnum(code: int)
    | MNodes(items: seq<NodeMsg>)
    | MNumbers(ns: seq<nat>)
    | MNode(node: Option<NodeMsg>)
    | MStringMsg(str: Option<string>)
    | MNoFields | MFields(fields: seq<FieldMsg>)            // a message that is absent, or present

  // ---------- Enum codes ----------

  predicate Distinct(e: EnumType) {
    forall i, j | 0 <= i < j < |e| :: e[i] != e[j]
  }

  /** _enumToInt: codes count from 1, since 0 stands for a value that is not set. */
  function EnumToInt(e: EnumType, value: int): int {
    if e == [] then -1 else if e[0] == value then 1
    else var r := EnumToInt(e[1..], value); if r == -1 then -1 else 1 + r
  }

  /** _intToEnum: the first value for a code that is unknown. */
  function IntToEnum(e: EnumType, code: int): int
    requires e != []
  {
    if 1 <= code <= |e| then e[code-1] else e[0]
  }

  lemma {:induction false} EnumToIntBounds(e: EnumType, value: int)
    ensures var r := EnumToInt(e, value); if value in e then 1 <= r <= |e| && e[r-1] == value else r == -1
  {
    if e != [] && e[0] != value {
      EnumToIntBounds(e[1..], value);
      assert e == [e[0]] + e[1..];
    }
  }

  lemma {:induction false} CodeOf(e: EnumType, code: nat)
    requires Distinct(e) && 1 <= code <= |e|
    ensures EnumToInt(e, e[code-1]) == code
  {
    if code > 1 {
      assert e[0] != e[code-1];
      CodeOf(e[1..], code - 1);
      assert e[1..][code-2] == e[code-1];
    }
  }

  /** The tables invert each other, and no value has the code 0 of a field that is not set. */
  lemma EnumCodesInvert(e: EnumType, value: int, code: int)
    requires e != [] && Distinct(e)
    ensures value in e ==> IntToEnum(e, EnumToInt(e, value)) == value && EnumToInt(e, value) > 0
    ensures 1 <= code <= |e| ==> EnumToInt(e, IntToEnum(e, code)) == code
  {
    EnumToIntBounds(e, value);
    if 1 <= code <= |e| { CodeOf(e, code); }
  }

  // ---------- Trees that fit a schema ----------

  predicate Conforms(schema: Schema, n: Node)
    decreases n, 1
  {
    match n
    case List(items) => items != [] && AllConform(schema, items)
    case AConst(isnull, val, _) => isnull || val.Some?
    case Struct(tag, fields) => tag in schema ==> FieldsConform(schema, schema[tag], fields)
    case _ => true
  }

  predicate AllConform(schema: Schema, items: seq<Node>)
    decreases items, 0
  {
    items == [] || (Conforms(schema, items[0]) && AllConform(schema, items[1..]))
  }

  predicate FieldsConform(schema: Schema, kinds: seq<Kind>, fields: seq<Field>)
    decreases fields, 0
  {
    |kinds| == |fields| && (fields != [] ==> FieldConforms(schema, kinds[0], fields[0]) && FieldsConform(schema, kinds[1..], fields[1..]))
  }

  predicate FieldConforms(schema: Schema, kind: Kind, f: Field)
    decreases f, 1
  {
    match kind
    case KNumber => f.Number?
    case KChar => f.Char? && f.c < 256
    case KText => f.Text?
    case KEnum(values) => f.Enum? && Distinct(values) && f.value in values
    case KList => f.NodeList? && AllConform(schema, f.items)
    case KBitmapset => f.Bitmapset?
    case KNodePtr => f.NodePtr? && Conforms(schema, f.node)
    case KStringPtr => f.StringPtr?
    case KStructPtr(tag) => tag in schema && (f.StructNull? || (f.StructPtr? && FieldsConform(schema, schema[tag], f.target)))
    case KStruct(tag) => tag in schema && f.Embedded? && FieldsConform(schema, schema[tag], f.fields)
  }

  // ---------- Canonical trees ----------

  /** What is left of a tree: empty strings of char* fields become NULL, bitmapsets are dropped, the value
      of a NULL constant is dropped, and so are nodes of unknown types. */
  function Canonical(schema: Schema, n: Node): Node
    decreases n, 1
  {
    match n
    case List(items) => List(AllCanonical(schema, items))
    case AConst(isnull, val, location) => AConst(isnull, if isnull then None else val, location)
    case Struct(tag, fields) => if tag in schema then Struct(tag, CanonicalFields(schema, fields)) else Null
    case _ => n
  }

  function AllCanonical(schema: Schema, items: seq<Node>): seq<Node>
    decreases items, 0
  {
    if items == [] then [] else [Canonical(schema, items[0])] + AllCanonical(schema, items[1..])
  }

  function CanonicalFields(schema: Schema, fields: seq<Field>): seq<Field>
    decreases fields, 0
  {
    if fields == [] then [] else [CanonicalField(schema, fields[0])] + CanonicalFields(schema, fields[1..])
  }

  function CanonicalField(schema: Schema, f: Field): Field
    decreases f, 1
  {
    match f
    case Text(text) => Text(if text == Some("") then None else text)
    case NodeList(items) => NodeList(AllCanonical(schema, items))
    case Bitmapset(_) => Bitmapset([])
    case NodePtr(node) => NodePtr(Canonical(schema, node))
    case StructPtr(fields) => StructPtr(CanonicalFields(schema, fields))
    case Embedded(fields) => Embedded(CanonicalFields(schema, fields))
    case _ => f
  }

  // ---------- Writing and reading ----------

  function Write(schema: Schema, n: Node): NodeMsg
    decreases n, 1
  {
    match n
    case Null => NotSet
    case Val(value) => MVal(value)
    case List(items) => MList(WriteAll(schema, items))
    case AConst(isnull, val, location) => MAConst(isnull, if isnull then None else val, location)
    case Struct(tag, fields) => if tag in schema then MStruct(tag, WriteFields(schema, schema[tag], fields)) else NotSet
  }

  function WriteAll(schema: Schema, items: seq<Node>): seq<NodeMsg>
    decreases items, 0
  {
    if items == [] then [] else [Write(schema, items[0])] + WriteAll(schema, items[1..])
  }

  function WriteFields(schema: Schema, kinds: seq<Kind>, fields: seq<Field>): seq<FieldMsg>
    decreases fields, 0
  {
    if fields == [] || kinds == [] then []
    else [WriteField(schema, kinds[0], fields[0])] + WriteFields(schema, kinds[1..], fields[1..])
  }

  /** The WRITE_ macro of a field. */
  function WriteField(schema: Schema, kind: Kind, f: Field): FieldMsg
    decreases f, 1
  {
    match f
    case Number(n) => MNumber(n)
    case Char(c) => MString(if c == 0 || c >= 256 then "" else [c as char])
    case Text(text) => MString(if text.Some? then text.value else "")
    case Enum(value) => MEnum(if kind.KEnum? then EnumToInt(kind.values, value) else 0)
    case NodeList(items) => MNodes(WriteAll(schema, items))
    case Bitmapset(members) => MNumbers(members)
    case NodePtr(node) => MNode(if node.Null? then None else Some(Write(schema, node)))
    case StringPtr(str) => MStringMsg(str)
    case StructNull => MNoFields
    case StructPtr(fields) => if kind.KStructPtr? && kind.tag in schema then MFields(WriteFields(schema, schema[kind.tag], fields)) else MNoFields
    case Embedded(fields) => if kind.KStruct? && kind.tag in schema then MFields(WriteFields(schema, schema[kind.tag], fields)) else MNoFields
  }

  /** makeNode: all fields zero. */
  function Zero(kind: Kind): Field {
    match kind
    case KNumber => Number(0)
    case KChar => Char(0)
    case KText => Text(None)
    case KEnum(_) => Enum(0)
    case KList => NodeList([])
    case KBitmapset => Bitmapset([])
    case KNodePtr => NodePtr(Null)
    case KStringPtr => StringPtr(None)
    case KStructPtr(_) => StructNull
    case KStruct(_) => Embedded([])
  }

  /** _readNode, which fails for a message of a node type that it does not know */
  function Read(schema: Schema, m: NodeMsg): Option<Node>
    decreases m, 1
  {
    match m
    case NotSet => Some(Null)
    case MVal(value) => Some(Val(value))
    case MList(items) =>
      (match ReadAll(schema, items)
       case Some(ns) => Some(if ns == [] then Null else List(ns))
       case None => None)
    case MAConst(isnull, val, location) => Some(AConst(isnull, if isnull then None else val, location))
    case MStruct(tag, fields) =>
      if tag !in schema then None else
      match ReadFields(schema, schema[tag], fields)
      case Some(fs) => Some(Struct(tag, fs))
      case None => None
  }

  function ReadAll(schema: Schema, items: seq<NodeMsg>): Option<seq<Node>>
    decreases items, 0
  {
    if items == [] then Some([]) else
    match Read(schema, items[0])
    case None => None
    case Some(n) =>
      match ReadAll(schema, items[1..])
      case None => None
      case Some(ns) => Some([n] + ns)
  }

  function ReadFields(schema: Schema, kinds: seq<Kind>, fields: seq<FieldMsg>): Option<seq<Field>>
    decreases fields, 0
  {
    if fields == [] || kinds == [] then Some([]) else
    match ReadField(schema, kinds[0], fields[0])
    case None => None
    case Some(f) =>
      match ReadFields(schema, kinds[1..], fields[1..])
      case None => None
      case Some(fs) => Some([f] + fs)
  }

  /** The READ_ macro of a field; a field that is not set stays zero. */
  function ReadField(schema: Schema, kind: Kind, m: FieldMsg): Option<Field>
    decreases m, 1
  {
    match m
    case MNumber(n) => Some(if kind.KNumber? then Number(n) else Zero(kind))
    case MString(s) =>
      Some(if s == "" then Zero(kind)
           else if kind.KChar? then Char(s[0] as nat)
           else if kind.KText? then Text(Some(s))
           else Zero(kind))
    case MEnum(code) => Some(if kind.KEnum? && kind.values != [] then Enum(IntToEnum(kind.values, code)) else Zero(kind))
    case MNodes(items) =>
      if !kind.KList? then Some(Zero(kind)) else
      (match ReadAll(schema, items)
       case Some(ns) => Some(NodeList(ns))
       case None => None)
    case MNumbers(_) => Some(Zero(kind))
    case MNode(node) =>
      if !kind.KNodePtr? || node.None? then Some(Zero(kind)) else
      (match Read(schema, node.value)
       case Some(n) => Some(NodePtr(n))
       case None => None)
    case MStringMsg(str) => Some(if kind.KStringPtr? then StringPtr(str) else Zero(kind))
    case MNoFields => Some(Zero(kind))
    case MFields(fields) =>
      if !(kind.KStructPtr? || kind.KStruct?) || kind.tag !in schema then Some(Zero(kind)) else
      match ReadFields(schema, schema[kind.tag], fields)
      case None => None
      case Some(fs) => Some(if kind.KStructPtr? then StructPtr(fs) else Embedded(fs))
  }
}
