/** The writer and the reader as they work: loops that add to messages, and loops that append to lists. */
module ProtobufRun {
  import opened ProtobufTree
  import opened ProtobufRoundTrip

  /** _outNode */
  method OutNode(schema: Schema, n: Node) returns (out: NodeMsg)
    ensures out == Write(schema, n)
    decreases n, 1
  {
    out := NotSet;
    match n
    case Null =>
    case Val(value) => out := MVal(value);
    case List(items) =>
      var ms := OutNodes(schema, items);
      out := MList(ms);
    case AConst(isnull, val, location) =>
      out := MAConst(isnull, None, location);
      if !isnull {
        out := out.(val := val);
      }
    case Struct(tag, fields) =>
      if tag in schema {
        var fs := OutFields(schema, schema[tag], fields);
        out := MStruct(tag, fs);
      }
  }

  /** WRITE_LIST_FIELD and _outList */
  method OutNodes(schema: Schema, items: seq<Node>) returns (ms: seq<NodeMsg>)
    ensures ms == WriteAll(schema, items)
    decreases items, 0
  {
    hide Write;
    ms := [];
    for i := 0 to |items|
      invariant ms + WriteAll(schema, items[i..]) == WriteAll(schema, items)
    {
      assert items[i..][0] == items[i] && items[i..][1..] == items[i+1..];
      var m := OutNode(schema, items[i]);
      ms := ms + [m];
    }
  }

  lemma WriteFieldsStep(schema: Schema, kinds: seq<Kind>, fields: seq<Field>, i: nat)
    requires i <= |kinds| && i <= |fields|
    ensures WriteFields(schema, kinds[i..], fields[i..]) ==
            if i < |kinds| && i < |fields| then [WriteField(schema, kinds[i], fields[i])] + WriteFields(schema, kinds[i+1..], fields[i+1..]) else []
  {
    if i < |kinds| && i < |fields| {
      assert fields[i..][0] == fields[i] && fields[i..][1..] == fields[i+1..];
      assert kinds[i..][0] == kinds[i] && kinds[i..][1..] == kinds[i+1..];
    }
  }

  /** The generated function of one node type. */
  method OutFields(schema: Schema, kinds: seq<Kind>, fields: seq<Field>) returns (ms: seq<FieldMsg>)
    ensures ms == WriteFields(schema, kinds, fields)
    decreases fields, 0
  {
    hide WriteField, WriteFields;
    ms := [];
    var i := 0;
    assert fields[0..] == fields && kinds[0..] == kinds;
    while i < |fields| && i < |kinds|
      invariant 0 <= i <= |fields| && i <= |kinds| && ms + WriteFields(schema, kinds[i..], fields[i..]) == WriteFields(schema, kinds, fields)
    {
      WriteFieldsStep(schema, kinds, fields, i);
      var m := OutField(schema, kinds[i], fields[i]);
      ms := ms + [m];
      i := i + 1;
    }
    WriteFieldsStep(schema, kinds, fields, i);
  }

  method OutField(schema: Schema, kind: Kind, f: Field) returns (out: FieldMsg)
    ensures out == WriteField(schema, kind, f)
    decreases f, 1
  {
    hide Write, EnumToInt;
    match f
    case Number(n) => out := MNumber(n);
    case Char(c) =>
      out := MString("");
      if c != 0 && c < 256 {
        out := MString([c as char]);
      }
    case Text(text) =>
      out := MString("");
      if text.Some? {
        out := MString(text.value);
      }
    case Enum(value) => out := MEnum(if kind.KEnum? then EnumToInt(kind.values, value) else 0);
    case NodeList(items) =>
      var ms := OutNodes(schema, items);
      out := MNodes(ms);
    case Bitmapset(members) =>
      var ns := [];
      for x := 0 to |members|
        invariant ns == members[..x]
      {
        ns := ns + [members[x]];
      }
      out := MNumbers(ns);
    case NodePtr(node) =>
      out := MNode(None);
      if !node.Null? {
        var m := OutNode(schema, node);
        out := MNode(Some(m));
      }
    case StringPtr(str) => out := MStringMsg(str);
    case StructNull => out := MNoFields;
    case StructPtr(fields) =>
      out := MNoFields;
      if kind.KStructPtr? && kind.tag in schema {
        var fs := OutFields(schema, schema[kind.tag], fields);
        out := MFields(fs);
      }
    case Embedded(fields) =>
      out := MNoFields;
      if kind.KStruct? && kind.tag in schema {
        var fs := OutFields(schema, schema[kind.tag], fields);
        out := MFields(fs);
      }
  }

  /** _readNode */
  method ReadNode(schema: Schema, m: NodeMsg) returns (r: Option<Node>)
    ensures r == Read(schema, m)
    decreases m, 1
  {
    match m
    case NotSet => r := Some(Null);
    case MVal(value) => r := Some(Val(value));
    case MList(items) =>
      var ns := ReadNodes(schema, items);
      r := if ns.None? then None else if ns.value == [] then Some(Null) else Some(List(ns.value));
    case MAConst(isnull, val, location) => r := Some(AConst(isnull, if isnull then None else val, location));
    case MStruct(tag, fields) =>
      r := None;
      if tag in schema {
        var fs := ReadStruct(schema, schema[tag], fields);
        r := if fs.None? then None else Some(Struct(tag, fs.value));
      }
  }

  /** READ_LIST_FIELD and _readList */
  method ReadNodes(schema: Schema, items: seq<NodeMsg>) returns (r: Option<seq<Node>>)
    ensures r == ReadAll(schema, items)
    decreases items, 0
  {
    hide Read;
    var ns := [];
    assert items[0..] == items;
    PrependNothing(ReadAll(schema, items));
    for i := 0 to |items|
      invariant ReadAll(schema, items) == Prepend(ns, ReadAll(schema, items[i..]))
    {
      assert items[i..][0] == items[i] && items[i..][1..] == items[i+1..];
      var n := ReadNode(schema, items[i]);
      if n.None? {
        return None;
      }
      PrependTwice(ns, n.value, ReadAll(schema, items[i+1..]));
      ns := ns + [n.value];
    }
    assert ns + [] == ns;
    r := Some(ns);
  }

  function Prepend<T>(a: seq<T>, b: Option<seq<T>>): Option<seq<T>> {
    if b.None? then None else Some(a + b.value)
  }

  lemma PrependNothing<T>(b: Option<seq<T>>)
    ensures Prepend([], b) == b
  {
    if b.Some? { assert [] + b.value == b.value; }
  }

  lemma PrependTwice<T>(a: seq<T>, x: T, b: Option<seq<T>>)
    ensures Prepend(a + [x], b) == Prepend(a, if b.None? then None else Some([x] + b.value))
  {
    if b.Some? { assert a + [x] + b.value == a + ([x] + b.value); }
  }

  /** The generated function of one node type. */
  method ReadStruct(schema: Schema, kinds: seq<Kind>, fields: seq<FieldMsg>) returns (r: Option<seq<Field>>)
    ensures r == ReadFields(schema, kinds, fields)
    decreases fields, 0
  {
    hide ReadField;
    var fs := [];
    var i := 0;
    assert fields[0..] == fields && kinds[0..] == kinds;
    PrependNothing(ReadFields(schema, kinds, fields));
    while i < |fields| && i < |kinds|
      invariant 0 <= i <= |fields| && i <= |kinds|
      invariant ReadFields(schema, kinds, fields) == Prepend(fs, ReadFields(schema, kinds[i..], fields[i..]))
    {
      assert fields[i..][0] == fields[i] && fields[i..][1..] == fields[i+1..];
      assert kinds[i..][0] == kinds[i] && kinds[i..][1..] == kinds[i+1..];
      var f := ReadOne(schema, kinds[i], fields[i]);
      if f.None? {
        return None;
      }
      PrependTwice(fs, f.value, ReadFields(schema, kinds[i+1..], fields[i+1..]));
      fs := fs + [f.value];
      i := i + 1;
    }
    assert ReadFields(schema, kinds[i..], fields[i..]) == Some([]);
    assert fs + [] == fs;
    r := Some(fs);
  }

  method ReadOne(schema: Schema, kind: Kind, m: FieldMsg) returns (r: Option<Field>)
    ensures r == ReadField(schema, kind, m)
    decreases m, 1
  {
    hide Read, IntToEnum;
    var node := Zero(kind);
    match m {
    case MNumber(n) =>
      if kind.KNumber? { node := Number(n); }
    case MString(s) =>
      if |s| > 0 {
        if kind.KChar? { node := Char(s[0] as nat); } else if kind.KText? { node := Text(Some(s)); }
      }
    case MEnum(code) =>
      if kind.KEnum? && kind.values != [] { node := Enum(IntToEnum(kind.values, code)); }
    case MNodes(items) =>
      if kind.KList? {
        var ns := ReadNodes(schema, items);
        if ns.None? { return None; }
        node := NodeList(ns.value);
      }
    case MNumbers(_) =>
    case MNode(n) =>
      if kind.KNodePtr? && n.Some? {
        var x := ReadNode(schema, n.value);
        if x.None? { return None; }
        node := NodePtr(x.value);
      }
    case MStringMsg(str) =>
      if kind.KStringPtr? { node := StringPtr(str); }
    case MNoFields =>
    case MFields(fields) =>
      if (kind.KStructPtr? || kind.KStruct?) && kind.tag in schema {
        var fs := ReadStruct(schema, schema[kind.tag], fields);
        if fs.None? { return None; }
        node := if kind.KStructPtr? then StructPtr(fs.value) else Embedded(fs.value);
      }
    }
    r := Some(node);
  }

  /** Out and back: what the deparser gets from the parser's message. */
  method OutAndBack(schema: Schema, n: Node) returns (r: Option<Node>)
    requires Conforms(schema, n)
    ensures r == Some(Canonical(schema, n))
  {
    var m := OutNode(schema, n);
    r := ReadNode(schema, m);
    RoundTrip(schema, n);
  }
}
