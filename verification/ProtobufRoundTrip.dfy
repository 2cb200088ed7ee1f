/** Writing a tree and reading it back. */
module ProtobufRoundTrip {
  import opened ProtobufTree

  // ---------- The round trip ----------

  function Trip(schema: Schema, n: Node): Option<Node> {
    Read(schema, Write(schema, n))
  }

  /** A tree comes back in its canonical form. */
  lemma {:induction false} RoundTrip(schema: Schema, n: Node)
    requires Conforms(schema, n)
    ensures Trip(schema, n) == Some(Canonical(schema, n))
    decreases n, 1
  {
    match n
    case List(items) =>
      AllRoundTrip(schema, items);
      CanonicalLength(schema, items);
    case Struct(tag, fields) =>
      if tag in schema {
        FieldsRoundTrip(schema, schema[tag], fields);
      }
    case _ =>
  }

  lemma CanonicalLength(schema: Schema, items: seq<Node>)
    ensures items != [] ==> AllCanonical(schema, items) != []
  {
  }

  lemma {:induction false} AllRoundTrip(schema: Schema, items: seq<Node>)
    requires AllConform(schema, items)
    ensures ReadAll(schema, WriteAll(schema, items)) == Some(AllCanonical(schema, items))
    decreases items, 0
  {
    hide Read, Write, Canonical, Conforms;
    if items != [] {
      RoundTrip(schema, items[0]);
      AllRoundTrip(schema, items[1..]);
      var ms := WriteAll(schema, items);
      assert ms[0] == Write(schema, items[0]) && ms[1..] == WriteAll(schema, items[1..]);
    }
  }

  lemma {:induction false} FieldsRoundTrip(schema: Schema, kinds: seq<Kind>, fields: seq<Field>)
    requires FieldsConform(schema, kinds, fields)
    ensures ReadFields(schema, kinds, WriteFields(schema, kinds, fields)) == Some(CanonicalFields(schema, fields))
    decreases fields, 0
  {
    hide ReadField, WriteField, CanonicalField, FieldConforms;
    if fields != [] {
      FieldRoundTrip(schema, kinds[0], fields[0]);
      FieldsRoundTrip(schema, kinds[1..], fields[1..]);
      var ms := WriteFields(schema, kinds, fields);
      assert ms[0] == WriteField(schema, kinds[0], fields[0]) && ms[1..] == WriteFields(schema, kinds[1..], fields[1..]);
    }
  }

  lemma {:induction false} FieldRoundTrip(schema: Schema, kind: Kind, f: Field)
    requires FieldConforms(schema, kind, f)
    ensures ReadField(schema, kind, WriteField(schema, kind, f)) == Some(CanonicalField(schema, f))
    decreases f, 1
  {
    hide Read, Write, Canonical, Conforms;
    match kind
    case KEnum(values) => EnumCodesInvert(values, f.value, 0);
    case KList => AllRoundTrip(schema, f.items);
    case KNodePtr =>
      RoundTrip(schema, f.node);
      NullIsCanonical(schema);
    case KStructPtr(tag) =>
      if f.StructPtr? { FieldsRoundTrip(schema, schema[tag], f.target); }
    case KStruct(tag) => FieldsRoundTrip(schema, schema[tag], f.fields);
    case _ =>
  }

  lemma NullIsCanonical(schema: Schema)
    ensures Canonical(schema, Null) == Null
  {
  }

  // ---------- Canonical trees ----------

  /** A canonical tree is its own canonical form, and fits the schema as well. */
  lemma {:induction false} CanonicalTwice(schema: Schema, n: Node)
    requires Conforms(schema, n)
    ensures var c := Canonical(schema, n);
            Canonical(schema, c) == c && Conforms(schema, c)
    decreases n, 1
  {
    match n
    case List(items) =>
      AllCanonicalTwice(schema, items);
      CanonicalLength(schema, items);
    case Struct(tag, fields) =>
      if tag in schema {
        FieldsCanonicalTwice(schema, schema[tag], fields);
      }
    case _ =>
  }

  lemma {:induction false} AllCanonicalTwice(schema: Schema, items: seq<Node>)
    requires AllConform(schema, items)
    ensures var c := AllCanonical(schema, items);
            AllCanonical(schema, c) == c && AllConform(schema, c)
    decreases items, 0
  {
    hide Canonical, Conforms;
    if items != [] {
      CanonicalTwice(schema, items[0]);
      AllCanonicalTwice(schema, items[1..]);
      var c := AllCanonical(schema, items);
      assert c[0] == Canonical(schema, items[0]) && c[1..] == AllCanonical(schema, items[1..]);
    }
  }

  lemma {:induction false} FieldsCanonicalTwice(schema: Schema, kinds: seq<Kind>, fields: seq<Field>)
    requires FieldsConform(schema, kinds, fields)
    ensures var c := CanonicalFields(schema, fields);
            CanonicalFields(schema, c) == c && FieldsConform(schema, kinds, c)
    decreases fields, 0
  {
    hide CanonicalField, FieldConforms;
    if fields != [] {
      FieldCanonicalTwice(schema, kinds[0], fields[0]);
      FieldsCanonicalTwice(schema, kinds[1..], fields[1..]);
      var c := CanonicalFields(schema, fields);
      assert c[0] == CanonicalField(schema, fields[0]) && c[1..] == CanonicalFields(schema, fields[1..]);
    }
  }

  lemma {:induction false} FieldCanonicalTwice(schema: Schema, kind: Kind, f: Field)
    requires FieldConforms(schema, kind, f)
    ensures var c := CanonicalField(schema, f);
            CanonicalField(schema, c) == c && FieldConforms(schema, kind, c)
    decreases f, 1
  {
    hide Canonical, Conforms;
    match f
    case NodeList(items) => AllCanonicalTwice(schema, items);
    case NodePtr(node) => CanonicalTwice(schema, node);
    case StructPtr(fields) => FieldsCanonicalTwice(schema, schema[kind.tag], fields);
    case Embedded(fields) => FieldsCanonicalTwice(schema, schema[kind.tag], fields);
    case _ =>
  }

  /** Nothing that a message has no room for: a node of an unknown type, a value of a NULL constant, an empty
      string that is not NULL, a bitmapset with members. */
  predicate Lossless(schema: Schema, n: Node)
    decreases n, 1
  {
    match n
    case List(items) => AllLossless(schema, items)
    case AConst(isnull, val, _) => !(isnull && val.Some?)
    case Struct(tag, fields) => tag in schema && FieldsLossless(schema, fields)
    case _ => true
  }

  predicate AllLossless(schema: Schema, items: seq<Node>)
    decreases items, 0
  {
    items == [] || (Lossless(schema, items[0]) && AllLossless(schema, items[1..]))
  }

  predicate FieldsLossless(schema: Schema, fields: seq<Field>)
    decreases fields, 0
  {
    fields == [] || (FieldLossless(schema, fields[0]) && FieldsLossless(schema, fields[1..]))
  }

  predicate FieldLossless(schema: Schema, f: Field)
    decreases f, 1
  {
    match f
    case Text(text) => text != Some("")
    case Bitmapset(members) => members == []
    case NodeList(items) => AllLossless(schema, items)
    case NodePtr(node) => Lossless(schema, node)
    case StructPtr(fields) => FieldsLossless(schema, fields)
    case Embedded(fields) => FieldsLossless(schema, fields)
    case _ => true
  }

  /** A tree comes back as it was if and only if it has nothing of that kind. */
  lemma {:induction false} CanonicalIffLossless(schema: Schema, n: Node)
    ensures Canonical(schema, n) == n <==> Lossless(schema, n)
    decreases n, 1
  {
    match n
    case List(items) => AllCanonicalIffLossless(schema, items);
    case Struct(tag, fields) => FieldsCanonicalIffLossless(schema, fields);
    case _ =>
  }

  lemma {:induction false} AllCanonicalIffLossless(schema: Schema, items: seq<Node>)
    ensures AllCanonical(schema, items) == items <==> AllLossless(schema, items)
    decreases items, 0
  {
    hide Canonical, Lossless;
    if items != [] {
      CanonicalIffLossless(schema, items[0]);
      AllCanonicalIffLossless(schema, items[1..]);
      var c := AllCanonical(schema, items);
      assert c[0] == Canonical(schema, items[0]) && c[1..] == AllCanonical(schema, items[1..]);
      assert items == [items[0]] + items[1..];
    }
  }

  lemma {:induction false} FieldsCanonicalIffLossless(schema: Schema, fields: seq<Field>)
    ensures CanonicalFields(schema, fields) == fields <==> FieldsLossless(schema, fields)
    decreases fields, 0
  {
    hide CanonicalField, FieldLossless;
    if fields != [] {
      FieldCanonicalIffLossless(schema, fields[0]);
      FieldsCanonicalIffLossless(schema, fields[1..]);
      var c := CanonicalFields(schema, fields);
      assert c[0] == CanonicalField(schema, fields[0]) && c[1..] == CanonicalFields(schema, fields[1..]);
      assert fields == [fields[0]] + fields[1..];
    }
  }

  lemma {:induction false} FieldCanonicalIffLossless(schema: Schema, f: Field)
    ensures CanonicalField(schema, f) == f <==> FieldLossless(schema, f)
    decreases f, 1
  {
    match f
    case NodeList(items) => AllCanonicalIffLossless(schema, items);
    case NodePtr(node) => CanonicalIffLossless(schema, node);
    case StructPtr(fields) => FieldsCanonicalIffLossless(schema, fields);
    case Embedded(fields) => FieldsCanonicalIffLossless(schema, fields);
    case _ =>
  }

  /** After one trip, further trips change nothing; and a tree survives its first trip unchanged if and
      only if nothing in it gets lost. */
  lemma SecondTripIsIdentity(schema: Schema, n: Node)
    requires Conforms(schema, n)
    ensures Trip(schema, n).Some? && Trip(schema, Trip(schema, n).value) == Trip(schema, n)
    ensures Trip(schema, n) == Some(n) <==> Lossless(schema, n)
  {
    CanonicalIffLossless(schema, n);
    hide Trip, Conforms, Canonical;
    RoundTrip(schema, n);
    CanonicalTwice(schema, n);
    RoundTrip(schema, Canonical(schema, n));
  }
}
