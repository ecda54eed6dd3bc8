/** The rewritten schema accepts exactly the values the original accepts. */
module ClaudeSchemaProofs {
  import opened Prelude
  import opened ClaudeSchema
  import opened ClaudeSchemaMeaning
  import ClaudeSchemaShape

  // ---------- references ----------

  lemma {:induction false} PlainName(name: string)
    requires '#' !in name
    ensures Replace(name) == name
  {
    ClaudeSchemaShape.PlainPrefix(name, "");
    assert name + "" == name;
  }

  /** The definitions of the rewritten root, under their old names. */
  lemma {:induction false} DefinitionMoves(root: Json, container: string, name: string)
    requires Wf(root, root) && RootKeepsDefinitions(root) && container in {"$defs", "definitions"}
    requires Definition(root.fields, container, name).Some?
    ensures Translate(root).Obj?
    ensures Definition(Translate(root).fields, "definitions", name) == Some(Translate(Definition(root.fields, container, name).value))
    ensures Wf(root, Definition(root.fields, container, name).value)
    ensures NullOk(root, root) ==> NullOk(root, Definition(root.fields, container, name).value)
    ensures RefsNullOk(root, root) ==> RefsNullOk(root, Definition(root.fields, container, name).value)
  {
    var fs := root.fields;
    GetIsMember(fs, container);
    var f := Field(container, Get(fs, container).value);
    assert WfKeyword(root, f);
    var gs := TranslateFields(fs, {"$schema"});
    TranslatedMembers(fs, {"$schema"}, TranslatedField(f));
    TranslatedAreDistinct(fs, {"$schema"});
    assert TranslatedField(f) == Field("definitions", Translate(f.value));
    MemberIsGet(gs, TranslatedField(f));
    NamedKeys(root, f.value, name);
    GetIsMember(f.value.fields, name);
    assert NullOk(root, root) ==> NullOkBelow(root, f);
    assert RefsNullOk(root, root) ==> RefsNullOkBelow(root, f);
  }

  lemma {:induction false} ReferenceMoves(root: Json, r: string)
    requires Wf(root, root) && RootKeepsDefinitions(root) && Resolve(root, r).Some?
    ensures Resolve(Translate(root), Replace(r)) == Some(Translate(Resolve(root, r).value))
    ensures Wf(root, Resolve(root, r).value)
    ensures NullOk(root, root) ==> NullOk(root, Resolve(root, r).value)
    ensures RefsNullOk(root, root) ==> RefsNullOk(root, Resolve(root, r).value)
  {
    if r == "#" {
      PlainName(r[1..]);
      assert Replace(r) == [r[0]] + Replace(r[1..]);
    } else if StartsWith(r, DEFS_REF) {
      var name := r[|DEFS_REF|..];
      DefinitionMoves(root, "$defs", name);
      PlainName(name);
      assert Replace(r) == DEFINITIONS_REF + name;
      NewReference(Translate(root), name);
    } else {
      var name := r[|DEFINITIONS_REF|..];
      DefinitionMoves(root, "definitions", name);
      PlainName(name);
      ClaudeSchemaShape.DefinitionsStay(name);
      assert r == DEFINITIONS_REF + name;
      NewReference(Translate(root), name);
    }
  }

  lemma {:induction false} NewReference(root: Json, name: string)
    requires root.Obj?
    ensures Resolve(root, DEFINITIONS_REF + name) == Definition(root.fields, "definitions", name)
  {
    var r := DEFINITIONS_REF + name;
    assert r[|DEFINITIONS_REF|..] == name && r[..|DEFINITIONS_REF|] == DEFINITIONS_REF;
    assert r[..|DEFS_REF|][2] == 'd';
  }

  // ---------- one schema in place of a list of types ----------

  function VariantOf(t: Json, shared: Fields): Json
    requires t.Str?
  {
    Obj([Field("type", t)] + if t.s == "null" then [] else shared)
  }

  lemma {:induction false} VariantMembers(types: seq<Json>, shared: Fields, w: Json)
    ensures w in Variants(types, shared) <==> exists t :: t in types && t.Str? && w == VariantOf(t, shared)
  {
    if types != [] {
      VariantMembers(types[1..], shared, w);
      assert forall t :: t in types <==> t == types[0] || t in types[1..];
      if types[0].Str? {
        assert Variants(types, shared) == [VariantOf(types[0], shared)] + Variants(types[1..], shared);
      }
    }
  }

  predicate Fits(root: Json, t: Json, shared: Fields, v: Json, n: nat) {
    t.Str? && HasType(v, t.s) && (t.s == "null" || AcceptsAll(root, shared, {}, v, n))
  }

  lemma {:induction false} AcceptsVariant(root: Json, t: Json, shared: Fields, v: Json, n: nat)
    requires t.Str? && !HasKey(shared, "type")
    ensures Accepts(root, VariantOf(t, shared), v, n) <==> Fits(root, t, shared, v, n)
  {
    var f := Field("type", t);
    var others := if t.s == "null" then [] else shared;
    ClaudeSchemaShape.GetOfCons(f, others, "properties");
    assert Props([f] + others) == Props(others);
    assert f in [f] + others;
    assert forall g :: g in [f] + others <==> g == f || g in others;
    assert Keyword(root, Props(others), f, v, n) == HasType(v, t.s);
    assert AcceptsAll(root, [], {}, v, n);
  }

  lemma {:induction false} AcceptsOnly(root: Json, f: Field, v: Json, n: nat)
    ensures Accepts(root, Obj([f]), v, n) == Keyword(root, Props([f]), f, v, n)
  {
  }

  /** Some variant accepts: some type fits, and the siblings hold unless that type is null. */
  lemma {:induction false} SomeVariantAccepts(root: Json, types: seq<Json>, shared: Fields, v: Json, n: nat)
    requires !HasKey(shared, "type")
    ensures (exists w :: w in Variants(types, shared) && Accepts(root, w, v, n)) <==> exists t :: t in types && Fits(root, t, shared, v, n)
  {
    if w :| w in Variants(types, shared) && Accepts(root, w, v, n) {
      VariantMembers(types, shared, w);
      var t :| t in types && t.Str? && w == VariantOf(t, shared);
      AcceptsVariant(root, t, shared, v, n);
    }
    if t :| t in types && Fits(root, t, shared, v, n) {
      FittingVariantAccepts(root, types, t, shared, v, n);
    }
  }

  lemma {:induction false} FittingVariantAccepts(root: Json, types: seq<Json>, t: Json, shared: Fields, v: Json, n: nat)
    requires !HasKey(shared, "type") && t in types && Fits(root, t, shared, v, n)
    ensures VariantOf(t, shared) in Variants(types, shared) && Accepts(root, VariantOf(t, shared), v, n)
  {
    VariantMembers(types, shared, VariantOf(t, shared));
    AcceptsVariant(root, t, shared, v, n);
  }

  lemma {:induction false} OnlyNullHasTypeNull(v: Json, t: string)
    requires HasType(v, t)
    ensures v.Null? <==> t == "null"
  {
  }

  lemma {:induction false} AcceptsVariants(root: Json, types: seq<Json>, shared: Fields, v: Json, n: nat)
    requires !HasKey(shared, "type")
    ensures Accepts(root, Obj([Field("anyOf", Arr(Variants(types, shared)))]), v, n) <==>
      OneOfTypes(v, types) && (AcceptsAll(root, shared, {}, v, n) || (v.Null? && Str("null") in types))
  {
    var ws := Variants(types, shared);
    var f := Field("anyOf", Arr(ws));
    AcceptsOnly(root, f, v, n);
    assert Keyword(root, Props([f]), f, v, n) <==> exists w :: w in ws && Accepts(root, w, v, n);
    SomeVariantAccepts(root, types, shared, v, n);
    forall t | t in types && t.Str? && HasType(v, t.s) ensures v.Null? <==> t == Str("null") {
      OnlyNullHasTypeNull(v, t.s);
    }
  }

  /** A list-typed schema before the rewrite. */
  lemma {:induction false} AcceptsListTyped(root: Json, fs: Fields, v: Json, n: nat)
    requires ListTyped(fs) && Distinct(fs)
    ensures Accepts(root, Obj(fs), v, n) <==> OneOfTypes(v, Types(fs)) && AcceptsAll(root, fs, {"$schema", "type"}, v, n)
  {
    GetIsMember(fs, "type");
    var f := Field("type", Arr(Types(fs)));
    forall g | g in fs && g.key in {"$schema", "type"}
      ensures Keyword(root, Props(fs), g, v, n) == (g.key == "type" ==> OneOfTypes(v, Types(fs)))
    {
      DroppedKeyword(root, fs, g, v, n);
    }
    assert f in fs;
  }

  lemma {:induction false} DroppedKeyword(root: Json, fs: Fields, g: Field, v: Json, n: nat)
    requires ListTyped(fs) && Distinct(fs) && g in fs && g.key in {"$schema", "type"}
    ensures Keyword(root, Props(fs), g, v, n) == (g.key == "type" ==> OneOfTypes(v, Types(fs)))
  {
    MemberIsGet(fs, g);
  }

  lemma {:induction false} SchemaKeyIsIgnored(root: Json, fs: Fields, v: Json, n: nat)
    ensures Accepts(root, Obj(fs), v, n) == AcceptsAll(root, fs, {"$schema"}, v, n)
  {
    assert forall g | g in fs && g.key == "$schema" :: Keyword(root, Props(fs), g, v, n);
  }

  // ---------- the same values, keyword by keyword ----------

  lemma {:induction false} PropsKeys(root: Json, fs: Fields, drop: set<string>, k: string)
    requires Distinct(fs) && OneDefs(fs) && "properties" !in drop && forall f | f in fs :: WfKeyword(root, f)
    ensures HasKey(Props(TranslateFields(fs, drop)), k) == HasKey(Props(fs), k)
  {
    GetTranslated(fs, drop, "properties");
    if HasKey(fs, "properties") {
      GetIsMember(fs, "properties");
      var x := Get(fs, "properties").value;
      assert WfKeyword(root, Field("properties", x));
      NamedKeys(root, x, k);
    }
  }

  /** Members translated one by one, at the positions they had. */
  lemma {:induction false} SchemaLists(x: Json, s: Json)
    requires x.Arr?
    ensures s in Translate(x).items <==> exists t :: t in x.items && s == Translate(t)
  {
    var ys := Translate(x).items;
    if s in ys {
      var i :| 0 <= i < |ys| && ys[i] == s;
      assert x.items[i] in x.items;
    }
    if exists t :: t in x.items && s == Translate(t) {
      var t :| t in x.items && s == Translate(t);
      var i :| 0 <= i < |x.items| && x.items[i] == t;
      assert ys[i] == s;
    }
  }

  lemma {:induction false} Preserved(root: Json, s: Json, v: Json, n: nat)
    requires Document(root) && Wf(root, s) && NullOk(root, s) && RefsNullOk(root, s)
    ensures Accepts(Translate(root), Translate(s), v, n) == Accepts(root, s, v, n)
    decreases n, s, 1
  {
    if s.Obj? {
      var fs := s.fields;
      if ListTyped(fs) {
        var drop := {"$schema", "type"};
        var shared := TranslateFields(fs, drop);
        AllPreserved(root, fs, drop, v, n);
        ClaudeSchemaShape.FieldsAreCleanHere(fs, drop);
        AcceptsVariants(Translate(root), Types(fs), shared, v, n);
        AcceptsListTyped(root, fs, v, n);
        assert NullHere(root, fs, n);
      } else {
        AllPreserved(root, fs, {"$schema"}, v, n);
        SchemaKeyIsIgnored(root, fs, v, n);
      }
    }
  }

  lemma {:induction false} AllPreserved(root: Json, fs: Fields, drop: set<string>, v: Json, n: nat)
    requires Document(root) && Distinct(fs) && OneDefs(fs) && "properties" !in drop
    requires forall f | f in fs :: WfKeyword(root, f) && NullOkBelow(root, f) && RefsNullOkBelow(root, f)
    ensures AcceptsAll(Translate(root), TranslateFields(fs, drop), {}, v, n) == AcceptsAll(root, fs, drop, v, n)
    decreases n, fs
  {
    var gs := TranslateFields(fs, drop);
    var props, newProps := Props(fs), Props(gs);
    forall k ensures HasKey(newProps, k) == HasKey(props, k) {
      PropsKeys(root, fs, drop, k);
    }
    forall f | f in fs ensures Keyword(Translate(root), newProps, TranslatedField(f), v, n) == Keyword(root, props, f, v, n) {
      KeywordPreserved(root, props, newProps, f, v, n);
    }
    forall f | f in fs && f.key !in drop ensures TranslatedField(f) in gs {
      TranslatedMembers(fs, drop, TranslatedField(f));
    }
    forall g | g in gs ensures exists f :: f in fs && f.key !in drop && g == TranslatedField(f) {
      TranslatedMembers(fs, drop, g);
    }
  }

  lemma {:induction false} KeywordPreserved(root: Json, props: Fields, newProps: Fields, f: Field, v: Json, n: nat)
    requires Document(root) && WfKeyword(root, f) && NullOkBelow(root, f) && RefsNullOkBelow(root, f)
    requires forall k :: HasKey(newProps, k) == HasKey(props, k)
    ensures Keyword(Translate(root), newProps, TranslatedField(f), v, n) == Keyword(root, props, f, v, n)
    decreases n, f, 1
  {
    if f.key in VALUE_KEYWORDS {
      ValuePreserved(root, props, newProps, f, v, n);
    } else if f.key in SCHEMA_VALUED {
      SchemaValuePreserved(root, props, newProps, f, v, n);
    } else if f.key in SCHEMA_LISTS {
      SchemaListPreserved(root, props, newProps, f, v, n);
    } else if f.key == "properties" {
      PropertiesPreserved(root, props, newProps, f, v, n);
    } else if f.key == "$ref" {
      ReferencePreserved(root, props, newProps, f, v, n);
    } else {
      AnnotationPreserved(root, props, newProps, f, v, n);
    }
  }

  lemma {:induction false} ValuePreserved(root: Json, props: Fields, newProps: Fields, f: Field, v: Json, n: nat)
    requires f.key in VALUE_KEYWORDS && WfKeyword(root, f)
    ensures Keyword(Translate(root), newProps, TranslatedField(f), v, n) == Keyword(root, props, f, v, n)
  {
    PlainIsFixed(f.value);
    assert TranslatedField(f) == f;
  }

  lemma {:induction false} AnnotationPreserved(root: Json, props: Fields, newProps: Fields, f: Field, v: Json, n: nat)
    requires f.key !in VALUE_KEYWORDS + SCHEMA_VALUED + SCHEMA_LISTS + {"properties", "$ref"}
    ensures Keyword(Translate(root), newProps, TranslatedField(f), v, n) && Keyword(root, props, f, v, n)
  {
  }

  lemma {:induction false} SchemaValuePreserved(root: Json, props: Fields, newProps: Fields, f: Field, v: Json, n: nat)
    requires Document(root) && f.key in SCHEMA_VALUED && WfKeyword(root, f) && NullOkBelow(root, f) && RefsNullOkBelow(root, f)
    requires forall k :: HasKey(newProps, k) == HasKey(props, k)
    ensures Keyword(Translate(root), newProps, TranslatedField(f), v, n) == Keyword(root, props, f, v, n)
    decreases n, f, 0
  {
    forall w ensures Accepts(Translate(root), Translate(f.value), w, n) == Accepts(root, f.value, w, n) {
      Preserved(root, f.value, w, n);
    }
  }

  lemma {:induction false} SchemaListPreserved(root: Json, props: Fields, newProps: Fields, f: Field, v: Json, n: nat)
    requires Document(root) && f.key in SCHEMA_LISTS && WfKeyword(root, f) && NullOkBelow(root, f) && RefsNullOkBelow(root, f)
    ensures Keyword(Translate(root), newProps, TranslatedField(f), v, n) == Keyword(root, props, f, v, n)
    decreases n, f, 0
  {
    var x := f.value;
    forall s | s in x.items ensures Accepts(Translate(root), Translate(s), v, n) == Accepts(root, s, v, n) {
      Preserved(root, s, v, n);
    }
    forall s ensures s in Translate(x).items <==> exists t :: t in x.items && s == Translate(t) {
      SchemaLists(x, s);
    }
  }

  lemma {:induction false} ReferenceKeyword(root: Json, props: Fields, r: string, v: Json, n: nat)
    ensures Keyword(root, props, Field("$ref", Str(r)), v, n) <==>
      n > 0 && Resolve(root, r).Some? && Accepts(root, Resolve(root, r).value, v, n - 1)
  {
  }

  lemma {:induction false} ReferencePreserved(root: Json, props: Fields, newProps: Fields, f: Field, v: Json, n: nat)
    requires Document(root) && f.key == "$ref" && WfKeyword(root, f) && RefsNullOkBelow(root, f)
    ensures Keyword(Translate(root), newProps, TranslatedField(f), v, n) == Keyword(root, props, f, v, n)
    decreases n, f, 0
  {
    var r := f.value.s;
    ReferenceMoves(root, r);
    assert TranslatedField(f) == Field("$ref", Str(Replace(r)));
    ReferenceKeyword(root, props, r, v, n);
    ReferenceKeyword(Translate(root), newProps, Replace(r), v, n);
    if n > 0 {
      Preserved(root, Resolve(root, r).value, v, n - 1);
    }
  }

  lemma {:induction false} PropertiesPreserved(root: Json, props: Fields, newProps: Fields, f: Field, v: Json, n: nat)
    requires Document(root) && f.key == "properties" && WfKeyword(root, f) && NullOkBelow(root, f) && RefsNullOkBelow(root, f)
    ensures Keyword(Translate(root), newProps, TranslatedField(f), v, n) == Keyword(root, props, f, v, n)
    decreases n, f, 0
  {
    var x := f.value;
    var ps, gs := x.fields, Translate(x).fields;
    forall p, w | p in ps ensures Accepts(Translate(root), Translate(p.value), w, n) == Accepts(root, p.value, w, n) {
      Preserved(root, p.value, w, n);
    }
    forall g ensures g in gs <==> exists p :: p in ps && g == Field(p.key, Translate(p.value)) {
      NamedSchemas(root, x, g);
    }
    forall p | p in ps ensures Field(p.key, Translate(p.value)) in gs {
    }
  }

  /**
   The rewrite keeps the meaning: on the fragment (references resolve, no property or definition is
   named `$schema` or `$defs`, list-typed schemas that name null have only siblings accepting null),
   the rewritten schema accepts exactly the values the original accepts.
   */
  lemma {:induction false} TranslationKeepsMeaning(schema: Json, v: Json, n: nat)
    requires Fragment(schema)
    ensures Accepts(Translate(schema), Translate(schema), v, n) == Accepts(schema, schema, v, n)
  {
    NullOkRefs(schema, schema);
    Preserved(schema, schema, v, n);
  }

  /** When every list type of the document is null-tolerant, so are those that references reach. */
  lemma {:induction false} NullOkRefs(root: Json, s: Json)
    requires Fragment(root) && Wf(root, s)
    ensures RefsNullOk(root, s)
    decreases s
  {
    if s.Obj? {
      forall f | f in s.fields ensures RefsNullOkBelow(root, f) {
        NullOkRefsBelow(root, f);
      }
    }
  }

  lemma {:induction false} NullOkRefsBelow(root: Json, f: Field)
    requires Fragment(root) && WfKeyword(root, f)
    ensures RefsNullOkBelow(root, f)
    decreases f
  {
    var x := f.value;
    if f.key in SCHEMA_VALUED {
      NullOkRefs(root, x);
    } else if f.key in SCHEMA_LISTS {
      forall s | s in x.items ensures RefsNullOk(root, s) {
        NullOkRefs(root, s);
      }
    } else if f.key in NAMED_SCHEMAS {
      forall p | p in x.fields ensures RefsNullOk(root, p.value) {
        NullOkRefs(root, p.value);
      }
    } else if f.key == "$ref" {
      ReferenceMoves(root, x.s);
    }
  }

  // ---------- where the meaning changes ----------

  /**
   At a list-typed schema, the document itself or any schema inside it, the rewrite is exact just when
   null, if named, satisfies the siblings. The schemas below it and those its references reach are
   taken to be null-tolerant; the schema itself need not be.
   */
  lemma {:induction false} ListTypeExactlyWhen(root: Json, s: Json, n: nat)
    requires Document(root) && Wf(root, s) && RefsNullOk(root, s) && s.Obj? && ListTyped(s.fields)
    requires forall f | f in s.fields :: NullOkBelow(root, f)
    ensures (forall v :: Accepts(Translate(root), Translate(s), v, n) == Accepts(root, s, v, n)) <==> NullHere(root, s.fields, n)
  {
    forall v ensures Accepts(Translate(root), Translate(s), v, n) <==>
      Accepts(root, s, v, n) || (v.Null? && Str("null") in Types(s.fields))
    {
      ListTypeWidens(root, s, v, n);
    }
    AcceptsListTyped(root, s.fields, Null, n);
    if Str("null") in Types(s.fields) {
      assert HasType(Null, "null") && OneOfTypes(Null, Types(s.fields));
    }
  }

  /** It accepts what the original accepts, and null when null is one of the types. */
  lemma {:induction false} ListTypeWidens(root: Json, s: Json, v: Json, n: nat)
    requires Document(root) && Wf(root, s) && RefsNullOk(root, s) && s.Obj? && ListTyped(s.fields)
    requires forall f | f in s.fields :: NullOkBelow(root, f)
    ensures Accepts(Translate(root), Translate(s), v, n) <==>
      Accepts(root, s, v, n) || (v.Null? && Str("null") in Types(s.fields))
  {
    var fs := s.fields;
    var drop := {"$schema", "type"};
    AllPreserved(root, fs, drop, v, n);
    ClaudeSchemaShape.FieldsAreCleanHere(fs, drop);
    AcceptsVariants(Translate(root), Types(fs), TranslateFields(fs, drop), v, n);
    AcceptsListTyped(root, fs, v, n);
    if v.Null? && Str("null") in Types(fs) {
      assert HasType(Null, "null") && OneOfTypes(v, Types(fs));
    }
  }

  lemma {:induction false} TwoMembers(a: Field, b: Field, k: string)
    requires a.key != b.key
    ensures Distinct([a, b])
    ensures Get([a, b], k) == if k == a.key then Some(a.value) else if k == b.key then Some(b.value) else None
  {
    assert [a, b][1..] == [b] && [b][1..] == [];
    assert Get([b], k) == (if k == b.key then Some(b.value) else None) && Get([b], a.key) == None;
    assert Distinct([b]);
  }

  const NULLABLE_TYPES := Field("type", Arr([Str("string"), Str("null")]))
  const ONLY_A := Field("enum", Arr([Str("a")]))

  lemma {:induction false} NullableEnumIsDocument()
    ensures var fs := [NULLABLE_TYPES, ONLY_A];
      var schema := Obj(fs);
      Document(schema) && ListTyped(fs) && Types(fs) == [Str("string"), Str("null")] && Distinct(fs) &&
      forall f | f in fs :: NullOkBelow(schema, f)
  {
    var fs := [NULLABLE_TYPES, ONLY_A];
    var schema := Obj(fs);
    TwoMembers(NULLABLE_TYPES, ONLY_A, "type");
    TwoMembers(NULLABLE_TYPES, ONLY_A, "$defs");
    forall f | f in fs ensures WfKeyword(schema, f) && NullOkBelow(schema, f) && RefsNullOkBelow(schema, f) {
      assert f == NULLABLE_TYPES || f == ONLY_A;
    }
    TwoMembers(NULLABLE_TYPES, ONLY_A, "definitions");
  }

  /** Null is not in the enum, yet the rewritten schema accepts it. */
  lemma {:induction false} NullableEnumIsWidened(n: nat)
    ensures
      var schema := Obj([NULLABLE_TYPES, ONLY_A]);
      Accepts(Translate(schema), Translate(schema), Null, n) && !Accepts(schema, schema, Null, n)
  {
    var fs := [NULLABLE_TYPES, ONLY_A];
    var schema := Obj(fs);
    NullableEnumIsDocument();
    assert Types(fs)[1] == Str("null");
    ListTypeWidens(schema, schema, Null, n);
    AcceptsListTyped(schema, fs, Null, n);
    assert ONLY_A in fs && !Keyword(schema, Props(fs), ONLY_A, Null, n);
  }
}
