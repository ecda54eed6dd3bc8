/**
 What the rewrite loses outside the fragment that keeps its meaning: the references of a list-typed
 root, and the names `$schema` and `$defs` where names stand for properties or definitions.
 */
module ClaudeSchemaLosses {
  import opened Prelude
  import opened ClaudeSchema
  import opened ClaudeSchemaMeaning
  import opened ClaudeSchemaProofs
  import ClaudeSchemaShape

  // ---------- references of a list-typed root ----------

  lemma {:induction false} OnlyHashBecomesHash(r: string)
    ensures Replace(r) == "#" <==> r == "#"
  {
    if r != "" && !StartsWith(r, DEFS_REF) {
      assert Replace(r) == [r[0]] + Replace(r[1..]);
      if |r| > 1 {
        assert Replace(r[1..]) != "";
      } else {
        assert r[1..] == "" && r == [r[0]];
      }
    }
  }

  /** The rewrite of a list-typed root has no definitions, so no reference but `#` resolves in it. */
  lemma {:induction false} ListTypedRootHides(root: Json, r: string)
    requires root.Obj? && ListTyped(root.fields) && r != "#"
    ensures Resolve(Translate(root), Replace(r)).None?
  {
    OnlyHashBecomesHash(r);
    var fs := Translate(root).fields;
    assert |fs| == 1 && fs[0].key == "anyOf" && fs[1..] == [];
    assert Get(fs, "$defs").None? && Get(fs, "definitions").None?;
  }

  /**
   A reference that resolves in a well formed document resolves after the rewrite, to the rewritten
   schema, exactly when it names the document itself or the root is not list-typed.
   */
  lemma {:induction false} ReferenceResolvesExactlyWhen(root: Json, r: string)
    requires Wf(root, root) && root.Obj? && Resolve(root, r).Some?
    ensures Resolve(Translate(root), Replace(r)).Some? <==> r == "#" || !ListTyped(root.fields)
    ensures Resolve(Translate(root), Replace(r)).Some? ==>
      Resolve(Translate(root), Replace(r)) == Some(Translate(Resolve(root, r).value))
  {
    if r == "#" {
      OnlyHashBecomesHash(r);
    } else if ListTyped(root.fields) {
      ListTypedRootHides(root, r);
    } else {
      ReferenceMoves(root, r);
    }
  }

  /** A reference keyword of a list-typed root, wherever it stands, accepts nothing after the rewrite. */
  lemma {:induction false} HiddenReferenceRejects(root: Json, props: Fields, r: string, v: Json, n: nat)
    requires root.Obj? && ListTyped(root.fields) && r != "#"
    ensures !Keyword(Translate(root), props, TranslatedField(Field("$ref", Str(r))), v, n)
  {
    ListTypedRootHides(root, r);
    assert TranslatedField(Field("$ref", Str(r))) == Field("$ref", Str(Replace(r)));
    ReferenceKeyword(Translate(root), props, Replace(r), v, n);
  }

  /** A list-typed root that refers to a definition accepts null after the rewrite, if named, and nothing else. */
  lemma {:induction false} ListTypedRootWithReference(fs: Fields, r: string, v: Json, n: nat)
    requires Distinct(fs) && OneDefs(fs) && ListTyped(fs) && Field("$ref", Str(r)) in fs && r != "#"
    ensures Accepts(Translate(Obj(fs)), Translate(Obj(fs)), v, n) <==> v.Null? && Str("null") in Types(fs)
  {
    var drop := {"$schema", "type"};
    var root, shared := Translate(Obj(fs)), TranslateFields(fs, drop);
    var ref := Field("$ref", Str(r));
    TranslatedMembers(fs, drop, TranslatedField(ref));
    HiddenReferenceRejects(Obj(fs), Props(shared), r, v, n);
    assert TranslatedField(ref).key !in {} && !AcceptsAll(root, shared, {}, v, n);
    ClaudeSchemaShape.FieldsAreCleanHere(fs, drop);
    AcceptsVariants(root, Types(fs), shared, v, n);
    if v.Null? && Str("null") in Types(fs) {
      assert HasType(Null, "null") && OneOfTypes(v, Types(fs));
    }
  }

  lemma {:induction false} ThreeMembers(a: Field, b: Field, c: Field, k: string)
    requires a.key != b.key && a.key != c.key && b.key != c.key
    ensures Distinct([a, b, c])
    ensures Get([a, b, c], k) ==
      if k == a.key then Some(a.value) else if k == b.key then Some(b.value) else if k == c.key then Some(c.value) else None
  {
    assert [a, b, c][1..] == [b, c] && [b, c][1..] == [c] && [c][1..] == [];
    assert Get([c], k) == (if k == c.key then Some(c.value) else None) && Get([c], a.key) == None && Get([c], b.key) == None;
    assert Distinct([c]) && Distinct([b, c]);
  }

  const REF_X := Field("$ref", Str("#/$defs/x"))
  const STRING_TYPES := Field("type", Arr([Str("string")]))
  const DEFS_X := Field("$defs", Obj([Field("x", Bool(true))]))

  lemma {:induction false} RefXResolves()
    ensures Resolve(Obj([REF_X, STRING_TYPES, DEFS_X]), "#/$defs/x") == Some(Bool(true))
  {
    ThreeMembers(REF_X, STRING_TYPES, DEFS_X, "$defs");
    assert "#/$defs/x"[..|DEFS_REF|] == DEFS_REF && "#/$defs/x"[|DEFS_REF|..] == "x";
  }

  lemma {:induction false} ListTypedRootAccepts(n: nat)
    requires n > 0
    ensures var fs := [REF_X, STRING_TYPES, DEFS_X];
      Distinct(fs) && OneDefs(fs) && ListTyped(fs) && Types(fs) == [Str("string")] && Accepts(Obj(fs), Obj(fs), Str(""), n)
  {
    var fs, v := [REF_X, STRING_TYPES, DEFS_X], Str("");
    ThreeMembers(REF_X, STRING_TYPES, DEFS_X, "type");
    ThreeMembers(REF_X, STRING_TYPES, DEFS_X, "definitions");
    assert [Str("string")][0] in [Str("string")] && HasType(v, "string");
    RefXResolves();
    ReferenceKeyword(Obj(fs), Props(fs), "#/$defs/x", v, n);
    assert Keyword(Obj(fs), Props(fs), DEFS_X, v, n);
    AcceptsListTyped(Obj(fs), fs, v, n);
  }

  /** A concrete root: the original accepts a string, the rewrite does not. */
  lemma {:induction false} ListTypedRootLosesDefinitions(n: nat)
    requires n > 0
    ensures
      var schema := Obj([REF_X, STRING_TYPES, DEFS_X]);
      Accepts(schema, schema, Str(""), n) && !Accepts(Translate(schema), Translate(schema), Str(""), n)
  {
    ListTypedRootAccepts(n);
    ListTypedRootWithReference([REF_X, STRING_TYPES, DEFS_X], "#/$defs/x", Str(""), n);
  }

  // ---------- the document with the names dropped and renamed first ----------

  /** The document as the rewrite reads it: no property or definition named `$schema`, and `$defs` is `definitions`. */
  function Purged(s: Json): Json
    decreases s
  {
    match s
    case Obj(fs) => Obj(seq(|fs|, i requires 0 <= i < |fs| => Field(fs[i].key, PurgedValue(fs[i]))))
    case _ => s
  }

  function PurgedValue(f: Field): Json
    decreases f
  {
    var x := f.value;
    if f.key in SCHEMA_VALUED then Purged(x)
    else if f.key in SCHEMA_LISTS && x.Arr? then Arr(seq(|x.items|, i requires 0 <= i < |x.items| => Purged(x.items[i])))
    else if f.key in NAMED_SCHEMAS && x.Obj? then Obj(PurgedNames(x.fields))
    else x
  }

  function PurgedNames(ps: Fields): Fields
    decreases ps
  {
    if ps == [] then [] else
    var done := PurgedNames(ps[..|ps| - 1]);
    var p := ps[|ps| - 1];
    if p.key == "$schema" then done else Put(done, Renamed(p.key), Purged(p.value))
  }

  /** Names stand for schemas, at every subschema. */
  predicate NamesSchemas(s: Json)
    decreases s
  {
    s.Obj? ==> forall f | f in s.fields :: NamesSchemasBelow(f)
  }

  predicate NamesSchemasBelow(f: Field)
    decreases f
  {
    var x := f.value;
    (f.key in SCHEMA_VALUED ==> NamesSchemas(x)) &&
    (f.key in SCHEMA_LISTS && x.Arr? ==> forall s | s in x.items :: NamesSchemas(s)) &&
    (f.key in NAMED_SCHEMAS && x.Obj? ==> forall p | p in x.fields :: (p.value.Obj? || p.value.Bool?) && NamesSchemas(p.value))
  }

  predicate NoReserved(ps: Fields) { Distinct(ps) && forall p | p in ps :: p.key != "$schema" && p.key != "$defs" }

  /** Every member translated in its place. */
  function Each(ps: Fields): Fields { if ps == [] then [] else [TranslatedField(ps[0])] + Each(ps[1..]) }

  lemma {:induction false} EachAppends(ps: Fields, p: Field)
    ensures Each(ps + [p]) == Each(ps) + [TranslatedField(p)]
  {
    if ps == [] {
      assert [p][1..] == [];
    } else {
      assert (ps + [p])[1..] == ps[1..] + [p];
      EachAppends(ps[1..], p);
    }
  }

  lemma {:induction false} EachKeys(ps: Fields, k: string)
    requires forall p | p in ps :: p.key != "$defs"
    ensures HasKey(Each(ps), k) == HasKey(ps, k)
  {
    if ps != [] {
      assert ps[0] in ps;
      EachKeys(ps[1..], k);
    }
  }

  lemma {:induction false} TranslatedInPlace(ps: Fields)
    requires NoReserved(ps)
    ensures TranslateFields(ps, {"$schema"}) == Each(ps)
    decreases |ps|
  {
    if ps != [] {
      var n := |ps| - 1;
      var rest, p := ps[..n], ps[n];
      assert ps == rest + [p] && p in ps;
      DistinctPrefix(ps, n);
      TranslatedInPlace(rest);
      EachAppends(rest, p);
      EachKeys(rest, p.key);
      PutNewAppends(Each(rest), p.key, TranslatedField(p).value);
    }
  }

  lemma {:induction false} EachOfPut(ps: Fields, p: Field)
    requires p.key != "$defs" && forall q | q in ps :: q.key != "$defs"
    ensures Each(Put(ps, p.key, p.value)) == Put(Each(ps), p.key, TranslatedField(p).value)
  {
    if ps == [] {
      assert [p][1..] == [];
    } else {
      assert ps[0] in ps;
      if ps[0].key == p.key {
        assert ([p] + ps[1..])[1..] == ps[1..];
        assert Each(ps)[1..] == Each(ps[1..]);
      } else {
        EachOfPut(ps[1..], p);
        assert ([ps[0]] + Put(ps[1..], p.key, p.value))[1..] == Put(ps[1..], p.key, p.value);
        assert Each(ps)[1..] == Each(ps[1..]);
      }
    }
  }

  lemma {:induction false} PutNotReserved(ps: Fields, p: Field)
    requires NoReserved(ps) && p.key != "$schema" && p.key != "$defs"
    ensures NoReserved(Put(ps, p.key, p.value))
  {
    PutKeepsDistinct(ps, p.key, p.value);
    forall q | q in Put(ps, p.key, p.value) ensures q.key != "$schema" && q.key != "$defs" {
      PutMembers(ps, p.key, p.value, q);
    }
  }

  lemma {:induction false} PurgedNotReserved(ps: Fields)
    ensures NoReserved(PurgedNames(ps))
    decreases |ps|
  {
    if ps != [] {
      var p := ps[|ps| - 1];
      PurgedNotReserved(ps[..|ps| - 1]);
      if p.key != "$schema" {
        PutNotReserved(PurgedNames(ps[..|ps| - 1]), Field(Renamed(p.key), Purged(p.value)));
      }
    }
  }

  lemma {:induction false} PurgedValues(ps: Fields, q: Field)
    requires q in PurgedNames(ps)
    ensures exists p :: p in ps && q.value == Purged(p.value)
    decreases |ps|
  {
    var n := |ps| - 1;
    var p := ps[n];
    assert p in ps;
    if p.key != "$schema" {
      PutMembers(PurgedNames(ps[..n]), Renamed(p.key), Purged(p.value), q);
    }
    if p.key == "$schema" || q != Field(Renamed(p.key), Purged(p.value)) {
      PurgedValues(ps[..n], q);
    }
  }

  // ---------- the rewrite does not tell the two apart ----------

  lemma {:induction false} NamesRewrittenAlike(ps: Fields)
    requires forall p | p in ps :: Translate(Purged(p.value)) == Translate(p.value)
    ensures TranslateFields(PurgedNames(ps), {"$schema"}) == TranslateFields(ps, {"$schema"})
    decreases |ps|
  {
    if ps != [] {
      var n := |ps| - 1;
      var rest, p := ps[..n], ps[n];
      assert p in ps;
      NamesRewrittenAlike(rest);
      if p.key != "$schema" {
        var done, q := PurgedNames(rest), Field(Renamed(p.key), Purged(p.value));
        PurgedNotReserved(rest);
        PutNotReserved(done, q);
        TranslatedInPlace(done);
        TranslatedInPlace(Put(done, q.key, q.value));
        EachOfPut(done, q);
      }
    }
  }

  lemma {:induction false} NamesMapRewrittenAlike(x: Json)
    requires x.Obj? && forall p | p in x.fields :: (p.value.Obj? || p.value.Bool?) && Translate(Purged(p.value)) == Translate(p.value)
    ensures Translate(Obj(PurgedNames(x.fields))) == Translate(x)
  {
    var ps := x.fields;
    if ListTyped(ps) {
      GetIsMember(ps, "type");
    }
    if ListTyped(PurgedNames(ps)) {
      GetIsMember(PurgedNames(ps), "type");
      PurgedValues(ps, Field("type", Get(PurgedNames(ps), "type").value));
    }
    NamesRewrittenAlike(ps);
  }

  /** The rewrite of a document is the rewrite of its purged form. */
  lemma {:induction false} RewrittenAlike(s: Json)
    requires NamesSchemas(s)
    ensures Translate(Purged(s)) == Translate(s)
    decreases s, 1
  {
    if s.Obj? {
      var fs, gs := s.fields, Purged(s).fields;
      forall i | 0 <= i < |fs| ensures Translate(gs[i].value) == Translate(fs[i].value) {
        assert fs[i] in fs;
        ValueRewrittenAlike(fs[i]);
      }
      SameType(fs, gs);
      FieldsRewrittenAlike(fs, gs, |fs|, {"$schema"});
      FieldsRewrittenAlike(fs, gs, |fs|, {"$schema", "type"});
      assert fs[..|fs|] == fs && gs[..|fs|] == gs;
    }
  }

  lemma {:induction false} ValueRewrittenAlike(f: Field)
    requires NamesSchemasBelow(f)
    ensures Translate(PurgedValue(f)) == Translate(f.value)
    decreases f, 0
  {
    var x := f.value;
    if f.key in SCHEMA_VALUED {
      RewrittenAlike(x);
    } else if f.key in SCHEMA_LISTS && x.Arr? {
      forall i | 0 <= i < |x.items| ensures Translate(Purged(x.items[i])) == Translate(x.items[i]) {
        assert x.items[i] in x.items;
        RewrittenAlike(x.items[i]);
      }
    } else if f.key in NAMED_SCHEMAS && x.Obj? {
      forall p | p in x.fields ensures Translate(Purged(p.value)) == Translate(p.value) {
        RewrittenAlike(p.value);
      }
      NamesMapRewrittenAlike(x);
    }
  }

  lemma {:induction false} SameType(fs: Fields, gs: Fields)
    requires |gs| == |fs| && forall i | 0 <= i < |fs| :: gs[i] == Field(fs[i].key, PurgedValue(fs[i]))
    ensures Get(gs, "type") == Get(fs, "type")
  {
    if fs != [] {
      SameType(fs[1..], gs[1..]);
    }
  }

  lemma {:induction false} FieldsRewrittenAlike(fs: Fields, gs: Fields, n: nat, drop: set<string>)
    requires |gs| == |fs| && n <= |fs|
    requires forall i | 0 <= i < |fs| :: gs[i].key == fs[i].key && Translate(gs[i].value) == Translate(fs[i].value)
    ensures TranslateFields(gs[..n], drop) == TranslateFields(fs[..n], drop)
  {
    if n > 0 {
      FieldsRewrittenAlike(fs, gs, n - 1, drop);
      assert fs[..n][..n - 1] == fs[..n - 1] && gs[..n][..n - 1] == gs[..n - 1];
    }
  }

  /**
   What the rewrite of a document with such names accepts: exactly what the document accepts once its
   properties and definitions named `$schema` are dropped and those named `$defs` are called `definitions`.
   */
  lemma {:induction false} ReservedNamesAreLost(schema: Json, v: Json, n: nat)
    requires NamesSchemas(schema) && Fragment(Purged(schema))
    ensures Accepts(Translate(schema), Translate(schema), v, n) == Accepts(Purged(schema), Purged(schema), v, n)
  {
    RewrittenAlike(schema);
    TranslationKeepsMeaning(Purged(schema), v, n);
  }

  /** Which schema a name has in the purged document. */
  lemma {:induction false} PurgedName(ps: Fields, k: string)
    requires Distinct(ps) && OneDefs(ps)
    ensures Get(PurgedNames(ps), k) ==
      if k == "$schema" || k == "$defs" then None
      else if k == "definitions" && HasKey(ps, "$defs") then Some(Purged(Get(ps, "$defs").value))
      else if HasKey(ps, k) then Some(Purged(Get(ps, k).value)) else None
    decreases |ps|
  {
    if ps != [] {
      var n := |ps| - 1;
      var rest, p := ps[..n], ps[n];
      DistinctPrefix(ps, n);
      GetOfPrefix(ps, n, "$defs");
      GetOfPrefix(ps, n, "definitions");
      PurgedName(rest, k);
      GetOfPut(PurgedNames(rest), Renamed(p.key), Purged(p.value), k);
      assert ps == rest + [p];
      GetOfAppend(rest, p, k);
      GetOfAppend(rest, p, "$defs");
    }
  }

  lemma {:induction false} GetOfAppend(ps: Fields, p: Field, k: string)
    ensures Get(ps + [p], k) == if HasKey(ps, k) then Get(ps, k) else if p.key == k then Some(p.value) else None
  {
    if ps == [] {
      assert [p][1..] == [];
    } else {
      assert (ps + [p])[1..] == ps[1..] + [p];
      GetOfAppend(ps[1..], p, k);
    }
  }

  // ---------- one map of names ----------

  lemma {:induction false} NameKept(ps: Fields, k: string)
    requires Distinct(ps) && HasKey(ps, k) && !HasKey(ps, "$schema") && !HasKey(ps, "$defs")
    requires forall p | p in ps :: p.value.Obj? || p.value.Bool?
    ensures Get(TranslateFields(ps, {"$schema"}), k) == Some(Translate(Get(ps, k).value))
  {
    var gs := TranslateFields(ps, {"$schema"});
    GetIsMember(ps, k);
    var p := Field(k, Get(ps, k).value);
    assert TranslatedField(p) == Field(k, Translate(p.value));
    TranslatedAreDistinct(ps, {"$schema"});
    TranslatedMembers(ps, {"$schema"}, TranslatedField(p));
    MemberIsGet(gs, TranslatedField(p));
  }

  lemma {:induction false} NamesMapRewritten(x: Json)
    requires x.Obj? && Distinct(x.fields) && forall p | p in x.fields :: p.value.Obj? || p.value.Bool?
    ensures Translate(x) == Obj(TranslateFields(x.fields, {"$schema"}))
    ensures !HasKey(Translate(x).fields, "$schema") && !HasKey(Translate(x).fields, "$defs")
  {
    if ListTyped(x.fields) {
      GetIsMember(x.fields, "type");
    }
    ClaudeSchemaShape.FieldsAreCleanHere(x.fields, {"$schema"});
  }

  /** Every name of a map keeps its rewritten schema exactly when no name is `$schema` or `$defs`. */
  lemma {:induction false} NamesKeptExactlyWhen(x: Json)
    requires x.Obj? && Distinct(x.fields) && forall p | p in x.fields :: p.value.Obj? || p.value.Bool?
    ensures Translate(x).Obj?
    ensures (forall k | HasKey(x.fields, k) :: Get(Translate(x).fields, k) == Some(Translate(Get(x.fields, k).value))) <==>
      !HasKey(x.fields, "$schema") && !HasKey(x.fields, "$defs")
  {
    NamesMapRewritten(x);
    if !HasKey(x.fields, "$schema") && !HasKey(x.fields, "$defs") {
      forall k | HasKey(x.fields, k) ensures Get(Translate(x).fields, k) == Some(Translate(Get(x.fields, k).value)) {
        NameKept(x.fields, k);
      }
    }
  }

  lemma {:induction false} OneMember(f: Field)
    ensures Distinct([f]) && TranslateFields([f], {"$schema"}) == if f.key == "$schema" then [] else [TranslatedField(f)]
    ensures f.key != "type" ==> !ListTyped([f])
  {
    assert [f][1..] == [] && Get([], "type").None?;
    assert Get([f], "type") == if f.key == "type" then Some(f.value) else Get([f][1..], "type");
  }

  /** What a schema with one property says. */
  lemma {:induction false} OneProperty(k: string, s: Json, root: Json, v: Json, n: nat)
    ensures Accepts(root, Obj([Field("properties", Obj([Field(k, s)]))]), v, n) <==>
      (v.Obj? ==> forall m | m in v.fields && m.key == k :: Accepts(root, s, m.value, n))
  {
    var p := Field(k, s);
    var f := Field("properties", Obj([p]));
    AcceptsOnly(root, f, v, n);
    assert p in [p];
  }

  /** A property named `$schema`, whatever its schema: the rewrite accepts every value. */
  lemma {:induction false} PropertyNamedSchemaIsDropped(s: Json, v: Json, n: nat)
    ensures
      var schema := Obj([Field("properties", Obj([Field("$schema", s)]))]);
      Accepts(Translate(schema), Translate(schema), v, n) &&
      (Accepts(schema, schema, v, n) <==> (v.Obj? ==> forall m | m in v.fields && m.key == "$schema" :: Accepts(schema, s, m.value, n)))
  {
    var p := Field("$schema", s);
    var f := Field("properties", Obj([p]));
    OneMember(p);
    OneMember(f);
    OneProperty("$schema", s, Obj([f]), v, n);
    var g := Field("properties", Obj([]));
    assert Translate(Obj([f])) == Obj([g]);
    AcceptsOnly(Obj([g]), g, v, n);
  }

  /** A property named `$defs`, whatever its schema: the rewrite constrains the property `definitions` instead. */
  lemma {:induction false} PropertyNamedDefsIsRenamed(s: Json, v: Json, n: nat)
    ensures
      var schema := Obj([Field("properties", Obj([Field("$defs", s)]))]);
      (Accepts(Translate(schema), Translate(schema), v, n) <==>
        (v.Obj? ==> forall m | m in v.fields && m.key == "definitions" :: Accepts(Translate(schema), Translate(s), m.value, n))) &&
      (Accepts(schema, schema, v, n) <==> (v.Obj? ==> forall m | m in v.fields && m.key == "$defs" :: Accepts(schema, s, m.value, n)))
  {
    var p := Field("$defs", s);
    var f := Field("properties", Obj([p]));
    OneMember(p);
    OneMember(f);
    OneProperty("$defs", s, Obj([f]), v, n);
    var g := Field("properties", Obj([Field("definitions", Translate(s))]));
    assert TranslatedField(p) == Field("definitions", Translate(s));
    assert Translate(Obj([f])) == Obj([g]);
    OneProperty("definitions", Translate(s), Obj([g]), v, n);
  }

  /** A concrete property named `$schema` that rejects everything, and its rewrite. */
  lemma {:induction false} PropertyNamedSchemaIsLost(n: nat)
    ensures
      var schema := Obj([Field("properties", Obj([Field("$schema", Bool(false))]))]);
      var v := Obj([Field("$schema", Null)]);
      !Accepts(schema, schema, v, n) && Accepts(Translate(schema), Translate(schema), v, n)
  {
    var v := Obj([Field("$schema", Null)]);
    PropertyNamedSchemaIsDropped(Bool(false), v, n);
    assert Field("$schema", Null) in v.fields;
  }

  /** The same for a property named `$defs`. */
  lemma {:induction false} PropertyNamedDefsIsLost(n: nat)
    ensures
      var schema := Obj([Field("properties", Obj([Field("$defs", Bool(false))]))]);
      var v := Obj([Field("$defs", Null)]);
      !Accepts(schema, schema, v, n) && Accepts(Translate(schema), Translate(schema), v, n)
  {
    var v := Obj([Field("$defs", Null)]);
    PropertyNamedDefsIsRenamed(Bool(false), v, n);
    assert Field("$defs", Null) in v.fields;
  }
}
