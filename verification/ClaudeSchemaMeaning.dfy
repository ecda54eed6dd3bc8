/**
 What a schema accepts, for the keywords of JSON Schema Validation 2020-12 section 6 and JSON Schema
 Core 2020-12 section 10 that the repository's contracts use, and the schemas whose meaning the rewrite
 keeps. `n` bounds the references followed on one path; every statement about it is for all `n`.
 */
module ClaudeSchemaMeaning {
  import opened Prelude
  import opened ClaudeSchema

  predicate HasType(v: Json, t: string) {
    match v
    case Null => t == "null"
    case Bool(_) => t == "boolean"
    case Num(x) => t == "number" || (t == "integer" && x.Floor as real == x)
    case Str(_) => t == "string"
    case Arr(_) => t == "array"
    case Obj(_) => t == "object"
  }

  predicate OneOfTypes(v: Json, types: seq<Json>) { exists t | t in types :: t.Str? && HasType(v, t.s) }

  /** The schema a reference names: the root, or one of its definitions by a plain name. */
  function Resolve(root: Json, r: string): Option<Json> {
    if r == "#" then Some(root)
    else if !root.Obj? then None
    else if StartsWith(r, DEFS_REF) then Definition(root.fields, "$defs", r[|DEFS_REF|..])
    else if StartsWith(r, DEFINITIONS_REF) then Definition(root.fields, "definitions", r[|DEFINITIONS_REF|..])
    else None
  }

  function Definition(fs: Fields, container: string, name: string): Option<Json> {
    var x := Get(fs, container);
    if x.Some? && x.value.Obj? && '/' !in name && '#' !in name && '~' !in name && '%' !in name then Get(x.value.fields, name) else None
  }

  function Props(fs: Fields): Fields {
    var x := Get(fs, "properties");
    if x.Some? && x.value.Obj? then x.value.fields else []
  }

  predicate Accepts(root: Json, s: Json, v: Json, n: nat)
    decreases n, s
  {
    match s
    case Bool(b) => b
    case Obj(fs) => AcceptsAll(root, fs, {}, v, n)
    case _ => false
  }

  /** Every keyword outside `drop` holds of `v`. */
  predicate AcceptsAll(root: Json, fs: Fields, drop: set<string>, v: Json, n: nat)
    decreases n, fs
  {
    forall f | f in fs && f.key !in drop :: Keyword(root, Props(fs), f, v, n)
  }

  predicate Bound(f: Field, v: Json) {
    f.value.Num? ==>
      match f.key
      case "minLength" => v.Str? ==> |v.s| as real >= f.value.n
      case "maxLength" => v.Str? ==> |v.s| as real <= f.value.n
      case "minItems" => v.Arr? ==> |v.items| as real >= f.value.n
      case "maxItems" => v.Arr? ==> |v.items| as real <= f.value.n
      case "minimum" => v.Num? ==> v.n >= f.value.n
      case "maximum" => v.Num? ==> v.n <= f.value.n
      case _ => true
  }

  /** One keyword; `props` are the sibling `properties`. Unknown keywords are annotations. */
  predicate Keyword(root: Json, props: Fields, f: Field, v: Json, n: nat)
    decreases n, f
  {
    var x := f.value;
    if f.key == "type" then (if x.Arr? then OneOfTypes(v, x.items) else x.Str? && HasType(v, x.s))
    else if f.key == "enum" then x.Arr? && v in x.items
    else if f.key == "const" then v == x
    else if f.key == "required" then
      x.Arr? && (v.Obj? ==> forall k | k in x.items && k.Str? :: HasKey(v.fields, k.s))
    else if f.key == "properties" then
      x.Obj? && (v.Obj? ==> forall p, m | p in x.fields && m in v.fields && p.key == m.key :: Accepts(root, p.value, m.value, n))
    else if f.key == "additionalProperties" then
      v.Obj? ==> forall m | m in v.fields && !HasKey(props, m.key) :: Accepts(root, x, m.value, n)
    else if f.key == "items" then v.Arr? ==> forall i | i in v.items :: Accepts(root, x, i, n)
    else if f.key == "not" then !Accepts(root, x, v, n)
    else if f.key == "anyOf" then x.Arr? && exists s | s in x.items :: Accepts(root, s, v, n)
    else if f.key == "allOf" then x.Arr? && forall s | s in x.items :: Accepts(root, s, v, n)
    else if f.key == "$ref" then
      x.Str? && n > 0 && Resolve(root, x.s).Some? && Accepts(root, Resolve(root, x.s).value, v, n - 1)
    else Bound(f, v)
  }

  // ---------- the fragment ----------

  /** Holds no object, so the rewrite leaves it alone. */
  predicate Plain(j: Json)
    decreases j
  {
    match j
    case Arr(items) => forall i | i in items :: Plain(i)
    case Obj(_) => false
    case _ => true
  }

  const SCHEMA_VALUED := {"items", "additionalProperties", "not"}
  const SCHEMA_LISTS := {"anyOf", "allOf"}
  const NAMED_SCHEMAS := {"properties", "$defs", "definitions"}
  const VALUE_KEYWORDS := {"type", "enum", "const", "required", "minLength", "maxLength", "minItems", "maxItems", "minimum", "maximum"}

  /** Well formed: names are not the two the rewrite gives a meaning of its own, references resolve. */
  predicate Wf(root: Json, s: Json)
    decreases s
  {
    s.Bool? || (s.Obj? && Distinct(s.fields) && OneDefs(s.fields) && forall f | f in s.fields :: WfKeyword(root, f))
  }

  predicate WfKeyword(root: Json, f: Field)
    decreases f
  {
    var x := f.value;
    (f.key in SCHEMA_VALUED ==> Wf(root, x)) &&
    (f.key in SCHEMA_LISTS ==> x.Arr? && forall s | s in x.items :: Wf(root, s)) &&
    (f.key in NAMED_SCHEMAS ==> (
      x.Obj? && Distinct(x.fields) &&
      forall p | p in x.fields :: p.key != "$schema" && p.key != "$defs" && Wf(root, p.value))) &&
    (f.key in VALUE_KEYWORDS ==> Plain(x)) &&
    (f.key == "$ref" ==> x.Str? && Resolve(root, x.s).Some?)
  }

  /** A list-typed schema naming null has only siblings that accept null. */
  ghost predicate NullHere(root: Json, fs: Fields, n: nat) {
    ListTyped(fs) && Str("null") in Types(fs) ==> AcceptsAll(root, fs, {"$schema", "type"}, Null, n)
  }

  /** The same at every subschema. */
  ghost predicate NullOk(root: Json, s: Json)
    decreases s
  {
    s.Obj? ==> (forall n: nat :: NullHere(root, s.fields, n)) && forall f | f in s.fields :: NullOkBelow(root, f)
  }

  ghost predicate NullOkBelow(root: Json, f: Field)
    decreases f
  {
    var x := f.value;
    (f.key in SCHEMA_VALUED ==> NullOk(root, x)) &&
    (f.key in SCHEMA_LISTS && x.Arr? ==> forall s | s in x.items :: NullOk(root, s)) &&
    (f.key in NAMED_SCHEMAS && x.Obj? ==> forall p | p in x.fields :: NullOk(root, p.value))
  }

  /** A list-typed root moves its definitions out of reach of the references. */
  predicate RootKeepsDefinitions(root: Json) {
    root.Obj? && (ListTyped(root.fields) ==> !HasKey(root.fields, "$defs") && !HasKey(root.fields, "definitions"))
  }

  /** Every schema that a reference in `s` reaches has only null-tolerant list types. */
  ghost predicate RefsNullOk(root: Json, s: Json)
    decreases s
  {
    s.Obj? ==> forall f | f in s.fields :: RefsNullOkBelow(root, f)
  }

  ghost predicate RefsNullOkBelow(root: Json, f: Field)
    decreases f
  {
    var x := f.value;
    (f.key in SCHEMA_VALUED ==> RefsNullOk(root, x)) &&
    (f.key in SCHEMA_LISTS && x.Arr? ==> forall s | s in x.items :: RefsNullOk(root, s)) &&
    (f.key in NAMED_SCHEMAS && x.Obj? ==> forall p | p in x.fields :: RefsNullOk(root, p.value)) &&
    (f.key == "$ref" && x.Str? && Resolve(root, x.s).Some? ==> NullOk(root, Resolve(root, x.s).value))
  }

  /** A document whose references survive the rewrite; its own schemas may still be widened. */
  ghost predicate Document(root: Json) { Wf(root, root) && RootKeepsDefinitions(root) && RefsNullOk(root, root) }

  ghost predicate Fragment(root: Json) { Wf(root, root) && NullOk(root, root) && RootKeepsDefinitions(root) }

  // ---------- pieces of the rewrite ----------

  lemma {:induction false} PlainIsFixed(j: Json)
    requires Plain(j)
    ensures Translate(j) == j
    decreases j
  {
    if j.Arr? {
      forall i | 0 <= i < |j.items| ensures Translate(j.items[i]) == j.items[i] {
        PlainIsFixed(j.items[i]);
      }
    }
  }

  /** A map from names to schemas keeps its names; each schema is translated. */
  lemma {:induction false} NamedSchemas(root: Json, x: Json, g: Field)
    requires x.Obj? && Distinct(x.fields)
    requires forall p | p in x.fields :: p.key != "$schema" && p.key != "$defs" && Wf(root, p.value)
    ensures Translate(x).Obj? && Distinct(Translate(x).fields)
    ensures g in Translate(x).fields <==> exists p :: p in x.fields && g == Field(p.key, Translate(p.value))
  {
    if HasKey(x.fields, "type") {
      GetIsMember(x.fields, "type");
    }
    if HasKey(x.fields, "$defs") {
      GetIsMember(x.fields, "$defs");
    }
    TranslatedMembers(x.fields, {"$schema"}, g);
    TranslatedAreDistinct(x.fields, {"$schema"});
    forall p | p in x.fields ensures p.key !in {"$schema"} && TranslatedField(p) == Field(p.key, Translate(p.value)) {
    }
  }

  lemma {:induction false} NamedKeys(root: Json, x: Json, k: string)
    requires x.Obj? && Distinct(x.fields)
    requires forall p | p in x.fields :: p.key != "$schema" && p.key != "$defs" && Wf(root, p.value)
    ensures Translate(x).Obj?
    ensures Get(Translate(x).fields, k) == if HasKey(x.fields, k) then Some(Translate(Get(x.fields, k).value)) else None
  {
    NamedSchemas(root, x, Field(k, Null));
    var gs := Translate(x).fields;
    if HasKey(x.fields, k) {
      GetIsMember(x.fields, k);
      var g := Field(k, Translate(Get(x.fields, k).value));
      NamedSchemas(root, x, g);
      MemberIsGet(gs, g);
    } else if HasKey(gs, k) {
      GetIsMember(gs, k);
      NamedSchemas(root, x, Field(k, Get(gs, k).value));
      var p :| p in x.fields && Field(k, Get(gs, k).value) == Field(p.key, Translate(p.value));
      MemberHasKey(x.fields, p);
    }
  }

  /** The member a keyword becomes. */
  lemma {:induction false} GetTranslated(fs: Fields, drop: set<string>, k: string)
    requires Distinct(fs) && OneDefs(fs) && k !in drop && k != "$ref" && k != "$defs" && k != "definitions"
    ensures Get(TranslateFields(fs, drop), k) == if HasKey(fs, k) then Some(Translate(Get(fs, k).value)) else None
  {
    var gs := TranslateFields(fs, drop);
    TranslatedAreDistinct(fs, drop);
    if HasKey(fs, k) {
      GetIsMember(fs, k);
      var f := Field(k, Get(fs, k).value);
      assert TranslatedField(f) == Field(k, Translate(f.value));
      TranslatedMembers(fs, drop, TranslatedField(f));
      MemberIsGet(gs, TranslatedField(f));
    } else if HasKey(gs, k) {
      TranslatedKeys(fs, drop, k);
    }
  }
}
