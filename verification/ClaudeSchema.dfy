/**
 The rewrite of a JSON Schema into the subset the Claude CLI accepts (`_claude_compatible_schema`),
 as a function on JSON values. A JSON object is the ordered list of its members, as a Python dict is.
 */
module ClaudeSchema {
  import opened Prelude

  datatype Json = Null | Bool(b: bool) | Num(n: real) | Str(s: string) | Arr(items: seq<Json>) | Obj(fields: seq<Field>)
  datatype Field = Field(key: string, value: Json)

  type Fields = seq<Field>

  function Get(fs: Fields, k: string): Option<Json> {
    if fs == [] then None else if fs[0].key == k then Some(fs[0].value) else Get(fs[1..], k)
  }

  /** `result[k] = v`. */
  function Put(fs: Fields, k: string, v: Json): Fields {
    if fs == [] then [Field(k, v)]
    else if fs[0].key == k then [Field(k, v)] + fs[1..]
    else [fs[0]] + Put(fs[1..], k, v)
  }

  // ---------- the rewrite ----------

  const DEFS_REF := "#/$defs/"
  const DEFINITIONS_REF := "#/definitions/"

  function StartsWith(s: string, w: string): bool { |w| <= |s| && s[..|w|] == w }

  /** `s.replace("#/$defs/", "#/definitions/")`. */
  function Replace(s: string): string
    decreases |s|
  {
    if s == "" then ""
    else if StartsWith(s, DEFS_REF) then DEFINITIONS_REF + Replace(s[|DEFS_REF|..])
    else [s[0]] + Replace(s[1..])
  }

  function Renamed(k: string): string { if k == "$defs" then "definitions" else k }

  function Retargeted(k: string, v: Json): Json { if k == "$ref" && v.Str? then Str(Replace(v.s)) else v }

  predicate ListTyped(fs: Fields) { Get(fs, "type").Some? && Get(fs, "type").value.Arr? }

  function Types(fs: Fields): seq<Json>
    requires ListTyped(fs)
  {
    Get(fs, "type").value.items
  }

  /** One alternative per type name; a null alternative carries no other keyword. */
  function Variants(types: seq<Json>, shared: Fields): seq<Json> {
    if types == [] then []
    else if !types[0].Str? then Variants(types[1..], shared)
    else [Obj([Field("type", types[0])] + if types[0].s == "null" then [] else shared)] + Variants(types[1..], shared)
  }

  function Translate(j: Json): Json
    decreases j
  {
    match j
    case Arr(items) => Arr(seq(|items|, i requires 0 <= i < |items| => Translate(items[i])))
    case Obj(fs) =>
      if ListTyped(fs) then Obj([Field("anyOf", Arr(Variants(Types(fs), TranslateFields(fs, {"$schema", "type"}))))])
      else Obj(TranslateFields(fs, {"$schema"}))
    case _ => j
  }

  /** The members not in `drop`, translated, inserted one by one. */
  function TranslateFields(fs: Fields, drop: set<string>): Fields
    decreases fs
  {
    if fs == [] then [] else
    var done := TranslateFields(fs[..|fs| - 1], drop);
    var f := fs[|fs| - 1];
    if f.key in drop then done else Put(done, Renamed(f.key), Retargeted(Renamed(f.key), Translate(f.value)))
  }

  // ---------- reading members ----------

  predicate HasKey(fs: Fields, k: string) { Get(fs, k).Some? }

  predicate Distinct(fs: Fields) { fs == [] || (!HasKey(fs[1..], fs[0].key) && Distinct(fs[1..])) }

  lemma {:induction false} MemberHasKey(fs: Fields, f: Field)
    requires f in fs
    ensures HasKey(fs, f.key)
  {
    if fs[0] != f {
      MemberHasKey(fs[1..], f);
    }
  }

  lemma {:induction false} GetIsMember(fs: Fields, k: string)
    requires HasKey(fs, k)
    ensures Field(k, Get(fs, k).value) in fs
  {
    if fs[0].key != k {
      GetIsMember(fs[1..], k);
    }
  }

  lemma {:induction false} MemberIsGet(fs: Fields, f: Field)
    requires Distinct(fs) && f in fs
    ensures Get(fs, f.key) == Some(f.value)
  {
    if fs[0] != f {
      MemberIsGet(fs[1..], f);
    }
  }

  lemma {:induction false} GetOfPut(fs: Fields, k: string, v: Json, l: string)
    ensures Get(Put(fs, k, v), l) == if l == k then Some(v) else Get(fs, l)
  {
    if fs != [] && fs[0].key != k {
      GetOfPut(fs[1..], k, v, l);
      assert Put(fs, k, v)[1..] == Put(fs[1..], k, v);
    }
  }

  lemma {:induction false} PutKeepsDistinct(fs: Fields, k: string, v: Json)
    requires Distinct(fs)
    ensures Distinct(Put(fs, k, v))
  {
    if fs != [] {
      var p := Put(fs, k, v);
      if fs[0].key == k {
        assert p[1..] == fs[1..];
      } else {
        PutKeepsDistinct(fs[1..], k, v);
        GetOfPut(fs[1..], k, v, fs[0].key);
        assert p[1..] == Put(fs[1..], k, v);
      }
    }
  }

  lemma {:induction false} PutMembers(fs: Fields, k: string, v: Json, f: Field)
    requires f in Put(fs, k, v)
    ensures f == Field(k, v) || f in fs
  {
    if fs != [] && fs[0].key != k {
      if f != fs[0] {
        PutMembers(fs[1..], k, v, f);
      }
    }
  }

  lemma {:induction false} PutNewAppends(fs: Fields, k: string, v: Json)
    requires !HasKey(fs, k)
    ensures Put(fs, k, v) == fs + [Field(k, v)]
  {
    if fs != [] {
      PutNewAppends(fs[1..], k, v);
    }
  }

  lemma {:induction false} GetOfPrefix(fs: Fields, n: nat, k: string)
    requires n <= |fs|
    ensures HasKey(fs[..n], k) ==> HasKey(fs, k)
  {
    if n > 0 && fs[0].key != k {
      assert fs[..n][1..] == fs[1..][..n - 1];
      GetOfPrefix(fs[1..], n - 1, k);
    }
  }

  lemma {:induction false} DistinctPrefix(fs: Fields, n: nat)
    requires Distinct(fs) && n < |fs|
    ensures Distinct(fs[..n]) && !HasKey(fs[..n], fs[n].key)
  {
    if n > 0 {
      assert fs[..n][1..] == fs[1..][..n - 1];
      DistinctPrefix(fs[1..], n - 1);
      GetOfPrefix(fs[1..], n - 1, fs[0].key);
      MemberHasKey(fs[1..], fs[n]);
    }
  }

  lemma {:induction false} TranslatedAreDistinct(fs: Fields, drop: set<string>)
    ensures Distinct(TranslateFields(fs, drop))
    decreases |fs|
  {
    if fs != [] {
      TranslatedAreDistinct(fs[..|fs| - 1], drop);
      var f := fs[|fs| - 1];
      PutKeepsDistinct(TranslateFields(fs[..|fs| - 1], drop), Renamed(f.key), Retargeted(Renamed(f.key), Translate(f.value)));
    }
  }

  function TranslatedField(f: Field): Field {
    Field(Renamed(f.key), Retargeted(Renamed(f.key), Translate(f.value)))
  }

  /** No two members of an object get the same key: it does not hold both `$defs` and `definitions`. */
  predicate OneDefs(fs: Fields) { !(HasKey(fs, "$defs") && HasKey(fs, "definitions")) }

  lemma {:induction false} TranslatedMembers(fs: Fields, drop: set<string>, g: Field)
    requires Distinct(fs) && OneDefs(fs)
    ensures g in TranslateFields(fs, drop) <==> exists f :: f in fs && f.key !in drop && g == TranslatedField(f)
    decreases |fs|
  {
    if fs != [] {
      var n := |fs| - 1;
      var f := fs[n];
      var rest, done := fs[..n], TranslateFields(fs[..n], drop);
      DistinctPrefix(fs, n);
      GetOfPrefix(fs, n, "$defs");
      GetOfPrefix(fs, n, "definitions");
      TranslatedMembers(rest, drop, g);
      assert forall h :: h in fs <==> h in rest || h == f by {
        assert fs == rest + [f];
      }
      if f.key !in drop {
        KeyIsNew(fs, drop);
        PutNewAppends(done, Renamed(f.key), TranslatedField(f).value);
      }
    }
  }

  lemma {:induction false} KeyIsNew(fs: Fields, drop: set<string>)
    requires fs != [] && Distinct(fs) && OneDefs(fs)
    ensures !HasKey(TranslateFields(fs[..|fs| - 1], drop), Renamed(fs[|fs| - 1].key))
  {
    var n := |fs| - 1;
    var k := fs[n].key;
    DistinctPrefix(fs, n);
    MemberHasKey(fs, fs[n]);
    GetOfPrefix(fs, n, "$defs");
    GetOfPrefix(fs, n, "definitions");
    if HasKey(TranslateFields(fs[..n], drop), Renamed(k)) {
      TranslatedKeys(fs[..n], drop, Renamed(k));
    }
  }

  /** A key of the result comes from a key of the input. */
  lemma {:induction false} TranslatedKeys(fs: Fields, drop: set<string>, k: string)
    requires HasKey(TranslateFields(fs, drop), k)
    ensures exists f :: f in fs && f.key !in drop && Renamed(f.key) == k
    ensures k != "$defs" && (HasKey(fs, k) || (k == "definitions" && HasKey(fs, "$defs")))
    decreases |fs|
  {
    var n := |fs| - 1;
    var f := fs[n];
    MemberHasKey(fs, f);
    if f.key in drop || Renamed(f.key) != k {
      GetOfPut(TranslateFields(fs[..n], drop), Renamed(f.key), TranslatedField(f).value, k);
      TranslatedKeys(fs[..n], drop, k);
      GetOfPrefix(fs, n, k);
      GetOfPrefix(fs, n, "$defs");
    }
  }
}
