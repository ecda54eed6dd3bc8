/** The rewrite as the adapter runs it: dictionaries filled in loops, proved to be `Translate`. */
module ClaudeSchemaTranslator {
  import opened Prelude
  import opened ClaudeSchema
  import ClaudeSchemaShape

  function Size(j: Json): nat
    decreases j
  {
    match j
    case Arr(items) => 1 + SizeItems(items)
    case Obj(fs) => 1 + SizeFields(fs)
    case _ => 1
  }

  function SizeItems(items: seq<Json>): nat
    decreases items
  {
    if items == [] then 0 else SizeItems(items[..|items| - 1]) + Size(items[|items| - 1])
  }

  function SizeFields(fs: Fields): nat
    decreases fs
  {
    if fs == [] then 0 else SizeFields(fs[..|fs| - 1]) + 1 + Size(fs[|fs| - 1].value)
  }

  lemma {:induction false} ItemIsSmaller(items: seq<Json>, i: nat)
    requires i < |items|
    ensures Size(items[i]) <= SizeItems(items)
    decreases |items|
  {
    if i < |items| - 1 {
      ItemIsSmaller(items[..|items| - 1], i);
    }
  }

  lemma {:induction false} FieldIsSmaller(fs: Fields, i: nat)
    requires i < |fs|
    ensures Size(fs[i].value) <= SizeFields(fs)
    decreases |fs|
  {
    if i < |fs| - 1 {
      FieldIsSmaller(fs[..|fs| - 1], i);
    }
  }

  /** `{key: child for key, child in value.items() if key not in drop}`. */
  function Without(fs: Fields, drop: set<string>): Fields {
    if fs == [] then [] else
    Without(fs[..|fs| - 1], drop) + if fs[|fs| - 1].key in drop then [] else [fs[|fs| - 1]]
  }

  lemma {:induction false} WithoutIsSmaller(fs: Fields, drop: set<string>)
    ensures SizeFields(Without(fs, drop)) <= SizeFields(fs)
    ensures (exists f :: f in fs && f.key in drop) ==> SizeFields(Without(fs, drop)) < SizeFields(fs)
    decreases |fs|
  {
    if fs != [] {
      var n := |fs| - 1;
      WithoutIsSmaller(fs[..n], drop);
      assert fs == fs[..n] + [fs[n]];
      if fs[n].key !in drop {
        var kept := Without(fs, drop);
        assert kept[..|kept| - 1] == Without(fs[..n], drop) && kept[|kept| - 1] == fs[n];
      } else {
        assert Without(fs, drop) == Without(fs[..n], drop);
      }
    }
  }

  lemma {:induction false} WithoutThenTranslate(fs: Fields, drop: set<string>)
    requires "$schema" in drop
    ensures TranslateFields(Without(fs, drop), {"$schema"}) == TranslateFields(fs, drop)
    ensures forall k | k in drop :: !HasKey(Without(fs, drop), k)
    decreases |fs|
  {
    if fs != [] {
      var n := |fs| - 1;
      WithoutThenTranslate(fs[..n], drop);
      if fs[n].key !in drop {
        var kept := Without(fs, drop);
        assert kept[..|kept| - 1] == Without(fs[..n], drop) && kept[|kept| - 1] == fs[n];
        forall k | k in drop ensures !HasKey(kept, k) {
          if HasKey(kept, k) {
            GetIsMember(kept, k);
            MemberHasKey(Without(fs[..n], drop), Field(k, Get(kept, k).value));
          }
        }
      } else {
        assert Without(fs, drop) == Without(fs[..n], drop);
      }
    }
  }

  lemma {:induction false} VariantsAppend(types: seq<Json>, t: Json, shared: Fields)
    ensures Variants(types + [t], shared) == Variants(types, shared) + Variants([t], shared)
  {
    if types == [] {
      assert [] + [t] == [t];
    } else {
      assert (types + [t])[1..] == types[1..] + [t];
      VariantsAppend(types[1..], t, shared);
    }
  }

  lemma {:induction false} OneAlternative(t: Json, shared: Fields)
    ensures Variants([t], shared) ==
      if t.Str? then [Obj([Field("type", t)] + if t.s == "null" then [] else shared)] else []
  {
  }

  method FilterFields(fs: Fields, drop: set<string>) returns (kept: Fields)
    ensures kept == Without(fs, drop)
  {
    kept := [];
    for i := 0 to |fs|
      invariant kept == Without(fs[..i], drop)
    {
      assert fs[..i + 1][..i] == fs[..i];
      if fs[i].key !in drop {
        kept := kept + [fs[i]];
      }
    }
    assert fs[..|fs|] == fs;
  }

  /** The `anyOf` list: one entry per type name, other entries skipped. */
  method Alternatives(types: seq<Json>, shared: Fields) returns (entries: seq<Json>)
    ensures entries == Variants(types, shared)
  {
    entries := [];
    for i := 0 to |types|
      invariant entries == Variants(types[..i], shared)
    {
      assert types[..i + 1] == types[..i] + [types[i]];
      VariantsAppend(types[..i], types[i], shared);
      OneAlternative(types[i], shared);
      if types[i].Str? {
        if types[i].s == "null" {
          entries := entries + [Obj([Field("type", types[i])])];
          assert [Field("type", types[i])] + [] == [Field("type", types[i])];
        } else {
          entries := entries + [Obj([Field("type", types[i])] + shared)];
        }
      }
    }
    assert types[..|types|] == types;
  }

  method ClaudeCompatibleSchema(value: Json) returns (result: Json)
    ensures result == Translate(value)
    decreases Size(value), 1
  {
    if value.Arr? {
      result := TranslateList(value.items);
    } else if !value.Obj? {
      result := value;
    } else if ListTyped(value.fields) {
      var rest := FilterFields(value.fields, {"$schema", "type"});
      GetIsMember(value.fields, "type");
      WithoutIsSmaller(value.fields, {"$schema", "type"});
      WithoutThenTranslate(value.fields, {"$schema", "type"});
      var constraints := ClaudeCompatibleSchema(Obj(rest));
      var shared := if constraints.Obj? then constraints.fields else [];
      var entries := Alternatives(Types(value.fields), shared);
      result := Obj([Field("anyOf", Arr(entries))]);
    } else {
      var fields := TranslateMembers(value.fields);
      result := Obj(fields);
    }
  }

  method TranslateList(items: seq<Json>) returns (result: Json)
    ensures result == Translate(Arr(items))
    decreases SizeItems(items) + 1, 0
  {
    var done: seq<Json> := [];
    for i := 0 to |items|
      invariant |done| == i && forall k | 0 <= k < i :: done[k] == Translate(items[k])
    {
      ItemIsSmaller(items, i);
      var item := ClaudeCompatibleSchema(items[i]);
      done := done + [item];
    }
    result := Arr(done);
  }

  method TranslateMembers(fs: Fields) returns (result: Fields)
    ensures result == TranslateFields(fs, {"$schema"})
    decreases SizeFields(fs) + 1, 0
  {
    result := [];
    for i := 0 to |fs|
      invariant result == TranslateFields(fs[..i], {"$schema"})
    {
      assert fs[..i + 1][..i] == fs[..i];
      if fs[i].key != "$schema" {
        FieldIsSmaller(fs, i);
        var key := if fs[i].key == "$defs" then "definitions" else fs[i].key;
        var child := ClaudeCompatibleSchema(fs[i].value);
        if key == "$ref" && child.Str? {
          child := Str(Replace(child.s));
        }
        result := Put(result, key, child);
      }
    }
    assert fs[..|fs|] == fs;
  }
}
