/** What the rewrite's output looks like for every input, and that rewriting again changes nothing. */
module ClaudeSchemaShape {
  import opened Prelude
  import opened ClaudeSchema

  /** A JSON value as Python holds it: no object has a key twice. */
  predicate IsDict(j: Json)
    decreases j
  {
    match j
    case Arr(items) => forall i | i in items :: IsDict(i)
    case Obj(fs) => Distinct(fs) && forall f | f in fs :: IsDict(f.value)
    case _ => true
  }

  /** No object anywhere in it has a `$schema`, a `$defs`, a list-valued `type`, or a reference into `$defs`. */
  predicate Clean(j: Json)
    decreases j
  {
    match j
    case Arr(items) => forall i | i in items :: Clean(i)
    case Obj(fs) => CleanHere(fs) && forall f | f in fs :: Clean(f.value)
    case _ => true
  }

  predicate CleanHere(fs: Fields) {
    Distinct(fs) && !HasKey(fs, "$schema") && !HasKey(fs, "$defs") && !ListTyped(fs) &&
    forall f | f in fs && f.key == "$ref" && f.value.Str? :: Replace(f.value.s) == f.value.s
  }

  // ---------- replacing twice ----------

  lemma {:induction false} PlainPrefix(w: string, y: string)
    requires '#' !in w
    ensures Replace(w + y) == w + Replace(y)
  {
    if w == "" {
      assert w + y == y;
    } else {
      assert (w + y)[1..] == w[1..] + y;
      assert (w + y)[0] != DEFS_REF[0];
      PlainPrefix(w[1..], y);
    }
  }

  lemma {:induction false} OnePlain(s: string)
    requires s != "" && !StartsWith(s, DEFS_REF)
    ensures Replace(s) == [s[0]] + Replace(s[1..])
  {
  }

  lemma {:induction false} DefinitionsStay(y: string)
    ensures Replace(DEFINITIONS_REF + y) == DEFINITIONS_REF + Replace(y)
  {
    var rest := "/definitions/";
    var s := DEFINITIONS_REF + y;
    assert s[1..] == rest + y;
    assert s[..|DEFS_REF|][2] == 'd';
    OnePlain(s);
    PlainPrefix(rest, y);
    assert DEFINITIONS_REF == ['#'] + rest;
  }

  /** Text without '#' at the front of the result was at the front before. */
  lemma {:induction false} FrontWasThere(s: string, w: string)
    requires StartsWith(Replace(s), w) && '#' !in w
    ensures StartsWith(s, w)
    decreases |w|
  {
    if w != "" {
      assert Replace(s)[..|w|][0] == w[0] && w[0] in w;
      assert !StartsWith(s, DEFS_REF);
      assert Replace(s)[1..] == Replace(s[1..]);
      assert Replace(s)[1..][..|w| - 1] == w[1..];
      FrontWasThere(s[1..], w[1..]);
      assert s[..|w|] == [s[0]] + s[1..][..|w| - 1];
    }
  }

  lemma {:induction false} ReplaceTwice(s: string)
    ensures Replace(Replace(s)) == Replace(s)
    decreases |s|
  {
    if s == "" {
    } else if StartsWith(s, DEFS_REF) {
      ReplaceTwice(s[|DEFS_REF|..]);
      DefinitionsStay(Replace(s[|DEFS_REF|..]));
    } else {
      ReplaceTwice(s[1..]);
      NothingFormed(s);
      OnePlain(s);
      OnePlain(Replace(s));
    }
  }

  /** A character that begins no occurrence begins none in the result. */
  lemma {:induction false} NothingFormed(s: string)
    requires s != "" && !StartsWith(s, DEFS_REF)
    ensures !StartsWith(Replace(s), DEFS_REF)
  {
    OnePlain(s);
    var r, rest, w := Replace(s), Replace(s[1..]), DEFS_REF[1..];
    assert r[1..] == rest;
    assert StartsWith(r, DEFS_REF) ==> r[1..][..|w|] == w && r[..|DEFS_REF|][0] == s[0];
    if StartsWith(rest, w) {
      FrontWasThere(s[1..], w);
      assert s[..|w| + 1] == [s[0]] + s[1..][..|w|];
      assert DEFS_REF == ['#'] + w;
    }
  }

  // ---------- the output is clean ----------

  lemma {:induction false} MemberOrigin(fs: Fields, drop: set<string>, g: Field)
    requires g in TranslateFields(fs, drop)
    ensures exists f :: f in fs && f.key !in drop && g == TranslatedField(f)
    decreases |fs|
  {
    var n := |fs| - 1;
    var f := fs[n];
    assert f in fs;
    if f.key in drop {
      MemberOrigin(fs[..n], drop, g);
    } else {
      PutMembers(TranslateFields(fs[..n], drop), Renamed(f.key), TranslatedField(f).value, g);
      if g != TranslatedField(f) {
        MemberOrigin(fs[..n], drop, g);
      }
    }
  }

  lemma {:induction false} NoKey(fs: Fields, k: string)
    requires forall f | f in fs :: f.key != k
    ensures !HasKey(fs, k)
  {
    if HasKey(fs, k) {
      GetIsMember(fs, k);
    }
  }

  lemma {:induction false} CleanMember(fs: Fields, drop: set<string>, g: Field)
    requires Distinct(fs) && "$schema" in drop && (ListTyped(fs) ==> "type" in drop) && g in TranslateFields(fs, drop)
    ensures g.key != "$schema" && g.key != "$defs" && (g.key == "type" ==> !g.value.Arr? && "type" !in drop)
    ensures g.key == "$ref" && g.value.Str? ==> Replace(g.value.s) == g.value.s
  {
    MemberOrigin(fs, drop, g);
    var f :| f in fs && f.key !in drop && g == TranslatedField(f);
    MemberIsGet(fs, f);
    if f.value.Str? {
      ReplaceTwice(f.value.s);
    }
  }

  lemma {:induction false} FieldsAreCleanHere(fs: Fields, drop: set<string>)
    requires Distinct(fs) && "$schema" in drop && (ListTyped(fs) ==> "type" in drop)
    ensures CleanHere(TranslateFields(fs, drop))
    ensures "type" in drop ==> !HasKey(TranslateFields(fs, drop), "type")
  {
    var gs := TranslateFields(fs, drop);
    TranslatedAreDistinct(fs, drop);
    forall g | g in gs ensures g.key != "$schema" && g.key != "$defs" && (g.key == "type" ==> !g.value.Arr? && "type" !in drop) &&
      (g.key == "$ref" && g.value.Str? ==> Replace(g.value.s) == g.value.s)
    {
      CleanMember(fs, drop, g);
    }
    NoKey(gs, "$schema");
    NoKey(gs, "$defs");
    if HasKey(gs, "type") {
      GetIsMember(gs, "type");
    }
  }

  lemma {:induction false} GetOfCons(f: Field, fs: Fields, k: string)
    ensures Get([f] + fs, k) == if f.key == k then Some(f.value) else Get(fs, k)
  {
  }

  lemma {:induction false} CleanCons(f: Field, fs: Fields)
    requires CleanHere(fs) && !HasKey(fs, f.key) && f.key !in {"$schema", "$defs", "$ref"} && (f.key == "type" ==> !f.value.Arr?)
    ensures CleanHere([f] + fs)
  {
  }

  lemma {:induction false} VariantsAreClean(types: seq<Json>, shared: Fields, v: Json)
    requires CleanHere(shared) && !HasKey(shared, "type") && (forall g | g in shared :: Clean(g.value))
    requires v in Variants(types, shared)
    ensures Clean(v)
  {
    if types[0].Str? {
      var first := Variants([types[0]], shared)[0];
      var rest := Variants(types[1..], shared);
      assert Variants(types, shared) == [first] + rest;
      if v == first {
        var fs := v.fields;
        var others := if types[0].s == "null" then [] else shared;
        assert fs == [Field("type", types[0])] + others;
        CleanCons(fs[0], others);
      } else {
        VariantsAreClean(types[1..], shared, v);
      }
    } else {
      VariantsAreClean(types[1..], shared, v);
    }
  }

  /** For every input, the output has no `$schema`, no `$defs`, no list-valued `type`, and no reference into `$defs`. */
  lemma {:induction false} OutputIsClean(j: Json)
    requires IsDict(j)
    ensures Clean(Translate(j))
    decreases j
  {
    match j
    case Arr(items) =>
      forall t | t in Translate(j).items ensures Clean(t) {
        var i :| 0 <= i < |items| && t == Translate(items[i]);
        OutputIsClean(items[i]);
      }
    case Obj(fs) =>
      var drop := if ListTyped(fs) then {"$schema", "type"} else {"$schema"};
      var gs := TranslateFields(fs, drop);
      forall g | g in gs ensures Clean(g.value) {
        MemberOrigin(fs, drop, g);
        var f :| f in fs && f.key !in drop && g == TranslatedField(f);
        OutputIsClean(f.value);
      }
      FieldsAreCleanHere(fs, drop);
      if ListTyped(fs) {
        var vs := Variants(Types(fs), gs);
        forall v | v in vs ensures Clean(v) {
          VariantsAreClean(Types(fs), gs, v);
        }
        CleanCons(Field("anyOf", Arr(vs)), []);
        assert [Field("anyOf", Arr(vs))] == [Field("anyOf", Arr(vs))] + [];
      }
    case _ =>
  }

  // ---------- a clean value is left as it is ----------

  lemma {:induction false} CleanIsFixed(j: Json)
    requires Clean(j)
    ensures Translate(j) == j
    decreases j
  {
    match j
    case Arr(items) =>
      forall i | 0 <= i < |items| ensures Translate(items[i]) == items[i] {
        CleanIsFixed(items[i]);
      }
    case Obj(fs) =>
      forall f | f in fs ensures Translate(f.value) == f.value {
        CleanIsFixed(f.value);
      }
      FixedFields(fs, |fs|);
      assert fs[..|fs|] == fs;
    case _ =>
  }

  lemma {:induction false} FixedFields(fs: Fields, n: nat)
    requires n <= |fs| && CleanHere(fs) && forall f | f in fs :: Translate(f.value) == f.value
    ensures TranslateFields(fs[..n], {"$schema"}) == fs[..n]
  {
    if n > 0 {
      FixedFields(fs, n - 1);
      var f := fs[n - 1];
      MemberHasKey(fs, f);
      assert fs[..n][..n - 1] == fs[..n - 1] && fs[..n][n - 1] == f;
      assert TranslatedField(f) == f;
      DistinctPrefix(fs, n - 1);
      PutNewAppends(fs[..n - 1], f.key, f.value);
    }
  }

  /** Translating twice is translating once, for every input. */
  lemma {:induction false} TranslateIsIdempotent(j: Json)
    requires IsDict(j)
    ensures Translate(Translate(j)) == Translate(j)
  {
    OutputIsClean(j);
    CleanIsFixed(Translate(j));
  }
}
