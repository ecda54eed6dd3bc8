/**
 The local override of a configuration: the difference from the base that is stored, and the merge
 that loads it. Values are taken up to Python's equality: objects without order, True and 1 the same.
 */
module ConfigOverride {
  import opened Prelude

  datatype Value = Null | Number(n: real) | Text(s: string) | List(items: seq<Value>) | Object(fields: map<string, Value>)

  /** The difference to store, or Null for "no difference". */
  function Diff(base: Value, value: Value): Value
    decreases value
  {
    if base.Object? && value.Object? then
      var d := DiffFields(base.fields, value);
      if d == map[] then Null else Object(d)
    else if base == value then Null else value
  }

  function DiffFields(base: map<string, Value>, value: Value): map<string, Value>
    requires value.Object?
    decreases value, 0
  {
    var fields := value.fields;
    map k | k in fields && (k in base ==> Diff(base[k], fields[k]) != Null) ::
      if k in base then Diff(base[k], fields[k]) else fields[k]
  }

  function Merge(base: map<string, Value>, override: Value): map<string, Value>
    requires override.Object?
    decreases override
  {
    var o := override.fields;
    map k | k in base.Keys + o.Keys ::
      if k !in o then base[k]
      else if o[k].Object? && k in base && base[k].Object? then Object(Merge(base[k].fields, o[k]))
      else o[k]
  }

  /** `_deep_diff(base, effective) or {}`, for two objects. */
  function Override(base: map<string, Value>, value: Value): Value
    requires value.Object?
  {
    var d := Diff(Object(base), value);
    if d == Null then Object(map[]) else d
  }

  // ---------- the loops ----------

  method DeepDiff(base: Value, value: Value) returns (r: Value)
    ensures r == Diff(base, value)
    decreases value
  {
    if base.Object? && value.Object? {
      var result: map<string, Value> := map[];
      var left := value.fields.Keys;
      while left != {}
        invariant left <= value.fields.Keys
        invariant result == map k | k in DiffFields(base.fields, value) && k !in left :: DiffFields(base.fields, value)[k]
        decreases left
      {
        var key :| key in left;
        left := left - {key};
        var child := value.fields[key];
        if key !in base.fields {
          result := result[key := child];
        } else {
          var diff := DeepDiff(base.fields[key], child);
          if diff != Null {
            result := result[key := diff];
          }
        }
      }
      assert result == DiffFields(base.fields, value);
      r := if result == map[] then Null else Object(result);
    } else {
      r := if base == value then Null else value;
    }
  }

  method DeepMerge(base: map<string, Value>, override: Value) returns (result: map<string, Value>)
    requires override.Object?
    ensures result == Merge(base, override)
    decreases override, 0
  {
    result := base;
    ghost var target := Merge(base, override);
    var left := override.fields.Keys;
    while left != {}
      invariant left <= override.fields.Keys
      invariant result == map k | k in target && (k in left ==> k in base) :: if k in left then base[k] else target[k]
      decreases left
    {
      var key :| key in left;
      left := left - {key};
      var merged := MergeValue(if key in result then Some(result[key]) else None, override.fields[key]);
      result := result[key := merged];
    }
  }

  /** What the merge stores for a key: `current` is the value the key has so far. */
  method MergeValue(current: Option<Value>, value: Value) returns (merged: Value)
    ensures merged == if value.Object? && current.Some? && current.value.Object? then Object(Merge(current.value.fields, value)) else value
    decreases value, 1
  {
    if value.Object? && current.Some? && current.value.Object? {
      var fields := DeepMerge(current.value.fields, value);
      merged := Object(fields);
    } else {
      merged := value;
    }
  }

  /** `ConfigStore`: the base file and the local override beside it. */
  class ConfigStore {
    const base: map<string, Value>
    var local: Value

    ghost predicate Valid()
      reads this
    {
      local.Object?
    }

    constructor (base: map<string, Value>)
      ensures Valid() && this.base == base && local == Object(map[])
    {
      this.base, local := base, Object(map[]);
    }

    method Reload() returns (effective: map<string, Value>)
      requires Valid()
      ensures effective == Merge(base, local)
    {
      effective := DeepMerge(base, local);
    }

    /** What is loaded back is what was asked for exactly when the override can say it. */
    method ReplaceEffective(config: Value) returns (loaded: map<string, Value>)
      requires Valid() && config.Object?
      modifies this`local
      ensures Valid() && local == Override(base, config) && loaded == Merge(base, local)
      ensures Object(loaded) == config <==> Expressible(base, config)
    {
      var difference := DeepDiff(Object(base), config);
      local := if difference == Null then Object(map[]) else difference;
      RoundTripExactlyWhen(base, config);
      loaded := Reload();
    }
  }

  // ---------- the round trip ----------

  /** At every level where both are objects: all of the base's keys are kept and no non-null value became null. */
  predicate Expressible(base: map<string, Value>, value: Value)
    requires value.Object?
    decreases value
  {
    forall k | k in base :: k in value.fields && (value.fields[k] == Null ==> base[k] == Null) &&
      (base[k].Object? && value.fields[k].Object? ==> Expressible(base[k].fields, value.fields[k]))
  }

  lemma {:induction false} NoDifferenceFromItself(v: Value)
    ensures Diff(v, v) == Null
    decreases v
  {
    if v.Object? {
      forall k | k in v.fields ensures Diff(v.fields[k], v.fields[k]) == Null {
        NoDifferenceFromItself(v.fields[k]);
      }
      assert DiffFields(v.fields, v) == map[];
    }
  }

  /** What one key is after the round trip. */
  function After(base: map<string, Value>, value: Value, k: string): Option<Value>
    requires value.Object?
  {
    var w := Merge(base, Override(base, value));
    if k in w then Some(w[k]) else None
  }

  lemma {:induction false} AfterKey(base: map<string, Value>, value: Value, k: string)
    requires value.Object?
    ensures After(base, value, k) ==
      if k !in value.fields then (if k in base then Some(base[k]) else None)
      else if k !in base then Some(value.fields[k])
      else if Diff(base[k], value.fields[k]) == Null then Some(base[k])
      else if base[k].Object? && value.fields[k].Object? then Some(Object(Merge(base[k].fields, Override(base[k].fields, value.fields[k]))))
      else Some(value.fields[k])
  {
    var d := DiffFields(base, value);
    assert Override(base, value) == Object(d);
  }

  /** No difference means the same value, or one the override cannot say. */
  lemma {:induction false} SilentWhen(base: Value, value: Value)
    requires Diff(base, value) == Null
    requires !(base.Object? && value.Object?) || Expressible(base.fields, value)
    ensures value == base || value == Null
    decreases value
  {
    if base.Object? && value.Object? {
      forall k | k in value.fields ensures k in base.fields && value.fields[k] == base.fields[k] {
        assert k in DiffFields(base.fields, value) <==> (k in base.fields ==> Diff(base.fields[k], value.fields[k]) != Null);
        SilentWhen(base.fields[k], value.fields[k]);
      }
      assert value.fields == base.fields;
    }
  }

  /** Loading the stored override gives back the configuration exactly when it is expressible over the base. */
  lemma {:induction false} RoundTripExactlyWhen(base: map<string, Value>, value: Value)
    requires value.Object?
    ensures Merge(base, Override(base, value)) == value.fields <==> Expressible(base, value)
    decreases value
  {
    var w, v := Merge(base, Override(base, value)), value.fields;
    forall k | k in base ensures (k in v && k in w && w[k] == v[k]) <==> KeyExpressible(base, value, k) {
      KeyRoundTrip(base, value, k);
    }
    forall k | k !in base ensures After(base, value, k) == if k in v then Some(v[k]) else None {
      AfterKey(base, value, k);
    }
    assert Expressible(base, value) <==> forall k | k in base :: KeyExpressible(base, value, k);
    if Expressible(base, value) {
      forall k ensures k in w <==> k in v {
        assert k in base ==> KeyExpressible(base, value, k);
        assert k !in base ==> (After(base, value, k).Some? <==> k in v);
      }
      forall k | k in w ensures w[k] == v[k] {
        assert k in base ==> KeyExpressible(base, value, k);
        assert k !in base ==> After(base, value, k) == Some(v[k]);
      }
      assert w == v;
    } else {
      var k :| k in base && !KeyExpressible(base, value, k);
      AfterKey(base, value, k);
    }
  }

  predicate KeyExpressible(base: map<string, Value>, value: Value, k: string)
    requires value.Object? && k in base
  {
    k in value.fields && (value.fields[k] == Null ==> base[k] == Null) &&
    (base[k].Object? && value.fields[k].Object? ==> Expressible(base[k].fields, value.fields[k]))
  }

  lemma {:induction false} KeyRoundTrip(base: map<string, Value>, value: Value, k: string)
    requires value.Object? && k in base
    ensures After(base, value, k) == (if k in value.fields then Some(value.fields[k]) else None) <==> KeyExpressible(base, value, k)
    decreases value, 0
  {
    AfterKey(base, value, k);
    if k in value.fields {
      var x := value.fields[k];
      if base[k].Object? && x.Object? {
        RoundTripExactlyWhen(base[k].fields, x);
        if Diff(base[k], x) == Null {
          assert Override(base[k].fields, x) == Object(map[]);
          assert Merge(base[k].fields, Object(map[])) == base[k].fields;
        }
      }
    }
  }

  /** The override that is loaded back describes itself: storing it again stores the same. */
  lemma {:induction false} OverrideIsStable(base: map<string, Value>, value: Value)
    requires value.Object?
    ensures Diff(Object(base), Object(Merge(base, Override(base, value)))) == Diff(Object(base), value)
    decreases value
  {
    var w := Object(Merge(base, Override(base, value)));
    var d, e := DiffFields(base, value), DiffFields(base, w);
    forall k ensures (k in e <==> k in d) && (k in d ==> e[k] == d[k]) {
      AfterKey(base, value, k);
      if k in base {
        NoDifferenceFromItself(base[k]);
        if k in value.fields && base[k].Object? && value.fields[k].Object? {
          OverrideIsStable(base[k].fields, value.fields[k]);
        }
      }
    }
    assert e == d;
  }

  /** A value cleared to null, or a key removed, comes back as the base has it. */
  lemma {:induction false} ClearedValueComesBack(base: map<string, Value>, value: Value, k: string)
    requires value.Object? && k in base && base[k] != Null
    requires k !in value.fields || value.fields[k] == Null
    ensures k in Merge(base, Override(base, value)) && Merge(base, Override(base, value))[k] == base[k]
  {
    AfterKey(base, value, k);
  }

  // ---------- any override, read path by path ----------

  /** The value at a path of keys, if there is one. */
  function At(v: Value, path: seq<string>): Option<Value>
    decreases |path|
  {
    if path == [] then Some(v)
    else if v.Object? && path[0] in v.fields then At(v.fields[path[0]], path[1..])
    else None
  }

  /** What an override sets at a path, an object aside, is what is loaded there, null included. */
  lemma {:induction false} OverrideWins(base: map<string, Value>, override: Value, path: seq<string>)
    requires override.Object? && At(override, path).Some? && !At(override, path).value.Object?
    ensures At(Object(Merge(base, override)), path) == At(override, path)
    decreases |path|
  {
    var k := path[0];
    var o := override.fields[k];
    if o.Object? && k in base && base[k].Object? {
      OverrideWins(base[k].fields, o, path[1..]);
    }
  }

  /** The override sets nothing at this path: it leaves a key of it out, below objects that both have. */
  predicate LeavesAlone(base: map<string, Value>, override: Value, path: seq<string>)
    decreases |path|
  {
    override.Object? && path != [] && (path[0] in override.fields ==>
      path[0] in base && base[path[0]].Object? && LeavesAlone(base[path[0]].fields, override.fields[path[0]], path[1..]))
  }

  /** What it leaves alone is loaded as the base has it. */
  lemma {:induction false} BaseStays(base: map<string, Value>, override: Value, path: seq<string>)
    requires LeavesAlone(base, override, path)
    ensures At(Object(Merge(base, override)), path) == At(Object(base), path)
    decreases |path|
  {
    var k := path[0];
    if k in override.fields {
      BaseStays(base[k].fields, override.fields[k], path[1..]);
    }
  }

  /** An override stores a key that is new or whose value changes to one it can say, and never the value the base has. */
  lemma {:induction false} StoresOnlyChanges(base: map<string, Value>, value: Value, k: string)
    requires value.Object?
    ensures var o := Override(base, value);
      o.Object? && (k in o.fields ==> k in value.fields && (k in base ==> o.fields[k] != base[k])) &&
      (k in value.fields && (k in base ==> Changes(base[k], value.fields[k])) ==> k in o.fields)
  {
    assert Override(base, value) == Object(DiffFields(base, value));
    if k in base && k in value.fields && Diff(base[k], value.fields[k]) == Null && Expressed(base[k], value.fields[k]) {
      SilentWhen(base[k], value.fields[k]);
    }
    if k in base && k in value.fields && Diff(base[k], value.fields[k]) == base[k] {
      NotItsOwnDifference(base[k], value.fields[k]);
    }
  }

  predicate Changes(base: Value, value: Value) { value != base && value != Null && Expressed(base, value) }

  /** Two objects whose difference the override can say; anything else it always can. */
  predicate Expressed(base: Value, value: Value) { base.Object? && value.Object? ==> Expressible(base.fields, value) }

  lemma {:induction false} NotItsOwnDifference(base: Value, value: Value)
    requires Diff(base, value) == base
    ensures base == Null
    decreases value
  {
    if base.Object? && value.Object? {
      var d := DiffFields(base.fields, value);
      assert d == base.fields && d != map[];
      var k :| k in d;
      assert k in base.fields && Diff(base.fields[k], value.fields[k]) == base.fields[k] && d[k] != Null;
      NotItsOwnDifference(base.fields[k], value.fields[k]);
    }
  }
}
