/**
 What the parts of a rule ask, told by the decisions they lead to: the condition operators and paths, the
 version filter, the title, and one rule alone.
 */
module RoutingLaws {
  import opened Prelude
  import opened Routing
  import opened RoutingProofs

  // ---------- text and paths ----------

  lemma {:induction false} ContainsIs(s: string, part: string)
    ensures Contains(s, part) <==> exists a: string, b: string :: s == a + part + b
  {
    if Contains(s, part) {
      var i :| 0 <= i <= |s| - |part| && StandsAt(s, part, i);
      assert s == s[..i] + part + s[i + |part|..];
    }
    if a: string, b: string :| s == a + part + b {
      assert s[|a|..|a| + |part|] == part;
      assert StandsAt(s, part, |a|);
    }
  }

  predicate Plain(field: string) { '.' !in field }

  lemma {:induction false} SplitSegment(field: string, path: string, segment: string)
    requires Plain(field)
    ensures Split(field + "." + path, segment) == [segment + field] + Split(path, "")
    ensures Split(field, segment) == [segment + field]
  {
    if field == "" {
      assert field + "." + path == "." + path && ("." + path)[1..] == path && segment + field == segment;
    } else {
      assert field[0] in field && field[0] != '.';
      assert (field + "." + path)[1..] == field[1..] + "." + path;
      SplitSegment(field[1..], path, segment + [field[0]]);
      assert segment + [field[0]] + field[1..] == segment + field;
    }
  }

  /** A path goes into the object at its first segment; the absent and what is no object read as null. */
  lemma {:induction false} PathReads(payload: map<string, Value>, field: string, path: string)
    requires Plain(field)
    ensures FieldAt(Object(payload), Split(field, "")) == if field in payload then payload[field] else Null
    ensures FieldAt(Object(payload), Split(field + "." + path, "")) ==
      if field in payload && payload[field].Object? then FieldAt(payload[field], Split(path, "")) else Null
  {
    SplitSegment(field, path, "");
    assert "" + field == field;
    var parts := [field] + Split(path, "");
    assert parts[1..] == Split(path, "") && [field][1..] == [];
    var v := if field in payload then payload[field] else Null;
    assert FieldAt(Object(payload), parts) == FieldAt(v, parts[1..]);
    SplitIsNotEmpty(path, "");
  }

  lemma {:induction false} SplitIsNotEmpty(path: string, segment: string)
    ensures Split(path, segment) != []
  {
    if path != "" {
      SplitIsNotEmpty(path[1..], segment + [path[0]]);
    }
  }

  // ---------- one rule alone ----------

  /**
   The decision when one project with one rule is asked: nothing applies, the version, the title, an operator or
   a condition stops it, or the project gets the ticket if that is not older than the intake.
   */
  lemma {:induction false} OneRuleDecides(t: Ticket, p: Project, r: Rule)
    requires p.rules == [r]
    ensures var d, part := Decide(t, Find(t, [p])), Strip(p.titleContains);
      if Strip(p.id) == "" || !p.enabled || r.provider != t.provider then d == Ok(NotFound)
      else if !VersionMatches(t.payload, r.filter) then d == Ok(IgnoredByVersion)
      else if part != "" && !(exists a: string, b: string :: t.title == a + part + b) then d == Ok(IgnoredByTitle)
      else if r.catchAll || AllMatch(t.payload, r.conditions) == Ok(true) then
        d == Ok(if t.created.Some? && p.intake.Some? && p.intake.value <= t.created.value then Matched(Strip(p.id))
                else IgnoredBeforeIntake)
      else d == (if AllMatch(t.payload, r.conditions).Err? then Err(UnsupportedOperator) else Ok(NotFound))
  {
    ContainsIs(t.title, Strip(p.titleContains));
    assert p in [p] && r in p.rules;
    var f := Find(t, [p]);
    assert f.seen == Seen(t, p, r) && f.version == VersionFits(t, p, r) && f.title == TitleFits(t, p, r) && f.raised == Raises(t, p, r);
    assert f.candidates == if Matches(t, p, r) then {CandidateOf(p, r)} else {};
    if Matches(t, p, r) {
      OneCandidate(t, CandidateOf(p, r));
    }
  }

  lemma {:induction false} OneCandidate(t: Ticket, c: Candidate)
    ensures Chosen(t, {c}) == if InTime(t.created, c.intake) then Matched(c.project) else IgnoredBeforeIntake
  {
    assert Top({c}) == {c};
    assert Names({c}) == {c.project};
  }

  /** A project that takes tickets of this provider from time zero on exactly when they meet the conditions. */
  function Asking(provider: string, cs: seq<Condition>): Project {
    Project("A", true, [Rule(provider, AllVersions, false, cs, 0)], "", Some(0))
  }

  ghost function Answer(t: Ticket, c: Condition): Result<Decision, RouteError> { Decide(t, Find(t, [Asking(t.provider, [c])])) }

  /** Tickets the project is not too new for. */
  predicate Timely(t: Ticket) { t.created.Some? && 0 <= t.created.value }

  predicate Met(d: Result<Decision, RouteError>) { d == Ok(Matched("A")) }

  predicate Unmet(d: Result<Decision, RouteError>) { d == Ok(NotFound) }

  lemma {:induction false} AnswerIs(t: Ticket, c: Condition)
    requires Timely(t)
    ensures Answer(t, c) ==
      match ConditionMatches(t.payload, c)
      case Ok(met) => Ok(if met then Matched("A") else NotFound)
      case Err(e) => Err(e)
  {
    var p := Asking(t.provider, [c]);
    OneRuleDecides(t, p, p.rules[0]);
    assert [c][1..] == [];
    var _, _ := StripIs("A");
    TrimStays("A");
    TrimStays("");
  }

  // ---------- the operators, told by decisions ----------

  function Eq(field: string, v: Value, text: string): Condition { Condition(field, "eq", v, text) }

  function Neq(field: string, v: Value, text: string): Condition { Condition(field, "neq", v, text) }

  function In(field: string, vs: seq<Value>, text: string): Condition { Condition(field, "in", List(vs), text) }

  /** Whatever path it asks, `neq` is met exactly where `eq` is not. */
  lemma {:induction false} NeqIsNotEq(t: Ticket, field: string, v: Value, text: string)
    requires Timely(t)
    ensures Met(Answer(t, Neq(field, v, text))) <==> Unmet(Answer(t, Eq(field, v, text)))
    ensures Unmet(Answer(t, Neq(field, v, text))) <==> Met(Answer(t, Eq(field, v, text)))
  {
    AnswerIs(t, Eq(field, v, text));
    AnswerIs(t, Neq(field, v, text));
  }

  /** A payload that stores the value at a plain field meets `eq`, one that stores another does not, and an absent field is null. */
  lemma {:induction false} EqMeetsWhatIsStored(t: Ticket, field: string, v: Value, w: Value, text: string)
    requires Timely(t) && Plain(field)
    ensures Met(Answer(t.(payload := t.payload[field := v]), Eq(field, v, text)))
    ensures w != v ==> Unmet(Answer(t.(payload := t.payload[field := w]), Eq(field, v, text)))
    ensures Met(Answer(t.(payload := t.payload - {field}), Eq(field, v, text))) <==> v == Null
  {
    forall payload: map<string, Value>
      ensures FieldAt(Object(payload), Split(field, "")) == if field in payload then payload[field] else Null
    {
      PathReads(payload, field, "");
    }
    AnswerIs(t.(payload := t.payload[field := v]), Eq(field, v, text));
    AnswerIs(t.(payload := t.payload[field := w]), Eq(field, v, text));
    AnswerIs(t.(payload := t.payload - {field}), Eq(field, v, text));
  }

  /** Asking a path below a field that holds an object is asking the path of that object. */
  lemma {:induction false} PathsGoDown(t: Ticket, field: string, path: string, inner: map<string, Value>, op: string, v: Value,
                                       text: string)
    requires Timely(t) && Plain(field)
    ensures Answer(t.(payload := t.payload[field := Object(inner)]), Condition(field + "." + path, op, v, text)) ==
            Answer(t.(payload := inner), Condition(path, op, v, text))
  {
    PathReads(t.payload[field := Object(inner)], field, path);
    AnswerIs(t.(payload := t.payload[field := Object(inner)]), Condition(field + "." + path, op, v, text));
    AnswerIs(t.(payload := inner), Condition(path, op, v, text));
  }

  /** `in` is met exactly when `eq` of one of the list is; what is no list is never met. */
  lemma {:induction false} InIsSomeEq(t: Ticket, field: string, vs: seq<Value>, v: Value, text: string)
    requires Timely(t)
    ensures Met(Answer(t, In(field, vs, text))) <==> exists x :: x in vs && Met(Answer(t, Eq(field, x, text)))
    ensures !v.List? ==> Unmet(Answer(t, Condition(field, "in", v, text)))
  {
    AnswerIs(t, In(field, vs, text));
    AnswerIs(t, Condition(field, "in", v, text));
    forall x ensures Met(Answer(t, Eq(field, x, text))) <==> FieldAt(Object(t.payload), Split(field, "")) == x {
      AnswerIs(t, Eq(field, x, text));
    }
  }

  /** `contains` is met by every text that has the operand as a part, and by nothing else. */
  lemma {:induction false} ContainsFindsTheText(t: Ticket, field: string, stored: Value, v: Value, part: string)
    requires Timely(t) && Plain(field)
    ensures Met(Answer(t.(payload := t.payload[field := stored]), Condition(field, "contains", v, part))) <==>
      stored.Text? && exists a: string, b: string :: stored.s == a + part + b
  {
    var u := t.(payload := t.payload[field := stored]);
    PathReads(u.payload, field, "");
    AnswerIs(u, Condition(field, "contains", v, part));
    if stored.Text? {
      ContainsIs(stored.s, part);
    }
  }

  /** An operator of another name raises, whatever the ticket holds; these five never do. */
  lemma {:induction false} OtherOperatorsRaise(t: Ticket, c: Condition)
    requires Timely(t)
    ensures Answer(t, c) == Err(UnsupportedOperator) <==> c.operator !in {"exists", "eq", "neq", "contains", "in"}
  {
    AnswerIs(t, c);
  }

  // ---------- conditions that can stand for each other ----------

  /** These projects with other conditions in one rule. */
  function With(ps: seq<Project>, i: nat, j: nat, cs: seq<Condition>): seq<Project>
    requires i < |ps| && j < |ps[i].rules|
  {
    ps[i := ps[i].(rules := ps[i].rules[j := ps[i].rules[j].(conditions := cs)])]
  }

  lemma {:induction false} WithFound(t: Ticket, ps: seq<Project>, i: nat, j: nat, cs: seq<Condition>, ds: seq<Condition>)
    requires i < |ps| && j < |ps[i].rules| && AllMatch(t.payload, cs) == AllMatch(t.payload, ds)
    ensures Within(Find(t, With(ps, i, j, cs)), Find(t, With(ps, i, j, ds)))
  {
    var us, vs := With(ps, i, j, cs), With(ps, i, j, ds);
    forall p, r | p in us && r in p.rules
      ensures exists q, s :: q in vs && s in q.rules && CandidateOf(q, s) == CandidateOf(p, r) && SameReach(t, p, r, q, s)
    {
      var a :| 0 <= a < |us| && us[a] == p;
      var b :| 0 <= b < |p.rules| && p.rules[b] == r;
      assert vs[a] in vs && vs[a].rules[b] in vs[a].rules;
      assert CandidateOf(vs[a], vs[a].rules[b]) == CandidateOf(p, r) && SameReach(t, p, r, vs[a], vs[a].rules[b]);
    }
  }

  /** Two rules of two projects get equally far with a ticket. */
  ghost predicate SameReach(t: Ticket, p: Project, r: Rule, q: Project, s: Rule) {
    Seen(t, p, r) == Seen(t, q, s) && VersionFits(t, p, r) == VersionFits(t, q, s) && TitleFits(t, p, r) == TitleFits(t, q, s) &&
    Raises(t, p, r) == Raises(t, q, s) && Matches(t, p, r) == Matches(t, q, s)
  }

  lemma {:induction false} AllMatchAt(payload: map<string, Value>, pre: seq<Condition>, c: Condition, d: Condition, post: seq<Condition>)
    requires ConditionMatches(payload, c) == ConditionMatches(payload, d)
    ensures AllMatch(payload, pre + [c] + post) == AllMatch(payload, pre + [d] + post)
    decreases |pre|
  {
    var cs, ds := pre + [c] + post, pre + [d] + post;
    if pre == [] {
      assert cs[1..] == post && ds[1..] == post;
    } else {
      assert cs[1..] == pre[1..] + [c] + post && ds[1..] == pre[1..] + [d] + post;
      AllMatchAt(payload, pre[1..], c, d, post);
    }
  }

  /** A condition can be replaced by one that is met by the same, in any rule of any projects, without changing the decision. */
  lemma {:induction false} EqualConditionsDecideAlike(t: Ticket, ps: seq<Project>, i: nat, j: nat, pre: seq<Condition>,
                                                      post: seq<Condition>, c: Condition, d: Condition)
    requires i < |ps| && j < |ps[i].rules| && ConditionMatches(t.payload, c) == ConditionMatches(t.payload, d)
    ensures Decide(t, Find(t, With(ps, i, j, pre + [c] + post))) == Decide(t, Find(t, With(ps, i, j, pre + [d] + post)))
  {
    AllMatchAt(t.payload, pre, c, d, post);
    WithFound(t, ps, i, j, pre + [c] + post, pre + [d] + post);
    WithFound(t, ps, i, j, pre + [d] + post, pre + [c] + post);
    WithinBoth(Find(t, With(ps, i, j, pre + [c] + post)), Find(t, With(ps, i, j, pre + [d] + post)));
  }

  /** Wherever it stands, `eq` decides like `in` of the one value, and `exists` like `neq` of null. */
  lemma {:induction false} OperatorsDecideAlike(t: Ticket, ps: seq<Project>, i: nat, j: nat, pre: seq<Condition>, post: seq<Condition>,
                                                field: string, v: Value, text: string)
    requires i < |ps| && j < |ps[i].rules|
    ensures Decide(t, Find(t, With(ps, i, j, pre + [Eq(field, v, text)] + post))) ==
            Decide(t, Find(t, With(ps, i, j, pre + [In(field, [v], text)] + post)))
    ensures Decide(t, Find(t, With(ps, i, j, pre + [Condition(field, "exists", v, text)] + post))) ==
            Decide(t, Find(t, With(ps, i, j, pre + [Neq(field, Null, text)] + post)))
  {
    EqualConditionsDecideAlike(t, ps, i, j, pre, post, Eq(field, v, text), In(field, [v], text));
    EqualConditionsDecideAlike(t, ps, i, j, pre, post, Condition(field, "exists", v, text), Neq(field, Null, text));
  }

  /** All conditions must be met: two lists one after the other are met exactly when both are, if neither raises. */
  lemma {:induction false} AllConditionsCount(payload: map<string, Value>, cs: seq<Condition>, ds: seq<Condition>)
    ensures AllMatch(payload, cs + ds) == if AllMatch(payload, cs) == Ok(true) then AllMatch(payload, ds) else AllMatch(payload, cs)
    decreases |cs|
  {
    if cs == [] {
      assert cs + ds == ds;
    } else {
      assert (cs + ds)[1..] == cs[1..] + ds;
      AllConditionsCount(payload, cs[1..], ds);
    }
  }

  // ---------- the version filter ----------

  /** The version the ticket names: the first of the three fields that is not null. */
  function NamedVersion(payload: map<string, Value>): Value {
    if "fixVersion" in payload && payload["fixVersion"] != Null then payload["fixVersion"]
    else if "versionFix" in payload && payload["versionFix"] != Null then payload["versionFix"]
    else if "version" in payload then payload["version"] else Null
  }

  /** A version known by an id is selected by that id and nothing else. */
  lemma {:induction false} VersionById(payload: map<string, Value>, versions: seq<VersionItem>, fields: map<string, Value>, id: string)
    requires NamedVersion(payload) == Object(fields) && "id" in fields && fields["id"] == Text(id) && Strip(id) != ""
    ensures VersionMatches(payload, Selected(versions)) <==>
      exists item :: item in versions && item.VersionItem? && Strip(item.id) == Strip(id)
  {
    forall item | item in versions ensures Selects(item, Some(Strip(id)), VersionIdentity(payload).1) <==>
      item.VersionItem? && Strip(item.id) == Strip(id)
    {
    }
  }

  /** A version known by its name only is selected by that name. */
  lemma {:induction false} VersionByName(payload: map<string, Value>, versions: seq<VersionItem>, name: string)
    requires NamedVersion(payload) == Text(name) && Strip(name) != ""
    ensures VersionMatches(payload, Selected(versions)) <==>
      exists item :: item in versions && item.VersionItem? && Strip(item.name) == Strip(name)
  {
    forall item | item in versions
      ensures Selects(item, None, Some(Strip(name))) <==> item.VersionItem? && Strip(item.name) == Strip(name)
    {
    }
  }

  /** A ticket without a version is in no selected version, and every ticket is in all of them. */
  lemma {:induction false} NoVersion(payload: map<string, Value>, versions: seq<VersionItem>)
    ensures NamedVersion(payload) == Null ==> !VersionMatches(payload, Selected(versions))
    ensures VersionMatches(payload, AllVersions)
  {
  }
}
