/**
 Routing a ticket to a project (`route_ticket`): what each rule asks, and the decision stated over the
 set of matching rules, whatever their order.
 */
module Routing {
  import opened Prelude

  /** A JSON value; numbers and booleans are known by their text. */
  datatype Value = Null | Text(s: string) | Scalar(text: string) | List(items: seq<Value>) | Object(fields: map<string, Value>)

  /** A condition with its operand and the operand's text form. */
  datatype Condition = Condition(field: string, operator: string, expected: Value, expectedText: string)

  datatype VersionItem = NotAnObject | VersionItem(id: string, name: string)

  datatype VersionFilter = AllVersions | Selected(versions: seq<VersionItem>)

  datatype Rule = Rule(provider: string, filter: VersionFilter, catchAll: bool, conditions: seq<Condition>, priority: int)

  datatype Project = Project(id: string, enabled: bool, rules: seq<Rule>, titleContains: string, intake: Option<int>)

  datatype Ticket = Ticket(provider: string, title: string, payload: map<string, Value>, created: Option<int>)

  datatype Decision =
    | Matched(project: string)
    | NotFound
    | Ambiguous(projects: set<string>)
    | IgnoredBeforeIntake
    | IgnoredByVersion
    | IgnoredByTitle

  datatype RouteError = UnsupportedOperator

  // ---------- text ----------

  predicate Contains(s: string, part: string) {
    exists i | 0 <= i <= |s| - |part| :: StandsAt(s, part, i)
  }

  predicate StandsAt(s: string, part: string, i: nat) { i + |part| <= |s| && s[i..i + |part|] == part }

  function Split(path: string, segment: string): seq<string> {
    if path == "" then [segment]
    else if path[0] == '.' then [segment] + Split(path[1..], "")
    else Split(path[1..], segment + [path[0]])
  }

  // ---------- conditions ----------

  function FieldAt(v: Value, parts: seq<string>): Value
    decreases |parts|
  {
    if parts == [] then v
    else if !v.Object? then Null
    else FieldAt(if parts[0] in v.fields then v.fields[parts[0]] else Null, parts[1..])
  }

  method FieldOf(payload: map<string, Value>, path: string) returns (current: Value)
    ensures current == FieldAt(Object(payload), Split(path, ""))
  {
    current := Object(payload);
    var parts := Split(path, "");
    for i := 0 to |parts|
      invariant FieldAt(Object(payload), parts) == FieldAt(current, parts[i..])
    {
      assert parts[i..][1..] == parts[i + 1..];
      if !current.Object? {
        return Null;
      }
      current := if parts[i] in current.fields then current.fields[parts[i]] else Null;
    }
  }

  predicate Supported(op: string) { op in {"exists", "eq", "neq", "contains", "in"} }

  predicate Holds(actual: Value, c: Condition) {
    match c.operator
    case "exists" => actual != Null
    case "eq" => actual == c.expected
    case "neq" => actual != c.expected
    case "contains" => actual.Text? && Contains(actual.s, c.expectedText)
    case _ => c.expected.List? && actual in c.expected.items
  }

  function ConditionMatches(payload: map<string, Value>, c: Condition): Result<bool, RouteError> {
    if Supported(c.operator) then Ok(Holds(FieldAt(Object(payload), Split(c.field, "")), c)) else Err(UnsupportedOperator)
  }

  /** `all(...)`: the first condition that fails or raises decides. */
  function AllMatch(payload: map<string, Value>, cs: seq<Condition>): Result<bool, RouteError> {
    if cs == [] then Ok(true)
    else if ConditionMatches(payload, cs[0]) == Ok(true) then AllMatch(payload, cs[1..])
    else ConditionMatches(payload, cs[0])
  }

  method ConditionsMatch(payload: map<string, Value>, cs: seq<Condition>) returns (r: Result<bool, RouteError>)
    ensures r == AllMatch(payload, cs)
  {
    for i := 0 to |cs|
      invariant AllMatch(payload, cs) == AllMatch(payload, cs[i..])
    {
      assert cs[i..][1..] == cs[i + 1..];
      if !Supported(cs[i].operator) {
        return Err(UnsupportedOperator);
      }
      var actual := FieldOf(payload, cs[i].field);
      if !Holds(actual, cs[i]) {
        return Ok(false);
      }
    }
    r := Ok(true);
  }

  // ---------- versions ----------

  /** `str(value or "").strip() or None`. */
  function Label(v: Value): Option<string> {
    var s := match v case Text(s) => Strip(s) case Scalar(t) => Strip(t) case _ => "";
    if s == "" then None else Some(s)
  }

  function Member(fields: map<string, Value>, k: string): Value { if k in fields then fields[k] else Null }

  function VersionIdentity(payload: map<string, Value>): (Option<string>, Option<string>) {
    var v :=
      if Member(payload, "fixVersion") != Null then Member(payload, "fixVersion")
      else if Member(payload, "versionFix") != Null then Member(payload, "versionFix")
      else Member(payload, "version");
    if v.Object? then (Label(Member(v.fields, "id")), Label(Member(v.fields, "name"))) else (None, Label(v))
  }

  /** An identified version is compared by id, one known only by name by its name. */
  predicate Selects(item: VersionItem, id: Option<string>, name: Option<string>) {
    item.VersionItem? && if id.Some? then Label(Text(item.id)) == id else name.Some? && Label(Text(item.name)) == name
  }

  predicate VersionMatches(payload: map<string, Value>, filter: VersionFilter) {
    var (id, name) := VersionIdentity(payload);
    filter.Selected? ==> exists item | item in filter.versions :: Selects(item, id, name)
  }

  method VersionAccepted(payload: map<string, Value>, filter: VersionFilter) returns (accepted: bool)
    ensures accepted == VersionMatches(payload, filter)
  {
    if filter.AllVersions? {
      return true;
    }
    var (id, name) := VersionIdentity(payload);
    if id.None? && name.None? {
      return false;
    }
    for i := 0 to |filter.versions|
      invariant forall k | 0 <= k < i :: !Selects(filter.versions[k], id, name)
    {
      var item := filter.versions[i];
      if item.NotAnObject? {
        continue;
      }
      if id.Some? {
        if Label(Text(item.id)) == id {
          assert Selects(filter.versions[i], id, name);
          return true;
        }
        continue;
      }
      if name.Some? && Label(Text(item.name)) == name {
        assert Selects(filter.versions[i], id, name);
        return true;
      }
    }
    accepted := false;
  }

  // ---------- how far a rule gets ----------

  function ProjectId(p: Project): string { Strip(p.id) }

  predicate Seen(t: Ticket, p: Project, r: Rule) { ProjectId(p) != "" && p.enabled && r.provider == t.provider }

  predicate VersionFits(t: Ticket, p: Project, r: Rule) { Seen(t, p, r) && VersionMatches(t.payload, r.filter) }

  predicate TitleFits(t: Ticket, p: Project, r: Rule) {
    VersionFits(t, p, r) && (Strip(p.titleContains) == "" || Contains(t.title, Strip(p.titleContains)))
  }

  predicate Raises(t: Ticket, p: Project, r: Rule) { TitleFits(t, p, r) && !r.catchAll && AllMatch(t.payload, r.conditions).Err? }

  predicate Matches(t: Ticket, p: Project, r: Rule) {
    TitleFits(t, p, r) && (r.catchAll || AllMatch(t.payload, r.conditions) == Ok(true))
  }

  // ---------- the decision ----------

  datatype Candidate = Candidate(priority: int, project: string, intake: Option<int>)

  function CandidateOf(p: Project, r: Rule): Candidate { Candidate(r.priority, ProjectId(p), p.intake) }

  /** How far any rule of any project got, and the candidates. */
  datatype Findings = Findings(seen: bool, version: bool, title: bool, raised: bool, candidates: set<Candidate>)

  function Find(t: Ticket, ps: seq<Project>): Findings {
    Findings(
      exists p, r | p in ps && r in p.rules :: Seen(t, p, r),
      exists p, r | p in ps && r in p.rules :: VersionFits(t, p, r),
      exists p, r | p in ps && r in p.rules :: TitleFits(t, p, r),
      exists p, r | p in ps && r in p.rules :: Raises(t, p, r),
      set p, r | p in ps && r in p.rules && Matches(t, p, r) :: CandidateOf(p, r))
  }

  function Top(cs: set<Candidate>): set<Candidate> { set c | c in cs && forall d | d in cs :: d.priority <= c.priority }

  function Names(cs: set<Candidate>): set<string> { set c | c in cs :: c.project }

  predicate InTime(created: Option<int>, intake: Option<int>) { created.Some? && intake.Some? && intake.value <= created.value }

  /** The choice among candidates: the only project of the highest priority, if the ticket is in its time. */
  ghost function Chosen(t: Ticket, cs: set<Candidate>): Decision {
    var top := Top(cs);
    if |Names(top)| != 1 then Ambiguous(Names(top))
    else if exists c :: c in top && InTime(t.created, c.intake) then Matched(var n :| n in Names(top); n)
    else IgnoredBeforeIntake
  }

  ghost function Decide(t: Ticket, f: Findings): Result<Decision, RouteError> {
    if f.raised then Err(UnsupportedOperator)
    else if f.candidates == {} then
      Ok(if f.seen && !f.version then IgnoredByVersion else if f.seen && f.version && !f.title then IgnoredByTitle else NotFound)
    else Ok(Chosen(t, f.candidates))
  }

  /** Project ids are distinct, as adding a project demands; listing the same project twice would not matter. */
  predicate DistinctIds(ps: seq<Project>) {
    forall p, q | p in ps && q in ps && ProjectId(p) == ProjectId(q) :: p == q
  }

  // ---------- the loops ----------

  /** The findings of one project's first rules. */
  function FindIn(t: Ticket, p: Project, rs: seq<Rule>): Findings {
    Findings(
      exists r | r in rs :: Seen(t, p, r), exists r | r in rs :: VersionFits(t, p, r),
      exists r | r in rs :: TitleFits(t, p, r), exists r | r in rs :: Raises(t, p, r),
      set r | r in rs && Matches(t, p, r) :: CandidateOf(p, r))
  }

  function Both(f: Findings, g: Findings): Findings {
    Findings(f.seen || g.seen, f.version || g.version, f.title || g.title, f.raised || g.raised, f.candidates + g.candidates)
  }

  lemma {:induction false} OneMoreRule(t: Ticket, p: Project, rs: seq<Rule>, r: Rule)
    ensures FindIn(t, p, rs + [r]) == Both(FindIn(t, p, rs),
      Findings(Seen(t, p, r), VersionFits(t, p, r), TitleFits(t, p, r), Raises(t, p, r),
               if Matches(t, p, r) then {CandidateOf(p, r)} else {}))
  {
  }

  lemma {:induction false} OneMoreProject(t: Ticket, ps: seq<Project>, p: Project)
    ensures Find(t, ps + [p]) == Both(Find(t, ps), FindIn(t, p, p.rules))
  {
    assert forall x :: x in ps + [p] <==> x in ps || x == p;
    assert Find(t, ps + [p]).candidates == Find(t, ps).candidates + FindIn(t, p, p.rules).candidates;
  }

  /** The inner loop: what the rules of one project add, or the operator that raised. */
  method ScanRules(t: Ticket, p: Project) returns (raised: bool, f: Findings, list: seq<Candidate>)
    ensures raised == FindIn(t, p, p.rules).raised
    ensures !raised ==> f == FindIn(t, p, p.rules) && forall c :: c in list <==> c in f.candidates
  {
    raised := false;
    f, list := Findings(false, false, false, false, {}), [];
    if ProjectId(p) == "" || !p.enabled {
      NothingSeen(t, p, p.rules);
      return;
    }
    for i := 0 to |p.rules|
      invariant f == FindIn(t, p, p.rules[..i]) && !f.raised
      invariant forall c :: c in list <==> c in f.candidates
    {
      var r := p.rules[i];
      assert p.rules[..i + 1] == p.rules[..i] + [r];
      OneMoreRule(t, p, p.rules[..i], r);
      if r.provider != t.provider {
        continue;
      }
      f := f.(seen := true);
      var accepted := VersionAccepted(t.payload, r.filter);
      if !accepted {
        continue;
      }
      f := f.(version := true);
      if Strip(p.titleContains) != "" && !Contains(t.title, Strip(p.titleContains)) {
        continue;
      }
      f := f.(title := true);
      var matches := true;
      if !r.catchAll {
        var all := ConditionsMatch(t.payload, r.conditions);
        if all.Err? {
          assert r in p.rules && Raises(t, p, r);
          raised := true;
          return;
        }
        matches := all.value;
      }
      if matches {
        f := f.(candidates := f.candidates + {CandidateOf(p, r)});
        list := list + [CandidateOf(p, r)];
      }
    }
    assert p.rules[..|p.rules|] == p.rules;
  }

  lemma {:induction false} NothingSeen(t: Ticket, p: Project, rs: seq<Rule>)
    requires ProjectId(p) == "" || !p.enabled
    ensures FindIn(t, p, rs) == Findings(false, false, false, false, {})
  {
  }

  method ScanProjects(t: Ticket, ps: seq<Project>) returns (raised: bool, f: Findings, list: seq<Candidate>)
    ensures raised == Find(t, ps).raised
    ensures !raised ==> f == Find(t, ps) && forall c :: c in list <==> c in f.candidates
  {
    raised := false;
    f, list := Findings(false, false, false, false, {}), [];
    assert Find(t, []).candidates == {};
    for i := 0 to |ps|
      invariant f == Find(t, ps[..i]) && !f.raised
      invariant forall c :: c in list <==> c in f.candidates
    {
      assert ps[..i + 1] == ps[..i] + [ps[i]];
      OneMoreProject(t, ps[..i], ps[i]);
      var stop, g, more := ScanRules(t, ps[i]);
      if stop {
        assert ps[i] in ps;
        raised := true;
        return;
      }
      f, list := Both(f, g), list + more;
    }
    assert ps[..|ps|] == ps;
  }

  /** The highest priority among the candidates. */
  method TopPriority(list: seq<Candidate>) returns (top: int)
    requires list != []
    ensures (exists c :: c in list && c.priority == top) && forall c | c in list :: c.priority <= top
  {
    top := list[0].priority;
    for i := 1 to |list|
      invariant exists c :: c in list && c.priority == top
      invariant forall k | 0 <= k < i :: list[k].priority <= top
    {
      if list[i].priority > top {
        top := list[i].priority;
      }
    }
  }

  /** The first candidate of a project at a priority, in the order of the rules. */
  method FirstOf(list: seq<Candidate>, priority: int, project: string) returns (c: Candidate)
    requires exists c :: c in list && c.priority == priority && c.project == project
    ensures c in list && c.priority == priority && c.project == project
  {
    var i := 0;
    while list[i].priority != priority || list[i].project != project
      invariant i < |list| && exists k :: i <= k < |list| && list[k].priority == priority && list[k].project == project
      decreases |list| - i
    {
      i := i + 1;
    }
    c := list[i];
  }

  /** With distinct project ids the decision is the one stated over the set of candidates. */
  method RouteTicket(t: Ticket, ps: seq<Project>) returns (r: Result<Decision, RouteError>)
    ensures DistinctIds(ps) || r.Err? || !(r.value.Matched? || r.value.IgnoredBeforeIntake?) ==> r == Decide(t, Find(t, ps))
  {
    var raised, f, list := ScanProjects(t, ps);
    if raised {
      return Err(UnsupportedOperator);
    }
    if list == [] {
      assert f.candidates == {};
      if f.seen && !f.version {
        return Ok(IgnoredByVersion);
      }
      if f.seen && f.version && !f.title {
        return Ok(IgnoredByTitle);
      }
      return Ok(NotFound);
    }
    assert list[0] in f.candidates;
    var d := Choose(t, f.candidates, list);
    if DistinctIds(ps) {
      SameIntake(t, ps);
    }
    r := Ok(d);
  }

  /** Every candidate list gives the choice; which intake time of a project decides matters only if they differ. */
  method Choose(t: Ticket, ghost cs: set<Candidate>, list: seq<Candidate>) returns (d: Decision)
    requires list != [] && forall c :: c in list <==> c in cs
    ensures SharedIntakes(cs) || d.Ambiguous? ==> d == Chosen(t, cs)
    ensures d.Matched? || d.Ambiguous? || d.IgnoredBeforeIntake?
  {
    var priority := TopPriority(list);
    ghost var top := Top(cs);
    var names := set c | c in list && c.priority == priority :: c.project;
    assert names == Names(top);
    if |names| != 1 {
      return Ambiguous(names);
    }
    var name :| name in names;
    var selected := FirstOf(list, priority, name);
    OneName(names, top);
    d := if InTime(t.created, selected.intake) then Matched(name) else IgnoredBeforeIntake;
  }

  predicate SharedIntakes(cs: set<Candidate>) { forall c, d | c in cs && d in cs && c.project == d.project :: c.intake == d.intake }

  /** Candidates of one project share its intake time. */
  lemma {:induction false} SameIntake(t: Ticket, ps: seq<Project>)
    requires DistinctIds(ps)
    ensures SharedIntakes(Find(t, ps).candidates)
  {
  }

  lemma {:induction false} OneName(names: set<string>, top: set<Candidate>)
    requires names == Names(top) && |names| == 1
    ensures forall c, d | c in top && d in top :: c.project == d.project
    ensures forall c | c in top :: names == {c.project}
  {
    forall c | c in top ensures names == {c.project} {
      assert c.project in names;
      assert names - {c.project} == {} by {
        assert |names - {c.project}| == 0;
      }
    }
  }
}
