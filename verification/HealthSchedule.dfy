/**
 The scheduled project health checks: which projects are due, and how many checks the scheduler can
 trigger. Times are integers of microseconds and only ever move forward.
 */
module HealthSchedule {
  import opened Prelude

  const INTERVAL := 10_800_000_000

  datatype Project = Project(id: string, enabled: bool, created: Option<int>)

  /** `_project_health_due`, with an exact floor for the interval count. */
  function Due(created: Option<int>, checked: Option<int>, now: int): bool {
    if created.None? || checked.None? then true else
    var elapsed := now - created.value;
    if elapsed < INTERVAL then false else
    var latest := created.value + (elapsed / INTERVAL) * INTERVAL;
    checked.value < latest
  }

  /** A boundary of the project's three-hour grid that a check before it does not cover. */
  predicate MissedBoundary(created: int, checked: int, now: int, k: int) {
    k >= 1 && checked < created + k * INTERVAL <= now
  }

  /** A checked project is due exactly when some boundary lies after its last check and not after now. */
  lemma {:induction false} DueExactlyWhen(created: int, checked: int, now: int)
    ensures Due(Some(created), Some(checked), now) <==> exists k: int :: MissedBoundary(created, checked, now, k)
  {
    var elapsed := now - created;
    var last := elapsed / INTERVAL;
    if Due(Some(created), Some(checked), now) {
      assert MissedBoundary(created, checked, now, last);
    }
    if k: int :| MissedBoundary(created, checked, now, k) {
      assert k <= last;
      assert k * INTERVAL <= last * INTERVAL;
    }
  }

  /** A project that is not due was checked since the latest boundary, or its first interval has not passed. */
  lemma {:induction false} NotDueMeansCovered(created: int, checked: int, now: int)
    requires !Due(Some(created), Some(checked), now)
    ensures now - created < INTERVAL || forall k: int | k >= 1 && created + k * INTERVAL <= now :: created + k * INTERVAL <= checked
  {
  }

  /** A project without a stored check, or of unknown age, is always due. */
  lemma {:induction false} UncheckedIsDue(created: Option<int>, checked: Option<int>, now: int)
    ensures created.None? || checked.None? ==> Due(created, checked, now)
    ensures Due(created, checked, now) <==>
      (created.None? || checked.None? || exists k: int :: MissedBoundary(created.value, checked.value, now, k))
  {
    if created.Some? && checked.Some? {
      DueExactlyWhen(created.value, checked.value, now);
    }
  }

  // ---------- the refresh ----------

  function Stored(checked: map<string, int>, id: string): Option<int> { if id in checked then Some(checked[id]) else None }

  predicate IsDue(p: Project, checked: map<string, int>, now: int) { p.enabled && Due(p.created, Stored(checked, p.id), now) }

  function DueIds(projects: seq<Project>, checked: map<string, int>, now: int): set<string> {
    set p | p in projects && IsDue(p, checked, now) :: p.id
  }

  /** The list a refresh works through, in the order of the projects. */
  function DueList(projects: seq<Project>, checked: map<string, int>, now: int): seq<string> {
    if projects == [] then []
    else
      var n := |projects| - 1;
      DueList(projects[..n], checked, now) + if IsDue(projects[n], checked, now) then [projects[n].id] else []
  }

  lemma {:induction false} DueListHasDueIds(projects: seq<Project>, checked: map<string, int>, now: int)
    ensures forall id :: id in DueList(projects, checked, now) <==> id in DueIds(projects, checked, now)
    decreases |projects|
  {
    if projects != [] {
      var n := |projects| - 1;
      assert projects == projects[..n] + [projects[n]];
      DueListHasDueIds(projects[..n], checked, now);
      DueOfOneMore(projects[..n], projects[n], checked, now);
    }
  }

  /** Every due project gets a new check time, when its check finished. */
  function Refreshed(projects: seq<Project>, checked: map<string, int>, now: int, finish: map<string, int>): map<string, int>
    requires forall p | p in projects :: p.id in finish
  {
    var due := DueIds(projects, checked, now);
    map id | id in checked.Keys + due :: if id in due then finish[id] else checked[id]
  }

  /** What a refresh stores: the time its check finished for every enabled project that is due, and nothing else. */
  lemma {:induction false} RefreshStores(projects: seq<Project>, checked: map<string, int>, now: int, finish: map<string, int>, id: string)
    requires forall p | p in projects :: p.id in finish
    ensures var u := Refreshed(projects, checked, now, finish);
      if exists p :: p in projects && p.id == id && p.enabled && Due(p.created, Stored(checked, id), now) then
        id in u && u[id] == finish[id]
      else (id in u <==> id in checked) && (id in u ==> u[id] == checked[id])
  {
  }

  class Scheduler {
    var checked: map<string, int>

    constructor (stored: map<string, int>)
      ensures checked == stored
    {
      checked := stored;
    }

    /** The list is made before any check runs. */
    method SelectDue(projects: seq<Project>, now: int) returns (due: seq<string>)
      ensures due == DueList(projects, checked, now)
    {
      due := [];
      for i := 0 to |projects|
        invariant due == DueList(projects[..i], checked, now)
      {
        assert projects[..i + 1][..i] == projects[..i];
        if projects[i].enabled && Due(projects[i].created, Stored(checked, projects[i].id), now) {
          due := due + [projects[i].id];
        }
      }
      assert projects[..|projects|] == projects;
    }

    /** One check per entry of the list, each storing the time it finished. */
    method RefreshProjectHealth(projects: seq<Project>, now: int, finish: map<string, int>) returns (due: seq<string>)
      requires forall p | p in projects :: p.id in finish
      modifies this
      ensures due == DueList(projects, old(checked), now) && checked == Refreshed(projects, old(checked), now, finish)
    {
      ghost var before := checked;
      due := SelectDue(projects, now);
      DueListHasDueIds(projects, checked, now);
      assert forall id | id in due :: id in finish;
      for i := 0 to |due|
        invariant forall id :: id in checked <==> id in before || id in due[..i]
        invariant forall id | id in checked :: checked[id] == if id in due[..i] then finish[id] else before[id]
      {
        assert due[..i + 1] == due[..i] + [due[i]];
        checked := checked[due[i] := finish[due[i]]];
      }
      assert due[..|due|] == due;
    }
  }

  lemma {:induction false} DueOfOneMore(projects: seq<Project>, p: Project, checked: map<string, int>, now: int)
    ensures DueIds(projects + [p], checked, now) ==
      DueIds(projects, checked, now) + if IsDue(p, checked, now) then {p.id} else {}
  {
  }

  // ---------- counting over runs ----------

  /** A scheduler refresh, or a check from elsewhere (an API request, the start of a run). */
  datatype Event = Refresh(projects: seq<Project>, now: int, finish: map<string, int>) | Put(id: string, at: int)

  /** The rows, the clock, and the times at which the scheduler triggered a check of `id`. */
  datatype State = State(checked: map<string, int>, clock: int, triggered: seq<int>)

  /** At most one entry that is due names `id`; other ids may repeat. */
  predicate OneDueEntry(projects: seq<Project>, checked: map<string, int>, now: int, id: string) {
    forall i, j | 0 <= i < j < |projects| && projects[i].id == id && projects[j].id == id ::
      !(IsDue(projects[i], checked, now) && IsDue(projects[j], checked, now))
  }

  /** The clock never goes back, and a refresh sees the project as it is, due in one entry at most. */
  predicate Possible(s: State, e: Event, p: Project) {
    match e
    case Put(_, at) => s.clock <= at
    case Refresh(projects, now, finish) =>
      s.clock <= now && (forall q | q in projects :: q.id in finish && now <= finish[q.id]) &&
      OneDueEntry(projects, s.checked, now, p.id) && forall q | q in projects && q.id == p.id :: q.created == p.created
  }

  function Latest(projects: seq<Project>, now: int, finish: map<string, int>): int
    requires forall q | q in projects :: q.id in finish
  {
    if projects == [] then now
    else
      var rest := Latest(projects[..|projects| - 1], now, finish);
      var t := finish[projects[|projects| - 1].id];
      if t > rest then t else rest
  }

  lemma {:induction false} LatestIsLast(projects: seq<Project>, now: int, finish: map<string, int>, q: Project)
    requires forall x | x in projects :: x.id in finish
    ensures now <= Latest(projects, now, finish)
    ensures q in projects ==> finish[q.id] <= Latest(projects, now, finish)
    decreases |projects|
  {
    if projects != [] {
      var n := |projects| - 1;
      assert projects == projects[..n] + [projects[n]];
      LatestIsLast(projects[..n], now, finish, q);
    }
  }

  /** A check at this time for every entry of the list that names `id`. */
  function Triggers(due: seq<string>, id: string, now: int): seq<int> {
    if due == [] then []
    else Triggers(due[..|due| - 1], id, now) + if due[|due| - 1] == id then [now] else []
  }

  lemma {:induction false} TriggersOfOneMore(due: seq<string>, next: string, id: string, now: int)
    ensures Triggers(due + [next], id, now) == Triggers(due, id, now) + if next == id then [now] else []
  {
    assert (due + [next])[..|due|] == due;
  }

  lemma {:induction false} DueListOfOneMore(projects: seq<Project>, checked: map<string, int>, now: int)
    requires projects != []
    ensures var n := |projects| - 1;
      DueList(projects, checked, now) ==
        if IsDue(projects[n], checked, now) then DueList(projects[..n], checked, now) + [projects[n].id]
        else DueList(projects[..n], checked, now)
  {
    assert DueList(projects[..|projects| - 1], checked, now) + [] == DueList(projects[..|projects| - 1], checked, now);
  }

  lemma {:induction false} DueEntryTriggers(projects: seq<Project>, checked: map<string, int>, now: int, id: string)
    ensures Triggers(DueList(projects, checked, now), id, now) == [] <==> id !in DueIds(projects, checked, now)
    decreases |projects|
  {
    if projects != [] {
      var n := |projects| - 1;
      assert projects == projects[..n] + [projects[n]];
      DueEntryTriggers(projects[..n], checked, now, id);
      DueOfOneMore(projects[..n], projects[n], checked, now);
      DueListOfOneMore(projects, checked, now);
      TriggersOfOneMore(DueList(projects[..n], checked, now), projects[n].id, id, now);
    }
  }

  /** A refresh checks a project at most once exactly when at most one due entry of the list names it. */
  lemma {:induction false} OneTriggerExactlyWhen(projects: seq<Project>, checked: map<string, int>, now: int, id: string)
    ensures |Triggers(DueList(projects, checked, now), id, now)| <= 1 <==> OneDueEntry(projects, checked, now, id)
    decreases |projects|
  {
    if projects != [] {
      var n := |projects| - 1;
      var rest := projects[..n];
      OneTriggerExactlyWhen(rest, checked, now, id);
      DueEntryTriggers(rest, checked, now, id);
      DueListOfOneMore(projects, checked, now);
      TriggersOfOneMore(DueList(rest, checked, now), projects[n].id, id, now);
      if projects[n].id == id && IsDue(projects[n], checked, now) {
        LastEntryDue(projects, checked, now, id);
      } else {
        OtherLastEntry(projects, checked, now, id);
      }
    }
  }

  lemma {:induction false} OtherLastEntry(projects: seq<Project>, checked: map<string, int>, now: int, id: string)
    requires projects != [] && !(projects[|projects| - 1].id == id && IsDue(projects[|projects| - 1], checked, now))
    ensures OneDueEntry(projects, checked, now, id) <==> OneDueEntry(projects[..|projects| - 1], checked, now, id)
  {
    var rest := projects[..|projects| - 1];
    assert forall i | 0 <= i < |rest| :: rest[i] == projects[i];
  }

  lemma {:induction false} LastEntryDue(projects: seq<Project>, checked: map<string, int>, now: int, id: string)
    requires projects != [] && projects[|projects| - 1].id == id && IsDue(projects[|projects| - 1], checked, now)
    ensures var rest := projects[..|projects| - 1];
      OneDueEntry(projects, checked, now, id) <==> id !in DueIds(rest, checked, now)
  {
    var n := |projects| - 1;
    var rest := projects[..n];
    if id in DueIds(rest, checked, now) {
      var p :| p in rest && IsDue(p, checked, now) && p.id == id;
      var i :| 0 <= i < n && rest[i] == p;
      assert projects[i] == p;
    } else {
      forall i | 0 <= i < n && projects[i].id == id ensures !IsDue(projects[i], checked, now) {
        assert rest[i] in rest;
      }
    }
  }

  /** What the one check logs. */
  lemma {:induction false} TriggersAre(due: seq<string>, id: string, now: int)
    ensures forall t | t in Triggers(due, id, now) :: t == now
  {
    if due != [] {
      TriggersAre(due[..|due| - 1], id, now);
    }
  }

  lemma {:induction false} OneTrigger(projects: seq<Project>, checked: map<string, int>, now: int, id: string)
    requires OneDueEntry(projects, checked, now, id)
    ensures Triggers(DueList(projects, checked, now), id, now) == if id in DueIds(projects, checked, now) then [now] else []
  {
    OneTriggerExactlyWhen(projects, checked, now, id);
    DueEntryTriggers(projects, checked, now, id);
    TriggersAre(DueList(projects, checked, now), id, now);
    var ts := Triggers(DueList(projects, checked, now), id, now);
    if ts == [] {
      assert id !in DueIds(projects, checked, now);
    } else {
      assert ts[0] in ts && ts[0] == now;
      assert ts == [now];
    }
  }

  /** A concrete list: a due project that it names twice is checked twice. */
  lemma {:induction false} ListedTwiceIsTriggeredTwice(p: Project, checked: map<string, int>, now: int)
    requires IsDue(p, checked, now)
    ensures Triggers(DueList([p, p], checked, now), p.id, now) == [now, now]
  {
    assert [p, p][..1] == [p] && [p][..0] == [];
    DueListOfOneMore([p], checked, now);
    DueListOfOneMore([p, p], checked, now);
    TriggersOfOneMore([], p.id, p.id, now);
    TriggersOfOneMore([p.id], p.id, p.id, now);
    assert [] + [p.id] == [p.id] && [p.id] + [p.id] == [p.id, p.id];
  }

  function Step(s: State, e: Event, p: Project): State
    requires Possible(s, e, p)
  {
    match e
    case Put(id, at) => State(s.checked[id := at], at, s.triggered)
    case Refresh(projects, now, finish) =>
      State(Refreshed(projects, s.checked, now, finish), Latest(projects, now, finish),
            s.triggered + Triggers(DueList(projects, s.checked, now), p.id, now))
  }

  ghost predicate PossibleRun(s: State, events: seq<Event>, p: Project)
    decreases |events|
  {
    events == [] || (Possible(s, events[0], p) && PossibleRun(Step(s, events[0], p), events[1..], p))
  }

  ghost function Run(s: State, events: seq<Event>, p: Project): State
    requires PossibleRun(s, events, p)
    decreases |events|
  {
    if events == [] then s else Run(Step(s, events[0], p), events[1..], p)
  }

  /** The number of whole intervals since creation. */
  function Index(created: int, t: int): int { (t - created) / INTERVAL }

  /** Triggered checks lie in different intervals, all before or in the interval of the last check. */
  ghost predicate Inv(s: State, p: Project) {
    p.created.Some? && p.id in s.checked && p.created.value <= s.checked[p.id] <= s.clock &&
    |s.triggered| <= Index(p.created.value, s.checked[p.id]) &&
    (forall t | t in s.triggered :: 1 <= Index(p.created.value, t) <= Index(p.created.value, s.checked[p.id])) &&
    forall i, j | 0 <= i < j < |s.triggered| :: Index(p.created.value, s.triggered[i]) < Index(p.created.value, s.triggered[j])
  }

  lemma {:induction false} IndexIsMonotone(created: int, t: int, u: int)
    requires t <= u
    ensures Index(created, t) <= Index(created, u)
  {
  }

  /** A due check falls into a later interval than the last check. */
  lemma {:induction false} DueMeansLaterInterval(created: int, checked: int, now: int)
    requires Due(Some(created), Some(checked), now)
    ensures 1 <= Index(created, now) && Index(created, checked) < Index(created, now)
  {
  }

  lemma {:induction false} RefreshKeepsInv(s: State, e: Event, p: Project)
    requires Inv(s, p) && Possible(s, e, p) && e.Refresh?
    ensures Inv(Step(s, e, p), p)
  {
    var created := p.created.value;
    var u := Step(s, e, p);
    LatestIsLast(e.projects, e.now, e.finish, p);
    OneTrigger(e.projects, s.checked, e.now, p.id);
    if p.id in DueIds(e.projects, s.checked, e.now) {
      var q :| q in e.projects && q.id == p.id && IsDue(q, s.checked, e.now);
      LatestIsLast(e.projects, e.now, e.finish, q);
      DueMeansLaterInterval(created, s.checked[p.id], e.now);
      IndexIsMonotone(created, e.now, u.checked[p.id]);
    }
  }

  lemma {:induction false} StepKeepsInv(s: State, e: Event, p: Project)
    requires Inv(s, p) && Possible(s, e, p)
    ensures Inv(Step(s, e, p), p)
  {
    if e.Refresh? {
      RefreshKeepsInv(s, e, p);
    } else if e.id == p.id {
      IndexIsMonotone(p.created.value, s.checked[p.id], e.at);
    }
  }

  lemma {:induction false} RunKeepsInv(s: State, events: seq<Event>, p: Project)
    requires Inv(s, p) && PossibleRun(s, events, p)
    ensures Inv(Run(s, events, p), p)
    decreases |events|
  {
    if events != [] {
      StepKeepsInv(s, events[0], p);
      RunKeepsInv(Step(s, events[0], p), events[1..], p);
    }
  }

  /**
   From a check stored at or after creation, over any run: by time `t` the scheduler triggered at most
   one check per whole interval since creation, and never two in the same interval.
   */
  lemma {:induction false} TriggeredAtMostOncePerInterval(s: State, events: seq<Event>, p: Project, i: nat, j: nat)
    requires p.created.Some? && p.id in s.checked && p.created.value <= s.checked[p.id] <= s.clock && s.triggered == []
    requires PossibleRun(s, events, p)
    ensures
      var u := Run(s, events, p);
      |u.triggered| <= (u.clock - p.created.value) / INTERVAL &&
      (i < j < |u.triggered| ==> Index(p.created.value, u.triggered[i]) < Index(p.created.value, u.triggered[j]))
  {
    RunKeepsInv(s, events, p);
    var u := Run(s, events, p);
    IndexIsMonotone(p.created.value, u.checked[p.id], u.clock);
  }
}
