/** What a routing decision means, in both directions, and that no order of projects or rules changes it. */
module RoutingProofs {
  import opened Prelude
  import opened Routing

  // ---------- the decision, spelled out ----------

  /** Rule `r` of project `p` matches with a priority no matching rule exceeds. */
  ghost predicate Wins(t: Ticket, ps: seq<Project>, p: Project, r: Rule) {
    p in ps && r in p.rules && Matches(t, p, r) &&
    forall q, s | q in ps && s in q.rules && Matches(t, q, s) :: s.priority <= r.priority
  }

  /** The project whose rules alone reach the highest priority. */
  ghost predicate OnlyWinner(t: Ticket, ps: seq<Project>, p: Project) {
    (exists r :: Wins(t, ps, p, r)) && forall q, s | Wins(t, ps, q, s) :: ProjectId(q) == ProjectId(p)
  }

  ghost predicate NothingRaises(t: Ticket, ps: seq<Project>) { forall p, r | p in ps && r in p.rules :: !Raises(t, p, r) }

  lemma {:induction false} WinnersAreTop(t: Ticket, ps: seq<Project>)
    ensures forall p, r | Wins(t, ps, p, r) :: CandidateOf(p, r) in Top(Find(t, ps).candidates)
    ensures forall c | c in Top(Find(t, ps).candidates) :: exists p, r :: Wins(t, ps, p, r) && c == CandidateOf(p, r)
  {
    var cs := Find(t, ps).candidates;
    forall p, r | Wins(t, ps, p, r) ensures CandidateOf(p, r) in Top(cs) {
      assert CandidateOf(p, r) in cs;
    }
    forall c | c in Top(cs) ensures exists p, r :: Wins(t, ps, p, r) && c == CandidateOf(p, r) {
      var p, r :| p in ps && r in p.rules && Matches(t, p, r) && c == CandidateOf(p, r);
      forall q, s | q in ps && s in q.rules && Matches(t, q, s) ensures s.priority <= r.priority {
        assert CandidateOf(q, s) in cs;
      }
      assert Wins(t, ps, p, r);
    }
  }

  /** Some candidate reaches the highest priority. */
  lemma {:induction false} TopIsNotEmpty(cs: set<Candidate>)
    requires cs != {}
    ensures Top(cs) != {}
    decreases |cs|
  {
    var c :| c in cs;
    var rest := cs - {c};
    if rest == {} {
      assert cs == {c};
      assert c in Top(cs);
    } else {
      TopIsNotEmpty(rest);
      var d :| d in Top(rest);
      assert cs == rest + {c};
      assert (if c.priority > d.priority then c else d) in Top(cs);
    }
  }

  lemma {:induction false} SingleName(names: set<string>, n: string)
    requires n in names && forall m | m in names :: m == n
    ensures |names| == 1
  {
    assert names == {n};
  }

  /**
   The decision names a project exactly when nothing raises, that project alone reaches the highest
   priority among all matching rules, and the ticket was not created before its intake.
   */
  lemma {:induction false} MatchedExactlyWhen(t: Ticket, ps: seq<Project>, id: string)
    requires DistinctIds(ps)
    ensures Decide(t, Find(t, ps)) == Ok(Matched(id)) <==>
      NothingRaises(t, ps) && exists p :: OnlyWinner(t, ps, p) && ProjectId(p) == id && InTime(t.created, p.intake)
  {
    WinnerDecides(t, ps);
    if p :| OnlyWinner(t, ps, p) && ProjectId(p) == id && InTime(t.created, p.intake) {
      OnlyWinnerDecides(t, ps, p);
    }
  }

  /** A winner that is too new for the ticket ends the search: no lower priority is tried. */
  lemma {:induction false} TooNewWinnerNeverFallsBack(t: Ticket, ps: seq<Project>)
    requires DistinctIds(ps)
    ensures Decide(t, Find(t, ps)) == Ok(IgnoredBeforeIntake) <==>
      NothingRaises(t, ps) && exists p :: OnlyWinner(t, ps, p) && !InTime(t.created, p.intake)
  {
    WinnerDecides(t, ps);
    if p :| OnlyWinner(t, ps, p) && !InTime(t.created, p.intake) {
      OnlyWinnerDecides(t, ps, p);
    }
  }

  function Won(t: Ticket, p: Project): Result<Decision, RouteError> {
    Ok(if InTime(t.created, p.intake) then Matched(ProjectId(p)) else IgnoredBeforeIntake)
  }

  lemma {:induction false} OnlyWinnerDecides(t: Ticket, ps: seq<Project>, p: Project)
    requires DistinctIds(ps) && OnlyWinner(t, ps, p)
    ensures NothingRaises(t, ps) ==> Decide(t, Find(t, ps)) == Won(t, p)
  {
    WinnersAreTop(t, ps);
    SameIntake(t, ps);
    var f := Find(t, ps);
    var top := Top(f.candidates);
    var r :| Wins(t, ps, p, r);
    var c := CandidateOf(p, r);
    assert c in top && c.project in Names(top);
    forall m | m in Names(top) ensures m == ProjectId(p) {
      var d :| d in top && d.project == m;
      var q, s :| Wins(t, ps, q, s) && d == CandidateOf(q, s);
    }
    SingleName(Names(top), ProjectId(p));
    OneName(Names(top), top);
  }

  lemma {:induction false} WinnerDecides(t: Ticket, ps: seq<Project>)
    requires DistinctIds(ps)
    ensures var d := Decide(t, Find(t, ps));
      d.Ok? && (d.value.Matched? || d.value.IgnoredBeforeIntake?) ==> (
        NothingRaises(t, ps) && exists p :: OnlyWinner(t, ps, p) && d == Won(t, p))
  {
    var f := Find(t, ps);
    var top := Top(f.candidates);
    var d := Decide(t, f);
    if d.Ok? && (d.value.Matched? || d.value.IgnoredBeforeIntake?) {
      WinnersAreTop(t, ps);
      TopIsNotEmpty(f.candidates);
      var c :| c in top;
      var p, r :| Wins(t, ps, p, r) && c == CandidateOf(p, r);
      OneName(Names(top), top);
      forall q, s | Wins(t, ps, q, s) ensures ProjectId(q) == ProjectId(p) {
        assert CandidateOf(q, s) in top;
      }
      assert OnlyWinner(t, ps, p);
      OnlyWinnerDecides(t, ps, p);
    }
  }

  lemma {:induction false} TwoNames(cs: set<Candidate>)
    requires cs != {}
    ensures |Names(Top(cs))| != 1 <==> exists c, d :: c in Top(cs) && d in Top(cs) && c.project != d.project
  {
    var top := Top(cs);
    if |Names(top)| == 1 {
      OneName(Names(top), top);
    } else {
      TopIsNotEmpty(cs);
      var c :| c in top;
      assert c.project in Names(top);
      if forall d | d in top :: d.project == c.project {
        SingleName(Names(top), c.project);
      }
    }
  }

  /** Two projects that reach the highest priority make the ticket ambiguous, and only that does. */
  lemma {:induction false} AmbiguousExactlyWhen(t: Ticket, ps: seq<Project>)
    ensures (Decide(t, Find(t, ps)).Ok? && Decide(t, Find(t, ps)).value.Ambiguous?) <==>
      NothingRaises(t, ps) && exists p, r, q, s :: Wins(t, ps, p, r) && Wins(t, ps, q, s) && ProjectId(p) != ProjectId(q)
  {
    WinnersAreTop(t, ps);
    var cs := Find(t, ps).candidates;
    if p, r, q, s :| Wins(t, ps, p, r) && Wins(t, ps, q, s) && ProjectId(p) != ProjectId(q) {
      assert CandidateOf(p, r) in Top(cs) && CandidateOf(q, s) in Top(cs);
    }
    if cs != {} {
      TwoNames(cs);
    }
  }

  // ---------- order ----------

  ghost predicate SameRules(p: Project, q: Project) {
    p.(rules := []) == q.(rules := []) && forall r :: r in p.rules <==> r in q.rules
  }

  ghost predicate Covered(ps: seq<Project>, qs: seq<Project>) { forall p | p in ps :: exists q :: q in qs && SameRules(p, q) }

  /** Reordering the projects, and the rules within each, does not change the decision. */
  lemma {:induction false} OrderDoesNotMatter(t: Ticket, ps: seq<Project>, qs: seq<Project>)
    requires Covered(ps, qs) && Covered(qs, ps)
    ensures Decide(t, Find(t, ps)) == Decide(t, Find(t, qs))
  {
    FoundAgain(t, ps, qs);
    FoundAgain(t, qs, ps);
    WithinBoth(Find(t, ps), Find(t, qs));
  }

  predicate Within(f: Findings, g: Findings) {
    (f.seen ==> g.seen) && (f.version ==> g.version) && (f.title ==> g.title) && (f.raised ==> g.raised) &&
    f.candidates <= g.candidates
  }

  lemma {:induction false} FoundAgain(t: Ticket, ps: seq<Project>, qs: seq<Project>)
    requires Covered(ps, qs)
    ensures Within(Find(t, ps), Find(t, qs))
  {
  }

  lemma {:induction false} WithinBoth(f: Findings, g: Findings)
    requires Within(f, g) && Within(g, f)
    ensures f == g
  {
  }
}
