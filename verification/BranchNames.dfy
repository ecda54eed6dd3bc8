/** The names of delivery branches: each component is sanitized, so different targets may share a branch. */
module BranchNames {

  predicate NameChar(c: char) {
    ('A' <= c <= 'Z') || ('a' <= c <= 'z') || ('0' <= c <= '9') || c == '.' || c == '_' || c == '-'
  }

  /** Replaces every maximal run of other characters by one '-'; `inRun` says one was just replaced. */
  function Squeezed(s: string, inRun: bool): string {
    if s == "" then ""
    else if NameChar(s[0]) then [s[0]] + Squeezed(s[1..], false)
    else if inRun then Squeezed(s[1..], true)
    else "-" + Squeezed(s[1..], true)
  }

  predicate Trimmable(c: char) { c == '.' || c == '-' }

  /** `strip(".-")`. */
  function Trimmed(s: string): string {
    if s == "" then ""
    else if Trimmable(s[0]) then Trimmed(s[1..])
    else if Trimmable(s[|s| - 1]) then Trimmed(s[..|s| - 1])
    else s
  }

  const MAX_COMPONENT := 80

  function SafeComponent(value: string): string {
    var cleaned := Trimmed(Squeezed(value, false));
    var cut := if |cleaned| > MAX_COMPONENT then cleaned[..MAX_COMPONENT] else cleaned;
    if cut == "" then "target" else cut
  }

  function DeliveryBranch(task: string, run: string, target: string): string {
    "codefixer/" + SafeComponent(task) + "/" + SafeComponent(run) + "/" + SafeComponent(target)
  }

  predicate AllNameChars(s: string) { forall c | c in s :: NameChar(c) }

  lemma {:induction false} SqueezedIsClean(s: string, inRun: bool)
    ensures AllNameChars(Squeezed(s, inRun))
    decreases |s|
  {
    if s != "" {
      SqueezedIsClean(s[1..], false);
      SqueezedIsClean(s[1..], true);
    }
  }

  lemma {:induction false} TrimmedIsPart(s: string)
    ensures |Trimmed(s)| <= |s| && forall c | c in Trimmed(s) :: c in s
    decreases |s|
  {
    if s != "" {
      if Trimmable(s[0]) {
        TrimmedIsPart(s[1..]);
      } else if Trimmable(s[|s| - 1]) {
        TrimmedIsPart(s[..|s| - 1]);
      }
    }
  }

  /** A component is never empty, never long, and has no character a branch name treats specially. */
  lemma {:induction false} ComponentIsSafe(value: string)
    ensures 0 < |SafeComponent(value)| <= 80 && forall c | c in SafeComponent(value) ::
      'A' <= c <= 'Z' || 'a' <= c <= 'z' || '0' <= c <= '9' || c == '.' || c == '_' || c == '-'
  {
    SqueezedIsClean(value, false);
    TrimmedIsPart(Squeezed(value, false));
    assert AllNameChars(SafeComponent(value));
    forall c | c in SafeComponent(value) ensures NameChar(c) {
    }
  }

  lemma {:induction false} CleanIsNotSqueezed(s: string)
    requires AllNameChars(s)
    ensures Squeezed(s, false) == s
  {
    if s != "" {
      assert s[0] in s && s == [s[0]] + s[1..];
      CleanIsNotSqueezed(s[1..]);
    }
  }

  /** Two targets share a delivery branch exactly when their sanitized names coincide. */
  lemma {:induction false} SameBranchExactlyWhen(task: string, run: string, s: string, t: string)
    ensures DeliveryBranch(task, run, s) == DeliveryBranch(task, run, t) <==> SafeComponent(s) == SafeComponent(t)
  {
    var prefix := "codefixer/" + SafeComponent(task) + "/" + SafeComponent(run) + "/";
    assert DeliveryBranch(task, run, s)[|prefix|..] == SafeComponent(s);
    assert DeliveryBranch(task, run, t)[|prefix|..] == SafeComponent(t);
  }

  /** Target names that need no sanitizing keep branches of their own. */
  lemma {:induction false} CleanTargetsDiffer(task: string, run: string, s: string, t: string)
    requires PlainTarget(s) && PlainTarget(t) && s != t
    ensures DeliveryBranch(task, run, s) != DeliveryBranch(task, run, t)
  {
    SameBranchExactlyWhen(task, run, s, t);
    CleanIsNotSqueezed(s);
    CleanIsNotSqueezed(t);
  }

  predicate PlainTarget(s: string) {
    s != "" && |s| <= MAX_COMPONENT && AllNameChars(s) && !Trimmable(s[0]) && !Trimmable(s[|s| - 1])
  }

  /** A slash between name characters is not told from a dash: such targets share their branch in every run. */
  lemma {:induction false} SlashAndDashCollide(task: string, run: string, u: string, v: string)
    requires AllNameChars(u) && v != "" && NameChar(v[0])
    ensures DeliveryBranch(task, run, u + "/" + v) == DeliveryBranch(task, run, u + "-" + v)
  {
    assert u + "/" + v == u + ("/" + v) && u + "-" + v == u + ("-" + v);
    assert ("/" + v)[1..] == v && ("-" + v)[1..] == v;
    SqueezedPrefix(u, "/" + v);
    SqueezedPrefix(u, "-" + v);
    assert Squeezed(v, true) == [v[0]] + Squeezed(v[1..], false) == Squeezed(v, false);
  }

  lemma {:induction false} ReleaseBranchesCollide(task: string, run: string)
    ensures "release/1" != "release-1" && DeliveryBranch(task, run, "release/1") == DeliveryBranch(task, run, "release-1")
  {
    assert "release" + "/" + "1" == "release/1" && "release" + "-" + "1" == "release-1";
    SlashAndDashCollide(task, run, "release", "1");
  }

  lemma {:induction false} SqueezedPrefix(w: string, y: string)
    requires AllNameChars(w)
    ensures Squeezed(w + y, false) == w + Squeezed(y, false)
  {
    if w == "" {
      assert w + y == y;
    } else {
      assert (w + y)[1..] == w[1..] + y && w[0] in w;
      SqueezedPrefix(w[1..], y);
    }
  }

  /** Every maximal run of other characters becomes one dash. */
  lemma {:induction false} RunsBecomeDashes(u: string, other: string, v: string)
    requires AllNameChars(u) && other != "" && (forall c | c in other :: !NameChar(c)) && (v != "" ==> NameChar(v[0]))
    ensures Squeezed(u + other + v, false) == u + "-" + Squeezed(v, false)
  {
    assert u + other + v == u + (other + v);
    SqueezedPrefix(u, other + v);
    assert (other + v)[1..] == other[1..] + v && other[0] in other;
    RunIsSkipped(other[1..], v);
  }

  lemma {:induction false} RunIsSkipped(other: string, v: string)
    requires (forall c | c in other :: !NameChar(c)) && (v != "" ==> NameChar(v[0]))
    ensures Squeezed(other + v, true) == Squeezed(v, false)
  {
    if other == "" {
      assert other + v == v;
    } else {
      assert (other + v)[1..] == other[1..] + v && other[0] in other;
      RunIsSkipped(other[1..], v);
    }
  }

  /** Dots and dashes are taken off both ends, all of them, and nothing else. */
  lemma {:induction false} TrimmedIs(s: string) returns (a: string, b: string)
    ensures s == a + Trimmed(s) + b && (forall c | c in a :: c == '.' || c == '-') && forall c | c in b :: c == '.' || c == '-'
    ensures var t := Trimmed(s); t != "" ==> t[0] != '.' && t[0] != '-' && t[|t| - 1] != '.' && t[|t| - 1] != '-'
    decreases |s|
  {
    a, b := "", "";
    if s != "" && Trimmable(s[0]) {
      var x, y := TrimmedIs(s[1..]);
      a, b := [s[0]] + x, y;
      assert s == [s[0]] + (x + Trimmed(s) + y);
      assert [s[0]] + (x + Trimmed(s) + y) == a + Trimmed(s) + b;
    } else if s != "" && Trimmable(s[|s| - 1]) {
      var x, y := TrimmedIs(s[..|s| - 1]);
      a, b := x, y + [s[|s| - 1]];
      assert s == (x + Trimmed(s) + y) + [s[|s| - 1]];
      assert (x + Trimmed(s) + y) + [s[|s| - 1]] == a + Trimmed(s) + b;
    }
  }

  /** A name with nothing to keep becomes a word of its own; a long one is cut. */
  lemma {:induction false} SafeComponentIs(value: string)
    ensures var t := Trimmed(Squeezed(value, false));
      SafeComponent(value) == if t == "" then "target" else if |t| <= 80 then t else t[..80]
  {
  }

  /** Names that need no sanitizing stand in the branch name as they are. */
  lemma {:induction false} CleanNamesStay(task: string, run: string, target: string)
    requires PlainTarget(task) && PlainTarget(run) && PlainTarget(target)
    ensures DeliveryBranch(task, run, target) == "codefixer/" + task + "/" + run + "/" + target
  {
    CleanIsNotSqueezed(task);
    CleanIsNotSqueezed(run);
    CleanIsNotSqueezed(target);
  }
}
