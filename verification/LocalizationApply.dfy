/**
 Writing a frozen change into the localization directory: the manifest is validated into a plan before
 anything is written, then the plan is carried out entry by entry.
 */
module LocalizationApply {
  import opened Prelude
  import opened FrozenChange

  // ---------- paths ----------

  /** `PurePosixPath(value.replace("\\", "/")).parts`, without the leading slash of an absolute path. */
  function Parts(text: string): Path { Segments(text, "") }

  /** `segment` is what was read of the current segment; empty and "." segments are dropped. */
  function Segments(text: string, segment: string): Path {
    if text == "" then Kept(segment)
    else if text[0] == '/' || text[0] == '\\' then Kept(segment) + Segments(text[1..], "")
    else Segments(text[1..], segment + [text[0]])
  }

  function Kept(segment: string): Path { if segment == "" || segment == "." then [] else [segment] }

  predicate Absolute(text: string) { text != "" && (text[0] == '/' || text[0] == '\\') }

  function RelativePath(text: string): Option<Path> {
    if Absolute(text) || Parts(text) == [] || ".." in Parts(text) then None else Some(Parts(text))
  }

  // ---------- the manifest and the plan ----------

  datatype Item = NotAnObject | Item(path: string, operation: string, sha: Option<Content>)

  datatype Planned = Planned(operation: Operation, target: Path, content: Option<Content>)

  datatype ApplyError = BadManifest | BadPath | BadOperation | FileMissing | HashMismatch | BadPatch

  function OperationNamed(text: string): Option<Operation> {
    if text == "" || text == "modify" then Some(Modify)
    else if text == "add" then Some(Add)
    else if text == "delete" then Some(Delete)
    else if text == "rename" then Some(Rename)
    else None
  }

  /** One manifest entry checked against the frozen files. */
  function PlanItem(item: Item, files: Tree): Result<Planned, ApplyError> {
    if item.NotAnObject? then Err(BadManifest)
    else if RelativePath(item.path).None? then Err(BadPath)
    else if OperationNamed(item.operation).None? then Err(BadOperation)
    else
      var p, op := RelativePath(item.path).value, OperationNamed(item.operation).value;
      if op == Delete then Ok(Planned(op, p, None))
      else if p !in files then Err(FileMissing)
      else if item.sha != Some(files[p]) then Err(HashMismatch)
      else Ok(Planned(op, p, Some(files[p])))
  }

  datatype PatchLine = RenameFrom(path: string) | RenameTo(path: string) | OtherLine

  /** The rename sources by target that the patch lines announce; `from` is a source waiting for its target. */
  function RenamesIn(lines: seq<PatchLine>, from: Option<Path>, found: map<Path, Path>): Result<map<Path, Path>, ApplyError>
    decreases |lines|
  {
    if lines == [] then Ok(found) else
    match lines[0]
    case OtherLine => RenamesIn(lines[1..], from, found)
    case RenameFrom(p) =>
      if RelativePath(p).None? then Err(BadPatch) else RenamesIn(lines[1..], RelativePath(p), found)
    case RenameTo(p) =>
      if from.None? then RenamesIn(lines[1..], from, found)
      else if RelativePath(p).None? then Err(BadPatch)
      else RenamesIn(lines[1..], None, found[RelativePath(p).value := from.value])
  }

  // ---------- what is refused ----------

  lemma {:induction false} SegmentsJoin(a: string, b: string, segment: string)
    ensures Segments(a + "/" + b, segment) == Segments(a, segment) + Segments(b, "")
  {
    if a == "" {
      assert a + "/" + b == "/" + b && ("/" + b)[1..] == b;
    } else {
      assert (a + "/" + b)[1..] == a[1..] + "/" + b;
      if a[0] == '/' || a[0] == '\\' {
        SegmentsJoin(a[1..], b, "");
      } else {
        SegmentsJoin(a[1..], b, segment + [a[0]]);
      }
    }
  }

  /** A path that goes up anywhere, an absolute path and an empty one are refused. */
  lemma {:induction false} UnsafePathsAreRefused(a: string, b: string)
    ensures RelativePath("..").None? && RelativePath("../" + b).None? && RelativePath(a + "/..").None? && RelativePath(a + "/../" + b).None?
    ensures RelativePath("/" + a).None? && RelativePath("\\" + a).None? && RelativePath("").None?
  {
    DotsAreASegment();
    assert ".." + "/" + b == "../" + b;
    SegmentsJoin("..", b, "");
    assert a + "/" + ".." == a + "/..";
    SegmentsJoin(a, "..", "");
    assert a + "/" + ("../" + b) == a + "/../" + b;
    SegmentsJoin(a, "../" + b, "");
  }

  /** Segments of one dot, empty segments and the kind of slash make no difference. */
  lemma {:induction false} SpellingDoesNotMatter(a: string, b: string)
    ensures Parts(a + "/./" + b) == Parts(a + "/" + b) && Parts(a + "//" + b) == Parts(a + "/" + b)
    ensures Parts("./" + b) == Parts(b) && Parts(a + "\\" + b) == Parts(a + "/" + b)
  {
    SegmentsJoin(a, b, "");
    assert a + "/" + ("./" + b) == a + "/./" + b && "./" + b == "." + "/" + b && a + "/" + ("/" + b) == a + "//" + b;
    assert "."[1..] == "" && "" + ['.'] == ".";
    assert Segments(".", "") == Segments("", ".") == [];
    SegmentsJoin(".", b, "");
    SegmentsJoin(a, "./" + b, "");
    assert ("/" + b)[1..] == b && Segments("/" + b, "") == Segments(b, "");
    SegmentsJoin(a, "/" + b, "");
    BackslashJoins(a, b, "");
  }

  lemma {:induction false} BackslashJoins(a: string, b: string, segment: string)
    ensures Segments(a + "\\" + b, segment) == Segments(a, segment) + Segments(b, "")
  {
    if a == "" {
      assert a + "\\" + b == "\\" + b && ("\\" + b)[1..] == b;
    } else {
      assert (a + "\\" + b)[1..] == a[1..] + "\\" + b;
      if a[0] == '/' || a[0] == '\\' {
        BackslashJoins(a[1..], b, "");
      } else {
        BackslashJoins(a[1..], b, segment + [a[0]]);
      }
    }
  }

  /** The operations there are; a missing one counts as modified. */
  lemma {:induction false} OperationsAre(text: string)
    ensures OperationNamed(text).Some? <==> text in {"", "add", "modify", "delete", "rename"}
    ensures OperationNamed("") == Some(Modify) && OperationNamed("add") == Some(Add) && OperationNamed("modify") == Some(Modify)
    ensures OperationNamed("delete") == Some(Delete) && OperationNamed("rename") == Some(Rename)
  {
  }

  /** Why an entry is refused, the first reason first. */
  lemma {:induction false} RefusalIs(item: Item, files: Tree)
    requires PlanItem(item, files).Err?
    ensures PlanItem(item, files).error ==
      if item.NotAnObject? then BadManifest
      else if RelativePath(item.path).None? then BadPath
      else if OperationNamed(item.operation).None? then BadOperation
      else if RelativePath(item.path).value !in files then FileMissing else HashMismatch
  {
  }

  /** A target without a source is passed over, of two sources the later counts, and a bad path refuses the patch. */
  lemma {:induction false} StrayRenameLines(lines: seq<PatchLine>, p: string, q: string, found: map<Path, Path>)
    ensures RenamesIn([RenameTo(p)] + lines, None, found) == RenamesIn(lines, None, found)
    ensures RelativePath(p).Some? ==> (
      RenamesIn([RenameFrom(p)] + ([RenameFrom(q)] + lines), None, found) == RenamesIn([RenameFrom(q)] + lines, None, found))
    ensures RelativePath(p).None? ==> RenamesIn([RenameFrom(p)] + lines, None, found) == Err(BadPatch)
  {
    assert ([RenameTo(p)] + lines)[1..] == lines && ([RenameFrom(q)] + lines)[1..] == lines;
    assert ([RenameFrom(p)] + ([RenameFrom(q)] + lines))[1..] == [RenameFrom(q)] + lines;
  }

  lemma {:induction false} DotsAreASegment()
    ensures Parts("..") == [".."]
  {
    assert ".."[1..] == "." && "."[1..] == "" && "" + ['.'] == "." && "." + ['.'] == "..";
    assert Segments("..", "") == Segments(".", ".") && Segments(".", ".") == Segments("", "..");
  }

  /**
   An entry is accepted exactly when its path is relative, its operation is known, and, unless it deletes, its
   frozen file is there with the recorded hash. It then plans that file for that path.
   */
  lemma {:induction false} AcceptedExactlyWhen(item: Item, files: Tree)
    ensures PlanItem(item, files).Ok? <==>
      (item.Item? && RelativePath(item.path).Some? && OperationNamed(item.operation).Some? &&
       (item.operation == "delete" ||
        (RelativePath(item.path).value in files && item.sha == Some(files[RelativePath(item.path).value]))))
    ensures PlanItem(item, files).Ok? ==> (
      var e := PlanItem(item, files).value;
      Some(e.target) == RelativePath(item.path) && (e.operation == Delete <==> item.operation == "delete") &&
      (e.operation == Delete ==> e.content.None?) && (e.operation != Delete ==> e.target in files && e.content == Some(files[e.target])))
  {
  }

  // ---------- carrying out a plan ----------

  /** The path an entry removes besides writing its own. */
  function SourceOf(e: Planned, renames: map<Path, Path>): Option<Path> {
    if e.operation == Rename && e.target in renames && renames[e.target] != e.target then Some(renames[e.target]) else None
  }

  predicate Touches(e: Planned, renames: map<Path, Path>, p: Path) { e.target == p || SourceOf(e, renames) == Some(p) }

  /** What an entry leaves at a path it touches. */
  function Leaves(e: Planned, p: Path): Option<Content> { if e.target == p then e.content else None }

  function At(tree: Tree, p: Path): Option<Content> { if p in tree then Some(tree[p]) else None }

  function Removed(tree: Tree, p: Path): Tree { map q | q in tree && q != p :: tree[q] }

  datatype Applied = Applied(tree: Tree, copied: nat, deleted: nat)

  function ApplyEntry(a: Applied, e: Planned, renames: map<Path, Path>): Applied {
    if e.content.None? then
      (if e.target in a.tree then Applied(Removed(a.tree, e.target), a.copied, a.deleted + 1) else a)
    else
      var written := a.tree[e.target := e.content.value];
      var source := SourceOf(e, renames);
      if source.Some? && source.value in written then Applied(Removed(written, source.value), a.copied + 1, a.deleted + 1)
      else Applied(written, a.copied + 1, a.deleted)
  }

  function ApplyAll(a: Applied, plan: seq<Planned>, renames: map<Path, Path>): Applied {
    if plan == [] then a else ApplyEntry(ApplyAll(a, plan[..|plan| - 1], renames), plan[|plan| - 1], renames)
  }

  function Final(tree: Tree, plan: seq<Planned>, renames: map<Path, Path>): Tree { ApplyAll(Applied(tree, 0, 0), plan, renames).tree }

  /** A delete entry, and no other, has no content. */
  predicate WellPlanned(plan: seq<Planned>) { forall e | e in plan :: e.content.None? <==> e.operation == Delete }

  // ---------- the application ----------

  class Localization {
    var tree: Tree

    constructor (tree: Tree)
      ensures this.tree == tree
    {
      this.tree := tree;
    }

    /** Collects the rename pairs line by line. */
    static method ParseRenames(lines: seq<PatchLine>) returns (r: Result<map<Path, Path>, ApplyError>)
      ensures r == RenamesIn(lines, None, map[])
    {
      var from: Option<Path> := None;
      var found: map<Path, Path> := map[];
      for i := 0 to |lines|
        invariant RenamesIn(lines, None, map[]) == RenamesIn(lines[i..], from, found)
      {
        assert lines[i..][1..] == lines[i + 1..];
        match lines[i]
        case OtherLine =>
        case RenameFrom(p) =>
          from := RelativePath(p);
          if from.None? {
            return Err(BadPatch);
          }
        case RenameTo(p) =>
          if from.Some? {
            var to := RelativePath(p);
            if to.None? {
              return Err(BadPatch);
            }
            found := found[to.value := from.value];
            from := None;
          }
      }
      r := Ok(found);
    }

    static method MakePlan(items: seq<Item>, files: Tree) returns (r: Result<seq<Planned>, ApplyError>)
      ensures r.Ok? <==> forall item | item in items :: PlanItem(item, files).Ok?
      ensures r.Ok? ==> |r.value| == |items| && forall k | 0 <= k < |items| :: PlanItem(items[k], files) == Ok(r.value[k])
      ensures r.Ok? ==> WellPlanned(r.value)
      ensures r.Err? ==> exists item :: item in items && PlanItem(item, files) == Err(r.error)
    {
      var planned: seq<Planned> := [];
      for i := 0 to |items|
        invariant |planned| == i && forall k | 0 <= k < i :: PlanItem(items[k], files) == Ok(planned[k])
      {
        var item := items[i];
        assert item in items;
        if item.NotAnObject? {
          return Err(BadManifest);
        }
        var relative := RelativePath(item.path);
        if relative.None? {
          return Err(BadPath);
        }
        var operation := OperationNamed(item.operation);
        if operation.None? {
          return Err(BadOperation);
        }
        if operation.value == Delete {
          planned := planned + [Planned(Delete, relative.value, None)];
        } else {
          if relative.value !in files {
            return Err(FileMissing);
          }
          var content := files[relative.value];
          if item.sha != Some(content) {
            return Err(HashMismatch);
          }
          planned := planned + [Planned(operation.value, relative.value, Some(content))];
        }
      }
      r := Ok(planned);
    }

    /** Carries out the plan with the two counters. */
    method Carry(plan: seq<Planned>, renames: map<Path, Path>) returns (copied: nat, deleted: nat)
      requires WellPlanned(plan)
      modifies this
      ensures Applied(tree, copied, deleted) == ApplyAll(Applied(old(tree), 0, 0), plan, renames)
    {
      ghost var before := tree;
      copied, deleted := 0, 0;
      for i := 0 to |plan|
        invariant Applied(tree, copied, deleted) == ApplyAll(Applied(before, 0, 0), plan[..i], renames)
      {
        assert plan[..i + 1][..i] == plan[..i];
        var e := plan[i];
        if e.operation == Delete {
          if e.target in tree {
            tree := Removed(tree, e.target);
            deleted := deleted + 1;
          }
        } else {
          tree := tree[e.target := e.content.value];
          copied := copied + 1;
          if e.operation == Rename && e.target in renames {
            var oldTarget := renames[e.target];
            if oldTarget != e.target && oldTarget in tree {
              tree := Removed(tree, oldTarget);
              deleted := deleted + 1;
            }
          }
        }
      }
      assert plan[..|plan|] == plan;
    }

    /** An invalid entry or rename means that nothing was written. */
    method Apply(items: seq<Item>, files: Tree, lines: seq<PatchLine>) returns (r: Result<(nat, nat), ApplyError>)
      modifies this
      ensures Applies(old(tree), items, files, lines, r, tree)
    {
      if items == [] {
        return Err(BadManifest);
      }
      var renames := ParseRenames(lines);
      if renames.Err? {
        return Err(renames.error);
      }
      var plan := MakePlan(items, files);
      if plan.Err? {
        return Err(plan.error);
      }
      var copied, deleted := Carry(plan.value, renames.value);
      assert IsPlan(plan.value, items, files);
      r := Ok((copied, deleted));
    }
  }

  ghost predicate IsPlan(plan: seq<Planned>, items: seq<Item>, files: Tree) {
    |plan| == |items| && (forall k | 0 <= k < |items| :: PlanItem(items[k], files) == Ok(plan[k])) && WellPlanned(plan)
  }

  /** What an application of a manifest, its frozen files and its patch lines does to a tree. */
  ghost predicate Applies(before: Tree, items: seq<Item>, files: Tree, lines: seq<PatchLine>,
                          r: Result<(nat, nat), ApplyError>, after: Tree)
  {
    (r.Ok? <==> items != [] && RenamesIn(lines, None, map[]).Ok? && forall item | item in items :: PlanItem(item, files).Ok?) &&
    (r.Err? ==> after == before) &&
    (r.Ok? ==> exists plan: seq<Planned> :: (
      IsPlan(plan, items, files) &&
      Applied(after, r.value.0, r.value.1) == ApplyAll(Applied(before, 0, 0), plan, RenamesIn(lines, None, map[]).value)))
  }

  /** One entry that is refused, and nothing is written. */
  lemma {:induction false} RefusedEntryWritesNothing(before: Tree, items: seq<Item>, files: Tree, lines: seq<PatchLine>,
                                                     r: Result<(nat, nat), ApplyError>, after: Tree, item: Item)
    requires item in items && PlanItem(item, files).Err?
    ensures Applies(before, items, files, lines, r, after) ==> r.Err? && after == before
  {
  }

  // ---------- what a plan does to a path ----------

  /** The position of the last entry that touches a path, or None. */
  function LastTouch(plan: seq<Planned>, renames: map<Path, Path>, p: Path): (r: Option<nat>)
    ensures r.Some? ==> r.value < |plan| && Touches(plan[r.value], renames, p)
    ensures forall k | 0 <= k < |plan| && Touches(plan[k], renames, p) :: r.Some? && k <= r.value
  {
    if plan == [] then None
    else if Touches(plan[|plan| - 1], renames, p) then Some(|plan| - 1)
    else LastTouch(plan[..|plan| - 1], renames, p)
  }

  lemma {:induction false} EntryAt(a: Applied, e: Planned, renames: map<Path, Path>, p: Path)
    requires e.content.None? <==> e.operation == Delete
    ensures At(ApplyEntry(a, e, renames).tree, p) == if Touches(e, renames, p) then Leaves(e, p) else At(a.tree, p)
  {
  }

  /** How many entries write a file. */
  function Writing(plan: seq<Planned>): nat {
    if plan == [] then 0 else Writing(plan[..|plan| - 1]) + if plan[|plan| - 1].content.Some? then 1 else 0
  }

  /**
   The counters of any plan: every writing entry is counted as copied, and the files afterwards and the
   deleted ones are the files before and the new ones, of which there are no more than copies.
   */
  lemma {:induction false} CountersAddUp(tree: Tree, plan: seq<Planned>, renames: map<Path, Path>)
    ensures var a := ApplyAll(Applied(tree, 0, 0), plan, renames);
      a.copied == Writing(plan) && |tree| <= |a.tree| + a.deleted <= |tree| + a.copied
    ensures plan != [] ==> (
      var before := ApplyAll(Applied(tree, 0, 0), plan[..|plan| - 1], renames);
      var a := ApplyAll(Applied(tree, 0, 0), plan, renames);
      var created := plan[|plan| - 1].content.Some? && plan[|plan| - 1].target !in before.tree;
      |a.tree| + a.deleted == |before.tree| + before.deleted + if created then 1 else 0)
    decreases |plan|
  {
    if plan != [] {
      var n := |plan| - 1;
      CountersAddUp(tree, plan[..n], renames);
      OneEntryCounts(ApplyAll(Applied(tree, 0, 0), plan[..n], renames), plan[n], renames);
    }
  }

  lemma {:induction false} OneEntryCounts(a: Applied, e: Planned, renames: map<Path, Path>)
    ensures var b := ApplyEntry(a, e, renames);
      b.copied == a.copied + (if e.content.Some? then 1 else 0) &&
      |b.tree| + b.deleted == |a.tree| + a.deleted + if e.content.Some? && e.target !in a.tree then 1 else 0
  {
    if e.content.None? {
      if e.target in a.tree {
        OneFileLess(a.tree, e.target);
      }
    } else {
      var written := a.tree[e.target := e.content.value];
      OneFileMore(a.tree, e.target, e.content.value);
      var source := SourceOf(e, renames);
      if source.Some? && source.value in written {
        OneFileLess(written, source.value);
      }
    }
  }

  lemma {:induction false} OneFileLess(tree: Tree, p: Path)
    requires p in tree
    ensures |Removed(tree, p)| == |tree| - 1
  {
    assert tree.Keys == Removed(tree, p).Keys + {p};
    assert |tree| == |tree.Keys| && |Removed(tree, p)| == |Removed(tree, p).Keys|;
  }

  lemma {:induction false} OneFileMore(tree: Tree, p: Path, c: Content)
    ensures |tree[p := c]| == |tree| + if p in tree then 0 else 1
  {
    assert tree[p := c].Keys == tree.Keys + {p};
    assert |tree| == |tree.Keys| && |tree[p := c]| == |tree[p := c].Keys|;
  }

  /**
   The outcome at every path, for any plan: the last entry that touches the path decides, leaving its
   frozen content, or nothing for a deletion or a rename source; an untouched path is as it was.
   */
  lemma {:induction false} FinalAt(tree: Tree, plan: seq<Planned>, renames: map<Path, Path>, p: Path)
    requires WellPlanned(plan)
    ensures At(Final(tree, plan, renames), p) ==
      match LastTouch(plan, renames, p)
      case None => At(tree, p)
      case Some(i) => Leaves(plan[i], p)
    decreases |plan|
  {
    if plan != [] {
      var n := |plan| - 1;
      assert plan[n] in plan;
      assert WellPlanned(plan[..n]) by {
        assert forall e | e in plan[..n] :: e in plan;
      }
      FinalAt(tree, plan[..n], renames, p);
      EntryAt(ApplyAll(Applied(tree, 0, 0), plan[..n], renames), plan[n], renames, p);
    }
  }

  /** Each path is listed once, and no rename source is also written. */
  ghost predicate Separate(plan: seq<Planned>, renames: map<Path, Path>) {
    (forall i, j | 0 <= i < |plan| && 0 <= j < |plan| && plan[i].target == plan[j].target :: i == j) &&
    forall e, f | e in plan && f in plan && f.content.Some? :: SourceOf(e, renames) != Some(f.target)
  }

  /** With separate paths every touching entry would leave the same. */
  lemma {:induction false} SeparateLeaves(plan: seq<Planned>, renames: map<Path, Path>, i: nat, j: nat, p: Path)
    requires Separate(plan, renames) && i < |plan| && j < |plan| && Touches(plan[i], renames, p) && Touches(plan[j], renames, p)
    ensures Leaves(plan[i], p) == Leaves(plan[j], p)
  {
  }

  /** With separate paths the order of the entries does not matter. */
  lemma {:induction false} OrderDoesNotMatter(tree: Tree, plan: seq<Planned>, other: seq<Planned>, renames: map<Path, Path>)
    requires WellPlanned(plan) && Separate(plan, renames) && multiset(plan) == multiset(other)
    ensures Final(tree, plan, renames) == Final(tree, other, renames)
  {
    assert forall e :: e in plan <==> e in multiset(plan);
    assert forall e :: e in other <==> e in multiset(other);
    var t, u := Final(tree, plan, renames), Final(tree, other, renames);
    forall p ensures At(t, p) == At(u, p) {
      FinalAt(tree, plan, renames, p);
      FinalAt(tree, other, renames, p);
      SameEntriesSameLeft(plan, other, renames, p);
    }
    SameEverywhere(t, u);
  }

  lemma {:induction false} SameEntriesSameLeft(plan: seq<Planned>, other: seq<Planned>, renames: map<Path, Path>, p: Path)
    requires Separate(plan, renames) && forall e :: e in plan <==> e in other
    ensures var i, j := LastTouch(plan, renames, p), LastTouch(other, renames, p);
      (i.Some? <==> j.Some?) && (i.Some? ==> Leaves(plan[i.value], p) == Leaves(other[j.value], p))
  {
    var i, j := LastTouch(plan, renames, p), LastTouch(other, renames, p);
    if i.Some? {
      assert plan[i.value] in other;
    }
    if j.Some? {
      assert other[j.value] in plan;
      var k :| 0 <= k < |plan| && plan[k] == other[j.value];
      SeparateLeaves(plan, renames, i.value, k, p);
    }
  }

  lemma {:induction false} SameEverywhere(t: Tree, u: Tree)
    requires forall p :: At(t, p) == At(u, p)
    ensures t == u
  {
    forall p ensures p in t <==> p in u {
      assert At(t, p) == At(u, p);
    }
    forall p | p in t ensures t[p] == u[p] {
      assert At(t, p) == At(u, p);
    }
  }

  /** Applying any plan a second time changes nothing more. */
  lemma {:induction false} ApplyingTwiceIsOnce(tree: Tree, plan: seq<Planned>, renames: map<Path, Path>)
    requires WellPlanned(plan)
    ensures Final(Final(tree, plan, renames), plan, renames) == Final(tree, plan, renames)
  {
    var t := Final(tree, plan, renames);
    var u := Final(t, plan, renames);
    forall p ensures At(u, p) == At(t, p) {
      FinalAt(tree, plan, renames, p);
      FinalAt(t, plan, renames, p);
    }
    SameEverywhere(u, t);
  }

  /**
   Order does matter when a rename source is also written: the written content survives exactly when
   it is written after the rename that removes it.
   */
  lemma {:induction false} WrittenSourceSurvivesExactlyWhen(tree: Tree, plan: seq<Planned>, renames: map<Path, Path>,
                                                            i: nat, j: nat)
    requires WellPlanned(plan) && i < |plan| && j < |plan| && plan[i].content.Some?
    requires SourceOf(plan[j], renames) == Some(plan[i].target)
    requires forall k | 0 <= k < |plan| && Touches(plan[k], renames, plan[i].target) :: k == i || k == j
    ensures plan[i].target in Final(tree, plan, renames) <==> i > j
  {
    FinalAt(tree, plan, renames, plan[i].target);
  }

  // ---------- freeze, then apply ----------

  predicate PlainName(name: string) { name != "" && name != "." && name != ".." && '/' !in name && '\\' !in name }

  /** Paths whose text form reads back as the same path. */
  predicate PlainPath(p: Path) { p != [] && forall name | name in p :: PlainName(name) }

  function Joined(p: Path): string {
    if p == [] then "" else if |p| == 1 then p[0] else p[0] + "/" + Joined(p[1..])
  }

  lemma {:induction false} ReadName(name: string, rest: string, segment: string)
    requires '/' !in name && '\\' !in name
    ensures Segments(name + rest, segment) == Segments(rest, segment + name)
  {
    if name == "" {
      assert name + rest == rest && segment + name == segment;
    } else {
      assert (name + rest)[1..] == name[1..] + rest;
      assert name[0] in name;
      ReadName(name[1..], rest, segment + [name[0]]);
      assert segment + [name[0]] + name[1..] == segment + name;
    }
  }

  lemma {:induction false} JoinedReadsBack(p: Path)
    requires PlainPath(p)
    ensures RelativePath(Joined(p)) == Some(p)
    ensures Parts(Joined(p)) == p
  {
    var text := Joined(p);
    assert PlainName(p[0]);
    if |p| == 1 {
      ReadName(p[0], "", "");
      assert p[0] + "" == p[0] && "" + p[0] == p[0];
      assert p == [p[0]];
    } else {
      JoinedReadsBack(p[1..]);
      var rest := "/" + Joined(p[1..]);
      assert text == p[0] + rest && rest[1..] == Joined(p[1..]);
      ReadName(p[0], rest, "");
      assert "" + p[0] == p[0];
      assert p == [p[0]] + p[1..];
    }
    assert text[0] == p[0][0] && p[0][0] in p[0];
    assert ".." !in p by {
      assert forall name | name in p :: PlainName(name);
    }
  }

  function OperationText(op: Operation): string {
    match op case Add => "add" case Modify => "modify" case Delete => "delete" case Rename => "rename"
  }

  lemma {:induction false} OperationReadsBack(op: Operation)
    ensures OperationNamed(OperationText(op)) == Some(op)
  {
  }

  /** The manifest entry as it is stored. */
  function Stored(e: Entry): Item { Item(Joined(e.path), OperationText(e.operation), e.sha) }

  /** Every stored entry of a frozen change is valid and plans what the change does there. */
  lemma {:induction false} StoredEntryPlans(base: Tree, tree: Tree, c: Candidate, f: Frozen, k: nat)
    requires IsCandidate(base, tree, c) && IsFrozen(tree, c, f) && k < |f.entries|
    requires forall p | p in c.changed :: PlainPath(p)
    ensures PlainPath(f.entries[k].path)
    ensures PlanItem(Stored(f.entries[k]), f.files) ==
      Ok(Planned(OperationOf(c.operations, c.changed[k]), c.changed[k], c.delta[c.changed[k]]))
  {
    CandidateFreezes(base, tree, c, f);
    assert c.changed[k] in c.changed;
    JoinedReadsBack(c.changed[k]);
    OperationReadsBack(f.entries[k].operation);
  }

  /** The plan has one entry per changed path, with the change's operation and content. */
  ghost predicate Follows(plan: seq<Planned>, c: Candidate) {
    |plan| == |c.changed| && forall k | 0 <= k < |plan| ::
      c.changed[k] in c.delta && plan[k] == Planned(OperationOf(c.operations, c.changed[k]), c.changed[k], c.delta[c.changed[k]])
  }

  /** The manifest as it is stored. */
  function Manifest(f: Frozen): seq<Item> { seq(|f.entries|, k requires 0 <= k < |f.entries| => Stored(f.entries[k])) }

  lemma {:induction false} PlanOfFrozen(base: Tree, tree: Tree, c: Candidate, f: Frozen, plan: seq<Planned>)
    requires IsCandidate(base, tree, c) && IsFrozen(tree, c, f)
    requires forall p | p in c.changed :: PlainPath(p)
    requires IsPlan(plan, Manifest(f), f.files)
    ensures Follows(plan, c)
  {
    forall k | 0 <= k < |plan|
      ensures c.changed[k] in c.delta &&
        plan[k] == Planned(OperationOf(c.operations, c.changed[k]), c.changed[k], c.delta[c.changed[k]])
    {
      assert c.changed[k] in c.changed;
      StoredEntryPlans(base, tree, c, f, k);
      assert Manifest(f)[k] == Stored(f.entries[k]);
    }
  }

  lemma {:induction false} StoredEntryIsValid(base: Tree, tree: Tree, c: Candidate, f: Frozen, k: nat)
    requires IsCandidate(base, tree, c) && IsFrozen(tree, c, f) && k < |f.entries|
    requires forall p | p in c.changed :: PlainPath(p)
    ensures PlanItem(Manifest(f)[k], f.files).Ok?
  {
    StoredEntryPlans(base, tree, c, f, k);
  }

  lemma {:induction false} FrozenManifestIsValid(base: Tree, tree: Tree, c: Candidate, f: Frozen)
    requires IsCandidate(base, tree, c) && IsFrozen(tree, c, f)
    requires forall p | p in c.changed :: PlainPath(p)
    ensures forall item | item in Manifest(f) :: PlanItem(item, f.files).Ok?
  {
    var items := Manifest(f);
    forall k | 0 <= k < |items| ensures PlanItem(items[k], f.files).Ok? {
      StoredEntryIsValid(base, tree, c, f, k);
    }
  }

  /** Carrying out the plan of a frozen repair on the tree it started from yields the repaired tree. */
  lemma {:induction false} PlanReproducesRepair(base: Tree, tree: Tree, c: Candidate, plan: seq<Planned>)
    requires IsCandidate(base, tree, c) && Follows(plan, c) && WellPlanned(plan)
    ensures Final(base, plan, c.renames) == tree
  {
    var u := Final(base, plan, c.renames);
    forall p ensures At(u, p) == At(tree, p) {
      FinalAt(base, plan, c.renames, p);
      ReproducedAt(base, tree, c, plan, p);
    }
    SameEverywhere(u, tree);
  }

  lemma {:induction false} ReproducedAt(base: Tree, tree: Tree, c: Candidate, plan: seq<Planned>, p: Path)
    requires IsCandidate(base, tree, c) && Follows(plan, c)
    ensures At(tree, p) == match LastTouch(plan, c.renames, p) case None => At(base, p) case Some(i) => Leaves(plan[i], p)
  {
  }

  // ---------- the renames in the frozen patch ----------

  /** The lines that announce a rename. */
  function Announcing(lines: seq<PatchLine>): seq<PatchLine> {
    if lines == [] then [] else (if lines[0].OtherLine? then [] else [lines[0]]) + Announcing(lines[1..])
  }

  predicate PlainPairs(pairs: seq<(Path, Path)>) { forall x | x in pairs :: PlainPath(x.0) && PlainPath(x.1) }

  /** `rename from` and `rename to` for each pair of old and new path. */
  function Announced(pairs: seq<(Path, Path)>): seq<PatchLine>
    requires PlainPairs(pairs)
  {
    if pairs == [] then [] else [RenameFrom(Joined(pairs[0].0)), RenameTo(Joined(pairs[0].1))] + Announced(pairs[1..])
  }

  function Collected(pairs: seq<(Path, Path)>, found: map<Path, Path>): map<Path, Path> {
    if pairs == [] then found else Collected(pairs[1..], found[pairs[0].1 := pairs[0].0])
  }

  lemma {:induction false} OtherLinesDoNotMatter(lines: seq<PatchLine>, from: Option<Path>, found: map<Path, Path>)
    ensures RenamesIn(lines, from, found) == RenamesIn(Announcing(lines), from, found)
    decreases |lines|
  {
    if lines != [] {
      var rest := lines[1..];
      match lines[0]
      case OtherLine =>
        OtherLinesDoNotMatter(rest, from, found);
        assert Announcing(lines) == Announcing(rest);
      case RenameFrom(p) =>
        OtherLinesDoNotMatter(rest, RelativePath(p), found);
        assert Announcing(lines)[1..] == Announcing(rest);
      case RenameTo(p) =>
        assert Announcing(lines)[1..] == Announcing(rest);
        if from.None? {
          OtherLinesDoNotMatter(rest, from, found);
        } else if RelativePath(p).Some? {
          OtherLinesDoNotMatter(rest, None, found[RelativePath(p).value := from.value]);
        }
    }
  }

  lemma {:induction false} AnnouncedReadBack(pairs: seq<(Path, Path)>, found: map<Path, Path>)
    requires PlainPairs(pairs)
    ensures RenamesIn(Announced(pairs), None, found) == Ok(Collected(pairs, found))
    decreases |pairs|
  {
    if pairs != [] {
      var x := pairs[0];
      var lines := Announced(pairs);
      JoinedReadsBack(x.0);
      JoinedReadsBack(x.1);
      assert lines[1..][0] == RenameTo(Joined(x.1)) && lines[1..][1..] == Announced(pairs[1..]);
      AnnouncedReadBack(pairs[1..], found[x.1 := x.0]);
    }
  }

  /** The patch's rename lines, wherever they stand in it, give back the renames it was made from. */
  lemma {:induction false} RenamesReadBack(lines: seq<PatchLine>, pairs: seq<(Path, Path)>)
    requires PlainPairs(pairs)
    requires Announcing(lines) == Announced(pairs)
    ensures RenamesIn(lines, None, map[]) == Ok(Collected(pairs, map[]))
  {
    OtherLinesDoNotMatter(lines, None, map[]);
    AnnouncedReadBack(pairs, map[]);
  }

  // ---------- the whole way ----------

  /** The patch lines announce the renames of the change, each path in plain text. */
  ghost predicate AnnouncesRenames(lines: seq<PatchLine>, pairs: seq<(Path, Path)>, c: Candidate) {
    PlainPairs(pairs) && Announcing(lines) == Announced(pairs) && Collected(pairs, map[]) == c.renames
  }

  /**
   Applying the stored manifest, the frozen files and the patch of a repair to the tree it started
   from succeeds and leaves the repaired tree: added and changed files, deletions and renames alike.
   Only an empty repair is refused, and then there is nothing to reproduce.
   */
  lemma {:induction false} FrozenChangeReproducesRepair(base: Tree, tree: Tree, c: Candidate, f: Frozen, lines: seq<PatchLine>,
                                                        pairs: seq<(Path, Path)>, r: Result<(nat, nat), ApplyError>, after: Tree)
    requires IsCandidate(base, tree, c) && IsFrozen(tree, c, f)
    requires forall p | p in c.changed :: PlainPath(p)
    requires AnnouncesRenames(lines, pairs, c)
    ensures Applies(base, Manifest(f), f.files, lines, r, after) ==> after == tree && (r.Ok? <==> tree != base)
  {
    RenamesReadBack(lines, pairs);
    FrozenManifestIsValid(base, tree, c, f);
    ChangedExactlyWhen(base, tree, c);
    if Applies(base, Manifest(f), f.files, lines, r, after) && r.Ok? {
      var plan :| IsPlan(plan, Manifest(f), f.files) &&
        Applied(after, r.value.0, r.value.1) == ApplyAll(Applied(base, 0, 0), plan, c.renames);
      PlanOfFrozen(base, tree, c, f, plan);
      PlanReproducesRepair(base, tree, c, plan);
    }
  }
}
