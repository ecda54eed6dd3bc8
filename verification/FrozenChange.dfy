/**
 Collecting, verifying and freezing a repair: a file tree is a map from paths to contents, a patch is
 the difference of two trees together with the renames it shows, and hashes are taken to be injective.
 */
module FrozenChange {
  import opened Prelude

  type Path = seq<string>
  type Content = string
  type Tree = map<Path, Content>

  datatype Operation = Add | Modify | Delete | Rename

  /** The new content of a changed path, or None where it was deleted. */
  type Delta = map<Path, Option<Content>>

  datatype Candidate = Candidate(delta: Delta, renames: map<Path, Path>, changed: seq<Path>, operations: seq<(Path, Operation)>)

  function DeltaOf(base: Tree, tree: Tree): Delta {
    map p | p in base.Keys + tree.Keys && !(p in base && p in tree && base[p] == tree[p]) ::
      if p in tree then Some(tree[p]) else None
  }

  function Patched(base: Tree, d: Delta): Tree {
    map p | p in base.Keys + d.Keys && (if p in d then d[p].Some? else true) :: if p in d then d[p].value else base[p]
  }

  /** The difference from the base determines the tree. */
  lemma {:induction false} DeltaDeterminesTree(base: Tree, t: Tree, u: Tree)
    ensures Patched(base, DeltaOf(base, t)) == t
    ensures DeltaOf(base, t) == DeltaOf(base, u) ==> t == u
  {
  }

  /** `dict(operations).get(path, "modify")`: the last entry for a path counts. */
  function OperationOf(ops: seq<(Path, Operation)>, p: Path): Operation {
    if ops == [] then Modify
    else if ops[|ops| - 1].0 == p then ops[|ops| - 1].1
    else OperationOf(ops[..|ops| - 1], p)
  }

  /** The last entry for a path counts, and a path without one counts as modified. */
  lemma {:induction false} LastOperationCounts(ops: seq<(Path, Operation)>, p: Path, op: Operation, q: Path)
    ensures OperationOf(ops + [(p, op)], q) == if q == p then op else OperationOf(ops, q)
    ensures OperationOf([], q) == Modify
  {
    assert (ops + [(p, op)])[..|ops|] == ops;
  }

  /** Renames pair a new path with a removed one. */
  predicate IsRenaming(base: Tree, tree: Tree, renames: map<Path, Path>) {
    forall p | p in renames :: p in tree && p !in base && renames[p] in base && renames[p] !in tree
  }

  predicate NoRepeats<T(==)>(s: seq<T>) { forall i, j | 0 <= i < j < |s| :: s[i] != s[j] }

  /** What collecting a tree over its base reports: a removed path that was renamed is listed under its new name. */
  ghost predicate IsCandidate(base: Tree, tree: Tree, c: Candidate) {
    c.delta == DeltaOf(base, tree) && IsRenaming(base, tree, c.renames) && NoRepeats(c.changed) &&
    (forall p :: p in c.changed <==> p in c.delta && !(exists q :: q in c.renames && c.renames[q] == p)) &&
    forall p | p in c.changed :: OperationOf(c.operations, p) ==
      if p !in tree then Delete else if p in c.renames then Rename else if p in base then Modify else Add
  }

  /** Two collected changes that the pipeline finds equal are changes to the same tree. */
  lemma {:induction false} SameCandidateSameTree(base: Tree, t: Tree, u: Tree, c: Candidate, d: Candidate)
    requires IsCandidate(base, t, c) && IsCandidate(base, u, d) && c.delta == d.delta
    ensures t == u
  {
    DeltaDeterminesTree(base, t, u);
  }

  // ---------- freezing ----------

  datatype Entry = Entry(path: Path, operation: Operation, sha: Option<Content>)

  /** The manifest, and the snapshot files beside it. */
  datatype Frozen = Frozen(delta: Delta, entries: seq<Entry>, files: Tree)

  datatype FreezeError = ChangedFileMissing(path: Path)

  function EntryOf(tree: Tree, c: Candidate, p: Path): Entry {
    var op := OperationOf(c.operations, p);
    Entry(p, op, if op.Delete? || p !in tree then None else Some(tree[p]))
  }

  /** Every path that must have a file has one. */
  predicate Freezable(tree: Tree, c: Candidate) {
    forall p | p in c.changed :: OperationOf(c.operations, p).Delete? || p in tree
  }

  method FreezeChange(tree: Tree, c: Candidate) returns (r: Result<Frozen, FreezeError>)
    ensures r.Ok? <==> Freezable(tree, c)
    ensures r.Ok? ==> IsFrozen(tree, c, r.value)
    ensures r.Err? ==> r.error.path in c.changed && r.error.path !in tree
  {
    var entries: seq<Entry> := [];
    var files: Tree := map[];
    for i := 0 to |c.changed|
      invariant |entries| == i && forall k | 0 <= k < i :: entries[k] == EntryOf(tree, c, c.changed[k])
      invariant forall k | 0 <= k < i :: OperationOf(c.operations, c.changed[k]).Delete? || c.changed[k] in tree
      invariant forall p :: p in files <==> p in c.changed[..i] && !OperationOf(c.operations, p).Delete?
      invariant forall p | p in files :: p in tree && files[p] == tree[p]
    {
      var path := c.changed[i];
      var operation := OperationOf(c.operations, path);
      var sha: Option<Content> := None;
      if operation != Delete {
        if path !in tree {
          return Err(ChangedFileMissing(path));
        }
        sha := Some(tree[path]);
        files := files[path := tree[path]];
      }
      entries := entries + [Entry(path, operation, sha)];
    }
    assert c.changed[..|c.changed|] == c.changed;
    r := Ok(Frozen(c.delta, entries, files));
  }

  /** One entry per changed path in order, and one snapshot per path that is not deleted, with the tree's content. */
  ghost predicate IsFrozen(tree: Tree, c: Candidate, f: Frozen) {
    f.delta == c.delta && |f.entries| == |c.changed| &&
    (forall k | 0 <= k < |c.changed| :: f.entries[k] == EntryOf(tree, c, c.changed[k])) &&
    (forall p :: p in f.files <==> p in c.changed && !OperationOf(c.operations, p).Delete?) &&
    (forall p | p in f.files :: p in tree && f.files[p] == tree[p])
  }

  /** A collected change of the workspace can always be frozen, and freezing records exactly its new contents. */
  lemma {:induction false} CandidateFreezes(base: Tree, tree: Tree, c: Candidate, f: Frozen)
    requires IsCandidate(base, tree, c)
    ensures Freezable(tree, c)
    ensures IsFrozen(tree, c, f) ==> (
      (forall p :: p in f.files <==> p in c.delta && c.delta[p].Some?) &&
      (forall p | p in f.files :: Some(f.files[p]) == c.delta[p]) &&
      forall k | 0 <= k < |f.entries| :: f.entries[k].path in c.delta && f.entries[k].sha == c.delta[f.entries[k].path])
  {
  }

  // ---------- the verify and freeze part of the pipeline ----------

  /** What the environment does: arbitrary effects of the verification commands and of the restore. */
  datatype Environment = Environment(
    agentMovedHead: bool, claimsNoDiff: bool, authorized: bool,
    verified: Tree, headMoved: bool, restoreRaises: bool, restored: Tree, headMovedAgain: bool,
    stepCanceled: bool, passed: bool, cancelRequested: bool, stable: bool)

  datatype Outcome =
    | FrozenChange(frozen: Frozen)
    | NoChange
    | Canceled
    | Failure(code: string)

  /** The first check that fails, for a tree that was changed or not and a candidate that stayed in place or not. */
  function FirstFailure(env: Environment, changed: bool, kept: bool): string {
    if env.agentMovedHead then "source_command"
    else if !changed && env.claimsNoDiff then "stability"
    else if !env.authorized then "unauthorized_change"
    else if !changed then "repair_no_valid_diff"
    else if env.headMoved then "source_command"
    else if !kept then "verification_mutated_workspace"
    else if !env.passed then "verification_failed"
    else "stability"
  }

  class ChangedPipeline {
    var tree: Tree
    const base: Tree
    const collect: Tree -> Candidate

    constructor (base: Tree, tree: Tree, collect: Tree -> Candidate)
      ensures this.base == base && this.tree == tree && this.collect == collect
    {
      this.base, this.tree, this.collect := base, tree, collect;
    }

    /** Collecting a workspace over this base is truthful. */
    ghost predicate Truthful() { forall t: Tree :: IsCandidate(base, t, collect(t)) }

    /**
     A run reaches freeze exactly when the commands, or the restore after them, left the collected
     change in place and everything else went well; then the workspace is the tree the candidate was
     collected from and every frozen file is the candidate's content.
     */
    method VerifyAndFreeze(env: Environment) returns (outcome: Outcome)
      requires Truthful()
      modifies this`tree
      ensures outcome.FrozenChange? <==>
        old(tree) != base && !env.agentMovedHead && env.authorized && !env.headMoved &&
        (env.verified == old(tree) || (!env.restoreRaises && !env.headMovedAgain && env.restored == old(tree))) &&
        !env.stepCanceled && env.passed && !env.cancelRequested && env.stable
      ensures outcome.FrozenChange? ==>
        tree == old(tree) == Patched(base, outcome.frozen.delta) && IsFrozen(old(tree), collect(old(tree)), outcome.frozen)
      ensures outcome.NoChange? <==> old(tree) == base && env.claimsNoDiff && !env.agentMovedHead && env.stable
      ensures outcome.Canceled? <==>
        old(tree) != base && !env.agentMovedHead && env.authorized && !env.headMoved &&
        (env.verified == old(tree) || (!env.restoreRaises && !env.headMovedAgain && env.restored == old(tree))) &&
        (env.stepCanceled || (env.passed && env.cancelRequested))
      ensures outcome.Failure? ==> outcome.code == FirstFailure(env, old(tree) != base,
        env.verified == old(tree) || (!env.restoreRaises && !env.headMovedAgain && env.restored == old(tree)))
      ensures old(tree) == base ==> tree == base
    {
      if env.agentMovedHead {
        return Failure("source_command");
      }
      var candidate := collect(tree);
      ghost var repaired := tree;
      assert IsCandidate(base, repaired, candidate);
      DeltaDeterminesTree(base, repaired, base);
      ChangedExactlyWhen(base, repaired, candidate);
      if env.claimsNoDiff && candidate.changed == [] {
        return if env.stable then NoChange else Failure("stability");
      }
      if !env.authorized {
        return Failure("unauthorized_change");
      }
      if candidate.changed == [] || candidate.delta == map[] {
        return Failure("repair_no_valid_diff");
      }
      tree := env.verified;
      if env.headMoved {
        return Failure("source_command");
      }
      var view := collect(tree);
      assert IsCandidate(base, tree, view);
      if view.delta != candidate.delta || view.changed != candidate.changed || view.operations != candidate.operations {
        if env.restoreRaises {
          return Failure("verification_mutated_workspace");
        }
        tree := env.restored;
        if env.headMovedAgain {
          return Failure("verification_mutated_workspace");
        }
        var restored := collect(tree);
        assert IsCandidate(base, tree, restored);
        if restored.delta != candidate.delta || restored.changed != candidate.changed || restored.operations != candidate.operations {
          return Failure("verification_mutated_workspace");
        }
        SameCandidateSameTree(base, tree, repaired, restored, candidate);
      } else {
        SameCandidateSameTree(base, tree, repaired, view, candidate);
      }
      if env.stepCanceled {
        return Canceled;
      }
      if !env.passed {
        return Failure("verification_failed");
      }
      if env.cancelRequested {
        return Canceled;
      }
      if !env.stable {
        return Failure("stability");
      }
      var frozen := FreezeChange(tree, candidate);
      if frozen.Err? {
        return Failure("file_missing");
      }
      outcome := FrozenChange(frozen.value);
    }
  }

  lemma {:induction false} HeadIsMember(s: seq<Path>)
    ensures s != [] ==> s[0] in s
  {
  }

  /** A change is listed exactly when the tree differs from the base. */
  lemma {:induction false} ChangedExactlyWhen(base: Tree, tree: Tree, c: Candidate)
    requires IsCandidate(base, tree, c)
    ensures c.changed == [] <==> tree == base
    ensures c.delta == map[] <==> tree == base
  {
    if tree == base {
      assert c.delta == map[];
      HeadIsMember(c.changed);
    } else {
      DeltaDeterminesTree(base, tree, base);
      assert DeltaOf(base, base) == map[];
      var p :| p in c.delta;
      if q :| q in c.renames && c.renames[q] == p {
        assert q in c.delta && q in tree;
        assert !(exists o :: o in c.renames && c.renames[o] == q);
        assert q in c.changed;
      } else {
        assert p in c.changed;
      }
    }
  }
}
