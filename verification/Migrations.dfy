/** The migration runner: any number of runners over one directory, each under the advisory lock, each file in
    a transaction of its own, with failures and lost connections anywhere.
    Assumed of PostgreSQL: the advisory lock has one holder and is given up by a connection that is lost; an unlock
    on a live connection does not fail; a transaction that is not committed leaves nothing behind. */
module Migrations {
  import opened Ordering

  /** `pending` is what the runner read, `done` how many of these it has committed, `first` the number of files
      applied before. */
  datatype Phase =
    | Queued
    | Locked
    | Between(pending: seq<string>, done: nat, first: nat)
    | Inside(pending: seq<string>, done: nat, first: nat)
    | Failing
    | Succeeded(returned: seq<string>, first: nat)
    | Failed

  datatype State = State(
    files: seq<string>,
    applied: seq<string>,      // committed migrations, in commit order
    appliers: seq<nat>,        // who committed them
    versions: set<string>,     // schema_migrations
    holder: int,               // the runner with the advisory lock, or -1
    runners: seq<Phase>)

  predicate IsMigration(name: string) {
    |name| >= 4 && name[|name| - 4..] == ".sql"
  }

  /** A name that ends in .sql. */
  lemma IsMigrationMeans(name: string)
    ensures IsMigration(name) <==> exists stem: string :: name == stem + ".sql"
  {
    if IsMigration(name) { assert name == name[..|name| - 4] + ".sql"; }
    if stem: string :| name == stem + ".sql" {
      assert name[|name| - 4..] == ".sql";
    }
  }

  /** A listing of the directory: its .sql entries, sorted. */
  ghost predicate IsListing(entries: set<string>, files: seq<string>) {
    Ascending(files) && Members(files) == set name | name in entries && IsMigration(name)
  }

  function Unapplied(files: seq<string>, versions: set<string>): seq<string> {
    if files == [] then []
    else (if files[0] in versions then [] else [files[0]]) + Unapplied(files[1..], versions)
  }

  ghost predicate Initial(s: State) {
    && Ascending(s.files)
    && s.applied == [] && s.appliers == [] && s.versions == {} && s.holder == -1 && s.runners == []
  }

  datatype Step =
    | Begin
    | Acquire(r: nat)
    | ReadVersions(r: nat)
    | RunFile(r: nat)
    | CommitFile(r: nat)
    | CommitUnanswered(r: nat)
    | Break(r: nat)
    | Finish(r: nat)
    | Abort(r: nat)
    | Lose(r: nat)

  predicate Holding(p: Phase) {
    p.Locked? || p.Between? || p.Inside? || p.Failing?
  }

  /** INSERT INTO schema_migrations fails on a version that is already there. */
  predicate Enabled(s: State, step: Step) {
    match step
    case Begin => true
    case Acquire(r) => r < |s.runners| && s.runners[r].Queued? && s.holder == -1
    case ReadVersions(r) => r < |s.runners| && s.runners[r].Locked?
    case RunFile(r) => r < |s.runners| && s.runners[r].Between? && s.runners[r].done < |s.runners[r].pending|
    case CommitFile(r) => CanCommit(s, r)
    case CommitUnanswered(r) => CanCommit(s, r)
    case Break(r) => r < |s.runners| && (s.runners[r].Locked? || s.runners[r].Between? || s.runners[r].Inside?)
    case Finish(r) => r < |s.runners| && s.runners[r].Between? && s.runners[r].done == |s.runners[r].pending|
    case Abort(r) => r < |s.runners| && s.runners[r].Failing?
    case Lose(r) => r < |s.runners| && (s.runners[r].Queued? || Holding(s.runners[r]))
  }

  predicate CanCommit(s: State, r: nat) {
    && r < |s.runners| && s.runners[r].Inside? && s.runners[r].done < |s.runners[r].pending|
    && s.runners[r].pending[s.runners[r].done] !in s.versions
  }

  function Commit(s: State, r: nat, next: Phase): State
    requires CanCommit(s, r)
  {
    var file := s.runners[r].pending[s.runners[r].done];
    s.(applied := s.applied + [file], appliers := s.appliers + [r], versions := s.versions + {file}, runners := s.runners[r := next])
  }

  function Leave(s: State, r: nat, last: Phase): State
    requires r < |s.runners|
  {
    s.(holder := if s.holder == r then -1 else s.holder, runners := s.runners[r := last])
  }

  function Next(s: State, step: Step): State
    requires Enabled(s, step)
  {
    match step
    case Begin => s.(runners := s.runners + [Queued])
    case Acquire(r) => s.(holder := r, runners := s.runners[r := Locked])
    case ReadVersions(r) =>
      s.(runners := s.runners[r := Between(Unapplied(s.files, s.versions), 0, |s.applied|)])
    case RunFile(r) =>
      var p := s.runners[r];
      s.(runners := s.runners[r := Inside(p.pending, p.done, p.first)])
    case CommitFile(r) =>
      var p := s.runners[r];
      Commit(s, r, Between(p.pending, p.done + 1, p.first))
    case CommitUnanswered(r) => Commit(s, r, Failing)
    case Break(r) => s.(runners := s.runners[r := Failing])
    case Finish(r) => Leave(s, r, Succeeded(s.runners[r].pending, s.runners[r].first))
    case Abort(r) => Leave(s, r, Failed)
    case Lose(r) => Leave(s, r, Failed)
  }

  ghost predicate Leads(s: State, steps: seq<Step>, t: State)
    decreases |steps|
  {
    if steps == [] then s == t
    else Enabled(s, steps[0]) && Leads(Next(s, steps[0]), steps[1..], t)
  }

  ghost predicate Reachable(t: State) {
    exists s: State, steps: seq<Step> :: Initial(s) && Leads(s, steps, t)
  }

  // ----- The invariant -----

  /** Exactly the commits numbered first .. first + n - 1 are r's. */
  ghost predicate CommittedBy(s: State, r: nat, first: nat, n: nat) {
    && first + n <= |s.appliers|
    && forall i :: 0 <= i < |s.appliers| ==> (s.appliers[i] == r <==> first <= i < first + n)
  }

  ghost predicate RunnerOk(s: State, r: nat)
    requires r < |s.runners| && |s.appliers| == |s.applied| <= |s.files|
  {
    match s.runners[r]
    case Between(pending, done, first) => Progress(s, r, pending, done, first)
    case Inside(pending, done, first) => done < |pending| && Progress(s, r, pending, done, first)
    case Succeeded(returned, first) =>
      && s.applied == s.files && CommittedBy(s, r, first, |returned|)
      && returned == s.applied[first..first + |returned|]
    case Queued => forall i :: 0 <= i < |s.appliers| ==> s.appliers[i] != r
    case Locked => forall i :: 0 <= i < |s.appliers| ==> s.appliers[i] != r
    case _ => true
  }

  ghost predicate Progress(s: State, r: nat, pending: seq<string>, done: nat, first: nat)
    requires |s.appliers| == |s.applied| <= |s.files|
  {
    && done <= |pending| && first + done == |s.applied|
    && pending == s.files[first..]
    && CommittedBy(s, r, first, done)
  }

  ghost predicate Inv(s: State) {
    && Ascending(s.files)
    && |s.appliers| == |s.applied| <= |s.files|
    && s.applied == s.files[..|s.applied|]
    && s.versions == Members(s.applied)
    && (forall i :: 0 <= i < |s.appliers| ==> s.appliers[i] < |s.runners|)
    && (s.holder == -1 || (0 <= s.holder < |s.runners| && Holding(s.runners[s.holder])))
    && (forall r :: 0 <= r < |s.runners| && Holding(s.runners[r]) ==> s.holder == r)
    && (forall r {:trigger RunnerOk(s, r)} :: 0 <= r < |s.runners| ==> RunnerOk(s, r))
  }

  /** With a prefix applied, what is left is the suffix. */
  lemma {:induction false} UnappliedIsSuffix(files: seq<string>, n: nat, versions: set<string>)
    requires Ascending(files) && n <= |files| && versions * Members(files) == Members(files[..n])
    ensures Unapplied(files, versions) == files[n..]
  {
    if files != [] {
      assert files[0] in files && files[0] in Members(files);
      TailMembers(files);
      if n == 0 {
        assert files[0] !in Members(files[..0]);
        assert versions * Members(files[1..]) == Members(files[1..][..0]);
        UnappliedIsSuffix(files[1..], 0, versions);
        assert files == [files[0]] + files[1..];
      } else {
        assert files[..n][0] == files[0];
        assert files[0] in Members(files[..n]);
        TailMembers(files[..n]);
        assert files[..n][1..] == files[1..][..n - 1];
        UnappliedIsSuffix(files[1..], n - 1, versions);
        assert files[1..][n - 1..] == files[n..];
      }
    }
  }

  lemma PrefixVersions(s: State)
    requires Inv(s)
    ensures Unapplied(s.files, s.versions) == s.files[|s.applied|..]
  {
    assert s.versions * Members(s.files) == Members(s.files[..|s.applied|]);
    UnappliedIsSuffix(s.files, |s.applied|, s.versions);
  }

  /** The next pending file has never been applied: the version's primary key is never violated. */
  lemma NextIsNew(s: State, r: nat)
    requires Inv(s) && r < |s.runners| && s.runners[r].Inside?
    ensures CanCommit(s, r)
    ensures |s.applied| < |s.files| && s.runners[r].pending[s.runners[r].done] == s.files[|s.applied|]
  {
    assert RunnerOk(s, r);
    var n := |s.applied|;
    var file := s.files[n];
    if file in s.versions {
      var k :| 0 <= k < n && s.applied[k] == file;
      assert Less(s.files[k], s.files[n]);
      LessTotal(file, file);
    }
  }

  lemma CommitKeepsInv(s: State, r: nat, next: Phase)
    requires Inv(s) && CanCommit(s, r)
    requires next == Failing || next == Between(s.runners[r].pending, s.runners[r].done + 1, s.runners[r].first)
    ensures Inv(Commit(s, r, next))
  {
    var t := Commit(s, r, next);
    NextIsNew(s, r);
    assert RunnerOk(s, r);
    assert t.applied == s.files[..|t.applied|];
    assert Members(t.applied) == Members(s.applied) + {s.files[|s.applied|]};
    forall x | 0 <= x < |t.runners| ensures RunnerOk(t, x) {
      assert RunnerOk(s, x);
      assert x != r ==> !Holding(s.runners[x]);
      assert !s.runners[x].Succeeded?;
    }
  }

  /** One runner moves to phase p, taking, keeping or giving up the lock. */
  lemma MoveKeepsInv(s: State, r: nat, p: Phase, t: State)
    requires Inv(s) && r < |s.runners|
    requires t == s.(runners := s.runners[r := p],
                     holder := if Holding(p) then r else if s.holder == r then -1 else s.holder)
    requires Holding(p) ==> s.holder == -1 || s.holder == r
    requires RunnerOk(t, r)
    ensures Inv(t)
  {
    forall x | 0 <= x < |t.runners| ensures RunnerOk(t, x) {
      assert RunnerOk(s, x);
    }
  }

  lemma LocalKeepsInv(s: State, step: Step)
    requires Inv(s) && Enabled(s, step) && !step.CommitFile? && !step.CommitUnanswered? && !step.Begin?
    ensures Inv(Next(s, step))
  {
    var t := Next(s, step);
    assert RunnerOk(s, step.r);
    if step.ReadVersions? { PrefixVersions(s); }
    MoveKeepsInv(s, step.r, t.runners[step.r], t);
  }

  lemma BeginKeepsInv(s: State)
    requires Inv(s)
    ensures Inv(Next(s, Begin))
  {
    var t := Next(s, Begin);
    forall x | 0 <= x < |t.runners| ensures RunnerOk(t, x) {
      if x < |s.runners| { assert RunnerOk(s, x); }
    }
  }

  lemma StepKeepsInv(s: State, step: Step)
    requires Inv(s) && Enabled(s, step)
    ensures Inv(Next(s, step)) && Next(s, step).files == s.files && s.applied <= Next(s, step).applied
  {
    match step
    case Begin => BeginKeepsInv(s);
    case CommitFile(r) => CommitKeepsInv(s, r, Between(s.runners[r].pending, s.runners[r].done + 1, s.runners[r].first));
    case CommitUnanswered(r) => CommitKeepsInv(s, r, Failing);
    case _ => LocalKeepsInv(s, step);
  }

  lemma {:induction false} RunKeepsInv(s: State, steps: seq<Step>, t: State)
    requires Inv(s) && Leads(s, steps, t)
    ensures Inv(t) && t.files == s.files && s.applied <= t.applied
    decreases |steps|
  {
    if steps != [] {
      StepKeepsInv(s, steps[0]);
      RunKeepsInv(Next(s, steps[0]), steps[1..], t);
    }
  }

  lemma ReachableInv(t: State)
    requires Reachable(t)
    ensures Inv(t)
  {
    var s, steps :| Initial(s) && Leads(s, steps, t);
    RunKeepsInv(s, steps, t);
  }

  // ----- Theorems -----

  /** At any moment the committed migrations are a prefix of the sorted directory, none twice, and
      schema_migrations holds exactly these. */
  lemma AppliedIsRecordedPrefix(t: State)
    requires Reachable(t)
    ensures t.applied <= t.files && t.versions == Members(t.applied)
    ensures forall j, k :: 0 <= j < k < |t.applied| ==> t.applied[j] != t.applied[k]
  {
    ReachableInv(t);
    forall j, k | 0 <= j < k < |t.applied| ensures t.applied[j] != t.applied[k] {
      assert Less(t.files[j], t.files[k]);
      LessTotal(t.files[j], t.files[j]);
    }
  }

  /** A runner that succeeds leaves every file applied, and returns exactly the files that it committed. */
  lemma SuccessMeansAllApplied(t: State, r: nat)
    requires Reachable(t) && r < |t.runners| && t.runners[r].Succeeded?
    ensures t.applied == t.files
    ensures var p := t.runners[r];
            p.first + |p.returned| <= |t.applied| == |t.appliers| && p.returned == t.applied[p.first..p.first + |p.returned|]
    ensures forall i :: 0 <= i < |t.appliers| ==>
              (t.appliers[i] == r <==> t.runners[r].first <= i < t.runners[r].first + |t.runners[r].returned|)
  {
    ReachableInv(t);
    assert RunnerOk(t, r);
  }

  /** At most one runner is between lock and unlock, and no runner waits for nothing: the lock is free, or its
      holder has a step that does not depend on anyone else. */
  lemma OneAtATime(t: State)
    requires Reachable(t)
    ensures forall a, b :: 0 <= a < |t.runners| && 0 <= b < |t.runners| && Holding(t.runners[a]) && Holding(t.runners[b]) ==> a == b
    ensures forall r :: 0 <= r < |t.runners| && t.runners[r].Queued? ==>
              Enabled(t, Acquire(r)) || (0 <= t.holder < |t.runners| && HolderMoves(t, t.holder))
  {
    ReachableInv(t);
    if t.holder != -1 {
      assert RunnerOk(t, t.holder);
      if t.runners[t.holder].Inside? { NextIsNew(t, t.holder); }
    }
  }

  /** The holder can go on towards its end without failing. */
  predicate HolderMoves(s: State, r: nat) {
    Enabled(s, ReadVersions(r)) || Enabled(s, RunFile(r)) || Enabled(s, CommitFile(r)) || Enabled(s, Finish(r)) || Enabled(s, Abort(r))
  }

  /** Nothing that was applied is ever applied again or taken back. */
  lemma AppliedOnlyGrows(s: State, steps: seq<Step>, t: State)
    requires Reachable(s) && Leads(s, steps, t)
    ensures s.applied <= t.applied && s.versions <= t.versions && t.files == s.files
  {
    ReachableInv(s);
    RunKeepsInv(s, steps, t);
  }

  // ----- A failed or lost runner never stands in the way -----

  /** A runner can be lost at any moment up to its end, and fail at any moment under the lock: what was applied stays,
      nothing is added, and whoever is waiting can have the lock next. */
  lemma AnyRunnerCanFail(t: State, r: nat, waiting: nat)
    requires Reachable(t) && r < |t.runners| && waiting < |t.runners| && waiting != r && t.runners[waiting].Queued?
    ensures t.runners[r].Queued? || Holding(t.runners[r]) ==>
              && Enabled(t, Lose(r))
              && var u := Next(t, Lose(r));
                 && u.applied == t.applied && u.versions == t.versions && u.runners == t.runners[r := Failed]
                 && (Holding(t.runners[r]) ==> Enabled(u, Acquire(waiting)))
    ensures t.runners[r].Locked? || t.runners[r].Between? || t.runners[r].Inside? ==>
              && Enabled(t, Break(r)) && Enabled(Next(t, Break(r)), Abort(r))
              && var u := Next(Next(t, Break(r)), Abort(r));
                 && u.applied == t.applied && u.versions == t.versions && u.runners == t.runners[r := Failed]
                 && Enabled(u, Acquire(waiting))
  {
    ReachableInv(t);
  }

  lemma {:induction false} LeadsOn(s: State, a: seq<Step>, t: State, b: seq<Step>, u: State)
    requires Leads(s, a, t) && Leads(t, b, u)
    ensures Leads(s, a + b, u)
    decreases |a|
  {
    if a == [] {
      assert a + b == b;
    } else {
      LeadsOn(Next(s, a[0]), a[1..], t, b, u);
      assert (a + b)[0] == a[0] && (a + b)[1..] == a[1..] + b;
    }
  }

  lemma LeadsTwo(s: State, a: Step, b: Step)
    requires Enabled(s, a) && Enabled(Next(s, a), b)
    ensures Leads(s, [a, b], Next(Next(s, a), b))
  {
    assert [a, b][1..] == [b] && [b][1..] == [];
    assert Leads(Next(s, a), [b], Next(Next(s, a), b));
  }

  /** A runner in its loop, left alone, applies the rest and succeeds. */
  lemma {:induction false} LoopCanFinish(s: State, r: nat) returns (steps: seq<Step>, t: State)
    requires Inv(s) && r < |s.runners| && s.runners[r].Between?
    ensures Leads(s, steps, t) && |t.runners| == |s.runners| && t.runners[r].Succeeded?
    decreases |s.runners[r].pending| - s.runners[r].done
  {
    assert RunnerOk(s, r);
    if s.runners[r].done == |s.runners[r].pending| {
      t := Next(s, Finish(r));
      steps := [Finish(r)];
    } else {
      var u := Next(s, RunFile(r));
      StepKeepsInv(s, RunFile(r));
      NextIsNew(u, r);
      StepKeepsInv(u, CommitFile(r));
      LeadsTwo(s, RunFile(r), CommitFile(r));
      var rest;
      rest, t := LoopCanFinish(Next(u, CommitFile(r)), r);
      steps := [RunFile(r), CommitFile(r)] + rest;
      LeadsOn(s, [RunFile(r), CommitFile(r)], Next(u, CommitFile(r)), rest, t);
    }
  }

  lemma NewRunnerCanFinish(s: State) returns (steps: seq<Step>, t: State)
    requires Inv(s) && s.holder == -1
    ensures Leads(s, steps, t) && |s.runners| < |t.runners| && t.runners[|s.runners|].Succeeded?
  {
    var r := |s.runners|;
    var s1 := Next(s, Begin);
    StepKeepsInv(s, Begin);
    var s2 := Next(s1, Acquire(r));
    StepKeepsInv(s1, Acquire(r));
    LeadsTwo(s, Begin, Acquire(r));
    var s3 := Next(s2, ReadVersions(r));
    StepKeepsInv(s2, ReadVersions(r));
    var rest;
    rest, t := LoopCanFinish(s3, r);
    assert ([ReadVersions(r)] + rest)[1..] == rest;
    assert Leads(s2, [ReadVersions(r)] + rest, t);
    steps := [Begin, Acquire(r)] + ([ReadVersions(r)] + rest);
    LeadsOn(s, [Begin, Acquire(r)], s2, [ReadVersions(r)] + rest, t);
  }

  /** From every reachable state, whatever failed before, the directory can still be applied completely. */
  lemma CanStillBeApplied(s: State)
    requires Reachable(s)
    ensures exists steps, t :: Leads(s, steps, t) && t.applied == t.files
  {
    ReachableInv(s);
    var u, first := s, [];
    if s.holder != -1 {
      var lose := Lose(s.holder);
      StepKeepsInv(s, lose);
      u, first := Next(s, lose), [lose];
      assert [lose][1..] == [];
    }
    var rest, t := NewRunnerCanFinish(u);
    LeadsOn(s, first, u, rest, t);
    RunKeepsInv(u, rest, t);
    assert RunnerOk(t, |u.runners|);
  }
}
