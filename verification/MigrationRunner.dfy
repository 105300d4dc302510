/** runMigrations as one runner executes it on the database, under the lock. */
module MigrationRunner {
  import opened Wrappers
  import opened Ordering
  import opened Migrations

  /** readdir never lists a name twice. */
  ghost predicate NoRepeats(names: seq<string>) {
    forall j, k :: 0 <= j < k < |names| ==> names[j] != names[k]
  }

  /** What is left to apply: the files without a recorded version, */
  lemma {:induction false} UnappliedMembers(files: seq<string>, versions: set<string>)
    ensures Members(Unapplied(files, versions)) == Members(files) - versions
  {
    if files != [] {
      var rest := Unapplied(files[1..], versions);
      UnappliedMembers(files[1..], versions);
      ConsMembers(files[0], files[1..]);
      ConsMembers(files[0], rest);
      assert [files[0]] + files[1..] == files;
      assert Unapplied(files, versions) == if files[0] in versions then rest else [files[0]] + rest;
    }
  }

  /** in the order of the listing. */
  lemma {:induction false} UnappliedAscends(files: seq<string>, versions: set<string>)
    requires Ascending(files)
    ensures Ascending(Unapplied(files, versions))
  {
    if files != [] {
      var rest := Unapplied(files[1..], versions);
      UnappliedAscends(files[1..], versions);
      UnappliedMembers(files[1..], versions);
      forall k | 0 <= k < |rest| ensures Less(files[0], rest[k]) {
        assert rest[k] in Members(rest);
        var j :| 0 <= j < |files[1..]| && files[1..][j] == rest[k];
        assert files[j + 1] == rest[k];
      }
    }
  }

  method ListMigrationFiles(names: seq<string>) returns (files: seq<string>)
    requires NoRepeats(names)
    ensures IsListing(Members(names), files)
    ensures forall x :: x in files <==> x in names && exists stem: string :: x == stem + ".sql"
    ensures forall j, k :: 0 <= j < k < |files| ==> Before(files[j], files[k])
  {
    files := [];
    for k := 0 to |names|
      invariant Ascending(files)
      invariant Members(files) == set name | name in Members(names[..k]) && IsMigration(name)
    {
      PrefixMembers(names, k);
      if IsMigration(names[k]) {
        assert names[k] !in Members(names[..k]);
        assert names[k] !in Members(files);
        InsertAscends(names[k], files);
        files := Insert(names[k], files);
      }
    }
    assert names[..|names|] == names;
    AscendingMeans(files);
    forall x ensures x in files <==> x in names && exists stem: string :: x == stem + ".sql" {
      IsMigrationMeans(x);
      assert x in files <==> x in Members(files);
    }
  }

  class MigrationDatabase {
    var locked: bool
    var tableExists: bool
    var versions: set<string>
    var applied: seq<string>

    constructor ()
      ensures !locked && versions == {} && applied == []
    {
      locked, tableExists, versions, applied := false, false, {}, [];
    }

    /** The versions are exactly those of the committed migrations. */
    ghost predicate Valid()
      reads this
    {
      versions == Members(applied)
    }

    /** BEGIN; the file; INSERT its version; COMMIT; or ROLLBACK when something in it fails. */
    method ApplyFile(file: string, works: bool) returns (ok: bool)
      requires Valid() && tableExists
      modifies this`versions, this`applied
      ensures Valid() && (ok <==> works && file !in old(versions))
      ensures applied == if ok then old(applied) + [file] else old(applied)
    {
      var savedVersions, savedApplied := versions, applied;
      applied := applied + [file];
      ok := works && file !in versions;
      if ok {
        versions := versions + {file};
        assert Members(applied) == Members(savedApplied) + {file};
      } else {
        versions, applied := savedVersions, savedApplied;
      }
    }

    /** The loop: the pending files in order, up to the first that fails. */
    method ApplyAll(pending: seq<string>, broken: set<string>) returns (done: nat)
      requires Valid() && tableExists && Ascending(pending) && Members(pending) !! versions
      modifies this`versions, this`applied
      ensures Valid() && done == FirstBroken(pending, broken) && done <= |pending|
      ensures applied == old(applied) + pending[..done]
      ensures versions == old(versions) + Members(pending[..done])
    {
      done := 0;
      while done < |pending|
        invariant Valid() && done <= |pending|
        invariant applied == old(applied) + pending[..done]
        invariant versions == old(versions) + Members(pending[..done])
        invariant done + FirstBroken(pending[done..], broken) == FirstBroken(pending, broken)
      {
        PendingIsNew(pending, done, old(versions));
        PrefixMembers(pending, done);
        assert old(applied) + pending[..done] + [pending[done]] == old(applied) + pending[..done + 1];
        assert pending[done..][1..] == pending[done + 1..];
        var ok := ApplyFile(pending[done], pending[done] !in broken);
        if !ok { return; }
        done := done + 1;
      }
    }

    /** Applies the unapplied files in order up to the first one that fails, whose name is thrown; every file
        before it stays applied, and the lock is given back either way. */
    method RunMigrations(names: seq<string>, broken: set<string>, ghost files: seq<string>)
      returns (r: Result<seq<string>, string>)
      requires Valid() && !locked && NoRepeats(names) && IsListing(Members(names), files)
      modifies this
      ensures Valid() && !locked
      ensures forall j, k :: |old(applied)| <= j < k < |applied| ==> Before(applied[j], applied[k])
      ensures var pending := Unapplied(files, old(versions));
              var n := FirstBroken(pending, broken);
              && n <= |pending| && applied == old(applied) + pending[..n]
              && Members(pending[..n]) !! broken && (n < |pending| ==> pending[n] in broken)
              && r == (if n == |pending| then Success(pending) else Failure(pending[n]))
      ensures r.Success? ==> Members(files) <= versions
    {
      locked := true;
      tableExists := true;
      var listed := ListMigrationFiles(names);
      AscendingUnique(listed, files);
      var pending := Unapplied(listed, versions);
      UnappliedMembers(files, versions);
      UnappliedAscends(files, versions);
      FirstBrokenIsFirst(pending, broken);
      var done := ApplyAll(pending, broken);
      locked := false;
      r := if done == |pending| then Success(pending) else Failure(pending[done]);
      assert pending[..|pending|] == pending;
      InOrderOnTop(old(applied), pending, done);
    }
  }

  lemma InOrderOnTop(applied: seq<string>, pending: seq<string>, n: nat)
    requires Ascending(pending) && n <= |pending|
    ensures forall j, k :: |applied| <= j < k < |applied| + n ==> Before((applied + pending[..n])[j], (applied + pending[..n])[k])
  {
    AscendingMeans(pending);
    forall j, k | |applied| <= j < k < |applied| + n ensures Before((applied + pending[..n])[j], (applied + pending[..n])[k]) {
      assert Before(pending[j - |applied|], pending[k - |applied|]);
    }
  }

  /** The number of files before the first one that fails. */
  function FirstBroken(pending: seq<string>, broken: set<string>): nat {
    if pending == [] || pending[0] in broken then 0 else 1 + FirstBroken(pending[1..], broken)
  }

  lemma {:induction false} FirstBrokenIsFirst(pending: seq<string>, broken: set<string>)
    ensures var n := FirstBroken(pending, broken);
            && n <= |pending| && Members(pending[..n]) !! broken && (n < |pending| ==> pending[n] in broken)
  {
    if pending != [] && pending[0] !in broken {
      FirstBrokenIsFirst(pending[1..], broken);
      var n := FirstBroken(pending[1..], broken);
      assert pending[..n + 1] == [pending[0]] + pending[1..][..n];
      ConsMembers(pending[0], pending[1..][..n]);
    }
  }

  lemma PendingIsNew(pending: seq<string>, k: nat, versions: set<string>)
    requires k < |pending| && Ascending(pending) && Members(pending) !! versions
    ensures pending[k] !in versions + Members(pending[..k])
  {
    assert pending[k] in Members(pending);
    if pending[k] in Members(pending[..k]) {
      var j :| 0 <= j < k && pending[j] == pending[k];
      assert Less(pending[j], pending[k]);
      LessTotal(pending[k], pending[k]);
    }
  }
}
