/** A limit of the recovery scan: it looks at the oldest overdue rows, whether or not the queue would accept
    their jobs. While `batch` of them are stuck behind a record of an exhausted job, younger receipts wait. */
module ReceiptStarvation {
  import opened Wrappers
  import opened Schema
  import opened Serial
  import opened Receipts
  import opened Recovery
  import opened ReceiptPipeline
  import opened ReceiptInvariant
  import opened ReceiptTheorems
  import opened ReceiptProgress

  /** A strictly older PENDING receipt that nothing will settle before its record is removed. */
  ghost predicate Blocks(s: State, x: TxnId, id: TxnId)
    requires id in s.rows
  {
    x in Elders(s, id) && Stuck(s, x)
  }

  ghost function Blockers(s: State, id: TxnId): set<TxnId>
    requires id in s.rows
  {
    set x | x in Elders(s, id) && Blocks(s, x, id)
  }

  /** No job, and nobody about to add one. */
  ghost predicate Unattended(s: State, id: TxnId) {
    && id in s.rows && id !in s.jobs && id !in s.toEnqueue
    && forall k {:trigger Listed(s, k, id)} :: !Listed(s, k, id)
  }

  // ----- Enough blockers: no job -----

  /** `blockers` fill every scan that could list id. */
  ghost predicate Starved(s: State, id: TxnId, blockers: set<TxnId>) {
    && Unattended(s, id) && |blockers| >= s.batch
    && forall x {:trigger x in blockers} :: x in blockers ==> Blocks(s, x, id)
  }

  /** The step does not remove the record of a blocker; anything else may happen. */
  ghost predicate Spares(step: Step, blockers: set<TxnId>) {
    step.RemoveRecord? ==> step.id !in blockers
  }

  lemma RecordStays(s: State, step: Step, x: TxnId)
    requires Enabled(s, step) && Stuck(s, x) && step != RemoveRecord(x)
    ensures x in Next(s, step).jobs && Next(s, step).jobs[x] == s.jobs[x]
  {
    hide IsScan, Reported;
    match step
    case LoadRow(_) =>
    case Complete(_) =>
    case Fail(_) =>
    case TakeJob(_) =>
    case _ =>
  }

  predicate WorkerStep(step: Step) {
    step.TakeJob? || step.LoadRow? || step.Upload? || step.GetUrl? || step.WriteGenerated? || step.Complete? || step.Fail? || step.Crash?
  }

  lemma OnlyWorkersRun(s: State, step: Step)
    requires Enabled(s, step) && !WorkerStep(step)
    ensures Next(s, step).runs == s.runs
  {
    hide IsScan, BuildReceipt, MarkGenerated, MarkFailed, AddJob, ReceiptNeeded, Throw, Load, Return;
    if step.HandleFailure? { assert Handle(s, step.report, step.written).runs == s.runs; }
  }

  lemma ThrowOnStuck(s: State, r: nat, unrecoverable: bool, x: TxnId)
    requires r in s.runs && Stuck(s, x)
    ensures var t := Throw(s, r, unrecoverable);
            t.runs == s.runs - {r} && t.attempts == s.attempts && forall rep :: rep in t.reports && rep.id == x ==> rep in s.reports
  {}

  lemma LoadOnStuck(s: State, r: nat, x: TxnId)
    requires r in s.runs && Stuck(s, x)
    ensures var t := Load(s, r);
            && (forall k :: k in t.runs ==> k in s.runs && t.runs[k].id == s.runs[k].id)
            && t.attempts == s.attempts && forall rep :: rep in t.reports && rep.id == x ==> rep in s.reports
  {
    if s.runs[r].id !in s.rows { ThrowOnStuck(s, r, true, x); }
  }

  lemma NoRunAppears(s: State, step: Step, x: TxnId)
    requires Enabled(s, step) && Stuck(s, x)
    ensures forall r {:trigger Next(s, step).runs[r]} :: r in Next(s, step).runs ==> Next(s, step).runs[r].id != x
  {
    hide IsScan, Reported, Throw, Load;
    if WorkerStep(step) {
      match step
      case LoadRow(r) => LoadOnStuck(s, r, x);
      case Fail(r) => ThrowOnStuck(s, r, false, x);
      case TakeJob(_) =>
      case _ =>
    } else {
      OnlyWorkersRun(s, step);
    }
  }

  lemma NoReportAppears(s: State, step: Step, x: TxnId)
    requires Enabled(s, step) && Stuck(s, x)
    ensures !Reported(Next(s, step), x)
  {
    hide IsScan;
    var t := Next(s, step);
    forall rep | rep in t.reports && rep.id == x
      ensures !IsFinalFailure(rep.unrecoverable, rep.attemptsMade, Some(t.attempts))
    {
      ReportWasThere(s, step, x, rep);
    }
  }

  lemma ReportWasThere(s: State, step: Step, x: TxnId, rep: Report)
    requires Enabled(s, step) && Stuck(s, x) && rep in Next(s, step).reports && rep.id == x
    ensures rep in s.reports && Next(s, step).attempts == s.attempts
  {
    hide IsScan, Reported, Throw, Load;
    if step.LoadRow? {
      LoadOnStuck(s, step.run, x);
    } else if step.Fail? {
      ThrowOnStuck(s, step.run, false, x);
    } else if step.HandleFailure? {
      assert Next(s, step) == Handle(s, step.report, step.written);
    } else {
      OnlyThrowsReport(s, step);
    }
  }

  lemma OnlyThrowsReport(s: State, step: Step)
    requires Enabled(s, step) && !step.LoadRow? && !step.Fail? && !step.HandleFailure?
    ensures Next(s, step).reports == s.reports && Next(s, step).attempts == s.attempts
  {
    hide IsScan;
  }

  /** The row of a stuck receipt stays as it is: no run is left to write it, and no final failure. */
  lemma RowStays(s: State, step: Step, x: TxnId)
    requires Enabled(s, step) && Stuck(s, x) && x in s.rows
    ensures x in Next(s, step).rows && Next(s, step).rows[x] == s.rows[x]
  {
    if step.HandleFailure? {
      assert Next(s, step) == Handle(s, step.report, step.written);
    } else if step.WriteGenerated? {
      assert s.runs[step.run].id != x;
    } else {
      RowUntouched(s, step, x);
    }
  }

  lemma BlockerStays(s: State, step: Step, x: TxnId, id: TxnId)
    requires Inv(s) && Enabled(s, step) && id in s.rows && Blocks(s, x, id) && step != RemoveRecord(x)
    ensures id in Next(s, step).rows && Blocks(Next(s, step), x, id)
  {
    StepKeepsInv(s, step);
    hide Next, Enabled, Inv;
    RecordStays(s, step, x);
    NoRunAppears(s, step, x);
    NoReportAppears(s, step, x);
    RowStays(s, step, x);
    assert RowMoved(s.rows[id], Next(s, step).rows[id]);
  }

  /** The scans that begin now do not list id. */
  lemma NewScanFull(s: State, ids: seq<TxnId>, id: TxnId, blockers: set<TxnId>)
    requires Starved(s, id, blockers) && IsScan(s.rows, s.now, OLDER_THAN, s.batch, ids)
    ensures id !in ids
  {
    if id in AllOverdue(s.rows, s.now, OLDER_THAN) {
      forall x | x in blockers
        ensures x in AllOverdue(s.rows, s.now, OLDER_THAN) && s.rows[x].createdAt < s.rows[id].createdAt
      {
        assert Blocks(s, x, id);
      }
      Crowded(s.rows, s.now, OLDER_THAN, s.batch, ids, id, blockers);
    }
  }

  lemma NoJobAppears(s: State, step: Step, id: TxnId)
    requires Enabled(s, step) && id !in s.jobs && id !in s.toEnqueue
    requires step.EnqueueScanned? ==> s.scans[step.scan][0] != id
    ensures id !in Next(s, step).jobs
  {
    hide IsScan;
    match step
    case LoadRow(_) =>
    case Complete(_) =>
    case Fail(_) =>
    case _ =>
  }

  lemma NotAnnounced(s: State, step: Step, id: TxnId)
    requires Enabled(s, step) && id in s.rows && id !in s.toEnqueue
    ensures id in Next(s, step).rows && id !in Next(s, step).toEnqueue
  {
    hide IsScan;
    match step
    case LoadRow(_) =>
    case WriteGenerated(_) =>
    case HandleFailure(_, _) =>
    case _ =>
  }

  lemma OnlyScansList(s: State, step: Step)
    requires Enabled(s, step) && !step.BeginScan? && !step.EnqueueScanned? && !step.AbortScan?
    ensures Next(s, step).scans == s.scans
  {
    hide IsScan;
    match step
    case LoadRow(_) =>
    case Complete(_) =>
    case Fail(_) =>
    case _ =>
  }

  lemma StaysUnlisted(s: State, step: Step, id: TxnId)
    requires Enabled(s, step) && (forall k {:trigger Listed(s, k, id)} :: !Listed(s, k, id))
    requires step.BeginScan? ==> id !in step.ids
    ensures forall k {:trigger Listed(Next(s, step), k, id)} :: !Listed(Next(s, step), k, id)
  {
    hide IsScan;
    var t := Next(s, step);
    if !step.BeginScan? && !step.EnqueueScanned? && !step.AbortScan? { OnlyScansList(s, step); }
    forall k: nat ensures !Listed(t, k, id) {
      if k < |s.scans| { assert !Listed(s, k, id); }
    }
  }

  lemma StaysUnattended(s: State, step: Step, id: TxnId, blockers: set<TxnId>)
    requires Starved(s, id, blockers) && Enabled(s, step)
    ensures Unattended(Next(s, step), id)
  {
    if step.BeginScan? { NewScanFull(s, step.ids, id, blockers); }
    if step.EnqueueScanned? { assert !Listed(s, step.scan, id); }
    hide IsScan, Blocks, Next;
    NoJobAppears(s, step, id);
    NotAnnounced(s, step, id);
    StaysUnlisted(s, step, id);
  }

  lemma StarvedStays(s: State, step: Step, id: TxnId, blockers: set<TxnId>)
    requires Inv(s) && Starved(s, id, blockers) && Enabled(s, step) && Spares(step, blockers)
    ensures Starved(Next(s, step), id, blockers)
  {
    StaysUnattended(s, step, id, blockers);
    StepKeepsInv(s, step);
    hide Next, Enabled, Inv, Unattended, Blocks;
    forall x | x in blockers ensures Blocks(Next(s, step), x, id) {
      assert Blocks(s, x, id);
      HasRow(s, id, blockers);
      BlockerStays(s, step, x, id);
    }
  }

  lemma HasRow(s: State, id: TxnId, blockers: set<TxnId>)
    requires Starved(s, id, blockers)
    ensures id in s.rows
  {}

  /** However many scans run and whatever else is generated, fails or is removed: a starved receipt gets no job
      before the record of a blocker is removed. */
  lemma {:induction false} StarvesUntilRemoval(s: State, steps: seq<Step>, t: State, id: TxnId, blockers: set<TxnId>)
    requires Inv(s) && Starved(s, id, blockers) && Leads(s, steps, t)
    requires forall k :: 0 <= k < |steps| ==> Spares(steps[k], blockers)
    ensures id !in t.jobs && Starved(t, id, blockers)
    decreases |steps|
  {
    if steps != [] {
      StarvedStays(s, steps[0], id, blockers);
      StepKeepsInv(s, steps[0]);
      StarvesUntilRemoval(Next(s, steps[0]), steps[1..], t, id, blockers);
    }
  }

  // ----- Too few blockers: a job -----

  lemma ReportedStays(s: State, t: State, y: TxnId, x: TxnId)
    requires OnlyChanged(s, t, y) && x != y && Reported(s, x)
    ensures Reported(t, x)
  {
    var rep :| rep in s.reports && rep.id == x && IsFinalFailure(rep.unrecoverable, rep.attemptsMade, Some(s.attempts));
    assert rep in t.reports;
  }

  lemma BlockersShrink(s: State, t: State, y: TxnId, id: TxnId)
    requires id in s.rows && id in t.rows && y != id && OnlyChanged(s, t, y) && y in t.rows && !t.rows[y].status.Pending?
    ensures Blockers(t, id) <= Blockers(s, id) && |Blockers(t, id)| <= |Blockers(s, id)|
    ensures PendingIds(t.rows) <= PendingIds(s.rows)
  {
    forall x | x in Blockers(t, id) ensures x in Blockers(s, id) {
      assert Blocks(t, x, id);
      if Reported(s, x) { ReportedStays(s, t, y, x); }
    }
    SubsetSize(Blockers(t, id), Blockers(s, id));
  }

  /** The oldest elder that is not stuck has only stuck elders itself. */
  lemma EldersOfOldest(s: State, y: TxnId, id: TxnId)
    requires id in s.rows && (y in Elders(s, id) || y == id)
    requires forall x :: x in Elders(s, id) && !Stuck(s, x) ==> s.rows[y].createdAt <= s.rows[x].createdAt
    ensures Elders(s, y) <= Blockers(s, id) && |Elders(s, y)| <= |Blockers(s, id)|
    ensures forall x :: x in Elders(s, y) ==> x in s.jobs
  {
    forall x | x in Elders(s, y) ensures x in Blockers(s, id) && x in s.jobs {
      assert x in Elders(s, id) && Stuck(s, x);
    }
    SubsetSize(Elders(s, y), Blockers(s, id));
  }

  /** Settle the elders that are not stuck, oldest first, each after giving it a job if it has none; then it is
      id's turn. */
  lemma {:induction false} JobInTurn(s: State, id: TxnId) returns (steps: seq<Step>, t: State)
    requires Inv(s) && id in s.rows && s.rows[id].status.Pending? && id !in s.jobs
    requires |Blockers(s, id)| < s.batch
    ensures Progresses(s, steps, t) && id in t.jobs
    decreases |PendingIds(s.rows)|
  {
    hide Inv, Progresses, OnlyChanged, Stuck;
    var open := set x | x in Elders(s, id) && !Stuck(s, x);
    if open == {} {
      forall x | x in Elders(s, id) ensures Stuck(s, x) { assert x !in open; }
      EldersOfOldest(s, id, id);
      steps, t := CanEnqueue(s, id);
    } else {
      var y := Oldest(s.rows, open);
      EldersOfOldest(s, y, id);
      var first, u := SettleNext(s, y);
      ProgressKeepsInv(s, first, u);
      OnlyChangedFacts(s, u, y, id);
      BlockersShrink(s, u, y, id);
      FewerPending(s, u, y);
      steps, t := JobInTurn(u, id);
      ProgressOn(s, first, u, steps, t);
      steps := first + steps;
    }
  }

  lemma OnlyChangedFacts(s: State, t: State, y: TxnId, id: TxnId)
    requires OnlyChanged(s, t, y) && id != y && id in s.rows
    ensures id in t.rows && t.rows[id] == s.rows[id] && (id in t.jobs <==> id in s.jobs) && t.batch == s.batch
  {}

  lemma ProgressKeepsInv(s: State, steps: seq<Step>, t: State)
    requires Inv(s) && Progresses(s, steps, t)
    ensures Inv(t)
  {
    RunKeepsInv(s, steps, t);
  }

  lemma FewerPending(s: State, t: State, y: TxnId)
    requires PendingIds(t.rows) <= PendingIds(s.rows) && y in PendingIds(s.rows) && y !in PendingIds(t.rows)
    ensures |PendingIds(t.rows)| < |PendingIds(s.rows)|
  {
    SubsetSize(PendingIds(t.rows), PendingIds(s.rows));
  }

  lemma SettleNext(s: State, y: TxnId) returns (steps: seq<Step>, t: State)
    requires Inv(s) && y in s.rows && s.rows[y].status.Pending? && !Stuck(s, y)
    requires |Elders(s, y)| < s.batch && forall x :: x in Elders(s, y) ==> x in s.jobs
    ensures Progresses(s, steps, t) && OnlyChanged(s, t, y) && y in t.rows && !t.rows[y].status.Pending?
  {
    hide Inv, Progresses, OnlyChanged;
    if y in s.jobs {
      steps, t := CanSettle(s, y);
    } else {
      var first, u := CanEnqueue(s, y);
      ProgressKeepsInv(s, first, u);
      var rest;
      rest, t := CanSettle(u, y);
      ProgressOn(s, first, u, rest, t);
      OnlyChangedOn(s, u, t, y);
      steps := first + rest;
    }
  }

  /** The exact condition: a PENDING receipt without a job, with nobody about to enqueue it, can get one before
      any record is removed if and only if fewer than `batch` strictly older PENDING receipts are stuck. */
  lemma JobIffFewBlockers(s: State, id: TxnId)
    requires Reachable(s) && Unattended(s, id) && s.rows[id].status.Pending?
    ensures (exists steps, t :: Progresses(s, steps, t) && id in t.jobs) <==> |Blockers(s, id)| < s.batch
  {
    ReachableInv(s);
    if |Blockers(s, id)| < s.batch {
      var steps, t := JobInTurn(s, id);
    } else {
      forall steps, t | Progresses(s, steps, t) ensures id !in t.jobs {
        StarvesUntilRemoval(s, steps, t, id, Blockers(s, id));
      }
    }
  }
}
