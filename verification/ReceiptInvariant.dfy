/** Every step of the receipt pipeline keeps its invariant, and no step moves a receipt backwards. */
module ReceiptInvariant {
  import opened Wrappers
  import opened Schema
  import opened Serial
  import opened Receipts
  import opened ReceiptPipeline

  /** What no step undoes: rows stay, keep their transfer columns, their statuses only move up, a receipt
      that is not required stays so, and a GENERATED row keeps its key. */
  ghost predicate RowMoved(a: Transaction, b: Transaction) {
    && SameTransfer(a, b)
    && StatusRank(a.status) <= StatusRank(b.status)
    && (a.status.NotRequired? <==> b.status.NotRequired?)
    && (a.status.Generated? ==> b.objectKey == a.objectKey)
  }

  ghost predicate Moved(s: State, t: State) {
    && t.attempts == s.attempts && t.threshold == s.threshold && t.batch == s.batch && t.now >= s.now
    && t.nextRun >= s.nextRun
    && (forall id {:trigger id in t.rows} {:trigger id in s.rows} :: id in s.rows ==> id in t.rows && RowMoved(s.rows[id], t.rows[id]))
    && s.store.Keys <= t.store.Keys
    && s.failures <= t.failures && s.lost <= t.lost
  }

  ghost predicate RowDelta(s: State, t: State) {
    forall id {:trigger RowOk(t, id)} :: id in t.rows ==> (id in s.rows && t.rows[id] == s.rows[id]) || RowOk(t, id)
  }

  ghost predicate ObjectDelta(s: State, t: State) {
    forall key {:trigger ObjectOk(t, key)} :: key in t.store ==>
      (key in s.store && t.store[key] == s.store[key]) || ObjectOk(t, key)
  }

  ghost predicate RunDelta(s: State, t: State) {
    forall r {:trigger RunOk(t, r)} :: r in t.runs ==> (r in s.runs && t.runs[r] == s.runs[r]) || RunOk(t, r)
  }

  /** The job is as it was, and what its invariant says about other tables still holds. */
  ghost predicate JobKept(s: State, t: State, id: TxnId)
    requires id in t.jobs
  {
    && id in s.jobs && t.jobs[id] == s.jobs[id]
    && (t.jobs[id].state.Active? && t.jobs[id].state.owner in t.runs ==>
          t.jobs[id].state.owner in s.runs && t.runs[t.jobs[id].state.owner].id == s.runs[t.jobs[id].state.owner].id)
    && (Reported(s, id) ==> Reported(t, id) || id in t.lost || (id in t.rows && !t.rows[id].status.Pending?))
  }

  ghost predicate JobDelta(s: State, t: State) {
    forall id {:trigger JobOk(t, id)} :: id in t.jobs ==> JobKept(s, t, id) || JobOk(t, id)
  }

  ghost predicate ReportDelta(s: State, t: State) {
    forall rep {:trigger ReportOk(t, rep)} :: rep in t.reports ==> rep in s.reports || ReportOk(t, rep)
  }

  ghost predicate DueDelta(s: State, t: State) {
    && (forall id {:trigger Needs(t, id)} :: id in t.toEnqueue ==> id in s.toEnqueue || Needs(t, id))
    && (forall k, id {:trigger Listed(t, k, id)} :: Listed(t, k, id) ==> Listed(s, k, id) || Needs(t, id))
    && (forall id {:trigger id in t.lost} :: id in t.lost ==> id in s.lost || t.failures[id] >= t.attempts)
  }

  lemma NeedsMoves(s: State, t: State, id: TxnId)
    requires Moved(s, t) && Needs(s, id)
    ensures Needs(t, id)
  {}

  lemma RowsKept(s: State, t: State)
    requires Inv(s) && Moved(s, t) && RowDelta(s, t)
    ensures forall id {:trigger RowOk(t, id)} :: id in t.rows ==> RowOk(t, id)
  {
    forall id | id in t.rows ensures RowOk(t, id) {
      if id in s.rows && t.rows[id] == s.rows[id] { assert RowOk(s, id); }
    }
  }

  lemma ObjectsKept(s: State, t: State)
    requires Inv(s) && Moved(s, t) && ObjectDelta(s, t)
    ensures forall key {:trigger ObjectOk(t, key)} :: key in t.store ==> ObjectOk(t, key)
  {
    forall key | key in t.store ensures ObjectOk(t, key) {
      if key in s.store && t.store[key] == s.store[key] { assert ObjectOk(s, key); }
    }
  }

  lemma RunsKept(s: State, t: State)
    requires Inv(s) && Moved(s, t) && RunDelta(s, t)
    ensures forall r {:trigger RunOk(t, r)} :: r in t.runs ==> RunOk(t, r)
  {
    forall r | r in t.runs ensures RunOk(t, r) {
      if r in s.runs && t.runs[r] == s.runs[r] { assert RunOk(s, r); }
    }
  }

  lemma JobsKept(s: State, t: State)
    requires Inv(s) && Moved(s, t) && JobDelta(s, t)
    ensures forall id {:trigger JobOk(t, id)} :: id in t.jobs ==> JobOk(t, id)
  {
    forall id | id in t.jobs ensures JobOk(t, id) {
      if JobKept(s, t, id) { assert JobOk(s, id); }
    }
  }

  lemma ReportsKept(s: State, t: State)
    requires Inv(s) && Moved(s, t) && ReportDelta(s, t)
    ensures forall rep {:trigger ReportOk(t, rep)} :: rep in t.reports ==> ReportOk(t, rep)
  {
    forall rep | rep in t.reports ensures ReportOk(t, rep) {
      if rep in s.reports { assert ReportOk(s, rep); }
    }
  }

  lemma DueKept(s: State, t: State)
    requires Inv(s) && Moved(s, t) && DueDelta(s, t)
    ensures forall id {:trigger Needs(t, id)} :: id in t.toEnqueue ==> Needs(t, id)
    ensures forall k, id {:trigger Listed(t, k, id)} :: Listed(t, k, id) ==> Needs(t, id)
    ensures forall id {:trigger id in t.lost} :: id in t.lost ==> t.failures[id] >= t.attempts
  {
    forall id | id in t.toEnqueue ensures Needs(t, id) {
      if id in s.toEnqueue { NeedsMoves(s, t, id); }
    }
    forall k, id | Listed(t, k, id) ensures Needs(t, id) {
      if Listed(s, k, id) { NeedsMoves(s, t, id); }
    }
  }

  /** A step keeps the invariant when what it changed is sound and the rest is only carried along. */
  lemma DeltaKeepsInv(s: State, t: State)
    requires Inv(s) && Moved(s, t)
    requires RowDelta(s, t) && ObjectDelta(s, t) && RunDelta(s, t) && JobDelta(s, t) && ReportDelta(s, t) && DueDelta(s, t)
    ensures Inv(t)
  {
    RowsKept(s, t);
    ObjectsKept(s, t);
    RunsKept(s, t);
    JobsKept(s, t);
    ReportsKept(s, t);
    DueKept(s, t);
  }

  lemma SameReports(s: State, t: State, id: TxnId)
    requires s.reports <= t.reports && s.attempts == t.attempts && Reported(s, id)
    ensures Reported(t, id)
  {
    var rep :| rep in s.reports && rep.id == id && IsFinalFailure(rep.unrecoverable, rep.attemptsMade, Some(s.attempts));
    assert rep in t.reports;
  }

  lemma CommitKeepsInv(s: State, step: Step)
    requires Inv(s) && Enabled(s, step) && step.CommitTransfer?
    ensures Moved(s, Next(s, step)) && Inv(Next(s, step))
  {
    var t := Next(s, step);
    assert RowOk(t, step.id);
    DeltaKeepsInv(s, t);
  }

  lemma EnqueueKeepsInv(s: State, step: Step)
    requires Inv(s) && Enabled(s, step) && (step.EnqueueNew? || step.EnqueueLost?)
    ensures Moved(s, Next(s, step)) && Inv(Next(s, step))
  {
    var t := Next(s, step);
    assert step.id in s.toEnqueue && Needs(s, step.id);
    assert step.id in t.jobs && step.id !in s.jobs ==> JobOk(t, step.id);
    DeltaKeepsInv(s, t);
  }

  lemma ScanKeepsInv(s: State, step: Step)
    requires Inv(s) && Enabled(s, step) && (step.BeginScan? || step.EnqueueScanned? || step.AbortScan?)
    ensures Moved(s, Next(s, step)) && Inv(Next(s, step))
  {
    hide BuildReceipt, Throw, Return, Load, Handle;
    var t := Next(s, step);
    if step.BeginScan? {
      forall id | id in step.ids ensures Needs(s, id) {
        assert id in AllOverdue(s.rows, s.now, OLDER_THAN) && RowOk(s, id);
      }
    }
    if step.EnqueueScanned? {
      var id := s.scans[step.scan][0];
      assert Listed(s, step.scan, id) && Needs(s, id);
      assert id !in s.jobs ==> JobOk(t, id);
    }
    DeltaKeepsInv(s, t);
  }

  lemma TakeKeepsInv(s: State, step: Step)
    requires Inv(s) && Enabled(s, step) && step.TakeJob?
    ensures Moved(s, Next(s, step)) && Inv(Next(s, step))
  {
    var t := Next(s, step);
    assert JobOk(s, step.id);
    assert RunOk(t, s.nextRun);
    assert JobOk(t, step.id);
    forall id | id in t.jobs ensures JobKept(s, t, id) || JobOk(t, id) {
      if id != step.id { assert JobOk(s, id); }
    }
    DeltaKeepsInv(s, t);
  }

  lemma ThrowKeepsInv(s: State, r: nat)
    requires Inv(s) && r in s.runs
    ensures Moved(s, Throw(s, r, false)) && Inv(Throw(s, r, false))
  {
    var t := Throw(s, r, false);
    var id := s.runs[r].id;
    assert RunOk(s, r);
    if id in s.jobs && s.jobs[id].state == Active(r) {
      assert JobOk(s, id);
      var rep := Report(id, false, s.jobs[id].attemptsMade + 1);
      assert rep in t.reports && ReportOk(t, rep);
      assert JobOk(t, id);
    }
    forall x | x in t.jobs ensures JobKept(s, t, x) || JobOk(t, x) {
      if x in s.jobs && t.jobs[x] == s.jobs[x] && Reported(s, x) { SameReports(s, t, x); }
    }
    DeltaKeepsInv(s, t);
  }

  lemma ReturnKeepsInv(s: State, r: nat)
    requires Inv(s) && r in s.runs && s.runs[r].id in s.rows && s.rows[s.runs[r].id].status.Generated?
    ensures Moved(s, Return(s, r)) && Inv(Return(s, r))
  {
    var t := Return(s, r);
    var id := s.runs[r].id;
    assert RunOk(s, r);
    if id in s.jobs && s.jobs[id].state == Active(r) {
      assert JobOk(s, id);
      assert JobOk(t, id);
    }
    DeltaKeepsInv(s, t);
  }

  /** The processor never meets its not-found exit, nor a row without a receipt. */
  lemma LoadKeepsInv(s: State, r: nat)
    requires Inv(s) && r in s.runs
    ensures s.runs[r].id in s.rows && !s.rows[s.runs[r].id].status.NotRequired?
    ensures Moved(s, Load(s, r)) && Inv(Load(s, r))
  {
    var t := Load(s, r);
    assert RunOk(s, r);
    if s.rows[s.runs[r].id].status.Generated? {
      ReturnKeepsInv(s, r);
    } else {
      assert RunOk(t, r);
      DeltaKeepsInv(s, t);
    }
  }

  lemma UploadKeepsInv(s: State, step: Step)
    requires Inv(s) && Enabled(s, step) && step.Upload?
    ensures Moved(s, Next(s, step)) && Inv(Next(s, step))
  {
    var t := Next(s, step);
    var r := step.run;
    var key := ObjectKey(s.runs[r].id);
    assert RunOk(s, r);
    assert RowOk(s, s.runs[r].id);
    BuildsReceipt(s.runs[r].id, s.runs[r].pc.row, s.now);
    assert ObjectOk(t, key);
    assert RunOk(t, r);
    DeltaKeepsInv(s, t);
  }

  lemma GetUrlKeepsInv(s: State, step: Step)
    requires Inv(s) && Enabled(s, step) && step.GetUrl?
    ensures Moved(s, Next(s, step)) && Inv(Next(s, step))
  {
    var t := Next(s, step);
    assert RunOk(s, step.run);
    assert RunOk(t, step.run);
    DeltaKeepsInv(s, t);
  }

  lemma WriteKeepsInv(s: State, step: Step)
    requires Inv(s) && Enabled(s, step) && step.WriteGenerated?
    ensures Moved(s, Next(s, step)) && Inv(Next(s, step))
  {
    var t := Next(s, step);
    var id := s.runs[step.run].id;
    assert RunOk(s, step.run);
    assert RowOk(s, id);
    assert RowOk(t, id);
    assert RunOk(t, step.run);
    DeltaKeepsInv(s, t);
  }

  lemma HandledReport(s: State, rep: Report, written: bool, id: TxnId)
    requires rep in s.reports && rep.id in s.rows && Reported(s, id)
    ensures var t := Handle(s, rep, written);
            Reported(t, id) || id in t.lost || (id in t.rows && !t.rows[id].status.Pending?)
  {
    var t := Handle(s, rep, written);
    var x :| x in s.reports && x.id == id && IsFinalFailure(x.unrecoverable, x.attemptsMade, Some(s.attempts));
    if x != rep {
      assert x in t.reports;
    }
  }

  lemma HandledRow(s: State, rep: Report, written: bool)
    requires Inv(s) && rep in s.reports
    ensures rep.id in s.rows && Moved(s, Handle(s, rep, written)) && RowOk(Handle(s, rep, written), rep.id)
    ensures IsFinalFailure(rep.unrecoverable, rep.attemptsMade, Some(s.attempts)) ==> s.failures[rep.id] >= s.attempts
  {
    assert ReportOk(s, rep);
    assert RowOk(s, rep.id);
  }

  lemma HandleKeepsInv(s: State, rep: Report, written: bool)
    requires Inv(s) && rep in s.reports
    ensures Moved(s, Handle(s, rep, written)) && Inv(Handle(s, rep, written))
  {
    var t := Handle(s, rep, written);
    HandledRow(s, rep, written);
    assert JobDelta(s, t) by {
      forall id | id in t.jobs ensures JobKept(s, t, id) {
        if Reported(s, id) { HandledReport(s, rep, written, id); }
      }
    }
    DeltaKeepsInv(s, t);
  }

  lemma QuietKeepsInv(s: State, step: Step)
    requires Inv(s) && Enabled(s, step)
    requires step.Crash? || step.Stall? || step.RemoveRecord? || step.Tick?
    ensures Moved(s, Next(s, step)) && Inv(Next(s, step))
  {
    var t := Next(s, step);
    if step.Stall? {
      assert JobOk(s, step.id);
      assert JobOk(t, step.id);
    }
    DeltaKeepsInv(s, t);
  }

  lemma StepKeepsInv(s: State, step: Step)
    requires Inv(s) && Enabled(s, step)
    ensures Moved(s, Next(s, step)) && Inv(Next(s, step))
  {
    match step
    case CommitTransfer(_, _, _, _, _, _) => CommitKeepsInv(s, step);
    case EnqueueNew(_) => EnqueueKeepsInv(s, step);
    case EnqueueLost(_) => EnqueueKeepsInv(s, step);
    case BeginScan(_) => ScanKeepsInv(s, step);
    case EnqueueScanned(_) => ScanKeepsInv(s, step);
    case AbortScan(_) => ScanKeepsInv(s, step);
    case TakeJob(_) => TakeKeepsInv(s, step);
    case LoadRow(r) => LoadKeepsInv(s, r);
    case Upload(_) => UploadKeepsInv(s, step);
    case GetUrl(_, _) => GetUrlKeepsInv(s, step);
    case WriteGenerated(_) => WriteKeepsInv(s, step);
    case Complete(r) => assert RunOk(s, r); ReturnKeepsInv(s, r);
    case Fail(r) => ThrowKeepsInv(s, r);
    case Crash(_) => QuietKeepsInv(s, step);
    case Stall(_) => QuietKeepsInv(s, step);
    case HandleFailure(report, written) => HandleKeepsInv(s, report, written);
    case RemoveRecord(_) => QuietKeepsInv(s, step);
    case Tick(_) => QuietKeepsInv(s, step);
  }

  lemma {:induction false} RunKeepsInv(s: State, steps: seq<Step>, t: State)
    requires Inv(s) && Leads(s, steps, t)
    ensures Moved(s, t) && Inv(t)
    decreases |steps|
  {
    if steps != [] {
      StepKeepsInv(s, steps[0]);
      RunKeepsInv(Next(s, steps[0]), steps[1..], t);
    }
  }

  lemma ReachableInv(t: State)
    requires Reachable(t)
    ensures Inv(t)
  {
    var s, steps :| Initial(s) && Leads(s, steps, t);
    RunKeepsInv(s, steps, t);
  }
}
