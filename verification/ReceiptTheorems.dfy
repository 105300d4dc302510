/** What holds of every run of the receipt pipeline. */
module ReceiptTheorems {
  import opened Wrappers
  import opened Schema
  import opened Serial
  import opened Receipts
  import opened Recovery
  import opened ReceiptPipeline
  import opened ReceiptInvariant
  import TransactionQueries

  /** No PENDING receipt is lost: it has a live job; or no record at all, and then the scan may pick it up
      as soon as it is old enough; or a record of an exhausted job whose FAILED write is on its way or never
      arrived. A completed job has its receipt. */
  lemma NothingLost(t: State, id: TxnId)
    requires Reachable(t) && id in t.rows
    ensures t.rows[id].status.Pending? ==>
              || (id in t.jobs && (t.jobs[id].state.Waiting? || t.jobs[id].state.Active?))
              || (id !in t.jobs && forall now :: now > t.rows[id].createdAt + 60 <==>
                    id in AllOverdue(t.rows, now, OLDER_THAN))
              || (id in t.jobs && t.jobs[id].state.Exhausted? && (Reported(t, id) || id in t.lost))
    ensures id in t.jobs && t.jobs[id].state.Completed? ==> t.rows[id].status.Generated?
  {
    ReachableInv(t);
    if id in t.jobs { assert JobOk(t, id); }
  }

  /** Whatever happens between two states of a run, the transfer columns stay, the status only moves up
      PENDING < FAILED < GENERATED, a receipt that was not required stays so, and a key that was written stays. */
  lemma StatusNeverGoesBack(s: State, steps: seq<Step>, t: State, id: TxnId)
    requires Reachable(s) && Leads(s, steps, t) && id in s.rows
    ensures id in t.rows && SameTransfer(s.rows[id], t.rows[id])
    ensures StatusRank(s.rows[id].status) <= StatusRank(t.rows[id].status)
    ensures s.rows[id].status.Failed? ==> t.rows[id].status.Failed? || t.rows[id].status.Generated?
    ensures s.rows[id].status.NotRequired? <==> t.rows[id].status.NotRequired?
    ensures s.rows[id].status.Generated? ==> t.rows[id].status.Generated? && t.rows[id].objectKey == s.rows[id].objectKey
  {
    ReachableInv(s);
    RunKeepsInv(s, steps, t);
    assert RowMoved(s.rows[id], t.rows[id]);
    assert RowOk(s, id) && RowOk(t, id);
  }

  /** Every job, every run and every failure event belongs to a committed transaction above the threshold
      that requires a receipt, so the processor's not-found exit is never taken and its unguarded write never
      touches a NOT_REQUIRED row. */
  lemma WorkIsAlwaysNeeded(t: State)
    requires Reachable(t)
    ensures forall id :: id in t.jobs ==> Needs(t, id)
    ensures forall r :: r in t.runs ==> Needs(t, t.runs[r].id)
    ensures forall rep :: rep in t.reports ==> Needs(t, rep.id) && !rep.unrecoverable
  {
    ReachableInv(t);
    forall id | id in t.jobs ensures Needs(t, id) { assert JobOk(t, id); }
    forall r | r in t.runs ensures Needs(t, t.runs[r].id) { assert RunOk(t, r); }
    forall rep | rep in t.reports ensures Needs(t, rep.id) && !rep.unrecoverable { assert ReportOk(t, rep); }
  }

  /** A GENERATED row points at its own object, and the store holds that transaction's receipt there; in every
      other status url and key are both null. NOT_REQUIRED is exactly "not above the threshold". */
  lemma RowAgreesWithStore(t: State, id: TxnId)
    requires Reachable(t) && id in t.rows
    ensures t.rows[id].status.Generated? ==>
              && t.rows[id].objectKey == Some("receipts/" + id + ".txt") == Some(ObjectKey(id)) && t.rows[id].url.Some?
              && ObjectKey(id) in t.store && IsReceiptOf(t.store[ObjectKey(id)], id, t.rows[id])
    ensures !t.rows[id].status.Generated? ==> t.rows[id].objectKey.None? && t.rows[id].url.None?
    ensures t.rows[id].status.NotRequired? <==> t.rows[id].amount <= t.threshold
  {
    ReachableInv(t);
    assert RowOk(t, id);
    if t.rows[id].status.Generated? {
      assert ObjectOk(t, ObjectKey(id));
      ObjectKeyInjective(id, t.store[ObjectKey(id)].transactionId);
    }
  }

  /** Every stored object is the receipt of a committed transaction that requires one, under that
      transaction's key; no transaction has two. */
  lemma OneObjectPerTransaction(t: State)
    requires Reachable(t)
    ensures forall key :: key in t.store ==>
              var id := t.store[key].transactionId;
              Needs(t, id) && key == ObjectKey(id) && IsReceiptOf(t.store[key], id, t.rows[id])
    ensures forall a, b :: a in t.store && b in t.store && t.store[a].transactionId == t.store[b].transactionId ==> a == b
  {
    ReachableInv(t);
    forall key | key in t.store
      ensures var id := t.store[key].transactionId;
              Needs(t, id) && key == ObjectKey(id) && IsReceiptOf(t.store[key], id, t.rows[id])
    {
      assert ObjectOk(t, key);
    }
  }

  /** Every answer of the download, exactly when: a viewable GENERATED receipt is granted, and leads to the stored
      receipt of that very transaction; "no receipt" is the answer for viewable transfers not above the threshold,
      "not ready" for the other viewable ones, "not found" for all else. */
  lemma DownloadServesOwnReceipt(t: State, db: Db, id: TxnId, r: TransactionQueries.Requester)
    requires Reachable(t) && db.txns == t.rows && TransactionQueries.ForeignKeys(db)
    ensures match TransactionQueries.ReceiptToDownload(db, id, r)
            case Success(key) =>
              && key == Some(ObjectKey(id)) && id in t.rows && TransactionQueries.CanView(db, id, r)
              && ObjectKey(id) in t.store && IsReceiptOf(t.store[ObjectKey(id)], id, t.rows[id])
            case Failure(e) => true
    ensures var seen := id in t.rows && TransactionQueries.CanView(db, id, r);
            var answer := TransactionQueries.ReceiptToDownload(db, id, r);
            && (answer.Success? <==> seen && t.rows[id].status.Generated?)
            && (answer == Failure(TransactionQueries.ReceiptNotRequired) <==> seen && t.rows[id].amount <= t.threshold)
            && (answer == Failure(TransactionQueries.ReceiptNotReady) <==>
                  seen && t.rows[id].amount > t.threshold && !t.rows[id].status.Generated?)
            && (answer == Failure(TransactionQueries.TransactionNotFound) <==> !seen)
  {
    if id in t.rows { RowAgreesWithStore(t, id); }
    TransactionQueries.DownloadMeans(db, id, r);
  }

  // ----- What rows remember -----

  /** A committed transfer keeps its parties, amount, description and time in every later state, and starts without
      a receipt, PENDING exactly above the threshold. */
  lemma CommittedTransferStays(s: State, step: Step, steps: seq<Step>, t: State)
    requires Reachable(s) && step.CommitTransfer? && Enabled(s, step) && Leads(Next(s, step), steps, t)
    ensures var r := Next(s, step).rows[step.id];
            && r.url.None? && r.objectKey.None?
            && (r.status.Pending? <==> step.amount > s.threshold) && (r.status.NotRequired? <==> step.amount <= s.threshold)
            && (step.id in Next(s, step).toEnqueue <==> r.status.Pending?)
    ensures step.id in t.rows
    ensures var r := t.rows[step.id];
            && r.fromWallet == step.from && r.toWallet == step.to && r.amount == step.amount
            && r.description == step.description && r.createdAt == step.startedAt
  {
    ReachableInv(s);
    StepKeepsInv(s, step);
    RunKeepsInv(Next(s, step), steps, t);
    assert RowMoved(Next(s, step).rows[step.id], t.rows[step.id]);
    assert step.id in s.toEnqueue ==> Needs(s, step.id);
  }

  /** Along the run some run of `id` got `url` from the storage. */
  ghost predicate Obtained(s: State, steps: seq<Step>, id: TxnId, url: string)
    decreases |steps|
  {
    && steps != [] && Enabled(s, steps[0])
    && ((steps[0].GetUrl? && steps[0].url == url && s.runs[steps[0].run].id == id)
        || Obtained(Next(s, steps[0]), steps[1..], id, url))
  }

  ghost predicate Carries(s: State, r: nat, id: TxnId, url: string) {
    r in s.runs && s.runs[r].id == id && s.runs[r].pc.Linked? && s.runs[r].pc.url == url
  }

  ghost predicate HasUrl(s: State, id: TxnId, url: string) {
    id in s.rows && s.rows[id].url == Some(url)
  }

  /** A url moves from a GetUrl step into its run, and from a run into the run's row. */
  lemma UrlMoves(s: State, step: Step, id: TxnId, url: string)
    requires Enabled(s, step)
    ensures forall r :: Carries(Next(s, step), r, id, url) ==>
              Carries(s, r, id, url) || (step.GetUrl? && step.url == url && s.runs[step.run].id == id)
    ensures HasUrl(Next(s, step), id, url) ==>
              HasUrl(s, id, url) || (step.WriteGenerated? && Carries(s, step.run, id, url))
  {
    forall r | Carries(Next(s, step), r, id, url)
      ensures Carries(s, r, id, url) || (step.GetUrl? && step.url == url && s.runs[step.run].id == id)
    {
      RunGetsUrl(s, step, r, id, url);
    }
    hide Carries, IsScan, BuildReceipt, ObjectKey, AddJob, Throw, Return, Load;
    if step.HandleFailure? {
      if HasUrl(Next(s, step), id, url) { HandlerKeepsUrl(s, step.report, step.written, id, url); }
    } else if step.WriteGenerated? {
      if HasUrl(Next(s, step), id, url) { WriterCarries(s, step.run, id, url); }
    } else {
      RowUntouched(s, step, id);
      UrlNotOnNewRow(s, step, id);
    }
  }

  lemma RunGetsUrl(s: State, step: Step, r: nat, id: TxnId, url: string)
    requires Enabled(s, step) && Carries(Next(s, step), r, id, url)
    ensures Carries(s, r, id, url) || (step.GetUrl? && step.url == url && s.runs[step.run].id == id)
  {
    hide IsScan, BuildReceipt, ObjectKey, AddJob, MarkGenerated, MarkFailed, IsFinalFailure, Throw, Return;
    if step.LoadRow? || step.Complete? || step.Fail? {
      RunsOnlyEnd(s, step.run);
    }
  }

  lemma RunsOnlyEnd(s: State, r: nat)
    requires r in s.runs
    ensures Return(s, r).runs == s.runs - {r}
    ensures forall b :: Throw(s, r, b).runs == s.runs - {r}
  {
  }

  lemma HandlerKeepsUrl(s: State, report: Report, written: bool, id: TxnId, url: string)
    requires HasUrl(Handle(s, report, written), id, url)
    ensures HasUrl(s, id, url)
  {}

  lemma WriterCarries(s: State, r: nat, id: TxnId, url: string)
    requires Enabled(s, WriteGenerated(r)) && HasUrl(Next(s, WriteGenerated(r)), id, url)
    ensures HasUrl(s, id, url) || Carries(s, r, id, url)
  {}

  lemma UrlNotOnNewRow(s: State, step: Step, id: TxnId)
    requires Enabled(s, step) && !step.HandleFailure? && !step.WriteGenerated?
    ensures id in Next(s, step).rows && id !in s.rows ==> Next(s, step).rows[id].url.None?
  {
    hide IsScan, BuildReceipt, ObjectKey, AddJob;
    match step
    case CommitTransfer(_, _, _, _, _, _) =>
    case _ =>
  }

  lemma {:induction false} UrlsAreObtained(s: State, steps: seq<Step>, t: State, id: TxnId, url: string)
    requires Leads(s, steps, t)
    requires forall r :: !Carries(s, r, id, url)
    requires !HasUrl(s, id, url)
    ensures HasUrl(t, id, url) ==> Obtained(s, steps, id, url)
    decreases |steps|
  {
    if steps != [] {
      UrlMoves(s, steps[0], id, url);
      if !(steps[0].GetUrl? && steps[0].url == url && s.runs[steps[0].run].id == id) {
        UrlsAreObtained(Next(s, steps[0]), steps[1..], t, id, url);
      }
    }
  }

  /** The url of a GENERATED receipt is one that the storage gave to a run of that very transaction. */
  lemma UrlComesFromStorage(s: State, steps: seq<Step>, t: State, id: TxnId)
    requires Initial(s) && Leads(s, steps, t) && id in t.rows && t.rows[id].status.Generated?
    ensures t.rows[id].url.Some? && Obtained(s, steps, id, t.rows[id].url.value)
  {
    RunKeepsInv(s, steps, t);
    assert RowOk(t, id);
    UrlsAreObtained(s, steps, t, id, t.rows[id].url.value);
  }

  // ----- The queue, and what may go wrong -----

  /** Whoever adds a job, afterwards there is one, new ones waiting with no attempt made and every other record as
      it was; and nothing else but the list of what is still to be added changes. */
  lemma AddsGiveJobs(s: State, step: Step, id: TxnId)
    requires Enabled(s, step) && (step == EnqueueNew(id) || (step.EnqueueScanned? && s.scans[step.scan][0] == id))
    ensures var t := Next(s, step);
            && t.jobs.Keys == s.jobs.Keys + {id} && (forall x :: x in s.jobs ==> t.jobs[x] == s.jobs[x])
            && (id !in s.jobs ==> t.jobs[id].state.Waiting? && t.jobs[id].attemptsMade == 0)
            && t.rows == s.rows && t.store == s.store && t.runs == s.runs
            && (step.EnqueueNew? ==> t.toEnqueue == s.toEnqueue - {id} && t.scans == s.scans)
            && (step.EnqueueScanned? ==>
                  t.toEnqueue == s.toEnqueue && t.scans == s.scans[step.scan := s.scans[step.scan][1..]])
  {
  }

  /** At any moment a run may die or throw, and an enqueue or a scan may be cut off; no row or object changes. A run
      that dies and an add that is lost leave every job as it is; a run that throws charges its job, if it holds it,
      with one attempt, and the job waits again unless that was the last one. */
  lemma FaultsTouchNoRow(s: State, r: nat, id: TxnId, k: nat)
    requires r in s.runs && id in s.toEnqueue && k < |s.scans|
    ensures forall step :: step in {Crash(r), Fail(r), EnqueueLost(id), AbortScan(k)} ==>
              Enabled(s, step) && Next(s, step).rows == s.rows && Next(s, step).store == s.store
    ensures forall step :: step in {Crash(r), EnqueueLost(id), AbortScan(k)} ==> Next(s, step).jobs == s.jobs
    ensures r !in Next(s, Crash(r)).runs && r !in Next(s, Fail(r)).runs
    ensures Next(s, EnqueueLost(id)).toEnqueue == s.toEnqueue - {id} && Next(s, AbortScan(k)).scans == s.scans[k := []]
    ensures var t, x := Next(s, Fail(r)), s.runs[r].id;
            if x in s.jobs && s.jobs[x].state == Active(r) then
              var made := s.jobs[x].attemptsMade + 1;
              && t.jobs == s.jobs[x := Job(if made < s.attempts then Waiting else Exhausted, made)]
              && Report(x, false, made) in t.reports
            else t.jobs == s.jobs && t.reports == s.reports
  {
  }

  /** A job whose worker stalls can be handed out again, with its attempts as they were, while the old run goes on. */
  lemma StalledIsHandedOut(s: State, id: TxnId)
    requires id in s.jobs && s.jobs[id].state.Active?
    ensures Enabled(s, Stall(id)) && Enabled(Next(s, Stall(id)), TakeJob(id))
    ensures var t := Next(Next(s, Stall(id)), TakeJob(id));
            && t.jobs == s.jobs[id := Job(Active(s.nextRun), s.jobs[id].attemptsMade)]
            && t.runs == s.runs[s.nextRun := Run(id, Started)]
            && t.rows == s.rows && t.store == s.store
  {
  }

  // ----- FAILED -----

  /** How often a run of `id` threw. */
  ghost function FailsOf(s: State, steps: seq<Step>, id: TxnId): nat
    decreases |steps|
  {
    if steps == [] || !Enabled(s, steps[0]) then 0
    else (if steps[0].Fail? && s.runs[steps[0].run].id == id then 1 else 0) + FailsOf(Next(s, steps[0]), steps[1..], id)
  }

  ghost predicate FailedWrite(step: Step, id: TxnId) {
    step.HandleFailure? && step.report.id == id && step.written
  }

  lemma {:induction false} FailuresAreFails(s: State, steps: seq<Step>, t: State, id: TxnId)
    requires Inv(s) && Leads(s, steps, t)
    ensures t.failures[id] <= s.failures[id] + FailsOf(s, steps, id)
    ensures id in t.rows && t.rows[id].status.Failed? ==>
              || (id in s.rows && s.rows[id].status.Failed?)
              || exists k :: 0 <= k < |steps| && FailedWrite(steps[k], id)
    decreases |steps|
  {
    if steps != [] {
      var u := Next(s, steps[0]);
      StepKeepsInv(s, steps[0]);
      FailuresAreFails(u, steps[1..], t, id);
      if steps[0].LoadRow? { LoadKeepsInv(s, steps[0].run); }
      StepFailures(s, steps[0], id);
      if id in u.rows && u.rows[id].status.Failed? { StepFailed(s, steps[0], id); }
      if k :| 0 <= k < |steps[1..]| && FailedWrite(steps[1..][k], id) {
        assert FailedWrite(steps[k + 1], id);
      }
    }
  }

  lemma StepFailures(s: State, step: Step, id: TxnId)
    requires Enabled(s, step) && (step.LoadRow? ==> s.runs[step.run].id in s.rows)
    ensures Next(s, step).failures[id] <= s.failures[id] + (if step.Fail? && s.runs[step.run].id == id then 1 else 0)
  {
    match step
    case Fail(_) =>
    case LoadRow(_) =>
    case _ =>
  }

  /** Only the processor's write and the failure handler change a row that is there. */
  lemma RowUntouched(s: State, step: Step, x: TxnId)
    requires Enabled(s, step) && !step.HandleFailure? && !step.WriteGenerated?
    ensures x in s.rows ==> x in Next(s, step).rows && Next(s, step).rows[x] == s.rows[x]
    ensures x in Next(s, step).rows && x !in s.rows ==> !Next(s, step).rows[x].status.Failed?
  {}

  lemma StepFailed(s: State, step: Step, id: TxnId)
    requires Enabled(s, step) && id in Next(s, step).rows && Next(s, step).rows[id].status.Failed?
    ensures (id in s.rows && s.rows[id].status.Failed?) || FailedWrite(step, id)
  {
    hide IsScan, Throw, Return, Load, Handle, BuildReceipt, AddJob;
    if step.HandleFailure? {
      HandlerFails(s, step.report, step.written, id);
    } else if !step.WriteGenerated? {
      RowUntouched(s, step, id);
    }
  }

  lemma HandlerFails(s: State, report: Report, written: bool, id: TxnId)
    requires id in Handle(s, report, written).rows && Handle(s, report, written).rows[id].status.Failed?
    ensures id in s.rows && (s.rows[id].status.Failed? || (report.id == id && written))
  {}

  /** A receipt is FAILED only after at least `attempts` runs of its job threw and the handler wrote so. */
  lemma FailedOnlyWhenExhausted(s: State, steps: seq<Step>, t: State, id: TxnId)
    requires Initial(s) && Leads(s, steps, t) && id in t.rows && t.rows[id].status.Failed?
    ensures FailsOf(s, steps, id) >= t.attempts
    ensures exists k :: 0 <= k < |steps| && FailedWrite(steps[k], id)
  {
    RunKeepsInv(s, steps, t);
    FailuresAreFails(s, steps, t, id);
    assert RowOk(t, id);
  }

  // ----- Every PENDING receipt can still be generated -----

  lemma {:induction false} LeadsOn(s: State, a: seq<Step>, t: State, b: seq<Step>, u: State)
    requires Leads(s, a, t) && Leads(t, b, u)
    ensures Leads(s, a + b, u)
    decreases |a|
  {
    if a == [] {
      assert a + b == b;
    } else {
      LeadsOn(Next(s, a[0]), a[1..], t, b, u);
      assert (a + b)[0] == a[0] && (a + b)[1..] == a[1..] + b;
    }
  }

  lemma LeadsFrom(s: State, steps: seq<Step>, k: nat, t: State)
    requires k < |steps| && Enabled(s, steps[k]) && Leads(Next(s, steps[k]), steps[k + 1..], t)
    ensures Leads(s, steps[k..], t)
    ensures k == 0 ==> Leads(s, steps, t)
  {
    assert steps[k..][1..] == steps[k + 1..];
    assert k == 0 ==> steps[k..] == steps;
  }

  /** A run that has uploaded its receipt, left alone, finishes. */
  lemma FinishRun(s: State, r: nat, url: string) returns (steps: seq<Step>, t: State)
    requires r in s.runs && s.runs[r].pc.Uploaded?
    requires s.runs[r].id in s.jobs && s.jobs[s.runs[r].id].state == Active(r)
    ensures Leads(s, steps, t)
    ensures t.rows == MarkGenerated(s.rows, s.runs[r].id, s.runs[r].pc.key, url)
    ensures t.jobs == s.jobs[s.runs[r].id := Job(Completed, s.jobs[s.runs[r].id].attemptsMade)]
    ensures t.store == s.store && t.batch == s.batch
  {
    var s1 := Next(s, GetUrl(r, url));
    var s2 := Next(s1, WriteGenerated(r));
    t := Next(s2, Complete(r));
    steps := [GetUrl(r, url), WriteGenerated(r), Complete(r)];
    LeadsFrom(s2, steps, 2, t);
    LeadsFrom(s1, steps, 1, t);
    LeadsFrom(s, steps, 0, t);
  }

  /** One undisturbed delivery of a waiting job generates the receipt and touches no other row. */
  lemma OneDelivery(s: State, id: TxnId, url: string) returns (steps: seq<Step>, t: State)
    requires id in s.jobs && s.jobs[id].state.Waiting? && id in s.rows && s.rows[id].status.Pending?
    ensures Leads(s, steps, t)
    ensures t.rows == MarkGenerated(s.rows, id, ObjectKey(id), url)
    ensures t.jobs == s.jobs[id := Job(Completed, s.jobs[id].attemptsMade)]
    ensures t.store == s.store[ObjectKey(id) := BuildReceipt(id, s.rows[id], s.now)]
    ensures t.batch == s.batch
  {
    hide BuildReceipt, ObjectKey, IsScan, AddJob, Handle, MarkFailed, Throw;
    var r := s.nextRun;
    var s1 := Next(s, TakeJob(id));
    var s2 := Next(s1, LoadRow(r));
    var s3 := Next(s2, Upload(r));
    var first := [TakeJob(id), LoadRow(r), Upload(r)];
    LeadsFrom(s2, first, 2, s3);
    LeadsFrom(s1, first, 1, s3);
    LeadsFrom(s, first, 0, s3);
    var rest;
    rest, t := FinishRun(s3, r, url);
    LeadsOn(s, first, s3, rest, t);
    steps := first + rest;
  }

  /** A scan that starts with a PENDING receipt can lead to that receipt, whatever state its job is in. */
  lemma ScannedCanBeGenerated(s: State, k: nat) returns (steps: seq<Step>, t: State)
    requires Inv(s) && k < |s.scans| && s.scans[k] != []
    requires s.scans[k][0] in s.rows && s.rows[s.scans[k][0]].status.Pending?
    ensures var id := s.scans[k][0];
            Leads(s, steps, t) && t.batch == s.batch && t.rows == MarkGenerated(s.rows, id, ObjectKey(id), "")
    decreases s.scans[k][0] in s.jobs
  {
    var id := s.scans[k][0];
    if id !in s.jobs {
      var u := Next(s, EnqueueScanned(k));
      steps, t := OneDelivery(u, id, "");
      steps := [EnqueueScanned(k)] + steps;
    } else {
      assert JobOk(s, id);
      match s.jobs[id].state
      case Waiting =>
        steps, t := OneDelivery(s, id, "");
      case Active(_) =>
        steps, t := OneDelivery(Next(s, Stall(id)), id, "");
        steps := [Stall(id)] + steps;
      case Completed =>
        assert false;
      case Exhausted =>
        var u := Next(s, RemoveRecord(id));
        StepKeepsInv(s, RemoveRecord(id));
        steps, t := ScannedCanBeGenerated(u, k);
        steps := [RemoveRecord(id)] + steps;
    }
  }

  function PendingIds(rows: Rows): set<TxnId> {
    set id | id in rows && rows[id].status.Pending?
  }

  lemma GeneratingShrinks(rows: Rows, x: TxnId)
    requires x in PendingIds(rows)
    ensures |PendingIds(MarkGenerated(rows, x, ObjectKey(x), ""))| < |PendingIds(rows)|
  {
    assert PendingIds(MarkGenerated(rows, x, ObjectKey(x), "")) == PendingIds(rows) - {x};
  }

  /** A minute passes, and a scan begins; it finds something while id is PENDING. */
  lemma ScanOldest(s: State, id: TxnId) returns (steps: seq<Step>, t: State)
    requires Inv(s) && s.batch >= 1 && id in s.rows && s.rows[id].status.Pending?
    ensures Leads(s, steps, t) && Inv(t) && t.rows == s.rows && t.batch == s.batch
    ensures |t.scans| == |s.scans| + 1 && t.scans[|s.scans|] != []
    ensures t.scans[|s.scans|][0] in s.rows && s.rows[t.scans[|s.scans|][0]].status.Pending?
  {
    var s1 := Next(s, Tick(OLDER_THAN + 1));
    StepKeepsInv(s, Tick(OLDER_THAN + 1));
    assert RowOk(s, id);
    assert id in AllOverdue(s1.rows, s1.now, OLDER_THAN);
    var ids := ScanExists(s1.rows, s1.now, OLDER_THAN, s1.batch);
    t := Next(s1, BeginScan(ids));
    StepKeepsInv(s1, BeginScan(ids));
    assert ids[0] in AllOverdue(s.rows, s1.now, OLDER_THAN);
    steps := [Tick(OLDER_THAN + 1), BeginScan(ids)];
    hide Inv, IsScan, AllOverdue, Next, Enabled;
    LeadsFrom(s1, steps, 1, t);
    LeadsFrom(s, steps, 0, t);
  }

  /** Let a minute pass, scan, and generate the oldest PENDING receipt; repeat until it is id's turn. */
  lemma {:induction false} GenerateInTurn(s: State, id: TxnId) returns (steps: seq<Step>, t: State)
    requires Inv(s) && s.batch >= 1 && id in s.rows && s.rows[id].status.Pending?
    ensures Leads(s, steps, t) && id in t.rows && t.rows[id].status.Generated?
    decreases |PendingIds(s.rows)|
  {
    hide Inv, Leads, IsScan;
    var first, s2 := ScanOldest(s, id);
    var x := s2.scans[|s.scans|][0];
    steps, t := ScannedCanBeGenerated(s2, |s.scans|);
    LeadsOn(s, first, s2, steps, t);
    steps := first + steps;
    if x != id {
      RunKeepsInv(s, steps, t);
      GeneratingShrinks(s.rows, x);
      var rest, u := GenerateInTurn(t, id);
      LeadsOn(s, steps, t, rest, u);
      steps, t := steps + rest, u;
    }
  }

  /** However calls failed and processes died so far, every PENDING receipt can still become GENERATED. */
  lemma PendingCanBecomeGenerated(s: State, id: TxnId)
    requires Reachable(s) && s.batch >= 1 && id in s.rows && s.rows[id].status.Pending?
    ensures exists steps, t :: Leads(s, steps, t) && id in t.rows && t.rows[id].status.Generated?
  {
    ReachableInv(s);
    var steps, t := GenerateInTurn(s, id);
  }
}
