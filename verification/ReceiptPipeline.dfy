/** The receipt pipeline as a step system: API processes that commit a transfer and then enqueue its job,
    the queue, any number of overlapping worker runs, failure handlers, and recovery scans, with processes
    that die and calls that fail anywhere in between.
    Assumed of the queue: `add` is a no-op while a record with the id exists; a job is delivered at least
    once, so a job whose worker stalls is handed out again while the old run may still be going; only the
    run that holds the job's lock settles it; a failed attempt is counted before the failure handler sees
    it; completed and failed records are kept for some time and then removed. */
module ReceiptPipeline {
  import opened Wrappers
  import opened Schema
  import opened Serial
  import opened Receipts

  const OLDER_THAN := 60

  /** Where a run of processReceiptJob is. */
  datatype RunPc =
    | Started
    | Loaded(row: Transaction)
    | Uploaded(key: string)
    | Linked(key: string, url: string)
    | Marked

  datatype Run = Run(id: TxnId, pc: RunPc)

  /** A 'failed' event on its way to the failure handler. */
  datatype Report = Report(id: TxnId, unrecoverable: bool, attemptsMade: nat)

  datatype State = State(
    attempts: nat,
    threshold: int,
    batch: nat,
    now: int,
    rows: Rows,
    jobs: Jobs,
    store: map<string, Receipt>,
    toEnqueue: set<TxnId>,          // committed, not yet enqueued by their API process
    scans: seq<seq<TxnId>>,         // what each recovery scan has still to enqueue
    runs: map<nat, Run>,
    nextRun: nat,
    reports: multiset<Report>,
    failures: multiset<TxnId>,      // bookkeeping: every failed attempt the queue counted
    lost: set<TxnId>)               // bookkeeping: FAILED writes that never reached the database

  ghost predicate Initial(s: State) {
    && s.attempts >= 1
    && s.rows == map[] && s.jobs == map[] && s.store == map[] && s.toEnqueue == {} && s.scans == []
    && s.runs == map[] && s.reports == multiset{} && s.failures == multiset{} && s.lost == {}
  }

  datatype Step =
    | CommitTransfer(id: TxnId, from: WalletId, to: WalletId, amount: int, description: Option<string>, startedAt: int)
    | EnqueueNew(id: TxnId)
    | EnqueueLost(id: TxnId)
    | BeginScan(ids: seq<TxnId>)
    | EnqueueScanned(scan: nat)
    | AbortScan(scan: nat)
    | TakeJob(id: TxnId)
    | LoadRow(run: nat)
    | Upload(run: nat)
    | GetUrl(run: nat, url: string)
    | WriteGenerated(run: nat)
    | Complete(run: nat)
    | Fail(run: nat)
    | Crash(run: nat)
    | Stall(id: TxnId)
    | HandleFailure(report: Report, written: bool)
    | RemoveRecord(id: TxnId)
    | Tick(seconds: nat)

  ghost predicate Enabled(s: State, step: Step) {
    match step
    case CommitTransfer(id, from, to, amount, _, startedAt) =>
      id !in s.rows && amount > 0 && from != to && startedAt <= s.now
    case EnqueueNew(id) => id in s.toEnqueue
    case EnqueueLost(id) => id in s.toEnqueue
    case BeginScan(ids) => IsScan(s.rows, s.now, OLDER_THAN, s.batch, ids)
    case EnqueueScanned(k) => k < |s.scans| && s.scans[k] != []
    case AbortScan(k) => k < |s.scans|
    case TakeJob(id) => id in s.jobs && s.jobs[id].state.Waiting?
    case LoadRow(r) => r in s.runs && s.runs[r].pc.Started?
    case Upload(r) => r in s.runs && s.runs[r].pc.Loaded?
    case GetUrl(r, _) => r in s.runs && s.runs[r].pc.Uploaded?
    case WriteGenerated(r) => r in s.runs && s.runs[r].pc.Linked?
    case Complete(r) => r in s.runs && s.runs[r].pc.Marked?
    case Fail(r) => r in s.runs
    case Crash(r) => r in s.runs
    case Stall(id) => id in s.jobs && s.jobs[id].state.Active?
    case HandleFailure(report, _) => report in s.reports
    case RemoveRecord(id) => id in s.jobs && (s.jobs[id].state.Completed? || s.jobs[id].state.Exhausted?)
    case Tick(_) => true
  }

  /** The run throws (possibly after a write whose answer was lost): the holder of the job's lock settles the
      attempt and emits the event. */
  function Throw(s: State, r: nat, unrecoverable: bool): State
    requires r in s.runs
  {
    var id := s.runs[r].id;
    var s' := s.(runs := s.runs - {r});
    if id in s.jobs && s.jobs[id].state == Active(r) then
      var made := s.jobs[id].attemptsMade + 1;
      var over := unrecoverable || made >= s.attempts;
      s'.(jobs := s.jobs[id := Job(if over then Exhausted else Waiting, made)],
          failures := s.failures + multiset{id},
          reports := s.reports + multiset{Report(id, unrecoverable, made)})
    else s'
  }

  /** The run returns: the holder of the job's lock completes the job. */
  function Return(s: State, r: nat): State
    requires r in s.runs
  {
    var id := s.runs[r].id;
    var s' := s.(runs := s.runs - {r});
    if id in s.jobs && s.jobs[id].state == Active(r)
    then s'.(jobs := s.jobs[id := s.jobs[id].(state := Completed)])
    else s'
  }

  /** findById, and the two early exits of the processor. */
  function Load(s: State, r: nat): State
    requires r in s.runs
  {
    var id := s.runs[r].id;
    if id !in s.rows then Throw(s, r, true)
    else if s.rows[id].status.Generated? then Return(s, r)
    else s.(runs := s.runs[r := Run(id, Loaded(s.rows[id]))])
  }

  function Advance(s: State, r: nat, pc: RunPc): State
    requires r in s.runs
  {
    s.(runs := s.runs[r := s.runs[r].(pc := pc)])
  }

  function Handle(s: State, report: Report, written: bool): State {
    var s' := s.(reports := s.reports - multiset{report});
    if !IsFinalFailure(report.unrecoverable, report.attemptsMade, Some(s.attempts)) then s'
    else if written then s'.(rows := MarkFailed(s.rows, report.id))
    else s'.(lost := s.lost + {report.id})
  }

  function Next(s: State, step: Step): State
    requires Enabled(s, step)
  {
    match step
    case CommitTransfer(id, from, to, amount, description, startedAt) =>
      var status := ReceiptNeeded(amount, s.threshold);
      s.(rows := s.rows[id := Transaction(from, to, amount, description, status, None, None, startedAt)],
         toEnqueue := if status.Pending? then s.toEnqueue + {id} else s.toEnqueue)
    case EnqueueNew(id) => s.(toEnqueue := s.toEnqueue - {id}, jobs := AddJob(s.jobs, id))
    case EnqueueLost(id) => s.(toEnqueue := s.toEnqueue - {id})
    case BeginScan(ids) => s.(scans := s.scans + [ids])
    case EnqueueScanned(k) => s.(jobs := AddJob(s.jobs, s.scans[k][0]), scans := s.scans[k := s.scans[k][1..]])
    case AbortScan(k) => s.(scans := s.scans[k := []])
    case TakeJob(id) =>
      s.(jobs := s.jobs[id := s.jobs[id].(state := Active(s.nextRun))],
         runs := s.runs[s.nextRun := Run(id, Started)],
         nextRun := s.nextRun + 1)
    case LoadRow(r) => Load(s, r)
    case Upload(r) =>
      var key := ObjectKey(s.runs[r].id);
      Advance(s, r, Uploaded(key)).(store := s.store[key := BuildReceipt(s.runs[r].id, s.runs[r].pc.row, s.now)])
    case GetUrl(r, url) => Advance(s, r, Linked(s.runs[r].pc.key, url))
    case WriteGenerated(r) =>
      Advance(s, r, Marked).(rows := MarkGenerated(s.rows, s.runs[r].id, s.runs[r].pc.key, s.runs[r].pc.url))
    case Complete(r) => Return(s, r)
    case Fail(r) => Throw(s, r, false)
    case Crash(r) => s.(runs := s.runs - {r})
    case Stall(id) => s.(jobs := s.jobs[id := s.jobs[id].(state := Waiting)])
    case HandleFailure(report, written) => Handle(s, report, written)
    case RemoveRecord(id) => s.(jobs := s.jobs - {id})
    case Tick(seconds) => s.(now := s.now + seconds)
  }

  ghost predicate Leads(s: State, steps: seq<Step>, t: State)
    decreases |steps|
  {
    if steps == [] then s == t
    else Enabled(s, steps[0]) && Leads(Next(s, steps[0]), steps[1..], t)
  }

  ghost predicate Reachable(t: State) {
    exists s: State, steps: seq<Step> :: Initial(s) && Leads(s, steps, t)
  }

  // ----- The invariant -----

  /** A committed transaction above the threshold. */
  ghost predicate Needs(s: State, id: TxnId) {
    id in s.rows && s.rows[id].amount > s.threshold && !s.rows[id].status.NotRequired?
  }

  ghost predicate RowOk(s: State, id: TxnId)
    requires id in s.rows
  {
    var t := s.rows[id];
    && TransactionChecks(t)
    && (t.status.NotRequired? <==> t.amount <= s.threshold)
    && t.createdAt <= s.now
    && (t.status.Generated? ==> t.objectKey == Some(ObjectKey(id)) && t.url.Some? && ObjectKey(id) in s.store)
    && (!t.status.Generated? ==> t.objectKey.None? && t.url.None?)
    && (t.status.Failed? ==> s.failures[id] >= s.attempts)
  }

  ghost predicate ObjectOk(s: State, key: string)
    requires key in s.store
  {
    var r := s.store[key];
    && Needs(s, r.transactionId)
    && key == ObjectKey(r.transactionId)
    && IsReceiptOf(r, r.transactionId, s.rows[r.transactionId])
  }

  ghost predicate RunOk(s: State, r: nat)
    requires r in s.runs
  {
    var x := s.runs[r];
    && r < s.nextRun
    && Needs(s, x.id)
    && match x.pc
       case Started => true
       case Loaded(row) => SameTransfer(row, s.rows[x.id])
       case Uploaded(key) => key == ObjectKey(x.id) && key in s.store
       case Linked(key, _) => key == ObjectKey(x.id) && key in s.store
       case Marked => s.rows[x.id].status.Generated?
  }

  /** A final failure of `id` is on its way to the handler. */
  ghost predicate Reported(s: State, id: TxnId) {
    exists rep :: rep in s.reports && rep.id == id && IsFinalFailure(rep.unrecoverable, rep.attemptsMade, Some(s.attempts))
  }

  ghost predicate JobOk(s: State, id: TxnId)
    requires id in s.jobs
  {
    var j := s.jobs[id];
    && Needs(s, id)
    && j.attemptsMade <= s.failures[id]
    && match j.state
       case Waiting => j.attemptsMade < s.attempts
       case Active(r) => j.attemptsMade < s.attempts && r < s.nextRun && (r in s.runs ==> s.runs[r].id == id)
       case Completed => s.rows[id].status.Generated?
       case Exhausted =>
         && j.attemptsMade == s.attempts
         && (s.rows[id].status.Pending? ==> Reported(s, id) || id in s.lost)
  }

  ghost predicate ReportOk(s: State, rep: Report) {
    && Needs(s, rep.id)
    && !rep.unrecoverable
    && rep.attemptsMade <= s.failures[rep.id]
  }

  /** Scan k has still to enqueue id. */
  ghost predicate Listed(s: State, k: nat, id: TxnId) {
    k < |s.scans| && id in s.scans[k]
  }

  ghost predicate Inv(s: State) {
    && s.attempts >= 1
    && (forall id {:trigger RowOk(s, id)} :: id in s.rows ==> RowOk(s, id))
    && (forall key {:trigger ObjectOk(s, key)} :: key in s.store ==> ObjectOk(s, key))
    && (forall r {:trigger RunOk(s, r)} :: r in s.runs ==> RunOk(s, r))
    && (forall id {:trigger JobOk(s, id)} :: id in s.jobs ==> JobOk(s, id))
    && (forall rep {:trigger ReportOk(s, rep)} :: rep in s.reports ==> ReportOk(s, rep))
    && (forall id {:trigger Needs(s, id)} :: id in s.toEnqueue ==> Needs(s, id))
    && (forall k, id {:trigger Listed(s, k, id)} :: Listed(s, k, id) ==> Needs(s, id))
    && (forall id {:trigger id in s.lost} :: id in s.lost ==> s.failures[id] >= s.attempts)
  }
}
