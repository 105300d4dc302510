/** The pieces of the receipt pipeline: stored receipts, the job queue, and the row updates that record the
    outcome. The worker class and the step system are both built from them. */
module Receipts {
  import opened Wrappers
  import opened Schema
  import Amounts

  type Rows = map<TxnId, Transaction>

  // ----- src/storage, src/services/receipt.builder -----

  function ObjectKey(id: TxnId): string {
    "receipts/" + id + ".txt"
  }

  /** Different transactions have different object keys. */
  lemma ObjectKeyInjective(a: TxnId, b: TxnId)
    requires ObjectKey(a) == ObjectKey(b)
    ensures a == b
  {
    var p := "receipts/";
    assert ObjectKey(a) == p + (a + ".txt") && ObjectKey(b) == p + (b + ".txt");
    assert (a + ".txt") == ObjectKey(a)[|p|..] == ObjectKey(b)[|p|..] == (b + ".txt");
    assert a == (a + ".txt")[..|a + ".txt"| - 4] == (b + ".txt")[..|b + ".txt"| - 4] == b;
  }

  /** The values printed on a receipt; names of the parties are read through the wallets. */
  datatype Receipt = Receipt(
    transactionId: TxnId,
    createdAt: int,
    fromWallet: WalletId,
    toWallet: WalletId,
    amount: string,
    description: string,
    generatedAt: int)

  function FormatAmount(amount: int): string {
    (if amount < 0 then "-" + Amounts.FormatNumber(-amount) else Amounts.FormatNumber(amount)) + " Toman"
  }

  function BuildReceipt(id: TxnId, t: Transaction, generatedAt: int): Receipt {
    Receipt(id, t.createdAt, t.fromWallet, t.toWallet, FormatAmount(t.amount),
            if t.description.Some? && t.description.value != "" then t.description.value else "-",
            generatedAt)
  }

  /** Grouped digits that denote the magnitude, a minus sign in front of a negative amount, and the unit. */
  ghost predicate IsAmountText(text: string, amount: int) {
    && |text| > 6 && text[|text| - 6..] == " Toman"
    && if amount < 0 then text[0] == '-' && Amounts.IsPrinted(text[1..|text| - 6], -amount)
       else Amounts.IsPrinted(text[..|text| - 6], amount)
  }

  /** What a receipt of t must tell, whenever it was generated: the transaction and its time, who paid whom,
      the amount in grouped digits with its unit, and the description, with a dash for none. */
  ghost predicate IsReceiptOf(r: Receipt, id: TxnId, t: Transaction) {
    && r.transactionId == id && r.createdAt == t.createdAt
    && r.fromWallet == t.fromWallet && r.toWallet == t.toWallet
    && IsAmountText(r.amount, t.amount)
    && (t.description.Some? && t.description.value != "" ==> r.description == t.description.value)
    && (t.description.None? || t.description.value == "" ==> r.description == "-")
  }

  lemma BuildsReceipt(id: TxnId, t: Transaction, generatedAt: int)
    ensures IsReceiptOf(BuildReceipt(id, t, generatedAt), id, t)
    ensures BuildReceipt(id, t, generatedAt).generatedAt == generatedAt
  {
    var text, n := BuildReceipt(id, t, generatedAt).amount, if t.amount < 0 then -t.amount else t.amount;
    Amounts.PrintsNumbers(n);
    if t.amount < 0 {
      assert text == "-" + Amounts.FormatNumber(n) + " Toman";
      assert text[1..|text| - 6] == Amounts.FormatNumber(n);
    } else {
      assert text == Amounts.FormatNumber(n) + " Toman";
      assert text[..|text| - 6] == Amounts.FormatNumber(n);
    }
  }

  // ----- src/repositories/transaction.repository -----

  /** UPDATE ... SET receipt_status = 'GENERATED' WHERE id: no guard on the status. */
  function MarkGenerated(rows: Rows, id: TxnId, key: string, url: string): Rows {
    if id in rows
    then rows[id := rows[id].(status := Generated, objectKey := Some(key), url := Some(url))]
    else rows
  }

  /** UPDATE ... SET receipt_status = 'FAILED' WHERE id AND receipt_status = 'PENDING'. */
  function MarkFailed(rows: Rows, id: TxnId): Rows {
    if id in rows && rows[id].status.Pending? then rows[id := rows[id].(status := Failed)] else rows
  }

  /** The rows differ in their receipt columns only. */
  predicate SameTransfer(a: Transaction, b: Transaction) {
    && a.fromWallet == b.fromWallet && a.toWallet == b.toWallet && a.amount == b.amount
    && a.description == b.description && a.createdAt == b.createdAt
  }

  predicate Overdue(rows: Rows, now: int, olderThan: int, id: TxnId) {
    id in rows && rows[id].status.Pending? && rows[id].createdAt < now - olderThan
  }

  function AllOverdue(rows: Rows, now: int, olderThan: int): set<TxnId> {
    set id | id in rows && Overdue(rows, now, olderThan, id)
  }

  ghost predicate Distinct(ids: seq<TxnId>) {
    forall j, k :: 0 <= j < k < |ids| ==> ids[j] != ids[k]
  }

  ghost predicate OldestFirst(rows: Rows, ids: seq<TxnId>) {
    && (forall k :: 0 <= k < |ids| ==> ids[k] in rows)
    && forall j, k :: 0 <= j < k < |ids| ==> rows[ids[j]].createdAt <= rows[ids[k]].createdAt
  }

  /** A possible answer of findPendingReceiptIds: overdue PENDING rows ORDER BY created_at LIMIT n. Rows of
      the same age come in any order. */
  ghost predicate IsScan(rows: Rows, now: int, olderThan: int, limit: nat, ids: seq<TxnId>) {
    var all := AllOverdue(rows, now, olderThan);
    && Distinct(ids) && OldestFirst(rows, ids)
    && (forall id :: id in ids ==> id in all)
    && |ids| == (if |all| < limit then |all| else limit)
    && forall id, x :: id in all && id !in ids && x in ids ==> rows[x].createdAt <= rows[id].createdAt
  }

  // ----- Remote calls -----

  /** A remote call is answered, is refused, or takes effect and loses its answer. */
  datatype Call = Answered | Refused | AnswerLost

  /** How the outside world treats one run of the processor. */
  datatype Weather = Weather(find: bool, upload: Call, url: Option<string>, mark: Call)

  /** The run gets as far as its UPDATE. */
  predicate ReachesMark(w: Weather) {
    w.find && w.upload.Answered? && w.url.Some?
  }

  /** What a run for a row without a receipt leaves in the store, and in the table. */
  function StoreAfter(store: map<string, Receipt>, id: TxnId, t: Transaction, now: int, w: Weather): map<string, Receipt> {
    if w.find && !w.upload.Refused? then store[ObjectKey(id) := BuildReceipt(id, t, now)] else store
  }

  function RowsAfter(rows: Rows, id: TxnId, w: Weather): Rows {
    if ReachesMark(w) && !w.mark.Refused? then MarkGenerated(rows, id, ObjectKey(id), w.url.value) else rows
  }

  // ----- src/queues/receipt.queue, src/workers/receipt.processor -----

  /** A delayed retry counts as Waiting. `owner` is the lock token of the run that holds the job. */
  datatype JobState = Waiting | Active(owner: nat) | Completed | Exhausted

  datatype Job = Job(state: JobState, attemptsMade: nat)

  type Jobs = map<TxnId, Job>

  const NEW_JOB := Job(Waiting, 0)

  /** queue.add with jobId = transactionId: nothing happens while a record with that id exists. */
  function AddJob(jobs: Jobs, id: TxnId): Jobs {
    if id in jobs then jobs else jobs[id := NEW_JOB]
  }

  function AddJobs(jobs: Jobs, ids: seq<TxnId>): Jobs {
    if ids == [] then jobs else AddJob(AddJobs(jobs, ids[..|ids| - 1]), ids[|ids| - 1])
  }

  /** Adding many: each id ends with a record, records that existed are untouched, nothing else appears. */
  lemma {:induction false} AddJobsEffect(jobs: Jobs, ids: seq<TxnId>)
    ensures AddJobs(jobs, ids).Keys == jobs.Keys + set id | id in ids
    ensures forall id :: id in AddJobs(jobs, ids) ==> AddJobs(jobs, ids)[id] == if id in jobs then jobs[id] else NEW_JOB
  {
    if ids != [] {
      AddJobsEffect(jobs, ids[..|ids| - 1]);
      assert ids == ids[..|ids| - 1] + [ids[|ids| - 1]];
    }
  }

  /** Adding ids that all have a record does nothing. */
  lemma AddJobsAgain(jobs: Jobs, ids: seq<TxnId>)
    requires forall id :: id in ids ==> id in jobs
    ensures AddJobs(jobs, ids) == jobs
  {
    AddJobsEffect(jobs, ids);
    assert AddJobs(jobs, ids).Keys == jobs.Keys;
  }

  /** An UnrecoverableError, or no attempts left; a job without an attempts option has one. */
  predicate IsFinalFailure(unrecoverable: bool, attemptsMade: nat, attempts: Option<nat>) {
    unrecoverable || attemptsMade >= (if attempts.Some? then attempts.value else 1)
  }

  /** The order in which a receipt's status may move. */
  function StatusRank(status: ReceiptStatus): nat {
    match status
    case NotRequired => 0
    case Pending => 0
    case Failed => 1
    case Generated => 2
  }
}
