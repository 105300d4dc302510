/** The services around the receipt pipeline as one process executes them: the transfer service, the queue,
    the storage, the worker's job processor, its failure handler and the recovery loop. Every remote call may
    be refused, or may take effect and lose its answer. */
module ReceiptService {
  import opened Wrappers
  import opened Schema
  import opened Serial
  import opened Receipts
  import opened TransferProcedure

  /** How many of a list of calls take effect, when the first failure ends the list. */
  function Delivered(calls: seq<Call>): nat {
    if calls == [] || calls[0].Refused? then 0
    else if calls[0].AnswerLost? then 1
    else 1 + Delivered(calls[1..])
  }

  lemma {:induction false} DeliveredInRange(calls: seq<Call>)
    ensures Delivered(calls) <= |calls|
    ensures Delivered(calls) == |calls| <==> forall k :: 0 <= k < |calls| ==> calls[k].Answered? || (calls[k].AnswerLost? && k == |calls| - 1)
  {
    if calls != [] && calls[0].Answered? {
      DeliveredInRange(calls[1..]);
      assert forall k :: 0 < k < |calls| ==> calls[k] == calls[1..][k - 1];
    }
  }

  /** Call k takes effect exactly if all calls before it were answered and it is not refused itself. */
  lemma {:induction false} DeliveredMeans(calls: seq<Call>)
    ensures forall k :: 0 <= k < |calls| ==> (k < Delivered(calls) <==> TakesEffect(calls, k))
  {
    if calls != [] {
      DeliveredMeans(calls[1..]);
      forall k | 0 < k < |calls| ensures TakesEffect(calls, k) <==> calls[0].Answered? && TakesEffect(calls[1..], k - 1) {
        assert calls[..k] == [calls[0]] + calls[1..][..k - 1];
      }
    }
  }

  lemma AddedJobs(jobs: Jobs, ids: seq<TxnId>, calls: seq<Call>)
    requires |calls| == |ids|
    ensures Delivered(calls) <= |ids|
    ensures var after := AddJobs(jobs, ids[..Delivered(calls)]);
            && (forall id :: id in after <==> id in jobs || exists k :: 0 <= k < |ids| && TakesEffect(calls, k) && ids[k] == id)
            && forall id :: id in after ==> after[id] == if id in jobs then jobs[id] else Job(Waiting, 0)
  {
    DeliveredInRange(calls);
    DeliveredMeans(calls);
    hide TakesEffect, Delivered, AddJobs;
    var first := ids[..Delivered(calls)];
    AddJobsEffect(jobs, first);
    forall id | id in first ensures exists k :: 0 <= k < |ids| && TakesEffect(calls, k) && ids[k] == id {
      var k :| 0 <= k < |first| && first[k] == id;
      assert TakesEffect(calls, k) && ids[k] == id;
    }
    forall k | 0 <= k < |ids| && TakesEffect(calls, k) ensures ids[k] in first { assert first[k] == ids[k]; }
  }

  predicate TakesEffect(calls: seq<Call>, k: nat)
    requires k < |calls|
  {
    !calls[k].Refused? && forall c :: c in calls[..k] ==> c.Answered?
  }

  class ReceiptQueue {
    var jobs: Jobs

    constructor ()
      ensures jobs == map[]
    {
      jobs := map[];
    }

    method Enqueue(id: TxnId, call: Call) returns (ok: bool)
      modifies this
      ensures jobs == if call.Refused? then old(jobs) else AddJob(old(jobs), id)
      ensures ok <==> call.Answered?
    {
      if !call.Refused? && id !in jobs {
        jobs := jobs[id := NEW_JOB];
      }
      ok := call.Answered?;
    }
  }

  class ReceiptStorage {
    var objects: map<string, Receipt>

    constructor ()
      ensures objects == map[]
    {
      objects := map[];
    }

    method Upload(key: string, content: Receipt, call: Call) returns (ok: bool)
      modifies this
      ensures objects == if call.Refused? then old(objects) else old(objects)[key := content]
      ensures ok <==> call.Answered?
    {
      if !call.Refused? {
        objects := objects[key := content];
      }
      ok := call.Answered?;
    }
  }

  /** What the processor returns, and what it throws; NotFound is the unrecoverable one. */
  datatype JobResult = JobResult(objectKey: Option<string>, url: Option<string>, skipped: bool)
  datatype JobError = NotFound | Unreachable

  class ReceiptWorker {
    const db: WalletDatabase
    const storage: ReceiptStorage
    const queue: ReceiptQueue

    constructor (db: WalletDatabase, storage: ReceiptStorage, queue: ReceiptQueue)
      ensures this.db == db && this.storage == storage && this.queue == queue
    {
      this.db, this.storage, this.queue := db, storage, queue;
    }

    /** processReceiptJob. A missing row is unrecoverable, a generated one is skipped, and otherwise the
        receipt of that very row is stored before the row points at it. */
    method ProcessReceiptJob(id: TxnId, now: int, w: Weather) returns (r: Result<JobResult, JobError>)
      requires db.Valid()
      modifies storage, db`transactions
      ensures db.Valid()
      ensures w.find && id !in old(db.transactions) ==> r == Failure(NotFound)
      ensures w.find && id in old(db.transactions) && old(db.transactions)[id].status.Generated? ==>
                r == Success(JobResult(old(db.transactions)[id].objectKey, old(db.transactions)[id].url, true))
      ensures !w.find || id !in old(db.transactions) || old(db.transactions)[id].status.Generated? ==>
                storage.objects == old(storage.objects) && db.transactions == old(db.transactions)
      ensures w.find && id in old(db.transactions) && !old(db.transactions)[id].status.Generated? ==>
                && (r.Success? <==> w.upload.Answered? && w.url.Some? && w.mark.Answered?)
                && (r.Success? ==> r.value == JobResult(Some("receipts/" + id + ".txt"), w.url, false))
                && (r.Success? ==>
                      && id in db.transactions && db.transactions[id].status.Generated?
                      && db.transactions[id].url == r.value.url && db.transactions[id].objectKey == r.value.objectKey
                      && ObjectKey(id) in storage.objects && storage.objects[ObjectKey(id)].generatedAt == now)
                && (w.upload.Refused? ==> storage.objects == old(storage.objects))
                && (!w.upload.Refused? ==>
                      && ObjectKey(id) in storage.objects && IsReceiptOf(storage.objects[ObjectKey(id)], id, old(db.transactions)[id])
                      && storage.objects == old(storage.objects)[ObjectKey(id) := storage.objects[ObjectKey(id)]])
                && (!w.upload.Answered? || w.url.None? || w.mark.Refused? ==> db.transactions == old(db.transactions))
                && (w.upload.Answered? && w.url.Some? && !w.mark.Refused? ==>
                      db.transactions == old(db.transactions)[id :=
                        old(db.transactions)[id].(status := Generated, objectKey := Some(ObjectKey(id)), url := w.url)])
                && storage.objects == StoreAfter(old(storage.objects), id, old(db.transactions)[id], now, w)
                && db.transactions == RowsAfter(old(db.transactions), id, w)
      ensures r.Failure? ==> (r.error.NotFound? <==> w.find && id !in old(db.transactions))
    {
      if !w.find { return Failure(Unreachable); }
      if id !in db.transactions { return Failure(NotFound); }
      var transaction := db.transactions[id];
      if transaction.status.Generated? {
        return Success(JobResult(transaction.objectKey, transaction.url, true));
      }
      assert FullyPosted(db.Contents(), id);
      BuildsReceipt(id, transaction, now);
      var key := ObjectKey(id);
      var uploaded := storage.Upload(key, BuildReceipt(id, transaction, now), w.upload);
      if !uploaded { return Failure(Unreachable); }
      if w.url.None? { return Failure(Unreachable); }
      if w.mark.Refused? { return Failure(Unreachable); }
      var updated := db.MarkReceiptGenerated(id, key, w.url.value);
      if w.mark.AnswerLost? { return Failure(Unreachable); }
      r := Success(JobResult(Some(key), w.url, false));
    }

    /** onReceiptJobFailed: only a final failure writes, and only over PENDING. */
    method OnReceiptJobFailed(id: Option<TxnId>, attemptsMade: nat, attempts: Option<nat>, unrecoverable: bool, call: Call)
      requires db.Valid()
      modifies db`transactions
      ensures db.Valid()
      ensures db.transactions ==
                if id.Some? && IsFinalFailure(unrecoverable, attemptsMade, attempts) && !call.Refused?
                then MarkFailed(old(db.transactions), id.value) else old(db.transactions)
      ensures db.transactions.Keys == old(db.transactions).Keys
      ensures forall x :: x in db.transactions ==>
                db.transactions[x] ==
                if id == Some(x) && !call.Refused? && old(db.transactions)[x].status.Pending?
                   && (unrecoverable || attemptsMade >= if attempts.Some? then attempts.value else 1)
                then old(db.transactions)[x].(status := Failed) else old(db.transactions)[x]
    {
      if id.None? { return; }
      if !IsFinalFailure(unrecoverable, attemptsMade, attempts) { return; }
      if call.Refused? { return; }
      var updated := db.MarkReceiptFailed(id.value);
    }

    /** The loop of the recovery: enqueues in order, up to the first call that fails. */
    method EnqueueAll(ids: seq<TxnId>, calls: seq<Call>) returns (ok: bool)
      requires |calls| == |ids|
      modifies queue
      ensures Delivered(calls) <= |ids| && queue.jobs == AddJobs(old(queue.jobs), ids[..Delivered(calls)])
      ensures forall id :: id in queue.jobs <==> id in old(queue.jobs) || exists k :: 0 <= k < |ids| && TakesEffect(calls, k) && ids[k] == id
      ensures forall id :: id in queue.jobs ==> queue.jobs[id] == if id in old(queue.jobs) then old(queue.jobs)[id] else Job(Waiting, 0)
      ensures ok <==> forall k :: 0 <= k < |ids| ==> calls[k].Answered?
    {
      AddedJobs(queue.jobs, ids, calls);
      for k := 0 to |ids|
        invariant queue.jobs == AddJobs(old(queue.jobs), ids[..k])
        invariant forall j :: 0 <= j < k ==> calls[j].Answered?
        invariant k + Delivered(calls[k..]) == Delivered(calls)
      {
        assert ids[..k + 1][..k] == ids[..k] && calls[k..][1..] == calls[k + 1..];
        ok := queue.Enqueue(ids[k], calls[k]);
        if !ok { return; }
      }
      assert ids[..|ids|] == ids;
      ok := true;
    }

    /** recoverPendingReceipts: one scan, and the adds of its loop; a failed call ends it. */
    method RecoverPendingReceipts(now: int, olderThan: int, batchSize: nat, calls: seq<Call>)
      returns (count: Option<nat>, ghost ids: seq<TxnId>)
      requires |calls| >= batchSize
      modifies queue
      ensures IsScan(db.transactions, now, olderThan, batchSize, ids)
      ensures Delivered(calls[..|ids|]) <= |ids|
      ensures queue.jobs == AddJobs(old(queue.jobs), ids[..Delivered(calls[..|ids|])])
      ensures count == if forall k :: 0 <= k < |ids| ==> calls[k].Answered? then Some(|ids|) else None
    {
      var found := db.FindPendingReceiptIds(now, olderThan, batchSize);
      ids := found;
      var ok := EnqueueAll(found, calls[..|found|]);
      count := if ok then Some(|found|) else None;
    }
  }

  // ----- src/services/transfer.service -----

  /** Rejected: no transfer. The other two are thrown: Unread after the commit, when the row could not be read
      back; Unanswered when the CALL itself got no answer, and the caller cannot tell. */
  datatype TransferAnswer = Sent(transaction: Transaction) | Rejected(outcome: Outcome) | Unread | Unanswered

  class TransferService {
    const db: WalletDatabase
    const queue: ReceiptQueue
    var notified: seq<(TxnId, WalletId)>

    constructor (db: WalletDatabase, queue: ReceiptQueue)
      ensures this.db == db && this.queue == queue && notified == []
    {
      this.db, this.queue := db, queue;
      notified := [];
    }

    /** What follows the commit: enqueue when a receipt is due, then notify; neither failure is passed on. */
    method Announce(id: TxnId, receiptStatus: ReceiptStatus, to: WalletId, enqueue: Call, notify: bool)
      modifies this, queue
      ensures queue.jobs == if receiptStatus.Pending? && !enqueue.Refused? then AddJob(old(queue.jobs), id) else old(queue.jobs)
      ensures notified == old(notified) + if notify then [(id, to)] else []
    {
      if receiptStatus.Pending? {
        var ok := queue.Enqueue(id, enqueue);
      }
      if notify {
        notified := notified + [(id, to)];
      }
    }

    /** The database decides alone: a CALL that is not taken or is rejected has no effect anywhere, and a
        committed one whose answer arrives is answered as sent whether or not queue and notifier work. Without that
        answer, or without the row, neither is told. */
    method Transfer(req: Request, newId: TxnId, call: Call, readable: bool, enqueue: Call, notify: bool)
      returns (answer: TransferAnswer)
      requires db.Valid() && newId !in db.transactions
      modifies this, db, queue
      ensures db.Valid()
      ensures call.Refused? || !Decide(old(db.Contents()), req).Done? ==>
                db.Contents() == old(db.Contents()) && queue.jobs == old(queue.jobs) && notified == old(notified)
      ensures !call.Refused? && Decide(old(db.Contents()), req).Done? ==>
                var c := Commit.Transfer(req, newId, old(db.nextLedger), old(db.nextLedger) + 1);
                && Legal(old(db.Contents()), c) && db.Contents() == Apply(old(db.Contents()), c)
                && newId in db.transactions
      ensures if !call.Answered? then answer == Unanswered
              else if !Decide(old(db.Contents()), req).Done? then answer == Rejected(Decide(old(db.Contents()), req))
              else answer == if readable then Sent(db.transactions[newId]) else Unread
      ensures queue.jobs == if answer.Sent? && req.Value() > req.threshold && !enqueue.Refused?
                            then AddJob(old(queue.jobs), newId) else old(queue.jobs)
      ensures notified == old(notified) + if answer.Sent? && notify then [(newId, db.transactions[newId].toWallet)] else []
    {
      hide DbOk, Legal;
      if call.Refused? { return Unanswered; }
      var outcome := db.TransferFunds(req, newId);
      if call.AnswerLost? { return Unanswered; }
      if !outcome.Done? { return Rejected(outcome); }
      if !readable { return Unread; }
      var transaction := db.transactions[newId];
      Announce(newId, outcome.status, transaction.toWallet, enqueue, notify);
      answer := Sent(transaction);
    }
  }
}
