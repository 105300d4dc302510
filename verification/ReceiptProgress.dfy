/** What the receipt pipeline can still do without waiting for old records to be removed. */
module ReceiptProgress {
  import opened Wrappers
  import opened Schema
  import opened Receipts
  import opened Recovery
  import opened ReceiptPipeline
  import opened ReceiptInvariant
  import opened ReceiptTheorems

  /** A run in which no settled record is removed. */
  ghost predicate Progresses(s: State, steps: seq<Step>, t: State) {
    Leads(s, steps, t) && forall k :: 0 <= k < |steps| ==> !steps[k].RemoveRecord?
  }

  lemma StepFirst(s: State, step: Step, u: State, rest: seq<Step>, t: State)
    requires Enabled(s, step) && !step.RemoveRecord? && u == Next(s, step) && Progresses(u, rest, t)
    ensures Progresses(s, [step] + rest, t)
  {
    assert ([step] + rest)[1..] == rest;
  }

  lemma ProgressOn(s: State, a: seq<Step>, t: State, b: seq<Step>, u: State)
    requires Progresses(s, a, t) && Progresses(t, b, u)
    ensures Progresses(s, a + b, u)
  {
    LeadsOn(s, a, t, b, u);
  }

  /** Only `y` changed: its row, its job, its runs and its failure events. */
  ghost predicate OnlyChanged(s: State, t: State, y: TxnId) {
    && t.attempts == s.attempts && t.threshold == s.threshold && t.batch == s.batch && t.now >= s.now
    && t.rows.Keys == s.rows.Keys && (forall x :: x in s.rows && x != y ==> t.rows[x] == s.rows[x])
    && (forall x :: x != y ==> (x in t.jobs <==> x in s.jobs))
    && (forall x :: x != y && x in s.jobs ==> t.jobs[x] == s.jobs[x])
    && (forall r :: r in s.runs && s.runs[r].id != y ==> r in t.runs && t.runs[r] == s.runs[r])
    && (forall rep :: rep in s.reports && rep.id != y ==> rep in t.reports)
    && (forall rep :: rep in t.reports && rep.id != y ==> rep in s.reports)
  }

  /** Neither time nor scans moved. */
  predicate SameClock(s: State, t: State) {
    t.now == s.now && t.scans == s.scans
  }

  lemma OnlyChangedOn(s: State, t: State, u: State, y: TxnId)
    requires OnlyChanged(s, t, y) && OnlyChanged(t, u, y)
    ensures OnlyChanged(s, u, y)
  {}

  // ----- Settling a receipt that is not stuck -----

  function Distance(pc: RunPc): nat {
    match pc
    case Started => 4
    case Loaded(_) => 3
    case Uploaded(_) => 2
    case Linked(_, _) => 1
    case Marked => 0
  }

  /** The next thing run r does if its calls are answered. */
  function Onwards(s: State, r: nat): Step
    requires r in s.runs
  {
    match s.runs[r].pc
    case Started => LoadRow(r)
    case Loaded(_) => Upload(r)
    case Uploaded(_) => GetUrl(r, "")
    case Linked(_, _) => WriteGenerated(r)
    case Marked => Complete(r)
  }

  lemma OneStepOn(s: State, r: nat)
    requires r in s.runs && !s.runs[r].pc.Marked?
    requires s.runs[r].id in s.rows && s.rows[s.runs[r].id].status.Pending?
    ensures Enabled(s, Onwards(s, r))
    ensures var t, y := Next(s, Onwards(s, r)), s.runs[r].id;
            && OnlyChanged(s, t, y) && SameClock(s, t) && r in t.runs && t.runs[r].id == y
            && Distance(t.runs[r].pc) == Distance(s.runs[r].pc) - 1
            && (if s.runs[r].pc.Linked? then t.rows[y].status.Generated? else t.rows[y].status.Pending?)
  {
    hide OnlyChanged, BuildReceipt, ObjectKey, IsScan, AddJob, Handle, Throw, Return;
    var y := s.runs[r].id;
    match s.runs[r].pc
    case Started =>
      RunAdvances(s, r, Loaded(s.rows[y]), s.rows, s.store);
    case Loaded(row) =>
      RunAdvances(s, r, Uploaded(ObjectKey(y)), s.rows, s.store[ObjectKey(y) := BuildReceipt(y, row, s.now)]);
    case Uploaded(key) =>
      RunAdvances(s, r, Linked(key, ""), s.rows, s.store);
    case Linked(key, url) =>
      RunAdvances(s, r, Marked, MarkGenerated(s.rows, y, key, url), s.store);
  }

  lemma RunAdvances(s: State, r: nat, pc: RunPc, rows: Rows, store: map<string, Receipt>)
    requires r in s.runs && rows.Keys == s.rows.Keys
    requires forall x :: x in s.rows && x != s.runs[r].id ==> rows[x] == s.rows[x]
    ensures OnlyChanged(s, Advance(s, r, pc).(rows := rows, store := store), s.runs[r].id)
  {
  }

  /** A run of a PENDING receipt, wherever it is, can go on to generate it. */
  lemma {:induction false} RunCanGenerate(s: State, r: nat) returns (steps: seq<Step>, t: State)
    requires r in s.runs && !s.runs[r].pc.Marked?
    requires s.runs[r].id in s.rows && s.rows[s.runs[r].id].status.Pending?
    ensures Progresses(s, steps, t) && OnlyChanged(s, t, s.runs[r].id) && SameClock(s, t)
    ensures t.rows[s.runs[r].id].status.Generated?
    decreases Distance(s.runs[r].pc)
  {
    hide Progresses, OnlyChanged;
    var u := Next(s, Onwards(s, r));
    OneStepOn(s, r);
    if s.runs[r].pc.Linked? {
      NoSteps(u);
      steps, t := [], u;
    } else {
      OnlyChangedRows(s, u, s.runs[r].id);
      steps, t := RunCanGenerate(u, r);
      OnlyChangedOn(s, u, t, s.runs[r].id);
    }
    StepFirst(s, Onwards(s, r), u, steps, t);
    steps := [Onwards(s, r)] + steps;
  }

  lemma NoSteps(s: State)
    ensures Progresses(s, [], s)
  {}

  lemma OnlyChangedRows(s: State, t: State, y: TxnId)
    requires OnlyChanged(s, t, y)
    ensures t.rows.Keys == s.rows.Keys && t.batch == s.batch
  {}

  /** Without a removed record, nothing will ever settle x: its job is exhausted, no run of it is left, and no
      final failure of it is on its way to the handler. */
  ghost predicate Stuck(s: State, x: TxnId) {
    && x in s.jobs && s.jobs[x].state.Exhausted?
    && (forall r {:trigger s.runs[r]} :: r in s.runs ==> s.runs[r].id != x)
    && !Reported(s, x)
  }

  lemma TakeEffect(s: State, y: TxnId)
    requires y in s.jobs && s.jobs[y].state.Waiting? && s.nextRun !in s.runs && y in s.rows
    ensures var t := Next(s, TakeJob(y));
            OnlyChanged(s, t, y) && SameClock(s, t) && s.nextRun in t.runs && t.runs[s.nextRun] == Run(y, Started) && t.rows == s.rows
  {}

  lemma StallEffect(s: State, y: TxnId)
    requires y in s.jobs && s.jobs[y].state.Active?
    ensures var t := Next(s, Stall(y));
            && OnlyChanged(s, t, y) && SameClock(s, t) && y in t.jobs && t.jobs[y].state.Waiting?
            && t.rows == s.rows && t.runs == s.runs && t.nextRun == s.nextRun
  {}

  lemma HandlerEffect(s: State, y: TxnId) returns (step: Step)
    requires y in s.rows && s.rows[y].status.Pending? && Reported(s, y)
    ensures Enabled(s, step) && !step.RemoveRecord?
    ensures OnlyChanged(s, Next(s, step), y) && SameClock(s, Next(s, step)) && Next(s, step).rows[y].status.Failed?
  {
    var rep :| rep in s.reports && rep.id == y && IsFinalFailure(rep.unrecoverable, rep.attemptsMade, Some(s.attempts));
    step := HandleFailure(rep, true);
    assert Next(s, step) == Handle(s, rep, true);
  }

  lemma WaitingCanSettle(s: State, y: TxnId) returns (steps: seq<Step>, t: State)
    requires y in s.jobs && s.jobs[y].state.Waiting? && s.nextRun !in s.runs && y in s.rows && s.rows[y].status.Pending?
    ensures Progresses(s, steps, t) && OnlyChanged(s, t, y) && SameClock(s, t) && !t.rows[y].status.Pending?
  {
    hide Progresses, OnlyChanged;
    var u := Next(s, TakeJob(y));
    TakeEffect(s, y);
    steps, t := RunCanGenerate(u, s.nextRun);
    StepFirst(s, TakeJob(y), u, steps, t);
    OnlyChangedOn(s, u, t, y);
    steps := [TakeJob(y)] + steps;
  }

  /** A PENDING receipt with a record that is not stuck can be settled, and nothing else need change. */
  lemma CanSettle(s: State, y: TxnId) returns (steps: seq<Step>, t: State)
    requires Inv(s) && y in s.rows && s.rows[y].status.Pending? && y in s.jobs && !Stuck(s, y)
    ensures Progresses(s, steps, t) && OnlyChanged(s, t, y) && SameClock(s, t)
    ensures y in t.rows && !t.rows[y].status.Pending?
  {
    assert JobOk(s, y);
    RunsBelow(s);
    hide Inv, Progresses, OnlyChanged;
    match s.jobs[y].state
    case Waiting =>
      steps, t := WaitingCanSettle(s, y);
      OnlyChangedRows(s, t, y);
    case Active(_) =>
      var u := Next(s, Stall(y));
      StallEffect(s, y);
      steps, t := WaitingCanSettle(u, y);
      StepFirst(s, Stall(y), u, steps, t);
      OnlyChangedOn(s, u, t, y);
      OnlyChangedRows(s, t, y);
      steps := [Stall(y)] + steps;
    case Completed =>
      assert false;
    case Exhausted =>
      if Reported(s, y) {
        var step := HandlerEffect(s, y);
        t := Next(s, step);
        NoSteps(t);
        StepFirst(s, step, t, [], t);
        OnlyChangedRows(s, t, y);
        steps := [step] + [];
      } else {
        var r :| r in s.runs && s.runs[r].id == y;
        RunsOfPending(s, r);
        steps, t := RunCanGenerate(s, r);
        OnlyChangedRows(s, t, y);
      }
  }

  lemma RunsBelow(s: State)
    requires Inv(s)
    ensures forall r :: r in s.runs ==> r < s.nextRun
  {
    forall r | r in s.runs ensures r < s.nextRun { assert RunOk(s, r); }
  }

  lemma RunsOfPending(s: State, r: nat)
    requires Inv(s) && r in s.runs && s.runs[r].id in s.rows && s.rows[s.runs[r].id].status.Pending?
    ensures !s.runs[r].pc.Marked?
  {
    assert RunOk(s, r);
  }

  // ----- Giving a receipt its job -----

  /** n adds of scan k. */
  lemma {:induction false} EnqueueFront(s: State, k: nat, n: nat) returns (steps: seq<Step>, t: State)
    requires k < |s.scans| && n <= |s.scans[k]|
    ensures Progresses(s, steps, t)
    ensures t == s.(jobs := AddJobs(s.jobs, s.scans[k][..n]), scans := s.scans[k := s.scans[k][n..]])
  {
    if n == 0 {
      assert s.scans[k := s.scans[k][0..]] == s.scans;
      NoSteps(s);
      steps, t := [], s;
    } else {
      var u;
      steps, u := EnqueueFront(s, k, n - 1);
      var ids := s.scans[k];
      var step := EnqueueScanned(k);
      t := u.(jobs := AddJob(u.jobs, ids[n - 1]), scans := u.scans[k := ids[n - 1..][1..]]);
      NoSteps(t);
      StepFirst(u, step, t, [], t);
      ProgressOn(s, steps, u, [step] + [], t);
      steps := steps + ([step] + []);
      assert ids[n - 1..][1..] == ids[n..];
      assert ids[..n][..n - 1] == ids[..n - 1];
    }
  }

  /** A minute passes, and a scan begins that lists `y` right after the strictly older rows. */
  lemma ScanFor(s: State, y: TxnId) returns (steps: seq<Step>, t: State, n: nat)
    requires y in s.rows && s.rows[y].status.Pending? && s.rows[y].createdAt <= s.now
    requires |Elders(s, y)| < s.batch
    ensures Progresses(s, steps, t)
    ensures t == s.(now := t.now, scans := t.scans) && t.now >= s.now && t.scans != []
    ensures var ids := t.scans[|t.scans| - 1];
            n < |ids| && ids[n] == y && forall x :: x in ids[..n] ==> x in Elders(s, y)
  {
    var now := s.now + OLDER_THAN + 1;
    assert Older(s.rows, now, OLDER_THAN, y) == Elders(s, y);
    var ids;
    ids, n := ScanReaches(s.rows, now, OLDER_THAN, s.batch, y);
    var u := s.(now := now);
    t := u.(scans := s.scans + [ids]);
    NoSteps(t);
    StepFirst(u, BeginScan(ids), t, [], t);
    StepFirst(s, Tick(OLDER_THAN + 1), u, [BeginScan(ids)] + [], t);
    steps := [Tick(OLDER_THAN + 1)] + ([BeginScan(ids)] + []);
    forall x | x in ids[..n] ensures x in Elders(s, y) { assert x in Elements(ids[..n]); }
  }

  /** The PENDING receipts strictly older than y. */
  function Elders(s: State, y: TxnId): set<TxnId>
    requires y in s.rows
  {
    set x | x in s.rows && s.rows[x].status.Pending? && s.rows[x].createdAt < s.rows[y].createdAt
  }

  /** When fewer than `batch` strictly older PENDING receipts are left, and these have a record, the next scan
      can give y its job and change nothing else. */
  lemma CanEnqueue(s: State, y: TxnId) returns (steps: seq<Step>, t: State)
    requires Inv(s) && y in s.rows && s.rows[y].status.Pending? && y !in s.jobs
    requires |Elders(s, y)| < s.batch && forall x :: x in Elders(s, y) ==> x in s.jobs
    ensures Progresses(s, steps, t) && OnlyChanged(s, t, y)
    ensures t.rows == s.rows && t.jobs == s.jobs[y := NEW_JOB]
  {
    assert RowOk(s, y);
    hide Inv, Progresses;
    var u, n;
    steps, u, n := ScanFor(s, y);
    var k := |u.scans| - 1;
    var ids := u.scans[k];
    var rest;
    rest, t := EnqueueFront(u, k, n + 1);
    assert ids[..n + 1][..n] == ids[..n];
    AddJobsAgain(s.jobs, ids[..n]);
    ProgressOn(s, steps, u, rest, t);
    steps := steps + rest;
  }
}
