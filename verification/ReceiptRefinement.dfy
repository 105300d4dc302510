/** The processor as one process executes it is a run of the pipeline: whatever happens to its calls, the rows
    and objects that ReceiptService.ReceiptWorker.ProcessReceiptJob leaves are those of steps of that one run. */
module ReceiptRefinement {
  import opened Wrappers
  import opened Schema
  import opened Receipts
  import opened ReceiptPipeline
  import opened ReceiptTheorems

  /** A step of run r. */
  predicate OfRun(step: Step, r: nat) {
    match step
    case LoadRow(k) => k == r
    case Upload(k) => k == r
    case GetUrl(k, _) => k == r
    case WriteGenerated(k) => k == r
    case Complete(k) => k == r
    case Fail(k) => k == r
    case _ => false
  }

  /** How a run ends: it returns, throws, or throws an UnrecoverableError. */
  datatype End = Returned | Threw | GaveUp

  function Settled(s: State, r: nat, end: End): State
    requires r in s.runs
  {
    match end
    case Returned => Return(s, r)
    case Threw => Throw(s, r, false)
    case GaveUp => Throw(s, r, true)
  }

  /** The record of the job when run r ends: completed or charged, if r still holds it. */
  function JobsAfter(s: State, id: TxnId, r: nat, end: End): Jobs {
    if id !in s.jobs || s.jobs[id].state != Active(r) then s.jobs
    else
      var made := s.jobs[id].attemptsMade;
      s.jobs[id := match end
                   case Returned => Job(Completed, made)
                   case Threw => Job(if made + 1 >= s.attempts then Exhausted else Waiting, made + 1)
                   case GaveUp => Job(Exhausted, made + 1)]
  }

  lemma SettledEffect(s: State, r: nat, end: End)
    requires r in s.runs
    ensures var t := Settled(s, r, end);
            && t.jobs == JobsAfter(s, s.runs[r].id, r, end)
            && t.rows == s.rows && t.store == s.store && r !in t.runs
  {
    match end
    case Returned =>
    case Threw => ThrowEffect(s, r, false);
    case GaveUp => ThrowEffect(s, r, true);
  }

  lemma ThrowEffect(s: State, r: nat, unrecoverable: bool)
    requires r in s.runs
    ensures var t := Throw(s, r, unrecoverable);
            && t.jobs == JobsAfter(s, s.runs[r].id, r, if unrecoverable then GaveUp else Threw)
            && t.rows == s.rows && t.store == s.store && r !in t.runs
  {}

  lemma SameJobs(s: State, u: State, id: TxnId, r: nat, end: End)
    requires s.jobs == u.jobs && s.attempts == u.attempts
    ensures JobsAfter(u, id, r, end) == JobsAfter(s, id, r, end)
  {}

  ghost predicate RunLeads(s: State, r: nat, steps: seq<Step>, t: State) {
    Leads(s, steps, t) && forall k :: 0 <= k < |steps| ==> OfRun(steps[k], r)
  }

  lemma StepFirst(s: State, r: nat, step: Step, u: State, rest: seq<Step>, t: State)
    requires Enabled(s, step) && OfRun(step, r) && u == Next(s, step) && RunLeads(u, r, rest, t)
    ensures RunLeads(s, r, [step] + rest, t)
  {
    assert ([step] + rest)[1..] == rest;
  }

  function Last(r: nat, success: bool): Step {
    if success then Complete(r) else Fail(r)
  }

  function EndOf(success: bool): End {
    if success then Returned else Threw
  }

  lemma Ends(s: State, r: nat, success: bool)
    requires r in s.runs && (success ==> s.runs[r].pc.Marked?)
    ensures RunLeads(s, r, [Last(r, success)] + [], Settled(s, r, EndOf(success)))
  {
    StepFirst(s, r, Last(r, success), Settled(s, r, EndOf(success)), [], Settled(s, r, EndOf(success)));
  }

  function Written(s: State, r: nat): State
    requires r in s.runs && s.runs[r].pc.Linked?
  {
    Advance(s, r, Marked).(rows := MarkGenerated(s.rows, s.runs[r].id, s.runs[r].pc.key, s.runs[r].pc.url))
  }

  lemma WriteFirst(s: State, r: nat, rest: seq<Step>, t: State)
    requires r in s.runs && s.runs[r].pc.Linked? && RunLeads(Written(s, r), r, rest, t)
    ensures RunLeads(s, r, [WriteGenerated(r)] + rest, t)
  {
    StepFirst(s, r, WriteGenerated(r), Written(s, r), rest, t);
  }

  lemma GetUrlFirst(s: State, r: nat, url: string, rest: seq<Step>, t: State)
    requires r in s.runs && s.runs[r].pc.Uploaded? && RunLeads(Advance(s, r, Linked(s.runs[r].pc.key, url)), r, rest, t)
    ensures RunLeads(s, r, [GetUrl(r, url)] + rest, t)
  {
    StepFirst(s, r, GetUrl(r, url), Advance(s, r, Linked(s.runs[r].pc.key, url)), rest, t);
  }

  function Stored(s: State, r: nat): State
    requires r in s.runs && s.runs[r].pc.Loaded?
  {
    var key := ObjectKey(s.runs[r].id);
    Advance(s, r, Uploaded(key)).(store := s.store[key := BuildReceipt(s.runs[r].id, s.runs[r].pc.row, s.now)])
  }

  lemma UploadFirst(s: State, r: nat, rest: seq<Step>, t: State)
    requires r in s.runs && s.runs[r].pc.Loaded? && RunLeads(Stored(s, r), r, rest, t)
    ensures RunLeads(s, r, [Upload(r)] + rest, t)
  {
    StepFirst(s, r, Upload(r), Stored(s, r), rest, t);
  }

  lemma LoadFirst(s: State, r: nat, rest: seq<Step>, t: State)
    requires r in s.runs && s.runs[r].pc.Started? && RunLeads(Load(s, r), r, rest, t)
    ensures RunLeads(s, r, [LoadRow(r)] + rest, t)
  {
    StepFirst(s, r, LoadRow(r), Load(s, r), rest, t);
  }

  lemma FromLinked(s: State, r: nat, mark: Call) returns (steps: seq<Step>, t: State)
    requires r in s.runs && s.runs[r].pc.Linked?
    ensures RunLeads(s, r, steps, t) && r !in t.runs && t.store == s.store
    ensures t.rows == if mark.Refused? then s.rows
                      else MarkGenerated(s.rows, s.runs[r].id, s.runs[r].pc.key, s.runs[r].pc.url)
    ensures t.jobs == JobsAfter(s, s.runs[r].id, r, EndOf(mark.Answered?))
  {
    hide RunLeads, Settled, JobsAfter;
    var u := if mark.Refused? then s else Written(s, r);
    t := Settled(u, r, EndOf(mark.Answered?));
    steps := [Last(r, mark.Answered?)] + [];
    Ends(u, r, mark.Answered?);
    SettledEffect(u, r, EndOf(mark.Answered?));
    SameJobs(s, u, s.runs[r].id, r, EndOf(mark.Answered?));
    if !mark.Refused? {
      WriteFirst(s, r, steps, t);
      steps := [WriteGenerated(r)] + steps;
    }
  }

  predicate Succeeds(w: Weather) {
    ReachesMark(w) && w.mark.Answered?
  }

  lemma FromUploaded(s: State, r: nat, w: Weather) returns (steps: seq<Step>, t: State)
    requires r in s.runs && s.runs[r].pc.Uploaded? && s.runs[r].pc.key == ObjectKey(s.runs[r].id)
    requires w.find && !w.upload.Refused?
    ensures RunLeads(s, r, steps, t) && r !in t.runs && t.store == s.store
    ensures t.rows == RowsAfter(s.rows, s.runs[r].id, w)
    ensures t.jobs == JobsAfter(s, s.runs[r].id, r, EndOf(Succeeds(w)))
  {
    hide RunLeads, Settled, JobsAfter;
    if !ReachesMark(w) {
      Ends(s, r, false);
      SettledEffect(s, r, Threw);
      steps, t := [Fail(r)] + [], Settled(s, r, Threw);
    } else {
      var u := Advance(s, r, Linked(s.runs[r].pc.key, w.url.value));
      steps, t := FromLinked(u, r, w.mark);
      SameJobs(s, u, s.runs[r].id, r, EndOf(w.mark.Answered?));
      GetUrlFirst(s, r, w.url.value, steps, t);
      steps := [GetUrl(r, w.url.value)] + steps;
    }
  }

  lemma FromLoaded(s: State, r: nat, w: Weather) returns (steps: seq<Step>, t: State)
    requires r in s.runs && s.runs[r].pc.Loaded? && w.find
    ensures RunLeads(s, r, steps, t) && r !in t.runs
    ensures t.store == StoreAfter(s.store, s.runs[r].id, s.runs[r].pc.row, s.now, w)
    ensures t.rows == RowsAfter(s.rows, s.runs[r].id, w)
    ensures t.jobs == JobsAfter(s, s.runs[r].id, r, EndOf(Succeeds(w)))
  {
    hide RunLeads, Settled, JobsAfter;
    if w.upload.Refused? {
      Ends(s, r, false);
      SettledEffect(s, r, Threw);
      steps, t := [Fail(r)] + [], Settled(s, r, Threw);
    } else {
      steps, t := FromUploaded(Stored(s, r), r, w);
      SameJobs(s, Stored(s, r), s.runs[r].id, r, EndOf(Succeeds(w)));
      UploadFirst(s, r, steps, t);
      steps := [Upload(r)] + steps;
    }
  }

  /** The row is found and has no receipt yet. */
  predicate HasWork(s: State, id: TxnId) {
    id in s.rows && !s.rows[id].status.Generated?
  }

  /** What the processor does with `id` when its calls fare as in w. */
  function ProcessorEnd(s: State, id: TxnId, w: Weather): End {
    if !w.find then Threw
    else if id !in s.rows then GaveUp
    else if s.rows[id].status.Generated? then Returned
    else EndOf(Succeeds(w))
  }

  /** The early exits: nothing is stored or written. */
  lemma EarlyExit(s: State, r: nat, w: Weather) returns (steps: seq<Step>, t: State)
    requires r in s.runs && s.runs[r].pc.Started? && (!w.find || !HasWork(s, s.runs[r].id))
    ensures RunLeads(s, r, steps, t) && r !in t.runs && t.store == s.store && t.rows == s.rows
    ensures t.jobs == JobsAfter(s, s.runs[r].id, r, ProcessorEnd(s, s.runs[r].id, w))
  {
    hide RunLeads, JobsAfter;
    t := Settled(s, r, ProcessorEnd(s, s.runs[r].id, w));
    SettledEffect(s, r, ProcessorEnd(s, s.runs[r].id, w));
    if !w.find {
      Ends(s, r, false);
      steps := [Fail(r)] + [];
    } else {
      NoSteps(t, r);
      LoadFirst(s, r, [], t);
      steps := [LoadRow(r)] + [];
    }
  }

  lemma NoSteps(s: State, r: nat)
    ensures RunLeads(s, r, [], s)
  {}

  /** The processor's effects, exit by exit and call by call, are those of one run's steps: nothing for a missing or
      generated row; else the store and the row change as far as the calls got. The job is completed exactly when
      the processor returns, given up when the row is missing, and otherwise charged with a failed attempt. */
  lemma ProcessorIsARun(s: State, r: nat, w: Weather) returns (steps: seq<Step>, t: State)
    requires r in s.runs && s.runs[r].pc.Started?
    ensures RunLeads(s, r, steps, t) && r !in t.runs
    ensures HasWork(s, s.runs[r].id) ==>
              && t.store == StoreAfter(s.store, s.runs[r].id, s.rows[s.runs[r].id], s.now, w)
              && t.rows == RowsAfter(s.rows, s.runs[r].id, w)
    ensures !HasWork(s, s.runs[r].id) ==> t.store == s.store && t.rows == s.rows
    ensures t.jobs == JobsAfter(s, s.runs[r].id, r, ProcessorEnd(s, s.runs[r].id, w))
  {
    hide RunLeads, Settled, JobsAfter;
    if w.find && HasWork(s, s.runs[r].id) {
      steps, t := FromLoaded(Load(s, r), r, w);
      SameJobs(s, Load(s, r), s.runs[r].id, r, EndOf(Succeeds(w)));
      LoadFirst(s, r, steps, t);
      steps := [LoadRow(r)] + steps;
    } else {
      steps, t := EarlyExit(s, r, w);
    }
  }
}
