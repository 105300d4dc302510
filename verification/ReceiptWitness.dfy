/** For every configuration of the worker there is a run that ends in a starved receipt: as many jobs as a batch
    holds run out of attempts while the database takes no FAILED write, and then one enqueue is lost. */
module ReceiptWitness {
  import opened Wrappers
  import opened Schema
  import opened Serial
  import opened Receipts
  import opened Recovery
  import opened ReceiptPipeline
  import opened ReceiptProgress
  import opened ReceiptStarvation

  function Start(attempts: nat, threshold: int, batch: nat): State {
    State(attempts, threshold, batch, 0, map[], map[], map[], {}, [], map[], 0, multiset{}, multiset{}, {})
  }

  /** An amount that requires a receipt. */
  function Amount(threshold: int): int {
    if threshold < 0 then 1 else threshold + 1
  }

  function Due(threshold: int, createdAt: int): Transaction {
    Transaction(1, 2, Amount(threshold), None, Pending, None, None, createdAt)
  }

  function Name(i: nat): (s: string)
    ensures |s| == i && (i > 0 ==> s[0] == 'a')
  {
    if i == 0 then "" else "a" + Name(i - 1)
  }

  function Names(n: nat): (ids: set<TxnId>)
    ensures |ids| == n && forall x :: x in ids ==> |x| < n && (x != "" ==> x[0] == 'a')
  {
    if n == 0 then {} else Names(n - 1) + {Name(n - 1)}
  }

  /** The state between two statements of the run: nothing under way, and the receipts `ids` exhausted. */
  ghost predicate Backlog(s: State, ids: set<TxnId>) {
    && s.attempts >= 1 && s.now == 0 && s.toEnqueue == {} && s.scans == [] && s.runs == map[] && s.reports == multiset{}
    && s.rows == (map x | x in ids :: Due(s.threshold, 0))
    && s.jobs == (map x | x in ids :: Job(Exhausted, s.attempts))
  }

  // ----- A job runs out of attempts -----

  function Tried(s: State, x: TxnId): State
    requires x in s.jobs
  {
    var made := s.jobs[x].attemptsMade + 1;
    s.(jobs := s.jobs[x := Job(if made >= s.attempts then Exhausted else Waiting, made)],
       nextRun := s.nextRun + 1,
       failures := s.failures + multiset{x},
       lost := if made >= s.attempts then s.lost + {x} else s.lost)
  }

  /** One attempt: taken, thrown, and its event handled while the database is away. */
  lemma OneTry(s: State, x: TxnId) returns (steps: seq<Step>)
    requires x in s.jobs && s.jobs[x].state.Waiting? && s.runs == map[] && s.reports == multiset{}
    ensures Progresses(s, steps, Tried(s, x))
  {
    var r := s.nextRun;
    var s1 := s.(jobs := s.jobs[x := s.jobs[x].(state := Active(r))], runs := map[r := Run(x, Started)], nextRun := r + 1);
    var rep := Report(x, false, s.jobs[x].attemptsMade + 1);
    var s2 := Throw(s1, r, false);
    TryEnds(s, x);
    hide Throw, Handle, Progresses;
    NoSteps(Tried(s, x));
    StepFirst(s2, HandleFailure(rep, false), Tried(s, x), [], Tried(s, x));
    var last := [HandleFailure(rep, false)] + [];
    StepFirst(s1, Fail(r), s2, last, Tried(s, x));
    StepFirst(s, TakeJob(x), s1, [Fail(r)] + last, Tried(s, x));
    steps := [TakeJob(x)] + ([Fail(r)] + last);
  }

  lemma TryEnds(s: State, x: TxnId)
    requires x in s.jobs && s.runs == map[] && s.reports == multiset{}
    ensures var r := s.nextRun;
            var s1 := s.(jobs := s.jobs[x := s.jobs[x].(state := Active(r))], runs := map[r := Run(x, Started)], nextRun := r + 1);
            var rep := Report(x, false, s.jobs[x].attemptsMade + 1);
            rep in Throw(s1, r, false).reports && Handle(Throw(s1, r, false), rep, false) == Tried(s, x)
  {
    var r := s.nextRun;
    var s1 := s.(jobs := s.jobs[x := s.jobs[x].(state := Active(r))], runs := map[r := Run(x, Started)], nextRun := r + 1);
    var rep := Report(x, false, s.jobs[x].attemptsMade + 1);
    var s2 := Throw(s1, r, false);
    assert s2.runs == map[] && s2.reports == multiset{rep};
    assert s2.jobs == Tried(s, x).jobs;
    assert s2.reports - multiset{rep} == multiset{};
  }

  lemma {:induction false} Exhausts(s: State, x: TxnId) returns (steps: seq<Step>, t: State)
    requires x in s.jobs && s.jobs[x].state.Waiting? && s.jobs[x].attemptsMade < s.attempts
    requires s.runs == map[] && s.reports == multiset{}
    ensures Progresses(s, steps, t)
    ensures t == s.(jobs := s.jobs[x := Job(Exhausted, s.attempts)], nextRun := t.nextRun, failures := t.failures, lost := t.lost)
    decreases s.attempts - s.jobs[x].attemptsMade
  {
    hide Progresses;
    steps := OneTry(s, x);
    t := Tried(s, x);
    if t.jobs[x].state.Waiting? {
      var rest, u := Exhausts(t, x);
      ProgressOn(s, steps, t, rest, u);
      assert u.jobs == s.jobs[x := Job(Exhausted, s.attempts)];
      steps, t := steps + rest, u;
    }
  }

  // ----- The whole run -----

  /** One more transfer whose job is exhausted. */
  lemma OneMore(s: State, ids: set<TxnId>, x: TxnId) returns (steps: seq<Step>, t: State)
    requires Backlog(s, ids) && x !in ids
    ensures Progresses(s, steps, t) && Backlog(t, ids + {x})
    ensures t.attempts == s.attempts && t.threshold == s.threshold && t.batch == s.batch
  {
    var commit := CommitTransfer(x, 1, 2, Amount(s.threshold), None, 0);
    var s1 := s.(rows := s.rows[x := Due(s.threshold, 0)], toEnqueue := {x});
    var s2 := s.(rows := s1.rows, jobs := s.jobs[x := NEW_JOB]);
    assert s1.toEnqueue - {x} == {};
    var rest;
    rest, t := Exhausts(s2, x);
    StepFirst(s1, EnqueueNew(x), s2, rest, t);
    StepFirst(s, commit, s1, [EnqueueNew(x)] + rest, t);
    steps := [commit] + ([EnqueueNew(x)] + rest);
    assert t.jobs == map y | y in ids + {x} :: Job(Exhausted, s.attempts);
  }

  lemma {:induction false} Fills(attempts: nat, threshold: int, batch: nat, n: nat) returns (steps: seq<Step>, t: State)
    requires attempts >= 1
    ensures Progresses(Start(attempts, threshold, batch), steps, t) && Backlog(t, Names(n))
    ensures t.attempts == attempts && t.threshold == threshold && t.batch == batch
    decreases n
  {
    hide Progresses;
    if n == 0 {
      t := Start(attempts, threshold, batch);
      NoSteps(t);
      steps := [];
    } else {
      var u;
      steps, u := Fills(attempts, threshold, batch, n - 1);
      assert Name(n - 1) !in Names(n - 1);
      var rest;
      rest, t := OneMore(u, Names(n - 1), Name(n - 1));
      ProgressOn(Start(attempts, threshold, batch), steps, u, rest, t);
      steps := steps + rest;
    }
  }

  /** A later transfer whose enqueue is lost waits behind the backlog. */
  lemma LastWaits(s: State, ids: set<TxnId>) returns (steps: seq<Step>, t: State)
    requires Backlog(s, ids) && |ids| == s.batch && "b" !in ids
    ensures Progresses(s, steps, t) && Starved(t, "b", ids) && t.rows["b"].status.Pending?
    ensures t.attempts == s.attempts && t.threshold == s.threshold && t.batch == s.batch
  {
    var commit := CommitTransfer("b", 1, 2, Amount(s.threshold), None, 1);
    var s1 := s.(now := 1);
    var s2 := s1.(rows := s.rows["b" := Due(s.threshold, 1)], toEnqueue := {"b"});
    t := s2.(toEnqueue := {});
    NoSteps(t);
    assert s2.toEnqueue - {"b"} == {};
    StepFirst(s2, EnqueueLost("b"), t, [], t);
    var last := [EnqueueLost("b")] + [];
    StepFirst(s1, commit, s2, last, t);
    StepFirst(s, Tick(1), s1, [commit] + last, t);
    steps := [Tick(1)] + ([commit] + last);
    forall x | x in ids ensures Blocks(t, x, "b") {}
  }

  /** Whatever batch, number of attempts and threshold are configured, a starved receipt can be reached. */
  lemma StarvationHappens(attempts: nat, threshold: int, batch: nat) returns (t: State)
    requires attempts >= 1
    ensures Reachable(t) && t.attempts == attempts && t.threshold == threshold && t.batch == batch
    ensures Starved(t, "b", Names(batch)) && t.rows["b"].status.Pending?
  {
    var steps, u := Fills(attempts, threshold, batch, batch);
    var rest;
    assert "b"[0] == 'b';
    rest, t := LastWaits(u, Names(batch));
    ProgressOn(Start(attempts, threshold, batch), steps, u, rest, t);
    assert Initial(Start(attempts, threshold, batch));
  }
}
