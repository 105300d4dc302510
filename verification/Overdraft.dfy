/** How many of a batch of concurrent transfers succeed, in every interleaving. A batch starts and ends
    with no statement in progress, and no connection is lost meanwhile; registrations and stray updates
    may interleave. */
module Overdraft {
  import opened Wrappers
  import opened Schema
  import opened Ledger
  import opened Serial
  import opened Engine
  import opened EngineInvariant
  import opened EngineSteps
  import opened EngineCommits
  import opened EngineTheorems
  import opened EngineLiveness

  // ----- No call is lost or answered twice -----

  /** The total weight of the calls issued, in progress, and ended. */
  function Issued(weight: Request -> nat, steps: seq<Step>): nat {
    if steps == [] then 0
    else (if steps[0].Begin? then weight(steps[0].req) else 0) + Issued(weight, steps[1..])
  }

  function WeightOf(weight: Request -> nat, p: Phase): nat {
    if InCall(p) then weight(p.call.req) else 0
  }

  function InProgress(weight: Request -> nat, sessions: seq<Session>): nat {
    if sessions == [] then 0
    else InProgress(weight, sessions[..|sessions| - 1]) + WeightOf(weight, sessions[|sessions| - 1].phase)
  }

  function Ended(weight: Request -> nat, finished: seq<Finished>): nat {
    if finished == [] then 0
    else Ended(weight, finished[..|finished| - 1]) + weight(finished[|finished| - 1].req)
  }

  /** The weight of the ended calls that succeeded. */
  function Paid(weight: Request -> nat, finished: seq<Finished>): nat {
    if finished == [] then 0
    else Paid(weight, finished[..|finished| - 1]) +
         if finished[|finished| - 1].outcome.Done? then weight(finished[|finished| - 1].req) else 0
  }

  lemma {:induction false} InProgressUpdate(weight: Request -> nat, sessions: seq<Session>, i: nat, x: Session)
    requires i < |sessions|
    ensures InProgress(weight, sessions[i := x]) ==
            InProgress(weight, sessions) + WeightOf(weight, x.phase) - WeightOf(weight, sessions[i].phase)
    ensures WeightOf(weight, sessions[i].phase) <= InProgress(weight, sessions)
  {
    var n := |sessions| - 1;
    if i == n {
      assert sessions[i := x][..n] == sessions[..n];
    } else {
      assert sessions[i := x][..n] == sessions[..n][i := x];
      InProgressUpdate(weight, sessions[..n], i, x);
    }
  }

  lemma {:induction false} QuiescentMeansNone(weight: Request -> nat, sessions: seq<Session>)
    requires forall i :: 0 <= i < |sessions| ==> sessions[i].phase.Idle?
    ensures InProgress(weight, sessions) == 0
  {
    if sessions != [] { QuiescentMeansNone(weight, sessions[..|sessions| - 1]); }
  }

  /** Steps that end a call without an answer of its own. */
  predicate Aborts(step: Step) {
    step.Kill? || step.LateUpdate?
  }

  /** What one step records. */
  ghost predicate Recorded(s: State, step: Step, t: State)
    requires step.i < |s.sessions|
  {
    || (t.finished == s.finished && t.commits == s.commits)
    || (t.finished == s.finished && exists c: Commit :: c.Registration? && t.commits == s.commits + [c])
    || (&& InCall(s.sessions[step.i].phase)
        && exists f: Finished ::
             && t.finished == s.finished + [f]
             && f.req == s.sessions[step.i].phase.call.req && f.began == s.sessions[step.i].phase.call.began
             && f.ended == |s.commits|
             && (f.outcome.Lost? ==> Aborts(step))
             && if f.outcome.Done?
                then exists c: Commit :: c.Transfer? && c.req == f.req && t.commits == s.commits + [c]
                else t.commits == s.commits)
  }

  /** The call in progress on the step's connection goes on, ends, or has just been issued. */
  ghost predicate CallMoves(s: State, step: Step, t: State)
    requires step.i < |s.sessions| == |t.sessions|
  {
    var p, q := s.sessions[step.i].phase, t.sessions[step.i].phase;
    if t.finished != s.finished then InCall(p) && !InCall(q)
    else if step.Begin? then !InCall(p) && InCall(q) && q.call == Call(step.req, |s.commits|)
    else InCall(p) == InCall(q) && (InCall(p) ==> p.call == q.call)
  }

  lemma StatementRecords(s: State, step: Step)
    requires Enabled(s, step) && !step.StrayUpdate? && !step.StrayLedger? && !step.CommitCall? && !step.CommitRegistration?
    ensures var t := Next(s, step);
            && t.commits == s.commits
            && (t.finished == s.finished
                || (InCall(s.sessions[step.i].phase)
                    && exists f: Finished ::
                         && t.finished == s.finished + [f]
                         && f.req == s.sessions[step.i].phase.call.req && f.began == s.sessions[step.i].phase.call.began
                         && f.ended == |s.commits| && !f.outcome.Done? && (f.outcome.Lost? ==> Aborts(step))))
  {
  }

  lemma StepRecords(s: State, step: Step)
    requires Inv(s) && Enabled(s, step)
    ensures Recorded(s, step, Next(s, step))
  {
    var t := Next(s, step);
    if step.StrayUpdate? {
      StrayHasNoEffect(s, step.i, step.w, step.balance);
    } else if step.StrayLedger? {
      LedgerChangeHasNoEffect(s, step.k, step.row);
    } else if step.CommitRegistration? {
      assert t.commits[|s.commits|].Registration?;
    } else if step.CommitCall? {
      assert t.finished == s.finished + [t.finished[|s.finished|]];
      assert t.commits == s.commits + [t.commits[|s.commits|]];
    } else {
      StatementRecords(s, step);
    }
  }

  lemma StatementMovesCall(s: State, step: Step)
    requires Enabled(s, step) && !step.StrayUpdate? && !step.StrayLedger?
    ensures |Next(s, step).sessions| == |s.sessions|
    ensures Next(s, step).sessions == s.sessions[step.i := Next(s, step).sessions[step.i]]
    ensures CallMoves(s, step, Next(s, step))
  {
    hide UpdateBalance, WalletOf, Overlay, OpeningTrigger, TransactionChecks, WalletChecks, LedgerChecks;
    StepChangesOne(s, step);
  }

  lemma StepMovesCall(s: State, step: Step)
    requires Inv(s) && Enabled(s, step)
    ensures |Next(s, step).sessions| == |s.sessions|
    ensures Next(s, step).sessions == s.sessions[step.i := Next(s, step).sessions[step.i]]
    ensures CallMoves(s, step, Next(s, step))
  {
    if step.StrayUpdate? {
      StrayHasNoEffect(s, step.i, step.w, step.balance);
    } else if step.StrayLedger? {
      LedgerChangeHasNoEffect(s, step.k, step.row);
    } else {
      StatementMovesCall(s, step);
    }
  }

  lemma StepConserves(weight: Request -> nat, s: State, step: Step)
    requires Inv(s) && Enabled(s, step)
    ensures var t := Next(s, step);
            InProgress(weight, t.sessions) + Ended(weight, t.finished) ==
            InProgress(weight, s.sessions) + Ended(weight, s.finished) + if step.Begin? then weight(step.req) else 0
  {
    var t := Next(s, step);
    StepMovesCall(s, step);
    StepRecords(s, step);
    InProgressUpdate(weight, s.sessions, step.i, t.sessions[step.i]);
    if t.finished != s.finished {
      assert t.finished[..|s.finished|] == s.finished;
    }
  }

  /** In any run, what is issued is in progress or has ended, exactly once. */
  lemma {:induction false} CallsConserved(weight: Request -> nat, s: State, steps: seq<Step>, t: State)
    requires Inv(s) && Run(s, steps, t)
    ensures InProgress(weight, t.sessions) + Ended(weight, t.finished) ==
            InProgress(weight, s.sessions) + Ended(weight, s.finished) + Issued(weight, steps)
    decreases |steps|
  {
    if steps != [] {
      StepKeepsInv(s, steps[0]);
      StepConserves(weight, s, steps[0]);
      CallsConserved(weight, Next(s, steps[0]), steps[1..], t);
    }
  }

  // ----- What a call between existing wallets can answer -----

  lemma ApplyKeepsOwner(db: Db, c: Commit, user: UserId)
    requires Legal(db, c) && WalletOf(db.wallets, user).Some?
    ensures WalletOf(Apply(db, c).wallets, user).Some?
  {
    var w := WalletOf(db.wallets, user).value;
    var d := Apply(db, c);
    assert w in d.wallets && d.wallets[w].userId == user;
  }

  lemma {:induction false} WalletsPersist(commits: seq<Commit>, j: nat, k: nat, user: UserId)
    requires History(commits) && j <= k <= |commits|
    requires WalletOf(StateAt(commits, j).wallets, user).Some?
    ensures WalletOf(StateAt(commits, k).wallets, user).Some?
    decreases k
  {
    if j < k {
      WalletsPersist(commits, j, k - 1, user);
      WalletsPersistOnce(commits, k - 1, user);
    }
  }

  lemma WalletsPersistOnce(commits: seq<Commit>, k: nat, user: UserId)
    requires History(commits) && k < |commits| && WalletOf(StateAt(commits, k).wallets, user).Some?
    ensures WalletOf(StateAt(commits, k + 1).wallets, user).Some?
  {
    StateAtStep(commits, k);
    ApplyKeepsOwner(StateAt(commits, k), commits[k], user);
  }

  /** The call was issued with valid arguments after both wallets had been committed. */
  ghost predicate Sensible(commits: seq<Commit>, call: Call)
    requires History(commits)
  {
    && ValidArguments(call.req)
    && call.began <= |commits|
    && WalletOf(StateAt(commits, call.began).wallets, call.req.fromUser).Some?
    && WalletOf(StateAt(commits, call.began).wallets, call.req.toUser).Some?
  }

  lemma SensibleAnswer(commits: seq<Commit>, f: Finished)
    requires History(commits) && Answered(commits, f) && Sensible(commits, Call(f.req, f.began))
    ensures f.outcome.Done? || f.outcome.Lost? || f.outcome == Raised(WL005) || f.outcome == Raised(OutOfRange)
    ensures f.outcome == Raised(WL005) ==> BalanceOf(StateAt(commits, f.ended), f.req.fromUser) < f.req.Value()
  {
    WalletsPersist(commits, f.began, f.at, f.req.fromUser);
    WalletsPersist(commits, f.began, f.at, f.req.toUser);
  }

  // ----- Balances along a history -----

  ghost function BalanceOf(db: Db, user: UserId): int {
    var w := WalletOf(db.wallets, user);
    if w.Some? then db.wallets[w.value].balance else 0
  }

  lemma BalanceIn(db: Db, w: WalletId)
    requires OneWalletPerUser(db.wallets) && w in db.wallets
    ensures BalanceOf(db, db.wallets[w].userId) == db.wallets[w].balance
  {
  }

  lemma BalanceAfterTransfer(db: Db, c: Commit, wn: nat, user: UserId)
    requires WalletsOk(db, wn) && c.Transfer? && Legal(db, c) && WalletsOk(Apply(db, c), wn)
    ensures BalanceOf(Apply(db, c), user) == BalanceOf(db, user) +
              if user == c.req.fromUser then -c.req.Value() else if user == c.req.toUser then c.req.Value() else 0
  {
    var w := WalletOf(db.wallets, user);
    if w.Some? {
      BalanceIn(db, w.value);
      BalanceIn(Apply(db, c), w.value);
    }
  }

  lemma BalanceAfterRegistration(db: Db, c: Commit, wn: nat, user: UserId)
    requires WalletsOk(db, wn) && c.Registration? && Legal(db, c) && WalletsOk(Apply(db, c), wn)
    ensures BalanceOf(Apply(db, c), user) >= BalanceOf(db, user)
    ensures user != c.userId ==> BalanceOf(Apply(db, c), user) == BalanceOf(db, user)
  {
    var w := WalletOf(db.wallets, user);
    if w.Some? {
      BalanceIn(db, w.value);
      BalanceIn(Apply(db, c), w.value);
    }
  }

  // ----- One step of a batch -----

  /** Calls in progress are sensible. */
  ghost predicate AllSensible(s: State)
    requires History(s.commits)
  {
    forall i :: 0 <= i < |s.sessions| && InCall(s.sessions[i].phase) ==> Sensible(s.commits, s.sessions[i].phase.call)
  }

  /** A step of a batch: no connection is lost, no call's transaction is aborted from outside, and calls are
      issued between existing wallets. */
  ghost predicate BatchStep(wallets: map<WalletId, Wallet>, step: Step) {
    && !Aborts(step)
    && (step.Begin? ==>
          && ValidArguments(step.req)
          && WalletOf(wallets, step.req.fromUser).Some? && WalletOf(wallets, step.req.toUser).Some?)
  }

  lemma SensiblePersists(s: State, t: State, call: Call)
    requires Inv(s) && Inv(t) && s.commits <= t.commits && Sensible(s.commits, call)
    ensures Sensible(t.commits, call)
  {
    assert t.commits[..call.began] == s.commits[..call.began];
  }

  lemma BatchStepPersists(s: State, t: State, step: Step)
    requires Inv(s) && Inv(t) && s.commits <= t.commits && BatchStep(s.db.wallets, step)
    ensures BatchStep(t.db.wallets, step)
  {
    if step.Begin? {
      assert t.commits[..|s.commits|] == s.commits && t.commits[..|t.commits|] == t.commits && s.commits[..|s.commits|] == s.commits;
      WalletsPersist(t.commits, |s.commits|, |t.commits|, step.req.fromUser);
      WalletsPersist(t.commits, |s.commits|, |t.commits|, step.req.toUser);
    }
  }

  lemma CommitsGrow(s: State, step: Step, t: State)
    requires step.i < |s.sessions| && Recorded(s, step, t)
    ensures s.commits <= t.commits
  {
    hide InCall;
  }

  /** A call just issued between committed wallets is sensible. */
  lemma IssuedIsSensible(s: State, step: Step)
    requires Inv(s) && step.Begin? && BatchStep(s.db.wallets, step)
    ensures Sensible(s.commits, Call(step.req, |s.commits|))
  {
    NowIsCommitted(s);
  }

  lemma CallStaysSensible(s: State, step: Step, t: State)
    requires Inv(s) && Inv(t) && s.commits <= t.commits && AllSensible(s) && BatchStep(s.db.wallets, step)
    requires step.i < |s.sessions| == |t.sessions| && CallMoves(s, step, t) && InCall(t.sessions[step.i].phase)
    ensures Sensible(t.commits, t.sessions[step.i].phase.call)
  {
    if step.Begin? { IssuedIsSensible(s, step); }
    SensiblePersists(s, t, t.sessions[step.i].phase.call);
  }

  lemma StepKeepsSensible(s: State, step: Step)
    requires Inv(s) && AllSensible(s) && Enabled(s, step) && BatchStep(s.db.wallets, step)
    ensures Inv(Next(s, step)) && s.commits <= Next(s, step).commits && AllSensible(Next(s, step))
  {
    var t := Next(s, step);
    StepKeepsInv(s, step);
    StepMovesCall(s, step);
    StepRecords(s, step);
    CommitsGrow(s, step, t);
    assert History(s.commits) && History(t.commits);
    hide Next, Enabled, Inv, CallMoves, Recorded, BatchStep, Sensible, InCall;
    forall i | 0 <= i < |t.sessions| && InCall(t.sessions[i].phase) ensures Sensible(t.commits, t.sessions[i].phase.call) {
      if i == step.i {
        CallStaysSensible(s, step, t);
      } else {
        SensiblePersists(s, t, t.sessions[i].phase.call);
      }
    }
  }

  /** What a batch step does to the books: nothing, a registration, or the end of one sensible call, which
      either moves its amount or finds the sender's balance too low. */
  ghost predicate Settles(s: State, step: Step, t: State, f: Finished) {
    && t.finished == s.finished + [f]
    && ValidArguments(f.req)
    && if f.outcome.Done?
       then forall u :: BalanceOf(t.db, u) == BalanceOf(s.db, u) +
              if u == f.req.fromUser then -f.req.Value() else if u == f.req.toUser then f.req.Value() else 0
       else t.db == s.db && f.outcome == Raised(WL005) && BalanceOf(s.db, f.req.fromUser) < f.req.Value()
  }

  lemma StepSettles(s: State, step: Step)
    requires Inv(s) && AllSensible(s) && Enabled(s, step) && BatchStep(s.db.wallets, step)
    requires forall f :: f in Next(s, step).finished ==> f.outcome != Raised(OutOfRange)
    ensures var t := Next(s, step);
            || (t.finished == s.finished
                && forall u :: BalanceOf(t.db, u) >= BalanceOf(s.db, u)
                               && (WalletOf(s.db.wallets, u).Some? ==> BalanceOf(t.db, u) == BalanceOf(s.db, u)))
            || exists f: Finished :: Settles(s, step, t, f)
  {
    var t := Next(s, step);
    StepKeepsSensible(s, step);
    StepRecords(s, step);
    InvDbOk(s);
    InvDbOk(t);
    if t.commits == s.commits {
      if t.finished != s.finished {
        var f := t.finished[|s.finished|];
        EndedCallSettles(s, step, t, f);
        assert Settles(s, step, t, f);
      }
    } else {
      CommitSettles(s, step, t);
    }
  }

  lemma EndedCallSettles(s: State, step: Step, t: State, f: Finished)
    requires Inv(s) && Inv(t) && AllSensible(s) && step.i < |s.sessions| && Recorded(s, step, t) && !Aborts(step)
    requires t.commits == s.commits && t.finished != s.finished && |t.finished| == |s.finished| + 1 && f == t.finished[|s.finished|]
    requires f.outcome != Raised(OutOfRange)
    ensures Settles(s, step, t, f)
  {
    assert Answered(t.commits, t.finished[|s.finished|]);
    NowIsCommitted(s);
    SensibleAnswer(t.commits, f);
  }

  lemma CommitSettles(s: State, step: Step, t: State)
    requires Inv(s) && Inv(t) && AllSensible(s) && step.i < |s.sessions| && Recorded(s, step, t)
    requires t.commits != s.commits
    ensures || (t.finished == s.finished
                && forall u :: BalanceOf(t.db, u) >= BalanceOf(s.db, u)
                               && (WalletOf(s.db.wallets, u).Some? ==> BalanceOf(t.db, u) == BalanceOf(s.db, u)))
            || exists f: Finished :: Settles(s, step, t, f)
  {
    var n := |s.commits|;
    assert |t.commits| == n + 1 && t.commits[..n] == s.commits;
    var c := t.commits[n];
    StateAtStep(t.commits, n);
    NowIsCommitted(t);
    assert t.db == Apply(s.db, c) && Legal(s.db, c);
    InvWallets(s);
    InvWallets(t);
    var wn := if s.nextWallet < t.nextWallet then t.nextWallet else s.nextWallet;
    if c.Registration? {
      forall u ensures BalanceOf(t.db, u) >= BalanceOf(s.db, u)
                       && (WalletOf(s.db.wallets, u).Some? ==> BalanceOf(t.db, u) == BalanceOf(s.db, u))
      {
        BalanceAfterRegistration(s.db, c, wn, u);
      }
    } else {
      var f := t.finished[|s.finished|];
      assert Sensible(s.commits, s.sessions[step.i].phase.call);
      forall u ensures BalanceOf(t.db, u) == BalanceOf(s.db, u) +
              if u == f.req.fromUser then -f.req.Value() else if u == f.req.toUser then f.req.Value() else 0
      {
        BalanceAfterTransfer(s.db, c, wn, u);
      }
      assert Settles(s, step, t, f);
    }
  }

  lemma {:induction false} RunKeepsFinished(s: State, steps: seq<Step>, t: State)
    requires Inv(s) && Run(s, steps, t)
    ensures s.finished <= t.finished
    decreases |steps|
  {
    if steps != [] {
      StepKeepsInv(s, steps[0]);
      StepRecords(s, steps[0]);
      RunKeepsFinished(Next(s, steps[0]), steps[1..], t);
    }
  }

  ghost predicate BatchSteps(wallets: map<WalletId, Wallet>, steps: seq<Step>) {
    forall k :: 0 <= k < |steps| ==> BatchStep(wallets, steps[k])
  }

  lemma RestOfBatch(s: State, steps: seq<Step>)
    requires Inv(s) && AllSensible(s) && steps != [] && Enabled(s, steps[0]) && BatchSteps(s.db.wallets, steps)
    ensures Inv(Next(s, steps[0])) && AllSensible(Next(s, steps[0]))
    ensures BatchSteps(Next(s, steps[0]).db.wallets, steps[1..])
  {
    var t := Next(s, steps[0]);
    assert BatchStep(s.db.wallets, steps[0]);
    StepKeepsSensible(s, steps[0]);
    forall k | 0 <= k < |steps[1..]| ensures BatchStep(t.db.wallets, steps[1..][k]) {
      assert BatchStep(s.db.wallets, steps[k + 1]);
      BatchStepPersists(s, t, steps[k + 1]);
    }
  }

  // ----- Covered batches -----

  /** The amount of a call, if `user` sends it. */
  function SentBy(user: UserId): Request -> nat {
    (req: Request) => if req.fromUser == user && req.Value() > 0 then req.Value() else 0
  }

  /** Every user's balance covers all that is in progress and still to be issued. */
  ghost predicate Covered(s: State, steps: seq<Step>) {
    forall u: UserId :: InProgress(SentBy(u), s.sessions) + Issued(SentBy(u), steps) <= BalanceOf(s.db, u)
  }

  ghost predicate NoOverflow(t: State) {
    forall f :: f in t.finished ==> f.outcome != Raised(OutOfRange)
  }

  /** A step that ends no call. */
  lemma QuietStep(weight: Request -> nat, s: State, steps: seq<Step>)
    requires Inv(s) && steps != [] && Enabled(s, steps[0]) && Next(s, steps[0]).finished == s.finished
    ensures InProgress(weight, Next(s, steps[0]).sessions) + Issued(weight, steps[1..]) ==
            InProgress(weight, s.sessions) + Issued(weight, steps)
  {
    StepConserves(weight, s, steps[0]);
  }

  /** A step that ends a call takes its weight out of what is in progress. */
  lemma EndingStep(weight: Request -> nat, s: State, steps: seq<Step>, f: Finished)
    requires Inv(s) && steps != [] && Enabled(s, steps[0]) && Next(s, steps[0]).finished == s.finished + [f]
    ensures InProgress(weight, Next(s, steps[0]).sessions) + Issued(weight, steps[1..]) + weight(f.req) ==
            InProgress(weight, s.sessions) + Issued(weight, steps)
    ensures Paid(weight, Next(s, steps[0]).finished) == Paid(weight, s.finished) + if f.outcome.Done? then weight(f.req) else 0
    ensures InCall(s.sessions[steps[0].i].phase) && s.sessions[steps[0].i].phase.call.req == f.req
  {
    var t := Next(s, steps[0]);
    StepConserves(weight, s, steps[0]);
    StepMovesCall(s, steps[0]);
    StepRecords(s, steps[0]);
    assert t.finished[..|s.finished|] == s.finished && t.finished[|s.finished|] == f;
  }

  lemma CoveredAfterEnd(s: State, steps: seq<Step>, f: Finished)
    requires Inv(s) && steps != [] && Enabled(s, steps[0]) && Covered(s, steps)
    requires Settles(s, steps[0], Next(s, steps[0]), f)
    ensures f.outcome.Done? && Covered(Next(s, steps[0]), steps[1..])
  {
    var t := Next(s, steps[0]);
    EndingStep(SentBy(f.req.fromUser), s, steps, f);
    assert SentBy(f.req.fromUser)(f.req) == f.req.Value();
    forall u: UserId ensures InProgress(SentBy(u), t.sessions) + Issued(SentBy(u), steps[1..]) <= BalanceOf(t.db, u) {
      EndingStep(SentBy(u), s, steps, f);
    }
  }

  lemma CoveredStep(s: State, steps: seq<Step>)
    requires Inv(s) && AllSensible(s) && steps != [] && Enabled(s, steps[0]) && BatchStep(s.db.wallets, steps[0])
    requires Covered(s, steps) && NoOverflow(Next(s, steps[0]))
    ensures Covered(Next(s, steps[0]), steps[1..])
    ensures forall k :: |s.finished| <= k < |Next(s, steps[0]).finished| ==> Next(s, steps[0]).finished[k].outcome.Done?
  {
    var t := Next(s, steps[0]);
    StepSettles(s, steps[0]);
    if f: Finished :| Settles(s, steps[0], t, f) {
      CoveredAfterEnd(s, steps, f);
    } else {
      forall u: UserId ensures InProgress(SentBy(u), t.sessions) + Issued(SentBy(u), steps[1..]) <= BalanceOf(t.db, u) {
        QuietStep(SentBy(u), s, steps);
      }
    }
  }

  lemma {:induction false} CoveredRun(s: State, steps: seq<Step>, t: State)
    requires Inv(s) && AllSensible(s) && Run(s, steps, t) && BatchSteps(s.db.wallets, steps)
    requires Covered(s, steps) && NoOverflow(t)
    ensures forall k :: |s.finished| <= k < |t.finished| ==> t.finished[k].outcome.Done?
    decreases |steps|
  {
    if steps != [] {
      var s' := Next(s, steps[0]);
      RestOfBatch(s, steps);
      RunKeepsFinished(s', steps[1..], t);
      CoveredStep(s, steps);
      CoveredRun(s', steps[1..], t);
    }
  }

  /** If every sender's balance at the start covers all that it sends in the batch, every transfer of the
      batch succeeds, in every interleaving. */
  lemma CoveredTransfersSucceed(s: State, steps: seq<Step>, t: State)
    requires Reachable(s) && Quiescent(s) && Run(s, steps, t) && BatchSteps(s.db.wallets, steps)
    requires forall u: UserId :: Issued(SentBy(u), steps) <= BalanceOf(s.db, u)
    requires SumOpenings(t.db.ledger, t.nextLedger) <= MAX_BIGINT
    ensures forall k :: |s.finished| <= k < |t.finished| ==> t.finished[k].outcome.Done?
  {
    ReachableInv(s);
    RunKeepsInv(s, steps, t);
    forall f | f in t.finished ensures f.outcome != Raised(OutOfRange) { InvNoOverflow(t, f); }
    forall u: UserId ensures InProgress(SentBy(u), s.sessions) == 0 { QuiescentMeansNone(SentBy(u), s.sessions); }
    CoveredRun(s, steps, t);
  }

  // ----- Equal amounts from one wallet -----

  const ONE: Request -> nat := _ => 1

  /** Every call in progress or to be issued sends `amount` from `user`. */
  ghost predicate AllSend(s: State, steps: seq<Step>, user: UserId, amount: int) {
    && (forall i :: 0 <= i < |s.sessions| && InCall(s.sessions[i].phase) ==> Sends(s.sessions[i].phase.call.req, user, amount))
    && (forall k :: 0 <= k < |steps| && steps[k].Begin? ==> Sends(steps[k].req, user, amount))
  }

  predicate Sends(req: Request, user: UserId, amount: int) {
    req.fromUser == user && req.Value() == amount
  }

  function Min(a: int, b: int): int {
    if a <= b then a else b
  }

  /** How often `amount` can be taken out of b. */
  function Times(b: int, amount: int): (n: nat)
    requires amount > 0
    decreases b
  {
    if b < amount then 0 else 1 + Times(b - amount, amount)
  }

  lemma {:induction false} TimesIsDiv(b: int, amount: int)
    requires 0 <= b && 0 < amount
    ensures Times(b, amount) == b / amount
    decreases b
  {
    if b < amount {
      DivUnique(b, amount, 0, b);
    } else {
      TimesIsDiv(b - amount, amount);
      var q, r := (b - amount) / amount, (b - amount) % amount;
      assert b == amount * q + r + amount;
      assert b == amount * (q + 1) + r;
      DivUnique(b, amount, q + 1, r);
    }
  }

  lemma DivUnique(b: int, a: int, q: int, r: int)
    requires 0 <= r < a && b == a * q + r
    ensures b / a == q
  {
    var q', r' := b / a, b % a;
    assert a * (q - q') == r' - r;
    if q > q' {
      assert a * (q - q') >= a by { Scaled(a, q - q'); }
    } else if q < q' {
      assert a * (q' - q) >= a by { Scaled(a, q' - q); }
    }
  }

  lemma Scaled(a: int, n: int)
    requires a > 0 && n >= 1
    ensures a * n >= a
  {
  }

  lemma SendStep(s: State, steps: seq<Step>, user: UserId, amount: int)
    requires Inv(s) && AllSensible(s) && steps != [] && Enabled(s, steps[0]) && BatchStep(s.db.wallets, steps[0])
    requires AllSend(s, steps, user, amount) && WalletOf(s.db.wallets, user).Some? && NoOverflow(Next(s, steps[0]))
    ensures var t := Next(s, steps[0]);
            var n, n' := InProgress(ONE, s.sessions) + Issued(ONE, steps), InProgress(ONE, t.sessions) + Issued(ONE, steps[1..]);
            var b, b' := BalanceOf(s.db, user), BalanceOf(t.db, user);
            || (n' == n && b' == b && Paid(ONE, t.finished) == Paid(ONE, s.finished))
            || (n' == n - 1 && b' == b - amount && Paid(ONE, t.finished) == Paid(ONE, s.finished) + 1)
            || (n' == n - 1 && b' == b < amount && Paid(ONE, t.finished) == Paid(ONE, s.finished))
  {
    hide Inv, Next;
    var t := Next(s, steps[0]);
    StepSettles(s, steps[0]);
    if f: Finished :| Settles(s, steps[0], t, f) {
      EndingStep(ONE, s, steps, f);
    } else {
      QuietStep(ONE, s, steps);
    }
  }

  lemma SendersStay(s: State, steps: seq<Step>, user: UserId, amount: int)
    requires Inv(s) && steps != [] && Enabled(s, steps[0]) && AllSend(s, steps, user, amount)
    ensures AllSend(Next(s, steps[0]), steps[1..], user, amount)
  {
    StepMovesCall(s, steps[0]);
  }

  /** The successes still to come from s, if nothing else happens. */
  ghost function ToPay(s: State, steps: seq<Step>, user: UserId, amount: int): int
    requires amount > 0
  {
    Min(InProgress(ONE, s.sessions) + Issued(ONE, steps), Times(BalanceOf(s.db, user), amount))
  }

  lemma SendStepPays(s: State, steps: seq<Step>, user: UserId, amount: int)
    requires Inv(s) && AllSensible(s) && steps != [] && Enabled(s, steps[0]) && BatchStep(s.db.wallets, steps[0])
    requires AllSend(s, steps, user, amount) && WalletOf(s.db.wallets, user).Some? && NoOverflow(Next(s, steps[0]))
    requires amount > 0 && BalanceOf(Next(s, steps[0]).db, user) >= 0
    ensures Paid(ONE, Next(s, steps[0]).finished) + ToPay(Next(s, steps[0]), steps[1..], user, amount) ==
            Paid(ONE, s.finished) + ToPay(s, steps, user, amount)
  {
    hide Inv, Next, Enabled, AllSensible, AllSend, BatchStep, NoOverflow, InProgress, Issued, Paid, BalanceOf, WalletOf;
    SendStep(s, steps, user, amount);
  }

  lemma {:induction false} SendRun(s: State, steps: seq<Step>, t: State, user: UserId, amount: int)
    requires Inv(s) && AllSensible(s) && Run(s, steps, t) && BatchSteps(s.db.wallets, steps)
    requires AllSend(s, steps, user, amount) && amount > 0 && WalletOf(s.db.wallets, user).Some?
    requires NoOverflow(t) && Quiescent(t)
    ensures Paid(ONE, t.finished) == Paid(ONE, s.finished) + ToPay(s, steps, user, amount)
    decreases |steps|
  {
    if steps == [] {
      QuiescentMeansNone(ONE, s.sessions);
    } else {
      var s' := Next(s, steps[0]);
      RestOfBatch(s, steps);
      RunKeepsFinished(s', steps[1..], t);
      SendersStay(s, steps, user, amount);
      OwnerStays(s, steps[0], user);
      SendRun(s', steps[1..], t, user, amount);
      BalanceCovers(s', user);
      SendStepPays(s, steps, user, amount);
    }
  }

  /** No balance is negative. */
  lemma BalanceCovers(s: State, user: UserId)
    requires Inv(s)
    ensures BalanceOf(s.db, user) >= 0
  {
    InvWallets(s);
  }

  lemma OwnerStays(s: State, step: Step, user: UserId)
    requires Inv(s) && AllSensible(s) && Enabled(s, step) && BatchStep(s.db.wallets, step) && WalletOf(s.db.wallets, user).Some?
    ensures WalletOf(Next(s, step).db.wallets, user).Some?
  {
    var t := Next(s, step);
    StepKeepsSensible(s, step);
    assert t.commits[..|s.commits|] == s.commits && t.commits[..|t.commits|] == t.commits;
    WalletsPersist(t.commits, |s.commits|, |t.commits|, user);
  }

  lemma CountOfBatch(s: State, steps: seq<Step>, t: State, user: UserId, amount: int)
    requires Inv(s) && Inv(t) && Quiescent(s) && Run(s, steps, t) && Quiescent(t) && BatchSteps(s.db.wallets, steps)
    requires forall k :: 0 <= k < |steps| && steps[k].Begin? ==> Sends(steps[k].req, user, amount)
    requires amount > 0 && WalletOf(s.db.wallets, user).Some? && NoOverflow(t)
    ensures Paid(ONE, t.finished) - Paid(ONE, s.finished) == Min(Issued(ONE, steps), Times(BalanceOf(s.db, user), amount))
    ensures Ended(ONE, t.finished) - Ended(ONE, s.finished) == Issued(ONE, steps)
  {
    QuiescentMeansNone(ONE, s.sessions);
    QuiescentMeansNone(ONE, t.sessions);
    CallsConserved(ONE, s, steps, t);
    SendRun(s, steps, t, user, amount);
  }

  /** n concurrent transfers of the same amount from a wallet with balance b, nothing coming in, succeed
      exactly min(n, b div amount) times, in every interleaving; and all n of them end. */
  lemma ExactOverdraftCount(s: State, steps: seq<Step>, t: State, user: UserId, amount: int)
    requires Reachable(s) && Quiescent(s) && Run(s, steps, t) && Quiescent(t) && BatchSteps(s.db.wallets, steps)
    requires forall k :: 0 <= k < |steps| && steps[k].Begin? ==> Sends(steps[k].req, user, amount)
    requires amount > 0 && WalletOf(s.db.wallets, user).Some?
    requires SumOpenings(t.db.ledger, t.nextLedger) <= MAX_BIGINT
    ensures Paid(ONE, t.finished) - Paid(ONE, s.finished) == Min(Issued(ONE, steps), BalanceOf(s.db, user) / amount)
    ensures Ended(ONE, t.finished) - Ended(ONE, s.finished) == Issued(ONE, steps)
  {
    ReachableInv(s);
    RunKeepsInv(s, steps, t);
    forall f | f in t.finished ensures f.outcome != Raised(OutOfRange) { InvNoOverflow(t, f); }
    CountOfBatch(s, steps, t, user, amount);
    BalanceCovers(s, user);
    TimesIsDiv(BalanceOf(s.db, user), amount);
  }
}
