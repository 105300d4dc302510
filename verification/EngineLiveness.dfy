/** Deadlock freedom and termination of the engine. */
module EngineLiveness {
  import opened Wrappers
  import opened Schema
  import opened Serial
  import opened Engine
  import opened EngineInvariant
  import opened EngineSteps
  import opened EngineCommits

  /** A new statement arrives on some connection. */
  predicate Arrival(step: Step) {
    step.Begin? || step.BeginRegistration? || step.StrayUpdate? || step.StrayLedger? || step.LateUpdate?
  }

  /** Steps by which a statement in progress goes on by itself. */
  predicate Proceeds(step: Step) {
    !Arrival(step) && !step.Kill?
  }

  ghost predicate CanProceed(s: State) {
    exists step :: Proceeds(step) && Enabled(s, step)
  }

  predicate Quiescent(s: State) {
    forall i :: 0 <= i < |s.sessions| ==> s.sessions[i].phase.Idle?
  }

  lemma {:induction false} LongerThanAll(used: set<TxnId>) returns (txn: TxnId)
    ensures forall t :: t in used ==> |t| < |txn|
  {
    if used == {} {
      txn := "";
    } else {
      var t :| t in used;
      var u := LongerThanAll(used - {t});
      txn := u + t + "-";
    }
  }

  /** A connection that waits for nothing can proceed. */
  lemma NotWaiting(s: State, i: nat)
    requires i < |s.sessions|
    requires var p := s.sessions[i].phase; !p.Idle? && !p.Registering? && (p.Locking? ==> p.todo == [])
    ensures CanProceed(s)
  {
    var p := s.sessions[i].phase;
    match p
    case Called(_) => assert Enabled(s, Snapshot(i));
    case Locking(_, _, _, _, _) => assert Enabled(s, Check(i));
    case Funded(_, _, _) =>
      var txn := LongerThanAll(s.drawn);
      assert txn !in s.drawn;
      assert Enabled(s, InsertTransaction(i, txn));
    case Inserted(_, _, _, _) => assert Enabled(s, SetSetting(i));
    case Armed(_, _, _, _) => assert Enabled(s, DebitSender(i));
    case Debited(_, _, _, _, _) => assert Enabled(s, CreditRecipient(i));
    case Credited(_, _, _, _, _, _) => assert Enabled(s, ClearSetting(i));
    case Cleared(_, _, _, _, _, _) => assert Enabled(s, CommitCall(i));
    case UserAdded(_, _, _) => assert Enabled(s, InsertWallet(i));
    case WalletAdded(_, _, _, _, _) => assert Enabled(s, CommitRegistration(i));
  }

  lemma AwaitedIsAboveHeld(s: State, i: nat)
    requires Inv(s) && i < |s.sessions| && s.sessions[i].phase.Locking? && s.sessions[i].phase.todo != []
    ensures forall w :: w in s.sessions[i].locks ==> w < s.sessions[i].phase.todo[0]
  {
    assert SessionOk(s, s.sessions[i]);
    var p := s.sessions[i].phase;
    var found := StateAt(s.commits, p.snap).wallets;
    AscendingLocks(s.db.wallets, WalletOf(found, p.call.req.fromUser), WalletOf(found, p.call.req.toUser), s.sessions[i]);
  }

  lemma AscendingLocks(wallets: map<WalletId, Wallet>, a: Option<WalletId>, b: Option<WalletId>, x: Session)
    requires x.phase.Locking? && ValidArguments(x.phase.call.req) && x.phase.todo != []
    requires Belong(wallets, x.phase.call.req, a, b) && LoopOk(wallets, a, b, x)
    ensures forall w :: w in x.locks ==> w < x.phase.todo[0]
  {
    var all := InOrder(a, b);
    assert x.phase.todo[0] == all[|all| - |x.phase.todo|];
    forall w | w in x.locks ensures w < x.phase.todo[0] {
      assert w in all && w !in x.phase.todo;
    }
  }

  /** Following a blocked connection to the holder of the wallet it waits for leads to ever higher wallet
      ids, hence to a connection that is not blocked. */
  lemma {:induction false} BlockedChainEnds(s: State, i: nat)
    requires Inv(s) && i < |s.sessions| && s.sessions[i].phase.Locking? && s.sessions[i].phase.todo != []
    requires s.sessions[i].phase.todo[0] < s.nextWallet
    ensures CanProceed(s)
    decreases s.nextWallet - s.sessions[i].phase.todo[0]
  {
    var w := s.sessions[i].phase.todo[0];
    if !LockedByOther(s, i, w) {
      assert Enabled(s, LockNext(i));
    } else {
      var j :| 0 <= j < |s.sessions| && j != i && w in s.sessions[j].locks;
      assert SessionOk(s, s.sessions[j]);
      var p := s.sessions[j].phase;
      if p.Locking? && p.todo != [] {
        AwaitedIsAboveHeld(s, j);
        LockIsGrown(s, j);
        InvWallets(s);
        BlockedChainEnds(s, j);
      } else {
        NotWaiting(s, j);
      }
    }
  }

  /** Deadlock freedom: while any call or registration is unfinished, one of them can go on. */
  lemma NoDeadlock(s: State)
    requires Reachable(s) && !Quiescent(s)
    ensures CanProceed(s)
  {
    ReachableInv(s);
    InvNoDeadlock(s);
  }

  lemma InvNoDeadlock(s: State)
    requires Inv(s) && !Quiescent(s)
    ensures CanProceed(s)
  {
    var i :| 0 <= i < |s.sessions| && !s.sessions[i].phase.Idle?;
    var p := s.sessions[i].phase;
    if p.Locking? && p.todo != [] {
      LockIsGrown(s, i);
      InvWallets(s);
      BlockedChainEnds(s, i);
    } else if p.Registering? {
      if NameHeldByOther(s, i, p.name) {
        var j :| 0 <= j < |s.sessions| && j != i && p.name in s.sessions[j].writes.users.Values;
        assert SessionOk(s, s.sessions[j]);
        NotWaiting(s, j);
      } else {
        assert Enabled(s, InsertUser(i));
      }
    } else {
      NotWaiting(s, i);
    }
  }

  // ----- Termination -----

  /** How many steps a statement still has before it. */
  function Rank(p: Phase): nat {
    match p
    case Idle => 0
    case Called(_) => 10
    case Locking(_, _, todo, _, _) => 7 + |todo|
    case Funded(_, _, _) => 6
    case Inserted(_, _, _, _) => 5
    case Armed(_, _, _, _) => 4
    case Debited(_, _, _, _, _) => 3
    case Credited(_, _, _, _, _, _) => 2
    case Cleared(_, _, _, _, _, _) => 1
    case Registering(_, _) => 3
    case UserAdded(_, _, _) => 2
    case WalletAdded(_, _, _, _, _) => 1
  }

  function Work(sessions: seq<Session>): nat {
    if sessions == [] then 0 else Work(sessions[..|sessions| - 1]) + Rank(sessions[|sessions| - 1].phase)
  }

  lemma {:induction false} WorkUpdate(sessions: seq<Session>, i: nat, x: Session)
    requires i < |sessions|
    ensures Work(sessions[i := x]) == Work(sessions) + Rank(x.phase) - Rank(sessions[i].phase)
  {
    var n := |sessions| - 1;
    if i == n {
      assert sessions[i := x][..n] == sessions[..n];
    } else {
      assert sessions[i := x][..n] == sessions[..n][i := x];
      WorkUpdate(sessions[..n], i, x);
    }
  }

  lemma StepChangesOne(s: State, step: Step)
    requires Enabled(s, step) && !step.StrayUpdate? && !step.StrayLedger?
    ensures |Next(s, step).sessions| == |s.sessions|
    ensures Next(s, step).sessions == s.sessions[step.i := Next(s, step).sessions[step.i]]
  {
    hide UpdateBalance, WalletOf, Overlay, OpeningTrigger;
  }

  lemma StepLowersRank(s: State, step: Step)
    requires Enabled(s, step) && !Arrival(step)
    ensures step.i < |Next(s, step).sessions|
    ensures Rank(Next(s, step).sessions[step.i].phase) < Rank(s.sessions[step.i].phase)
  {
    hide UpdateBalance, WalletOf, Overlay, OpeningTrigger;
  }

  lemma StepLowersWork(s: State, step: Step)
    requires Enabled(s, step) && !Arrival(step)
    ensures Work(Next(s, step).sessions) < Work(s.sessions)
  {
    StepChangesOne(s, step);
    StepLowersRank(s, step);
    WorkUpdate(s.sessions, step.i, Next(s, step).sessions[step.i]);
  }

  /** Without new arrivals a run has at most Work(s) steps, whatever the interleaving. */
  lemma {:induction false} RunsAreFinite(s: State, steps: seq<Step>, t: State)
    requires Run(s, steps, t)
    requires forall k :: 0 <= k < |steps| ==> !Arrival(steps[k])
    ensures |steps| + Work(t.sessions) <= Work(s.sessions)
    decreases |steps|
  {
    if steps != [] {
      StepLowersWork(s, steps[0]);
      RunsAreFinite(Next(s, steps[0]), steps[1..], t);
    }
  }

  /** A run that can go no further has finished every statement and holds no lock, no write and no setting. */
  lemma StuckMeansFinished(t: State)
    requires Reachable(t) && !CanProceed(t)
    ensures forall i :: 0 <= i < |t.sessions| ==> t.sessions[i] == IDLE
  {
    ReachableInv(t);
    if !Quiescent(t) { InvNoDeadlock(t); }
    forall i | 0 <= i < |t.sessions| ensures t.sessions[i] == IDLE { assert SessionOk(t, t.sessions[i]); }
  }

  /** A run in which only statements in progress go on. */
  ghost predicate RunsOn(s: State, steps: seq<Step>, t: State) {
    Run(s, steps, t) && forall k :: 0 <= k < |steps| ==> Proceeds(steps[k])
  }

  lemma RunsOnFirst(s: State, step: Step, steps: seq<Step>, t: State)
    requires Enabled(s, step) && Proceeds(step) && RunsOn(Next(s, step), steps, t)
    ensures RunsOn(s, [step] + steps, t)
  {
    assert ([step] + steps)[1..] == steps;
  }

  lemma NoSteps(s: State)
    ensures RunsOn(s, [], s)
  {}

  lemma Proceed(s: State) returns (step: Step)
    requires Inv(s) && !Quiescent(s)
    ensures Enabled(s, step) && Proceeds(step) && Inv(Next(s, step)) && Work(Next(s, step).sessions) < Work(s.sessions)
  {
    hide Inv, Enabled, Next, Quiescent, Work;
    InvNoDeadlock(s);
    step :| Proceeds(step) && Enabled(s, step);
    StepKeepsInv(s, step);
    StepLowersWork(s, step);
  }

  /** From any reachable state everything in progress can be driven to its end. */
  lemma {:induction false} CanFinish(s: State) returns (steps: seq<Step>, t: State)
    requires Inv(s)
    ensures RunsOn(s, steps, t) && Quiescent(t)
    decreases Work(s.sessions)
  {
    hide Inv, Enabled, Next, Quiescent, RunsOn;
    if Quiescent(s) {
      NoSteps(s);
      steps, t := [], s;
    } else {
      var step := Proceed(s);
      steps, t := CanFinish(Next(s, step));
      RunsOnFirst(s, step, steps, t);
      steps := [step] + steps;
    }
  }

  lemma EverythingCanFinish(s: State)
    requires Reachable(s)
    ensures exists steps, t :: RunsOn(s, steps, t) && Quiescent(t)
  {
    ReachableInv(s);
    var steps, t := CanFinish(s);
  }
}
