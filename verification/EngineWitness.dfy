/** Two registrations that overlap: ledger ids follow the order in which rows are inserted, not the order in
    which they are committed. */
module EngineWitness {
  import opened Wrappers
  import opened Schema
  import opened Ledger
  import opened Serial
  import opened Engine
  import opened EngineInvariant
  import opened EngineCommits
  import opened EngineTheorems

  function Steps(): seq<Step> {
    [ BeginRegistration(0, "a", 5), InsertUser(0), InsertWallet(0),
      BeginRegistration(1, "b", 7), InsertUser(1), InsertWallet(1),
      CommitRegistration(1), CommitRegistration(0) ]
  }

  lemma RunFrom(s: State, steps: seq<Step>, k: nat, t: State)
    requires k < |steps| && Enabled(s, steps[k]) && Run(Next(s, steps[k]), steps[k + 1..], t)
    ensures Run(s, steps[k..], t)
    ensures k == 0 ==> Run(s, steps, t)
  {
    assert steps[k..][1..] == steps[k + 1..];
    assert k == 0 ==> steps[k..] == steps;
  }

  /** A connection whose registration has inserted its rows and not yet committed. */
  function Entered(s: State, name: string, balance: int): Session {
    Session(WalletAdded(name, balance, s.nextUser, s.nextWallet, s.nextLedger), {}, None,
            Db(map[s.nextUser := name], map[s.nextWallet := Wallet(s.nextUser, balance)], map[],
               map[s.nextLedger := LedgerRow(s.nextWallet, None, Opening, balance, 0, balance)]))
  }

  function AfterInserts(s: State, i: nat, name: string, balance: int): State
    requires i < |s.sessions|
  {
    Put(s.(nextUser := s.nextUser + 1, nextWallet := s.nextWallet + 1, nextLedger := s.nextLedger + 1), i,
        Entered(s, name, balance))
  }

  lemma InsertEffects(s: State, i: nat, name: string, balance: int)
    requires i < |s.sessions| && s.sessions[i] == IDLE && name !in s.db.users.Values && 0 < balance <= MAX_BIGINT
    ensures AddUser(BeginUser(s, i, name, balance), i).sessions[i].phase.UserAdded?
    ensures AddWallet(AddUser(BeginUser(s, i, name, balance), i), i) == AfterInserts(s, i, name, balance)
  {
    var x := Entered(s, name, balance).writes;
    assert map[] + x.users == x.users && x.users + map[] == x.users;
    assert map[] + x.wallets == x.wallets && map[] + x.ledger == x.ledger;
    assert AddUser(BeginUser(s, i, name, balance), i).sessions[i].writes == Db(x.users, map[], map[], map[]);
    assert AddWallet(AddUser(BeginUser(s, i, name, balance), i), i).sessions[i] == Entered(s, name, balance);
  }

  lemma InsertSteps(s: State, i: nat, name: string, balance: int)
    requires i < |s.sessions| && s.sessions[i] == IDLE && s.db == EMPTY_DB && 0 < balance <= MAX_BIGINT
    requires forall j :: 0 <= j < |s.sessions| ==> name !in s.sessions[j].writes.users.Values
    ensures var s1 := BeginUser(s, i, name, balance);
            && Enabled(s, BeginRegistration(i, name, balance)) && Next(s, BeginRegistration(i, name, balance)) == s1
            && i < |s1.sessions| && s1.sessions[i].phase.Registering?
            && Enabled(s1, InsertUser(i)) && Next(s1, InsertUser(i)) == AddUser(s1, i)
    ensures var s2 := AddUser(BeginUser(s, i, name, balance), i);
            && i < |s2.sessions| && s2.sessions[i].phase.UserAdded?
            && Enabled(s2, InsertWallet(i)) && Next(s2, InsertWallet(i)) == AfterInserts(s, i, name, balance)
  {
    InsertEffects(s, i, name, balance);
  }

  /** Steps k to k + 2 insert the rows of one registration. */
  lemma Inserts(s: State, i: nat, name: string, balance: int, steps: seq<Step>, k: nat, t: State)
    requires i < |s.sessions| && s.sessions[i] == IDLE && s.db == EMPTY_DB && 0 < balance <= MAX_BIGINT
    requires forall j :: 0 <= j < |s.sessions| ==> name !in s.sessions[j].writes.users.Values
    requires k + 3 <= |steps| && steps[k..k + 3] == [BeginRegistration(i, name, balance), InsertUser(i), InsertWallet(i)]
    requires Run(AfterInserts(s, i, name, balance), steps[k + 3..], t)
    ensures Run(s, steps[k..], t) && (k == 0 ==> Run(s, steps, t))
  {
    hide Next, Enabled, Run, AddUser, BeginUser, AddWallet, AfterInserts;
    assert steps[k] == steps[k..k + 3][0] && steps[k + 1] == steps[k..k + 3][1] && steps[k + 2] == steps[k..k + 3][2];
    InsertSteps(s, i, name, balance);
    var s1 := BeginUser(s, i, name, balance);
    var s2 := AddUser(s1, i);
    RunFrom(s2, steps, k + 2, t);
    RunFrom(s1, steps, k + 1, t);
    RunFrom(s, steps, k, t);
  }

  function AfterFirst(): State {
    AfterInserts(Initial(2), 0, "a", 5)
  }

  function AfterSecond(): State {
    AfterInserts(AfterFirst(), 1, "b", 7)
  }

  function SecondCommitted(): State {
    CommitUser(AfterSecond(), 1)
  }

  function BothCommitted(): State {
    CommitUser(SecondCommitted(), 0)
  }

  lemma BothCommit()
    ensures Run(AfterSecond(), Steps()[6..], BothCommitted())
  {
    RunFrom(SecondCommitted(), Steps(), 7, BothCommitted());
    RunFrom(AfterSecond(), Steps(), 6, BothCommitted());
  }

  lemma NameIsFree()
    ensures AfterFirst().sessions == [Entered(Initial(2), "a", 5), IDLE] && AfterFirst().db == EMPTY_DB
    ensures forall j :: 0 <= j < 2 ==> "b" !in AfterFirst().sessions[j].writes.users.Values
  {
    assert "a"[0] != "b"[0];
  }

  lemma BothCommittedReachable()
    ensures Reachable(BothCommitted())
  {
    hide Run, Next, Enabled, CommitUser;
    BothCommit();
    NameIsFree();
    Inserts(AfterFirst(), 1, "b", 7, Steps(), 3, BothCommitted());
    Inserts(Initial(2), 0, "a", 5, Steps(), 0, BothCommitted());
  }

  /** In a reachable state the first commit wrote ledger row 2, and the second one row 1. */
  lemma IdsNeedNotFollowCommits() returns (t: State)
    ensures Reachable(t) && History(t.commits) && |t.commits| == 2
    ensures Wrote(t.commits, 0, 2, 2) && Wrote(t.commits, 1, 1, 1)
  {
    hide Reachable, Legal, Run;
    t := BothCommitted();
    BothCommittedReachable();
    CommitsInOrder();
    HistoryOf(t);
    StateAtStep(t.commits, 0);
    StateAtStep(t.commits, 1);
    assert t.commits[..0] == [];
  }

  lemma CommitsInOrder()
    ensures BothCommitted().commits == [Registration("b", 2, 2, 7, 2), Registration("a", 1, 1, 5, 1)]
  {}

  lemma HistoryOf(t: State)
    requires Reachable(t)
    ensures History(t.commits)
  {
    ReachableInv(t);
  }
}
