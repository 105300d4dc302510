/** Every step of the engine keeps the invariant. */
module EngineSteps {
  import opened Wrappers
  import opened Schema
  import opened Ledger
  import opened Serial
  import opened Engine
  import opened EngineInvariant

  // ----- Ending a statement without a commit -----

  lemma ApartFromOthers(s: State, i: nat, j: nat)
    requires Inv(s) && i < |s.sessions| && j < |s.sessions| && i != j
    ensures Apart(s.sessions[i], s.sessions[j]) && FootprintOk(s, s.sessions[j])
  {
    assert Apart(s.sessions[if i < j then i else j], s.sessions[if i < j then j else i]);
    assert SessionOk(s, s.sessions[j]);
  }

  lemma EndedBefore(s: State)
    requires History(s.commits) && RecordOk(s)
    ensures forall k :: 0 <= k < |s.finished| ==> s.finished[k].ended <= |s.commits|
  {
    forall k | 0 <= k < |s.finished| ensures s.finished[k].ended <= |s.commits| {
      assert Answered(s.commits, s.finished[k]);
    }
  }

  lemma EndedKeepsRecord(s: State, t: State, f: Finished)
    requires History(s.commits) && RecordOk(s) && t.commits == s.commits && t.finished == s.finished + [f]
    requires Answered(s.commits, f) && f.ended == |s.commits| && !f.outcome.Done?
    ensures RecordOk(t)
  {
    assert t.finished[..|t.finished| - 1] == s.finished;
    EndedBefore(s);
    hide Answered;
  }

  lemma IdleKeepsInv(s: State, t: State, i: nat)
    requires Inv(s) && Local(s, t, i) && t.sessions[i] == IDLE && RecordOk(t)
    ensures Inv(t)
  {
    LocalKeepsInv(s, t, i);
  }

  lemma RaiseKeepsInv(s: State, s': State, i: nat, call: Call, at: nat, e: SqlState)
    requires Inv(s) && Local(s, s', i) && s'.sessions == s.sessions && s'.finished == s.finished
    requires call.began <= at <= |s.commits|
    requires e != WL003 && e != WL004 ==> at == |s.commits|
    requires Decide(StateAt(s.commits, at), call.req) == Raised(e)
    ensures Inv(Raise(s', i, call, at, e))
  {
    var t := Raise(s', i, call, at, e);
    EndedKeepsRecord(s, t, t.finished[|s.finished|]);
    IdleKeepsInv(s, t, i);
  }

  /** An answer as of now is an answer about the committed tables. */
  lemma NowIsCommitted(s: State)
    requires Inv(s)
    ensures StateAt(s.commits, |s.commits|) == s.db
  {
    assert s.commits[..|s.commits|] == s.commits;
  }

  lemma KillKeepsInv(s: State, i: nat)
    requires Inv(s) && i < |s.sessions|
    ensures Inv(Disconnect(s, i))
  {
    var t := Disconnect(s, i);
    var p := s.sessions[i].phase;
    assert SessionOk(s, s.sessions[i]);
    if InCall(p) { EndedKeepsRecord(s, t, t.finished[|s.finished|]); }
    IdleKeepsInv(s, t, i);
  }

  // ----- The call, up to its commit -----

  lemma BeginKeepsInv(s: State, i: nat, req: Request, name: string, balance: int)
    requires Inv(s) && i < |s.sessions| && s.sessions[i].phase.Idle?
    ensures Inv(BeginCall(s, i, req)) && Inv(BeginUser(s, i, name, balance))
  {
    assert SessionOk(s, s.sessions[i]);
    SameWritesKeepInv(s, BeginCall(s, i, req), i);
    SameWritesKeepInv(s, BeginUser(s, i, name, balance), i);
  }

  lemma SnapshotOk(s: State, i: nat)
    requires Inv(s) && i < |s.sessions| && s.sessions[i].phase.Called? && ValidArguments(s.sessions[i].phase.call.req)
    ensures SessionOk(TakeSnapshot(s, i), TakeSnapshot(s, i).sessions[i])
  {
    var req := s.sessions[i].phase.call.req;
    assert SessionOk(s, s.sessions[i]);
    NowIsCommitted(s);
    var all := LockOrder(s.db.wallets, req.fromUser, req.toUser);
    assert all[|all| - |all|..] == all;
  }

  lemma SnapshotKeepsInv(s: State, i: nat)
    requires Inv(s) && i < |s.sessions| && s.sessions[i].phase.Called?
    ensures Inv(TakeSnapshot(s, i))
  {
    var t := TakeSnapshot(s, i);
    var call := s.sessions[i].phase.call;
    var req := call.req;
    assert SessionOk(s, s.sessions[i]);
    NowIsCommitted(s);
    if req.amount.None? || req.Value() <= 0 {
      RaiseKeepsInv(s, s, i, call, |s.commits|, WL001);
    } else if req.fromUser == req.toUser {
      RaiseKeepsInv(s, s, i, call, |s.commits|, WL002);
    } else {
      SnapshotOk(s, i);
      SameWritesKeepInv(s, t, i);
    }
  }

  /** The session after its next lock. */
  ghost function Grown(wallets: map<WalletId, Wallet>, x: Session): Session
    requires x.phase.Locking? && x.phase.todo != [] && x.phase.todo[0] in wallets
  {
    var p := x.phase;
    var row := Row(p.todo[0], wallets[p.todo[0]]);
    var p' := if row.wallet.userId == p.call.req.fromUser
              then p.(todo := p.todo[1..], from := Some(row))
              else p.(todo := p.todo[1..], to := Some(row));
    x.(phase := p', locks := x.locks + {p.todo[0]})
  }

  /** The row that is locked next enters the variable of its owner, and only that one. */
  lemma NextFetched(wallets: map<WalletId, Wallet>, req: Request, a: Option<WalletId>, b: Option<WalletId>, w: WalletId, locks: set<WalletId>)
    requires ValidArguments(req) && Belong(wallets, req, a, b) && w in wallets && (Some(w) == a || Some(w) == b)
    ensures Fetched(wallets, a, locks + {w}) ==
            if wallets[w].userId == req.fromUser then Some(Row(w, wallets[w])) else Fetched(wallets, a, locks)
    ensures Fetched(wallets, b, locks + {w}) ==
            if wallets[w].userId == req.fromUser then Fetched(wallets, b, locks) else Some(Row(w, wallets[w]))
  {
  }

  lemma GrownLoop(wallets: map<WalletId, Wallet>, a: Option<WalletId>, b: Option<WalletId>, x: Session)
    requires x.phase.Locking? && ValidArguments(x.phase.call.req)
    requires Belong(wallets, x.phase.call.req, a, b) && LoopOk(wallets, a, b, x)
    requires x.phase.todo != [] && x.phase.todo[0] in wallets
    ensures LoopOk(wallets, a, b, Grown(wallets, x))
  {
    hide InOrder, Fetched;
    var p := x.phase;
    var all := InOrder(a, b);
    NextInOrder(a, b, p.todo);
    NextFetched(wallets, p.call.req, a, b, p.todo[0], x.locks);
    assert p.todo[1..] == all[|all| - |p.todo[1..]|..];
  }

  /** Taking the next id from the list locks exactly that id. */
  lemma NextInOrder(a: Option<WalletId>, b: Option<WalletId>, todo: seq<WalletId>)
    requires var all := InOrder(a, b); 0 < |todo| <= |all| && todo == all[|all| - |todo|..]
    requires a.Some? && b.Some? ==> a.value != b.value
    ensures todo[0] in InOrder(a, b) && (Some(todo[0]) == a || Some(todo[0]) == b)
    ensures (set w | w in InOrder(a, b) && w !in todo[1..]) == (set w | w in InOrder(a, b) && w !in todo) + {todo[0]}
  {
    var all := InOrder(a, b);
    assert todo[0] == all[|all| - |todo|];
    OnceInOrder(a, b);
    hide InOrder;
    assert todo == [todo[0]] + todo[1..];
    forall w | w in todo[1..] ensures w != todo[0] {
      var k :| 0 <= k < |todo[1..]| && todo[1..][k] == w;
      assert w == all[|all| - |todo| + 1 + k];
    }
  }

  lemma OnceInOrder(a: Option<WalletId>, b: Option<WalletId>)
    requires a.Some? && b.Some? ==> a.value != b.value
    ensures var all := InOrder(a, b); forall j, k :: 0 <= j < k < |all| ==> all[j] != all[k]
    ensures forall w :: w in InOrder(a, b) ==> Some(w) == a || Some(w) == b
  {
  }

  lemma GrownOk(s: State, x: Session)
    requires History(s.commits) && x.phase.Locking? && x.phase.todo != [] && SessionOk(s, x)
    requires x.phase.todo[0] in s.db.wallets
    ensures SessionOk(s, Grown(s.db.wallets, x))
  {
    hide LoopOk, InOrder, WalletOf, Fetched, StateAt;
    var p := x.phase;
    var found := StateAt(s.commits, p.snap).wallets;
    GrownLoop(s.db.wallets, WalletOf(found, p.call.req.fromUser), WalletOf(found, p.call.req.toUser), x);
  }

  /** Every wallet still to be locked exists, so the lock is taken and the row fetched. */
  lemma NextIsThere(s: State, x: Session)
    requires History(s.commits) && SessionOk(s, x) && x.phase.Locking? && x.phase.todo != []
    ensures x.phase.todo[0] in s.db.wallets
  {
    hide InOrder, WalletOf, Fetched, FootprintOk, StateAt;
    var found := StateAt(s.commits, x.phase.snap).wallets;
    var req := x.phase.call.req;
    NextBelongs(s.db.wallets, WalletOf(found, req.fromUser), WalletOf(found, req.toUser), x);
  }

  lemma NextBelongs(wallets: map<WalletId, Wallet>, a: Option<WalletId>, b: Option<WalletId>, x: Session)
    requires x.phase.Locking? && ValidArguments(x.phase.call.req) && x.phase.todo != []
    requires Belong(wallets, x.phase.call.req, a, b) && LoopOk(wallets, a, b, x)
    ensures x.phase.todo[0] in wallets
  {
    hide InOrder, Fetched;
    NextInOrder(a, b, x.phase.todo);
  }

  lemma LockIsGrown(s: State, i: nat)
    requires Inv(s) && i < |s.sessions| && s.sessions[i].phase.Locking? && s.sessions[i].phase.todo != []
    ensures s.sessions[i].phase.todo[0] in s.db.wallets
    ensures SessionOk(s, Grown(s.db.wallets, s.sessions[i]))
  {
    var x := s.sessions[i];
    assert SessionOk(s, x);
    hide Inv;
    NextIsThere(s, x);
    hide SessionOk;
    GrownOk(s, x);
  }

  lemma LockKeepsInv(s: State, i: nat)
    requires Inv(s) && Enabled(s, LockNext(i))
    ensures Inv(Lock(s, i))
  {
    var t := Lock(s, i);
    LockIsGrown(s, i);
    LocalKeepsSession(s, t, i, t.sessions[i]);
    forall j | 0 <= j < |s.sessions| && j != i ensures Apart(t.sessions[i], s.sessions[j]) { ApartFromOthers(s, i, j); }
    LocalKeepsInv(s, t, i);
  }

  /** When the loop is over, the variables hold exactly the wallets that the snapshot found. */
  lemma LoopDone(wallets: map<WalletId, Wallet>, a: Option<WalletId>, b: Option<WalletId>, x: Session)
    requires x.phase.Locking? && x.phase.todo == [] && ValidArguments(x.phase.call.req)
    requires Belong(wallets, x.phase.call.req, a, b) && LoopOk(wallets, a, b, x)
    ensures x.phase.from == if a.Some? then Some(Row(a.value, wallets[a.value])) else None
    ensures x.phase.to == if b.Some? then Some(Row(b.value, wallets[b.value])) else None
    ensures a.Some? && b.Some? ==> x.locks == {a.value, b.value}
  {
    assert a.Some? ==> a.value in InOrder(a, b);
    assert b.Some? ==> b.value in InOrder(a, b);
  }

  lemma FundedOk(s: State, x: Session)
    requires History(s.commits) && SessionOk(s, x) && x.phase.Locking? && x.phase.todo == []
    requires x.phase.from.Some? && x.phase.to.Some?
    requires x.phase.from.value.wallet.balance >= x.phase.call.req.Value()
    ensures SessionOk(s, x.(phase := Funded(x.phase.call, x.phase.from.value, x.phase.to.value)))
  {
    var p := x.phase;
    var found := StateAt(s.commits, p.snap).wallets;
    LoopDone(s.db.wallets, WalletOf(found, p.call.req.fromUser), WalletOf(found, p.call.req.toUser), x);
  }

  /** What a call whose loop is over is about to answer is what an isolated call answers. */
  lemma CheckAnswer(s: State, x: Session)
    requires Inv(s) && SessionOk(s, x) && x.phase.Locking? && x.phase.todo == []
    ensures var p := x.phase; var then_ := Decide(StateAt(s.commits, p.snap), p.call.req);
            && (p.from.None? ==> then_ == Raised(WL003))
            && (p.from.Some? && p.to.None? ==> then_ == Raised(WL004))
            && (p.from.Some? && p.to.Some? && p.from.value.wallet.balance < p.call.req.Value() ==>
                  Decide(s.db, p.call.req) == Raised(WL005))
  {
    var p := x.phase;
    var found := StateAt(s.commits, p.snap).wallets;
    LoopDone(s.db.wallets, WalletOf(found, p.call.req.fromUser), WalletOf(found, p.call.req.toUser), x);
    InvWallets(s);
    if p.from.Some? { SoleWallet(s.db.wallets, p.from.value.id); }
    if p.to.Some? { SoleWallet(s.db.wallets, p.to.value.id); }
  }

  lemma FundedKeepsInv(s: State, i: nat)
    requires Inv(s) && i < |s.sessions| && s.sessions[i].phase.Locking? && s.sessions[i].phase.todo == []
    requires s.sessions[i].phase.from.Some? && s.sessions[i].phase.to.Some?
    requires s.sessions[i].phase.from.value.wallet.balance >= s.sessions[i].phase.call.req.Value()
    ensures Inv(CheckFunds(s, i))
  {
    var x := s.sessions[i];
    assert SessionOk(s, x);
    FundedOk(s, x);
    var t := CheckFunds(s, i);
    LocalKeepsSession(s, t, i, t.sessions[i]);
    SameWritesKeepInv(s, t, i);
  }

  lemma CheckKeepsInv(s: State, i: nat)
    requires Inv(s) && i < |s.sessions| && s.sessions[i].phase.Locking? && s.sessions[i].phase.todo == []
    ensures Inv(CheckFunds(s, i))
  {
    var x := s.sessions[i];
    var p := x.phase;
    assert SessionOk(s, x);
    CheckAnswer(s, x);
    if p.from.None? {
      RaiseKeepsInv(s, s, i, p.call, p.snap, WL003);
    } else if p.to.None? {
      RaiseKeepsInv(s, s, i, p.call, p.snap, WL004);
    } else if p.from.value.wallet.balance < p.call.req.Value() {
      NowIsCommitted(s);
      RaiseKeepsInv(s, s, i, p.call, |s.commits|, WL005);
    } else {
      FundedKeepsInv(s, i);
    }
  }

  lemma InsertedOk(s: State, i: nat, txn: TxnId)
    requires Inv(s) && Enabled(s, InsertTransaction(i, txn))
    ensures var t := InsertRow(s, i, txn);
            Local(s, t, i) && t.finished == s.finished && SessionOk(t, t.sessions[i]) && txn !in s.drawn
            && t.sessions[i].locks == s.sessions[i].locks && t.sessions[i].writes == s.sessions[i].writes.(txns := t.sessions[i].writes.txns)
            && forall id :: id in t.sessions[i].writes.txns ==> id == txn
  {
    hide Apart, Answered, Replay;
    assert SessionOk(s, s.sessions[i]);
  }

  lemma InsertKeepsInv(s: State, i: nat, txn: TxnId)
    requires Inv(s) && Enabled(s, InsertTransaction(i, txn))
    ensures Inv(InsertRow(s, i, txn))
  {
    var t := InsertRow(s, i, txn);
    InsertedOk(s, i, txn);
    forall j | 0 <= j < |s.sessions| && j != i ensures Apart(t.sessions[i], s.sessions[j]) {
      ApartFromOthers(s, i, j);
    }
    LocalKeepsInv(s, t, i);
  }

  lemma ArmKeepsInv(s: State, i: nat)
    requires Inv(s) && i < |s.sessions| && s.sessions[i].phase.Inserted?
    ensures Inv(Arm(s, i))
  {
    assert SessionOk(s, s.sessions[i]);
    SameWritesKeepInv(s, Arm(s, i), i);
  }

  lemma DisarmKeepsInv(s: State, i: nat)
    requires Inv(s) && i < |s.sessions| && s.sessions[i].phase.Credited?
    ensures Inv(Disarm(s, i))
  {
    assert SessionOk(s, s.sessions[i]);
    hide Apart, Answered;
    SameWritesKeepInv(s, Disarm(s, i), i);
  }

  /** No ledger row carries a transaction id that is not committed. */
  lemma FreshTransactionHasNoRows(s: State, txn: TxnId)
    requires Inv(s) && txn !in s.db.txns
    ensures forall k :: k in s.db.ledger ==> s.db.ledger[k].txn != Some(txn)
  {
    InvDbOk(s);
    forall k | k in s.db.ledger ensures s.db.ledger[k].txn != Some(txn) { assert Explained(s.db, k); }
  }

  /** The debit succeeds: no constraint and no trigger can fail. */
  lemma DebitResult(s: State, x: Session, wn: nat, id: LedgerId)
    requires x.phase.Armed? && ArmedOk(s, x) && WalletsOk(s.db, wn)
    requires forall k :: k in s.db.ledger ==> s.db.ledger[k].txn != Some(x.phase.txn)
    ensures var p := x.phase; var view := Overlay(s.db, x.writes);
            && p.src.id in view.wallets
            && var w := UpdateBalance(view, x.setting, p.src.id, BalanceAt(view.wallets, p.src.id) - p.call.req.Value(), id);
               w.Success? && Overlay(x.writes, w.value) == WrittenDebit(p.call.req, p.src, p.dst, p.txn, id)
  {
    var p := x.phase;
    var view := Overlay(s.db, x.writes);
    assert view.ledger == s.db.ledger && view.wallets == s.db.wallets;
    DebitAccepted(view, p.txn, p.src.id, p.call.req.Value(), id);
    DebitOverlay(p.call.req, p.src, p.dst, p.txn, id);
  }

  lemma ArmedFacts(s: State, i: nat)
    requires Inv(s) && i < |s.sessions| && s.sessions[i].phase.Armed?
    ensures ArmedOk(s, s.sessions[i]) && WalletsOk(s.db, s.nextWallet)
    ensures forall k :: k in s.db.ledger ==> s.db.ledger[k].txn != Some(s.sessions[i].phase.txn)
  {
    var x := s.sessions[i];
    assert SessionOk(s, x);
    InvWallets(s);
    FreshTransactionHasNoRows(s, x.phase.txn) by { assert x.phase.txn in x.writes.txns; }
  }

  lemma DebitPut(s: State, i: nat, writes: Db)
    requires i < |s.sessions| && s.sessions[i].phase.Armed?
    requires var x := s.sessions[i]; var p := x.phase; var view := Overlay(s.db, x.writes);
             UpdateBalance(view, x.setting, p.src.id, BalanceAt(view.wallets, p.src.id) - p.call.req.Value(), s.nextLedger)
             == Success(writes)
    ensures var p := s.sessions[i].phase;
            DebitWallet(s, i) == Put(s.(nextLedger := s.nextLedger + 1), i,
              s.sessions[i].(phase := Debited(p.call, p.src, p.dst, p.txn, s.nextLedger),
                             writes := Overlay(s.sessions[i].writes, writes)))
  {
  }

  lemma DebitEffect(s: State, i: nat)
    requires Inv(s) && i < |s.sessions| && s.sessions[i].phase.Armed?
    ensures var p := s.sessions[i].phase;
            DebitWallet(s, i) == Put(s.(nextLedger := s.nextLedger + 1), i,
              s.sessions[i].(phase := Debited(p.call, p.src, p.dst, p.txn, s.nextLedger),
                             writes := WrittenDebit(p.call.req, p.src, p.dst, p.txn, s.nextLedger)))
  {
    hide Inv;
    ArmedFacts(s, i);
    DebitResult(s, s.sessions[i], s.nextWallet, s.nextLedger);
    var x := s.sessions[i]; var p := x.phase; var view := Overlay(s.db, x.writes);
    DebitPut(s, i, UpdateBalance(view, x.setting, p.src.id, BalanceAt(view.wallets, p.src.id) - p.call.req.Value(), s.nextLedger).value);
  }

  lemma DebitOverlay(req: Request, src: Row, dst: Row, txn: TxnId, id: LedgerId)
    ensures Overlay(Written(req, src, dst, txn),
                    Db(map[], map[src.id := src.wallet.(balance := src.wallet.balance - req.Value())], map[],
                       map[id := DebitRow(req, src, txn)])) == WrittenDebit(req, src, dst, txn, id)
  {
    var m: map<TxnId, Transaction> := map[txn := NewTransaction(req, src.id, dst.id)];
    assert m + map[] == m;
  }

  lemma DebitKeepsInv(s: State, i: nat)
    requires Inv(s) && i < |s.sessions| && s.sessions[i].phase.Armed?
    ensures Inv(DebitWallet(s, i))
  {
    DebitEffect(s, i);
    var t := DebitWallet(s, i);
    assert SessionOk(s, s.sessions[i]);
    InvRows(s);
    forall j | 0 <= j < |s.sessions| && j != i ensures Apart(t.sessions[i], s.sessions[j]) { ApartFromOthers(s, i, j); }
    LocalKeepsInv(s, t, i);
  }

  /** The credit fails only when the recipient's balance would leave the BIGINT range. */
  lemma CreditResult(s: State, x: Session, wn: nat, id: LedgerId)
    requires x.phase.Debited? && DebitedOk(s, x) && WalletsOk(s.db, wn)
    requires forall k :: k in s.db.ledger ==> s.db.ledger[k].txn != Some(x.phase.txn)
    ensures var p := x.phase; var view := Overlay(s.db, x.writes);
            && p.dst.id in view.wallets
            && var w := UpdateBalance(view, x.setting, p.dst.id, BalanceAt(view.wallets, p.dst.id) + p.call.req.Value(), id);
               if p.dst.wallet.balance + p.call.req.Value() > MAX_BIGINT
               then w == Failure(OutOfRange)
               else w.Success? && Overlay(x.writes, w.value) == WrittenCredit(p.call.req, p.src, p.dst, p.txn, p.debitId, id)
  {
    hide UpdateBalance, LedgerChecks;
    var p := x.phase;
    var view := Overlay(s.db, x.writes);
    assert view.wallets[p.dst.id] == p.dst.wallet;
    CreditAccepted(view, p.txn, p.dst.id, p.call.req.Value(), id);
  }

  lemma DebitedFacts(s: State, i: nat)
    requires Inv(s) && i < |s.sessions| && s.sessions[i].phase.Debited?
    ensures DebitedOk(s, s.sessions[i]) && WalletsOk(s.db, s.nextWallet)
    ensures forall k :: k in s.db.ledger ==> s.db.ledger[k].txn != Some(s.sessions[i].phase.txn)
    ensures forall k :: k in s.db.ledger ==> k < s.nextLedger
    ensures s.sessions[i].phase.debitId < s.nextLedger
  {
    var x := s.sessions[i];
    assert SessionOk(s, x);
    InvWallets(s);
    InvRows(s);
    assert x.phase.debitId in x.writes.ledger;
    FreshTransactionHasNoRows(s, x.phase.txn) by { assert x.phase.txn in x.writes.txns; }
  }

  lemma CreditPut(s: State, i: nat, writes: Db)
    requires i < |s.sessions| && s.sessions[i].phase.Debited?
    requires var x := s.sessions[i]; var p := x.phase; var view := Overlay(s.db, x.writes);
             UpdateBalance(view, x.setting, p.dst.id, BalanceAt(view.wallets, p.dst.id) + p.call.req.Value(), s.nextLedger)
             == Success(writes)
    ensures var p := s.sessions[i].phase;
            CreditWallet(s, i) == Put(s.(nextLedger := s.nextLedger + 1), i,
              s.sessions[i].(phase := Credited(p.call, p.src, p.dst, p.txn, p.debitId, s.nextLedger),
                             writes := Overlay(s.sessions[i].writes, writes)))
  {
  }

  /** The session after its credit. */
  function WithCredit(s: State, x: Session): Session
    requires x.phase.Debited?
  {
    var p := x.phase;
    x.(phase := Credited(p.call, p.src, p.dst, p.txn, p.debitId, s.nextLedger),
       writes := WrittenCredit(p.call.req, p.src, p.dst, p.txn, p.debitId, s.nextLedger))
  }

  lemma CreditEffect(s: State, i: nat)
    requires Inv(s) && i < |s.sessions| && s.sessions[i].phase.Debited?
    ensures var x := s.sessions[i]; var s' := s.(nextLedger := s.nextLedger + 1);
            CreditWallet(s, i) ==
              if x.phase.dst.wallet.balance + x.phase.call.req.Value() > MAX_BIGINT
              then Raise(s', i, x.phase.call, |s.commits|, OutOfRange)
              else Put(s', i, WithCredit(s, x))
  {
    hide Inv, UpdateBalance, LedgerChecks, WalletsOk, Newest, WrittenDebit;
    var x := s.sessions[i];
    var p := x.phase;
    DebitedFacts(s, i);
    CreditResult(s, x, s.nextWallet, s.nextLedger);
    if p.dst.wallet.balance + p.call.req.Value() <= MAX_BIGINT {
      var view := Overlay(s.db, x.writes);
      CreditPut(s, i, UpdateBalance(view, x.setting, p.dst.id, BalanceAt(view.wallets, p.dst.id) + p.call.req.Value(), s.nextLedger).value);
    }
  }

  lemma WithCreditOk(s: State, x: Session)
    requires History(s.commits) && SessionOk(s, x) && x.phase.Debited?
    requires x.phase.dst.wallet.balance + x.phase.call.req.Value() <= MAX_BIGINT
    requires forall k :: k in s.db.ledger ==> k < s.nextLedger
    ensures SessionOk(s.(nextLedger := s.nextLedger + 1), WithCredit(s, x))
  {
    assert x.phase.debitId in x.writes.ledger;
  }

  lemma CreditRefused(s: State, i: nat)
    requires Inv(s) && i < |s.sessions| && s.sessions[i].phase.Debited?
    requires var p := s.sessions[i].phase; p.dst.wallet.balance + p.call.req.Value() > MAX_BIGINT
    ensures Inv(Raise(s.(nextLedger := s.nextLedger + 1), i, s.sessions[i].phase.call, |s.commits|, OutOfRange))
  {
    var p := s.sessions[i].phase;
    DebitedFacts(s, i);
    SoleWallet(s.db.wallets, p.src.id);
    SoleWallet(s.db.wallets, p.dst.id);
    NowIsCommitted(s);
    RaiseKeepsInv(s, s.(nextLedger := s.nextLedger + 1), i, p.call, |s.commits|, OutOfRange);
  }

  lemma CreditGranted(s: State, i: nat, t: State)
    requires Inv(s) && i < |s.sessions| && s.sessions[i].phase.Debited?
    requires var p := s.sessions[i].phase; p.dst.wallet.balance + p.call.req.Value() <= MAX_BIGINT
    requires t == Put(s.(nextLedger := s.nextLedger + 1), i, WithCredit(s, s.sessions[i]))
    ensures Inv(t)
  {
    var x := s.sessions[i];
    DebitedFacts(s, i);
    assert SessionOk(s, x);
    WithCreditOk(s, x);
    LocalKeepsSession(s.(nextLedger := s.nextLedger + 1), t, i, t.sessions[i]);
    forall j | 0 <= j < |s.sessions| && j != i ensures Apart(t.sessions[i], s.sessions[j]) { ApartFromOthers(s, i, j); }
    LocalKeepsInv(s, t, i);
  }

  lemma CreditKeepsInv(s: State, i: nat)
    requires Inv(s) && i < |s.sessions| && s.sessions[i].phase.Debited?
    ensures Inv(CreditWallet(s, i))
  {
    CreditEffect(s, i);
    var p := s.sessions[i].phase;
    if p.dst.wallet.balance + p.call.req.Value() > MAX_BIGINT {
      CreditRefused(s, i);
    } else {
      CreditGranted(s, i, CreditWallet(s, i));
    }
  }

  // ----- Registration, up to its commit -----

  lemma UserAddedOk(s: State, i: nat)
    requires Inv(s) && Enabled(s, InsertUser(i))
    ensures SessionOk(AddUser(s, i), AddUser(s, i).sessions[i])
  {
    assert SessionOk(s, s.sessions[i]);
  }

  lemma AddUserKeepsInv(s: State, i: nat)
    requires Inv(s) && Enabled(s, InsertUser(i))
    ensures Inv(AddUser(s, i))
  {
    var t := AddUser(s, i);
    UserAddedOk(s, i);
    assert SessionOk(s, s.sessions[i]);
    forall j | 0 <= j < |s.sessions| && j != i ensures Apart(t.sessions[i], s.sessions[j]) { ApartFromOthers(s, i, j); }
    LocalKeepsInv(s, t, i);
  }

  lemma WalletAddedPhase(s: State, i: nat)
    requires Inv(s) && i < |s.sessions| && s.sessions[i].phase.UserAdded?
    ensures PhaseOk(AddWallet(s, i), AddWallet(s, i).sessions[i])
  {
    assert SessionOk(s, s.sessions[i]);
  }

  lemma WalletAddedFootprint(s: State, i: nat)
    requires Inv(s) && i < |s.sessions| && s.sessions[i].phase.UserAdded?
    ensures FootprintOk(AddWallet(s, i), AddWallet(s, i).sessions[i])
  {
    assert SessionOk(s, s.sessions[i]);
    InvRows(s);
    InvWallets(s);
  }

  lemma WalletAddedOk(s: State, i: nat)
    requires Inv(s) && i < |s.sessions| && s.sessions[i].phase.UserAdded?
    ensures SessionOk(AddWallet(s, i), AddWallet(s, i).sessions[i])
  {
    assert SessionOk(s, s.sessions[i]);
    WalletAddedPhase(s, i);
    WalletAddedFootprint(s, i);
  }

  lemma AddWalletKeepsInv(s: State, i: nat)
    requires Inv(s) && i < |s.sessions| && s.sessions[i].phase.UserAdded?
    ensures Inv(AddWallet(s, i))
  {
    var t := AddWallet(s, i);
    WalletAddedOk(s, i);
    assert SessionOk(s, s.sessions[i]);
    InvWallets(s);
    forall j | 0 <= j < |s.sessions| && j != i ensures Apart(t.sessions[i], s.sessions[j]) { ApartFromOthers(s, i, j); }
    LocalKeepsInv(s, t, i);
  }
}
