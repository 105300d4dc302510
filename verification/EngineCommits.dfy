/** The two commits keep the invariant: what a session wrote is exactly the effect of one serial commit. */
module EngineCommits {
  import opened Wrappers
  import opened Schema
  import opened Serial
  import opened Engine
  import opened EngineInvariant
  import opened EngineSteps

  lemma StateAtPrefix(commits: seq<Commit>, c: Commit, k: nat)
    requires History(commits) && History(commits + [c]) && k <= |commits|
    ensures StateAt(commits + [c], k) == StateAt(commits, k)
  {
    assert (commits + [c])[..k] == commits[..k];
  }

  /** t is s after session x committed its writes as c. */
  ghost predicate CommitsAs(s: State, t: State, i: nat, c: Commit) {
    && i < |s.sessions| == |t.sessions|
    && t.db == Overlay(s.db, s.sessions[i].writes)
    && t.commits == s.commits + [c]
    && t.nextUser == s.nextUser && t.nextWallet == s.nextWallet && t.nextLedger == s.nextLedger && t.drawn == s.drawn
    && t.sessions == s.sessions[i := IDLE]
    && History(s.commits) && Legal(s.db, c) && s.db == Replay(s.commits)
    && t.db == Apply(s.db, c)
    && IdsBelow(c, s.nextWallet, s.nextLedger)
  }

  lemma CommitsHistory(s: State, t: State, i: nat, c: Commit)
    requires CommitsAs(s, t, i, c)
    ensures History(t.commits) && t.db == Replay(t.commits)
    ensures forall k :: 0 <= k <= |s.commits| ==> StateAt(t.commits, k) == StateAt(s.commits, k)
  {
    HistoryExtend(s.commits, c);
    forall k | 0 <= k <= |s.commits| ensures StateAt(t.commits, k) == StateAt(s.commits, k) {
      StateAtPrefix(s.commits, c, k);
    }
  }

  lemma FootprintAfterCommit(s: State, t: State, x: Session, y: Session)
    requires t.db == Overlay(s.db, x.writes)
    requires t.nextUser == s.nextUser && t.nextWallet == s.nextWallet && t.nextLedger == s.nextLedger && t.drawn == s.drawn
    requires FootprintOk(s, x) && FootprintOk(s, y) && Apart(x, y)
    ensures FootprintOk(t, y)
  {
    forall u | u in y.writes.users ensures y.writes.users[u] !in t.db.users.Values {
      assert y.writes.users[u] in y.writes.users.Values;
      forall v | v in t.db.users ensures t.db.users[v] != y.writes.users[u] {
        if v in x.writes.users {
          assert x.writes.users[v] in x.writes.users.Values;
        } else {
          assert s.db.users[v] in s.db.users.Values;
        }
      }
    }
  }

  /** Locked rows of other sessions are not touched, and no wallet disappears or changes hands. */
  lemma RowsAfterCommit(s: State, t: State, x: Session, y: Session)
    requires t.db == Overlay(s.db, x.writes)
    requires FootprintOk(s, x) && FootprintOk(s, y) && Apart(x, y)
    ensures forall w :: w in y.locks ==> w in s.db.wallets && w in t.db.wallets && t.db.wallets[w] == s.db.wallets[w]
    ensures forall w :: w in s.db.wallets ==> w in t.db.wallets && t.db.wallets[w].userId == s.db.wallets[w].userId
    ensures forall w, id :: w in y.locks && Newest(s.db.ledger, w, id) ==> Newest(t.db.ledger, w, id)
  {
    forall k | k in x.writes.ledger ensures x.writes.ledger[k].walletId !in y.locks {
    }
  }

  lemma PhaseAfterCommit(s: State, t: State, y: Session)
    requires History(s.commits) && History(t.commits) && |s.commits| <= |t.commits|
    requires forall k :: 0 <= k <= |s.commits| ==> StateAt(t.commits, k) == StateAt(s.commits, k)
    requires forall w :: w in y.locks ==> w in s.db.wallets && w in t.db.wallets && t.db.wallets[w] == s.db.wallets[w]
    requires forall w :: w in s.db.wallets ==> w in t.db.wallets && t.db.wallets[w].userId == s.db.wallets[w].userId
    requires forall w, id :: w in y.locks && Newest(s.db.ledger, w, id) ==> Newest(t.db.ledger, w, id)
    requires PhaseOk(s, y)
    ensures PhaseOk(t, y)
  {
  }

  lemma SessionAfterCommit(s: State, t: State, i: nat, c: Commit, y: Session)
    requires CommitsAs(s, t, i, c) && History(t.commits)
    requires forall k :: 0 <= k <= |s.commits| ==> StateAt(t.commits, k) == StateAt(s.commits, k)
    requires FootprintOk(s, s.sessions[i]) && SessionOk(s, y) && Apart(s.sessions[i], y)
    ensures SessionOk(t, y)
  {
    FootprintAfterCommit(s, t, s.sessions[i], y);
    RowsAfterCommit(s, t, s.sessions[i], y);
    PhaseAfterCommit(s, t, y);
  }

  lemma CommittedAfterCommit(s: State, t: State, i: nat, c: Commit)
    requires History(s.commits) && CommittedOk(s) && CommitsAs(s, t, i, c) && FootprintOk(s, s.sessions[i])
    requires forall w :: w in s.sessions[i].writes.wallets && w !in s.db.wallets ==>
               s.sessions[i].writes.wallets[w].userId in s.sessions[i].writes.users
    ensures History(t.commits) && CommittedOk(t)
  {
    CommitsHistory(s, t, i, c);
  }

  lemma OldAnswers(s: State, t: State, i: nat, c: Commit)
    requires Inv(s) && CommitsAs(s, t, i, c) && History(t.commits)
    ensures forall k :: 0 <= k < |s.finished| ==> Answered(t.commits, s.finished[k])
  {
    CommitsHistory(s, t, i, c);
    forall k | 0 <= k < |s.finished| ensures Answered(t.commits, s.finished[k]) {
      assert Answered(s.commits, s.finished[k]);
    }
  }

  lemma IdleOk(t: State)
    requires History(t.commits)
    ensures SessionOk(t, IDLE)
  {
  }

  lemma SessionsAfterCommit(s: State, t: State, i: nat, c: Commit)
    requires Inv(s) && CommitsAs(s, t, i, c) && History(t.commits)
    ensures forall j :: 0 <= j < |t.sessions| ==> SessionOk(t, t.sessions[j])
  {
    CommitsHistory(s, t, i, c);
    assert SessionOk(s, s.sessions[i]);
    forall j | 0 <= j < |t.sessions| ensures SessionOk(t, t.sessions[j]) {
      if j == i {
        IdleOk(t);
      } else {
        assert SessionOk(s, s.sessions[j]);
        ApartFromOthers(s, i, j);
        SessionAfterCommit(s, t, i, c, s.sessions[j]);
      }
    }
  }

  lemma ApartAfterCommit(s: State, t: State, i: nat)
    requires Inv(s) && i < |s.sessions| && t.sessions == s.sessions[i := IDLE]
    ensures forall j, k :: 0 <= j < k < |t.sessions| ==> Apart(t.sessions[j], t.sessions[k])
  {
    forall j, k | 0 <= j < k < |t.sessions| ensures Apart(t.sessions[j], t.sessions[k]) {
      assert Apart(s.sessions[j], s.sessions[k]);
    }
  }

  lemma CommitKeepsInv(s: State, t: State, i: nat, c: Commit)
    requires Inv(s) && CommitsAs(s, t, i, c)
    requires forall w :: w in s.sessions[i].writes.wallets && w !in s.db.wallets ==>
               s.sessions[i].writes.wallets[w].userId in s.sessions[i].writes.users
    requires History(t.commits) ==> RecordOk(t)
    ensures Inv(t)
  {
    assert SessionOk(s, s.sessions[i]);
    CommittedAfterCommit(s, t, i, c);
    SessionsAfterCommit(s, t, i, c);
    ApartAfterCommit(s, t, i);
  }

  // ----- CommitCall -----

  /** The private writes of a call that is ready to commit are exactly one serial transfer. */
  lemma WritesAreTransfer(s: State, x: Session, wn: nat)
    requires History(s.commits) && SessionOk(s, x) && x.phase.Cleared? && WalletsOk(s.db, wn)
    ensures var p := x.phase; var c := Transfer(p.call.req, p.txn, p.debitId, p.creditId);
            && Legal(s.db, c) && IdsBelow(c, s.nextWallet, s.nextLedger)
            && Overlay(s.db, x.writes) == Apply(s.db, c)
  {
    var p := x.phase;
    SoleWallet(s.db.wallets, p.src.id);
    SoleWallet(s.db.wallets, p.dst.id);
    assert p.debitId in x.writes.ledger && p.creditId in x.writes.ledger && p.txn in x.writes.txns;
    var c := Transfer(p.call.req, p.txn, p.debitId, p.creditId);
    assert Legal(s.db, c);
    OverlayIsApply(s.db, p.call.req, p.src, p.dst, p.txn, p.debitId, p.creditId);
  }

  lemma PutTwo<K, V>(m: map<K, V>, j: K, x: V, k: K, y: V)
    ensures m + (map[j := x] + map[k := y]) == m[j := x][k := y]
  {
  }

  lemma OverlayIsApply(db: Db, req: Request, src: Row, dst: Row, txn: TxnId, debitId: LedgerId, creditId: LedgerId)
    requires Legal(db, Transfer(req, txn, debitId, creditId))
    requires WalletOf(db.wallets, req.fromUser) == Some(src.id) && db.wallets[src.id] == src.wallet
    requires WalletOf(db.wallets, req.toUser) == Some(dst.id) && db.wallets[dst.id] == dst.wallet
    ensures Overlay(db, WrittenCredit(req, src, dst, txn, debitId, creditId)) == Apply(db, Transfer(req, txn, debitId, creditId))
  {
    var a := req.Value();
    PutTwo(db.wallets, src.id, src.wallet.(balance := src.wallet.balance - a), dst.id, dst.wallet.(balance := dst.wallet.balance + a));
    PutTwo(db.ledger, debitId, DebitRow(req, src, txn), creditId, CreditRow(req, dst, txn));
    assert db.users + (map[] + map[]) == db.users;
    var m: map<TxnId, Transaction> := map[txn := NewTransaction(req, src.id, dst.id)];
    assert db.txns + (m + map[]) == db.txns[txn := NewTransaction(req, src.id, dst.id)];
  }

  lemma CallIsTransfer(s: State, i: nat)
    requires Inv(s) && i < |s.sessions| && s.sessions[i].phase.Cleared?
    ensures var p := s.sessions[i].phase;
            CommitsAs(s, CommitTransfer(s, i), i, Transfer(p.call.req, p.txn, p.debitId, p.creditId))
  {
    assert SessionOk(s, s.sessions[i]);
    InvWallets(s);
    WritesAreTransfer(s, s.sessions[i], s.nextWallet);
  }

  lemma SuccessRecorded(s: State, t: State, f: Finished, c: Commit)
    requires History(s.commits) && History(t.commits) && RecordOk(s)
    requires t.commits == s.commits + [c] && t.finished == s.finished + [f]
    requires c.Transfer? && f.outcome.Done? && c.req == f.req && f.ended == |s.commits|
    requires Answered(t.commits, f)
    requires forall k :: 0 <= k < |s.finished| ==> Answered(t.commits, s.finished[k])
    ensures RecordOk(t)
  {
    assert t.commits[..|t.commits| - 1] == s.commits && t.finished[..|t.finished| - 1] == s.finished;
    forall k | 0 <= k < |s.finished| ensures s.finished[k].ended <= f.ended {
      assert Answered(s.commits, s.finished[k]);
    }
  }

  lemma TransferKeepsRecord(s: State, i: nat)
    requires Inv(s) && i < |s.sessions| && s.sessions[i].phase.Cleared?
    ensures var t := CommitTransfer(s, i); History(t.commits) && RecordOk(t)
  {
    var t := CommitTransfer(s, i);
    var p := s.sessions[i].phase;
    var c := Transfer(p.call.req, p.txn, p.debitId, p.creditId);
    CallIsTransfer(s, i);
    CommitsHistory(s, t, i, c);
    OldAnswers(s, t, i, c);
    NowIsCommitted(s);
    CallBegan(s, i);
    SuccessRecorded(s, t, t.finished[|s.finished|], c);
  }

  lemma CallBegan(s: State, i: nat)
    requires Inv(s) && i < |s.sessions| && InCall(s.sessions[i].phase)
    ensures s.sessions[i].phase.call.began <= |s.commits|
  {
    assert SessionOk(s, s.sessions[i]);
  }

  lemma CommitTransferKeepsInv(s: State, i: nat)
    requires Inv(s) && i < |s.sessions| && s.sessions[i].phase.Cleared?
    ensures Inv(CommitTransfer(s, i))
  {
    var p := s.sessions[i].phase;
    assert SessionOk(s, s.sessions[i]);
    CallIsTransfer(s, i);
    TransferKeepsRecord(s, i);
    CommitKeepsInv(s, CommitTransfer(s, i), i, Transfer(p.call.req, p.txn, p.debitId, p.creditId));
  }

  // ----- CommitRegistration -----

  lemma WritesAreRegistration(s: State, x: Session)
    requires History(s.commits) && SessionOk(s, x) && x.phase.WalletAdded?
    requires forall k :: k in s.db.ledger ==> s.db.ledger[k].walletId in s.db.wallets
    requires forall w :: w in s.db.wallets ==> s.db.wallets[w].userId in s.db.users
    ensures var p := x.phase; var c := Registration(p.name, p.userId, p.walletId, p.balance, p.openingId);
            && Legal(s.db, c) && IdsBelow(c, s.nextWallet, s.nextLedger)
            && Overlay(s.db, x.writes) == Apply(s.db, c)
  {
    var p := x.phase;
    assert p.userId in x.writes.users && p.walletId in x.writes.wallets;
    assert p.balance > 0 ==> p.openingId in x.writes.ledger;
    var c := Registration(p.name, p.userId, p.walletId, p.balance, p.openingId);
    assert Legal(s.db, c);
    OverlayIsRegistration(s.db, p.name, p.userId, p.walletId, p.balance, p.openingId);
  }

  lemma OverlayOfWallet(db: Db, name: string, userId: UserId, walletId: WalletId, balance: int, openingId: LedgerId)
    ensures Overlay(db, WrittenWallet(name, userId, walletId, balance, openingId)) ==
            Db(db.users[userId := name], db.wallets[walletId := Wallet(userId, balance)], db.txns,
               if balance > 0
               then db.ledger[openingId := LedgerRow(walletId, None, Opening, balance, 0, balance)]
               else db.ledger)
  {
    PutOne(db.users, userId, name);
    PutOne(db.wallets, walletId, Wallet(userId, balance));
    PutOne(db.ledger, openingId, LedgerRow(walletId, None, Opening, balance, 0, balance));
    PutNone(db.txns);
    PutNone(db.ledger);
  }

  lemma PutOne<K, V>(m: map<K, V>, k: K, v: V)
    ensures m + map[k := v] == m[k := v]
  {}

  lemma PutNone<K, V>(m: map<K, V>)
    ensures m + map[] == m
  {}

  lemma OverlayIsRegistration(db: Db, name: string, userId: UserId, walletId: WalletId, balance: int, openingId: LedgerId)
    requires Legal(db, Registration(name, userId, walletId, balance, openingId))
    ensures Overlay(db, WrittenWallet(name, userId, walletId, balance, openingId)) ==
            Apply(db, Registration(name, userId, walletId, balance, openingId))
  {
    hide Legal, Overlay, WrittenWallet;
    OverlayOfWallet(db, name, userId, walletId, balance, openingId);
  }

  lemma UserIsRegistration(s: State, i: nat)
    requires Inv(s) && i < |s.sessions| && s.sessions[i].phase.WalletAdded?
    ensures var p := s.sessions[i].phase;
            CommitsAs(s, CommitUser(s, i), i, Registration(p.name, p.userId, p.walletId, p.balance, p.openingId))
  {
    assert SessionOk(s, s.sessions[i]);
    InvRows(s);
    WritesAreRegistration(s, s.sessions[i]);
  }

  lemma CommitUserKeepsInv(s: State, i: nat)
    requires Inv(s) && i < |s.sessions| && s.sessions[i].phase.WalletAdded?
    ensures Inv(CommitUser(s, i))
  {
    var t := CommitUser(s, i);
    var p := s.sessions[i].phase;
    var c := Registration(p.name, p.userId, p.walletId, p.balance, p.openingId);
    assert SessionOk(s, s.sessions[i]);
    UserIsRegistration(s, i);
    CommitsHistory(s, t, i, c);
    OldAnswers(s, t, i, c);
    assert t.commits[..|t.commits| - 1] == s.commits;
    CommitKeepsInv(s, t, i, c);
  }

  // ----- Stray updates -----

  lemma UpdateWithoutSetting(db: Db, w: WalletId, b: int, id: LedgerId)
    requires w in db.wallets
    ensures var r := UpdateBalance(db, None, w, b, id);
            if b == db.wallets[w].balance && InBigint(b) && b >= 0
            then r == Success(Db(map[], map[w := db.wallets[w]], map[], map[]))
            else r.Failure? && (InBigint(b) && b >= 0 ==> r.error == WL006)
  {
  }

  /** An UPDATE of a balance outside transfer_funds has no effect; one that would change a balance to a
      legal value raises WL006. */
  lemma StrayHasNoEffect(s: State, i: nat, w: WalletId, b: int)
    requires Inv(s) && Enabled(s, StrayUpdate(i, w, b))
    ensures Stray(s, i, w, b) == s
    ensures w in s.db.wallets && b != s.db.wallets[w].balance && InBigint(b) && b >= 0 ==>
              UpdateBalance(s.db, s.sessions[i].setting, w, b, s.nextLedger) == Failure(WL006)
  {
    assert SessionOk(s, s.sessions[i]);
    if w in s.db.wallets {
      UpdateWithoutSetting(s.db, w, b, s.nextLedger);
      assert s.db.wallets + map[w := s.db.wallets[w]] == s.db.wallets;
      assert Overlay(s.db, Db(map[], map[w := s.db.wallets[w]], map[], map[])) == s.db by {
        assert s.db.users + map[] == s.db.users && s.db.txns + map[] == s.db.txns && s.db.ledger + map[] == s.db.ledger;
      }
    }
  }

  /** A committed ledger row cannot be changed by hand. */
  lemma LedgerChangeHasNoEffect(s: State, k: LedgerId, row: Option<LedgerRow>)
    ensures ChangeRow(s, k, row) == s
    ensures k in s.db.ledger ==> ChangeLedger(s.db, k, row) == Failure(WL007)
  {}

  /** Once the call has cleared the setting, changing a balance by hand in its transaction fails and undoes the
      call; a legal balance raises WL006. */
  lemma LateUpdateAborts(s: State, i: nat, w: WalletId, b: int)
    requires Inv(s) && Enabled(s, LateUpdate(i, w, b))
    ensures Late(s, i, w, b) == Disconnect(s, i)
    ensures InBigint(b) && b >= 0 ==>
              UpdateBalance(Overlay(s.db, s.sessions[i].writes), s.sessions[i].setting, w, b, s.nextLedger) == Failure(WL006)
  {
    assert SessionOk(s, s.sessions[i]);
    UpdateWithoutSetting(Overlay(s.db, s.sessions[i].writes), w, b, s.nextLedger);
  }

  // ----- All steps -----

  lemma StepKeepsInv(s: State, step: Step)
    requires Inv(s) && Enabled(s, step)
    ensures Inv(Next(s, step))
  {
    match step
    case Begin(i, req) => BeginKeepsInv(s, i, req, "", 0);
    case Snapshot(i) => SnapshotKeepsInv(s, i);
    case LockNext(i) => LockKeepsInv(s, i);
    case Check(i) => CheckKeepsInv(s, i);
    case InsertTransaction(i, txn) => InsertKeepsInv(s, i, txn);
    case SetSetting(i) => ArmKeepsInv(s, i);
    case DebitSender(i) => DebitKeepsInv(s, i);
    case CreditRecipient(i) => CreditKeepsInv(s, i);
    case ClearSetting(i) => DisarmKeepsInv(s, i);
    case CommitCall(i) => CommitTransferKeepsInv(s, i);
    case BeginRegistration(i, name, balance) => BeginKeepsInv(s, i, Request(0, 0, None, None, 0, 0), name, balance);
    case InsertUser(i) => AddUserKeepsInv(s, i);
    case InsertWallet(i) => AddWalletKeepsInv(s, i);
    case CommitRegistration(i) => CommitUserKeepsInv(s, i);
    case Kill(i) => KillKeepsInv(s, i);
    case StrayUpdate(i, w, b) => StrayHasNoEffect(s, i, w, b);
    case StrayLedger(_, k, row) => LedgerChangeHasNoEffect(s, k, row);
    case LateUpdate(i, w, b) => LateUpdateAborts(s, i, w, b); KillKeepsInv(s, i);
  }

  lemma {:induction false} RunKeepsInv(s: State, steps: seq<Step>, t: State)
    requires Inv(s) && Run(s, steps, t)
    ensures Inv(t)
    decreases |steps|
  {
    if steps != [] {
      StepKeepsInv(s, steps[0]);
      RunKeepsInv(Next(s, steps[0]), steps[1..], t);
    }
  }

  /** The invariant holds in every state that any interleaving reaches. */
  lemma ReachableInv(t: State)
    requires Reachable(t)
    ensures Inv(t)
  {
    var n: nat, steps: seq<Step> :| Run(Initial(n), steps, t);
    InitialInv(n);
    RunKeepsInv(Initial(n), steps, t);
  }
}
