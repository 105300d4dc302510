/** What the answers and the committed rows of the engine say, column by column. */
module EngineRecords {
  import opened Wrappers
  import opened Schema
  import opened Ledger
  import opened Serial
  import opened Engine
  import opened EngineInvariant
  import opened EngineCommits
  import opened EngineTheorems

  // ----- Answers -----

  ghost predicate HasWallet(db: Db, user: UserId) {
    exists w :: w in db.wallets && db.wallets[w].userId == user
  }

  lemma SoundAt(t: State, k: nat)
    requires Inv(t) && k <= |t.commits|
    ensures OneWalletPerUser(StateAt(t.commits, k).wallets)
  {
    OpeningsGrow(t.commits, k, t.nextWallet, t.nextLedger);
  }

  /** The answer of a finished call, error by error: no positive amount, the same user twice, no wallet of the
      sender, none of the recipient, too little money; a success says PENDING exactly above the threshold. */
  lemma AnswersMean(t: State, f: Finished)
    requires Reachable(t) && f in t.finished && !f.outcome.Lost?
    ensures History(t.commits) && f.began <= f.at <= f.ended <= |t.commits|
    ensures f.outcome != Raised(WL003) && f.outcome != Raised(WL004) ==> f.at == f.ended
    ensures f.outcome == Raised(WL001) <==> f.req.amount.None? || f.req.amount.value <= 0
    ensures f.outcome == Raised(WL002) <==> f.req.amount.Some? && f.req.amount.value > 0 && f.req.fromUser == f.req.toUser
    ensures f.req.amount.Some? && f.req.amount.value > 0 && f.req.fromUser != f.req.toUser ==>
              var db := StateAt(t.commits, f.at);
              && (f.outcome == Raised(WL003) <==> !HasWallet(db, f.req.fromUser))
              && (f.outcome == Raised(WL004) <==> HasWallet(db, f.req.fromUser) && !HasWallet(db, f.req.toUser))
              && forall w :: w in db.wallets && db.wallets[w].userId == f.req.fromUser && HasWallet(db, f.req.toUser) ==>
                   (f.outcome == Raised(WL005) <==> db.wallets[w].balance < f.req.amount.value)
    ensures f.outcome.Done? ==>
              && f.req.amount.Some? && f.req.amount.value > 0
              && f.outcome.status == if f.req.amount.value > f.req.threshold then Pending else NotRequired
  {
    ReachableInv(t);
    var k :| 0 <= k < |t.finished| && t.finished[k] == f;
    assert Answered(t.commits, t.finished[k]);
    SoundAt(t, f.at);
    hide Inv, Decide;
    DecideMeans(StateAt(t.commits, f.at), f.req);
  }

  // ----- Transactions -----

  /** Row `id` of `db` records the transfer that `req` asked for. */
  ghost predicate Records(db: Db, id: TxnId, req: Request) {
    && id in db.txns
    && var t := db.txns[id];
       && req.amount == Some(t.amount) && t.description == req.description && t.createdAt == req.startedAt
       && t.url.None? && t.objectKey.None?
       && (t.status.Pending? <==> t.amount > req.threshold) && (t.status.NotRequired? <==> t.amount <= req.threshold)
       && t.fromWallet in db.wallets && db.wallets[t.fromWallet].userId == req.fromUser
       && t.toWallet in db.wallets && db.wallets[t.toWallet].userId == req.toUser
  }

  lemma ApplyKeepsRecords(db: Db, c: Commit, wn: nat, ln: nat)
    requires WalletsOk(db, wn) && Legal(db, c)
    ensures forall id, req :: Records(db, id, req) ==> Records(Apply(db, c), id, req)
    ensures c.Transfer? ==> Records(Apply(db, c), c.txn, c.req) && Apply(db, c).txns.Keys == db.txns.Keys + {c.txn}
    ensures c.Registration? ==> Apply(db, c).txns == db.txns
  {
    if c.Transfer? {
      TransferInserts(db, c);
      TransferMoves(db, c);
    } else {
      RegistrationInserts(db, c);
    }
  }

  lemma {:induction false} HistoryRecords(commits: seq<Commit>, wn: nat, ln: nat)
    requires History(commits) && forall j :: 0 <= j < |commits| ==> IdsBelow(commits[j], wn, ln)
    ensures forall k {:trigger commits[k]} :: 0 <= k < |commits| && commits[k].Transfer? ==>
              Records(Replay(commits), commits[k].txn, commits[k].req)
  {
    hide Records, Legal, Apply, DbOk;
    if commits != [] {
      var n := |commits| - 1;
      HistoryRecords(commits[..n], wn, ln);
      BeforeLast(commits, wn, ln);
      ApplyKeepsRecords(Replay(commits[..n]), commits[n], wn, ln);
      forall k | 0 <= k < n && commits[k].Transfer? ensures Records(Replay(commits), commits[k].txn, commits[k].req) {
        assert commits[..n][k] == commits[k];
        assert Records(Replay(commits[..n]), commits[k].txn, commits[k].req);
      }
    }
  }

  lemma BeforeLast(commits: seq<Commit>, wn: nat, ln: nat)
    requires History(commits) && commits != [] && forall j :: 0 <= j < |commits| ==> IdsBelow(commits[j], wn, ln)
    ensures var init := commits[..|commits| - 1];
            History(init) && WalletsOk(Replay(init), wn) && Legal(Replay(init), commits[|commits| - 1])
  {
    HistoryKeepsDbOk(commits[..|commits| - 1], wn, ln);
  }

  lemma {:induction false} HistoryInserts(commits: seq<Commit>, wn: nat, ln: nat)
    requires History(commits) && forall j :: 0 <= j < |commits| ==> IdsBelow(commits[j], wn, ln)
    ensures forall id :: id in Replay(commits).txns ==>
              exists k :: 0 <= k < |commits| && commits[k].Transfer? && commits[k].txn == id
  {
    hide Records, Legal, Apply, DbOk;
    if commits != [] {
      var n := |commits| - 1;
      var init := commits[..n];
      HistoryInserts(init, wn, ln);
      BeforeLast(commits, wn, ln);
      ApplyKeepsRecords(Replay(init), commits[n], wn, ln);
      forall id | id in Replay(commits).txns
        ensures exists k :: 0 <= k < |commits| && commits[k].Transfer? && commits[k].txn == id
      {
        if id in Replay(init).txns {
          var k :| 0 <= k < |init| && init[k].Transfer? && init[k].txn == id;
          assert commits[k].txn == id;
        } else {
          assert commits[n].Transfer? && commits[n].txn == id;
        }
      }
    }
  }

  /** Every committed transfer left the row that its request asked for, and there are no other rows: parties,
      amount, description, time, no receipt yet, and PENDING exactly above the threshold. */
  lemma RowsRecordRequests(t: State)
    requires Reachable(t)
    ensures forall k :: 0 <= k < |t.commits| && t.commits[k].Transfer? ==>
              var c := t.commits[k];
              && c.txn in t.db.txns
              && var r := t.db.txns[c.txn];
                 && c.req.amount == Some(r.amount) && r.description == c.req.description && r.createdAt == c.req.startedAt
                 && r.url.None? && r.objectKey.None?
                 && (r.status.Pending? <==> r.amount > c.req.threshold) && (r.status.NotRequired? <==> r.amount <= c.req.threshold)
                 && r.fromWallet in t.db.wallets && t.db.wallets[r.fromWallet].userId == c.req.fromUser
                 && r.toWallet in t.db.wallets && t.db.wallets[r.toWallet].userId == c.req.toUser
    ensures forall id :: id in t.db.txns ==> exists k :: 0 <= k < |t.commits| && t.commits[k].Transfer? && t.commits[k].txn == id
  {
    ReachableInv(t);
    HistoryRecords(t.commits, t.nextWallet, t.nextLedger);
    HistoryInserts(t.commits, t.nextWallet, t.nextLedger);
    forall k | 0 <= k < |t.commits| && t.commits[k].Transfer? ensures Records(t.db, t.commits[k].txn, t.commits[k].req) {}
  }

  /** A successful call is answered with the status of the row that it committed. */
  lemma AnswerIsRowStatus(t: State, f: Finished)
    requires Reachable(t) && f in t.finished && f.outcome.Done?
    ensures f.at < |t.commits| && t.commits[f.at].Transfer? && t.commits[f.at].req == f.req
    ensures t.commits[f.at].txn in t.db.txns && t.db.txns[t.commits[f.at].txn].status == f.outcome.status
  {
    ReachableInv(t);
    var k :| 0 <= k < |t.finished| && t.finished[k] == f;
    assert Answered(t.commits, t.finished[k]);
    AnswersMean(t, f);
    RowsRecordRequests(t);
  }

  // ----- Constraints -----

  /** The CHECK, UNIQUE and foreign key constraints, one by one, in every reachable state. */
  lemma ConstraintsHold(t: State)
    requires Reachable(t)
    ensures forall w :: w in t.db.wallets ==> t.db.wallets[w].balance >= 0 && t.db.wallets[w].userId in t.db.users
    ensures forall v, w :: v in t.db.wallets && w in t.db.wallets && t.db.wallets[v].userId == t.db.wallets[w].userId ==> v == w
    ensures forall id :: id in t.db.txns ==>
              var x := t.db.txns[id];
              && x.amount > 0 && x.fromWallet != x.toWallet && x.fromWallet in t.db.wallets && x.toWallet in t.db.wallets
              && (x.status.Generated? <==> x.url.Some? && x.objectKey.Some?)
    ensures forall k :: k in t.db.ledger ==>
              var r := t.db.ledger[k];
              && r.amount > 0 && r.before >= 0 && r.after >= 0 && r.walletId in t.db.wallets
              && (r.txn.None? <==> r.entryType.Opening?) && (r.txn.Some? ==> r.txn.value in t.db.txns)
              && (r.entryType.Debit? ==> r.after == r.before - r.amount)
              && (r.entryType.Credit? ==> r.after == r.before + r.amount)
              && (r.entryType.Opening? ==> r.before == 0 && r.after == r.amount)
    ensures forall j, k ::
              j in t.db.ledger && k in t.db.ledger && t.db.ledger[j].walletId == t.db.ledger[k].walletId &&
              t.db.ledger[j].txn.Some? && t.db.ledger[j].txn == t.db.ledger[k].txn ==>
                j == k
  {
    ReachableInv(t);
    InvDbOk(t);
    forall id | id in t.db.txns ensures FullyPosted(t.db, id) {}
    forall k | k in t.db.ledger ensures Explained(t.db, k) {}
  }

  /** The unique key over (transaction, wallet): a transaction cannot post twice on one wallet, whatever the
      amount, and the violation is what the update then raises. */
  lemma SecondPostingRejected(view: Db, txn: TxnId, w: WalletId, b: int, id: LedgerId, k: LedgerId)
    requires w in view.wallets && 0 <= view.wallets[w].balance <= MAX_BIGINT && 0 <= b <= MAX_BIGINT
    requires b != view.wallets[w].balance
    requires k in view.ledger && view.ledger[k].txn == Some(txn) && view.ledger[k].walletId == w
    ensures UpdateBalance(view, Some(txn), w, b, id) == Failure(UniqueViolation)
  {
    var row := LedgerRow(w, Some(txn), if b < view.wallets[w].balance then Debit else Credit,
                         if b < view.wallets[w].balance then view.wallets[w].balance - b else b - view.wallets[w].balance,
                         view.wallets[w].balance, b);
    assert LedgerKeyTaken(view.ledger, row);
  }

  /** An UPDATE of a balance, answer by answer: the column type, the CHECK, the trigger, the unique key; an accepted
      one writes the wallet, and one ledger row from the old balance to the new one unless these are equal. */
  lemma UpdateAnswers(view: Db, setting: Option<TxnId>, w: WalletId, b: int, id: LedgerId)
    requires w in view.wallets && 0 <= view.wallets[w].balance <= MAX_BIGINT
    ensures var r := UpdateBalance(view, setting, w, b, id);
            var was, legal := view.wallets[w].balance, 0 <= b <= 0x7FFF_FFFF_FFFF_FFFF;
            var posted := exists k :: k in view.ledger && view.ledger[k].txn == setting && view.ledger[k].walletId == w;
            && (r == Failure(OutOfRange) <==> b < -0x8000_0000_0000_0000 || b > 0x7FFF_FFFF_FFFF_FFFF)
            && (r == Failure(CheckViolation) <==> -0x8000_0000_0000_0000 <= b < 0)
            && (r == Failure(WL006) <==> legal && b != was && setting.None?)
            && (r == Failure(UniqueViolation) <==> legal && b != was && setting.Some? && posted)
            && (r.Success? <==> legal && (b == was || (setting.Some? && !posted)))
            && (r.Success? ==>
                  && r.value.users == map[] && r.value.txns == map[]
                  && r.value.wallets == map[w := Wallet(view.wallets[w].userId, b)]
                  && (b == was ==> r.value.ledger == map[])
                  && (b < was ==> r.value.ledger == map[id := LedgerRow(w, setting, Debit, was - b, was, b)])
                  && (b > was ==> r.value.ledger == map[id := LedgerRow(w, setting, Credit, b - was, was, b)]))
  {
  }

  // ----- Registrations and lost connections -----

  ghost predicate NamesUnique(users: map<UserId, string>) {
    forall u, v :: u in users && v in users && users[u] == users[v] ==> u == v
  }

  lemma {:induction false} HistoryNames(commits: seq<Commit>)
    requires History(commits)
    ensures NamesUnique(Replay(commits).users)
  {
    if commits != [] { HistoryNames(commits[..|commits| - 1]); }
  }

  /** No two users share a name, whatever registrations overlap. */
  lemma UsernamesAreUnique(t: State)
    requires Reachable(t)
    ensures forall u, v :: u in t.db.users && v in t.db.users && t.db.users[u] == t.db.users[v] ==> u == v
  {
    ReachableInv(t);
    HistoryNames(t.commits);
  }

  /** A registration gets past its first statement exactly if nobody has the name, past its second exactly if its
      balance is legal, and its commit is recorded as that registration. */
  lemma RegistrationRefused(t: State, step: Step)
    requires Reachable(t) && Enabled(t, step)
    ensures var p, u := t.sessions[step.i].phase, Next(t, step);
            && (step.InsertUser? ==>
                  && |u.sessions| == |t.sessions| && u.db == t.db
                  && (u.sessions[step.i] == IDLE <==> exists x :: x in t.db.users && t.db.users[x] == p.name)
                  && (u.sessions[step.i] != IDLE ==> u.sessions[step.i].phase == UserAdded(p.name, p.balance, t.nextUser)))
            && (step.InsertWallet? ==>
                  && |u.sessions| == |t.sessions| && u.db == t.db
                  && (u.sessions[step.i] == IDLE <==> p.balance < 0 || p.balance > 0x7FFF_FFFF_FFFF_FFFF)
                  && (u.sessions[step.i] != IDLE ==>
                        u.sessions[step.i].phase == WalletAdded(p.name, p.balance, p.userId, t.nextWallet, t.nextLedger)))
            && (step.CommitRegistration? ==>
                  && u.commits == t.commits + [Registration(p.name, p.userId, p.walletId, p.balance, p.openingId)]
                  && History(u.commits) && u.db == Replay(u.commits))
  {
    if step.CommitRegistration? {
      NextIsReplay(t, step);
    } else if step.InsertUser? {
      NameDecides(t, step.i);
    }
  }

  lemma NextIsReplay(t: State, step: Step)
    requires Reachable(t) && Enabled(t, step)
    ensures History(Next(t, step).commits) && Next(t, step).db == Replay(Next(t, step).commits)
  {
    hide Enabled, Next;
    ReachableInv(t);
    StepKeepsInv(t, step);
  }

  lemma KeyOf<K, V>(m: map<K, V>, v: V) returns (k: K)
    requires v in m.Values
    ensures k in m && m[k] == v
  {
    k :| k in m && m[k] == v;
  }

  lemma NameDecides(t: State, i: nat)
    requires i < |t.sessions| && t.sessions[i].phase.Registering?
    ensures AddUser(t, i).sessions[i] == IDLE <==> exists x :: x in t.db.users && t.db.users[x] == t.sessions[i].phase.name
  {
    var name := t.sessions[i].phase.name;
    if name in t.db.users.Values {
      var x := KeyOf(t.db.users, name);
    } else {
      assert AddUser(t, i).sessions[i].phase.UserAdded?;
    }
  }

  /** A connection can be lost in the middle of any statement. The tables stay as they are, its locks and writes are
      gone, and the call, if it was one, is recorded as lost. */
  lemma LossUndoes(t: State, i: nat)
    requires i < |t.sessions| && !t.sessions[i].phase.Idle?
    ensures Enabled(t, Kill(i))
    ensures var p, u := t.sessions[i].phase, Next(t, Kill(i));
            && u.db == t.db && u.commits == t.commits && u.sessions == t.sessions[i := Session(Idle, {}, None, EMPTY_DB)]
            && (p.Registering? || p.UserAdded? || p.WalletAdded? ==> u.finished == t.finished)
            && (!(p.Registering? || p.UserAdded? || p.WalletAdded?) ==>
                  u.finished == t.finished + [Finished(p.call.req, p.call.began, |t.commits|, |t.commits|, Lost)])
  {
  }

  // ----- Bounds -----

  /** While the money put in stays within the safe integers, no call ever leaves the BIGINT range. */
  lemma SafeMoneyNeverOverflows(t: State, f: Finished)
    requires Reachable(t) && f in t.finished && SumOpenings(t.db.ledger, t.nextLedger) <= 0x1F_FFFF_FFFF_FFFF
    ensures f.outcome != Raised(OutOfRange)
  {
    OnlyDocumentedFailures(t, f);
  }
}
