/** The stored procedure, its triggers and the registration transaction as one connection executes them
    on the tables in place, with nobody else running. */
module TransferProcedure {
  import opened Wrappers
  import opened Schema
  import opened Ledger
  import opened Serial
  import opened Receipts
  import opened Recovery
  import Engine

  /** SELECT id FROM wallets WHERE user_id IN (a, b) ORDER BY id, for ids below n. */
  function SelectIds(wallets: map<WalletId, Wallet>, a: UserId, b: UserId, n: nat): seq<WalletId> {
    if n == 0 then []
    else SelectIds(wallets, a, b, n - 1) +
         if n - 1 in wallets && (wallets[n - 1].userId == a || wallets[n - 1].userId == b) then [n - 1] else []
  }

  /** One wallet per user: the query yields at most the two wallets, lower id first. */
  lemma {:induction false} SelectIsLockOrder(wallets: map<WalletId, Wallet>, a: UserId, b: UserId, n: nat)
    requires OneWalletPerUser(wallets) && a != b
    ensures var x, y := WalletOf(wallets, a), WalletOf(wallets, b);
            SelectIds(wallets, a, b, n) ==
            Engine.InOrder(if x.Some? && x.value < n then x else None, if y.Some? && y.value < n then y else None)
  {
    if n > 0 {
      SelectIsLockOrder(wallets, a, b, n - 1);
      if n - 1 in wallets { SoleWallet(wallets, n - 1); }
    }
  }

  lemma OverlayWallet(db: Db, w: WalletId, v: Wallet)
    ensures Overlay(db, Db(map[], map[w := v], map[], map[])) == db.(wallets := db.wallets[w := v])
  {
    assert db.users + map[] == db.users && db.txns + map[] == db.txns && db.ledger + map[] == db.ledger;
  }

  lemma OverlayRow(db: Db, w: WalletId, v: Wallet, id: LedgerId, row: LedgerRow)
    ensures Overlay(db, Db(map[], map[w := v], map[], map[id := row])) ==
            db.(wallets := db.wallets[w := v], ledger := db.ledger[id := row])
  {
    assert db.users + map[] == db.users && db.txns + map[] == db.txns;
  }

  class WalletDatabase {
    var users: map<UserId, string>
    var wallets: map<WalletId, Wallet>
    var transactions: map<TxnId, Transaction>
    var ledger: map<LedgerId, LedgerRow>
    var nextUser: UserId
    var nextWallet: WalletId
    var nextLedger: LedgerId
    var currentTransactionId: Option<TxnId>

    function Contents(): Db
      reads this
    {
      Db(users, wallets, transactions, ledger)
    }

    /** Between statements: the tables are sound, the sequences are ahead of them, no setting is left. */
    ghost predicate Valid()
      reads this
    {
      && DbOk(Contents(), nextWallet, nextLedger)
      && (forall w :: w in wallets ==> wallets[w].userId in users)
      && (forall u :: u in users ==> u < nextUser)
      && currentTransactionId.None?
    }

    constructor ()
      ensures Valid() && Contents() == EMPTY_DB
    {
      users, wallets, transactions, ledger := map[], map[], map[], map[];
      nextUser, nextWallet, nextLedger := 1, 1, 1;
      currentTransactionId := None;
      new;
      EmptyDbOk(nextWallet, nextLedger);
    }

    /** ROLLBACK: the tables return to what they were; sequences do not. */
    method Rollback(saved: Db)
      modifies this`users, this`wallets, this`transactions, this`ledger, this`currentTransactionId
      ensures Contents() == saved && currentTransactionId.None?
    {
      users, wallets, transactions, ledger := saved.users, saved.wallets, saved.txns, saved.ledger;
      currentTransactionId := None;
    }

    /** fn_wallet_balance_ledger after an UPDATE OF balance: appends one row, or raises WL006. */
    method AppendBalanceRow(walletId: WalletId, oldBalance: int, newBalance: int) returns (raised: Option<SqlState>)
      requires InBigint(oldBalance) && InBigint(newBalance) && oldBalance >= 0 && newBalance >= 0 && oldBalance != newBalance
      modifies this`ledger, this`nextLedger
      ensures currentTransactionId.None? ==> raised == Some(WL006) && ledger == old(ledger) && nextLedger == old(nextLedger)
      ensures currentTransactionId.Some? ==>
                var row := LedgerRow(walletId, currentTransactionId,
                                     if newBalance < oldBalance then Debit else Credit,
                                     if newBalance < oldBalance then oldBalance - newBalance else newBalance - oldBalance,
                                     oldBalance, newBalance);
                && nextLedger == old(nextLedger) + 1
                && if LedgerKeyTaken(old(ledger), row) then raised == Some(UniqueViolation) && ledger == old(ledger)
                   else raised.None? && ledger == old(ledger)[old(nextLedger) := row]
    {
      if currentTransactionId.None? { return Some(WL006); }
      var entryType := if newBalance < oldBalance then Debit else Credit;
      var amount := if newBalance < oldBalance then oldBalance - newBalance else newBalance - oldBalance;
      var row := LedgerRow(walletId, currentTransactionId, entryType, amount, oldBalance, newBalance);
      var id := nextLedger;
      nextLedger := nextLedger + 1;
      if !LedgerChecks(row) { return Some(CheckViolation); }
      if LedgerKeyTaken(ledger, row) { return Some(UniqueViolation); }
      ledger := ledger[id := row];
      return None;
    }

    /** UPDATE wallets SET balance = newBalance WHERE id = walletId, with its CHECK and its trigger. */
    method SetBalance(walletId: WalletId, newBalance: int) returns (raised: Option<SqlState>)
      requires walletId in wallets && 0 <= wallets[walletId].balance <= MAX_BIGINT
      modifies this`wallets, this`ledger, this`nextLedger
      ensures match UpdateBalance(old(Contents()), currentTransactionId, walletId, newBalance, old(nextLedger))
              case Failure(e) => raised == Some(e)
              case Success(w) =>
                && raised.None? && Contents() == Overlay(old(Contents()), w)
                && (old(nextLedger) in w.ledger ==> nextLedger == old(nextLedger) + 1)
      ensures nextLedger >= old(nextLedger)
    {
      if !InBigint(newBalance) { return Some(OutOfRange); }
      var current := wallets[walletId];
      var updated := current.(balance := newBalance);
      if !WalletChecks(updated) { return Some(CheckViolation); }
      ghost var before := Contents();
      wallets := wallets[walletId := updated];
      if current.balance != newBalance {
        raised := AppendBalanceRow(walletId, current.balance, newBalance);
        if raised.None? { OverlayRow(before, walletId, updated, old(nextLedger), ledger[old(nextLedger)]); }
      } else {
        raised := None;
        OverlayWallet(before, walletId, updated);
      }
    }

    /** The FOR loop over the locked rows. */
    method FetchWallets(fromUser: UserId, toUser: UserId) returns (from: Option<WalletId>, to: Option<WalletId>)
      requires Valid() && fromUser != toUser
      ensures from == WalletOf(wallets, fromUser) && to == WalletOf(wallets, toUser)
    {
      var rows := SelectIds(wallets, fromUser, toUser, nextWallet);
      ghost var a, b := WalletOf(wallets, fromUser), WalletOf(wallets, toUser);
      SelectIsLockOrder(wallets, fromUser, toUser, nextWallet);
      from, to := None, None;
      for k := 0 to |rows|
        invariant from == if a.Some? && a.value in rows[..k] then a else None
        invariant to == if b.Some? && b.value in rows[..k] then b else None
      {
        var w := rows[k];
        if wallets[w].userId == fromUser {
          from := Some(w);
        } else {
          to := Some(w);
        }
      }
      assert rows[..|rows|] == rows;
      assert a.Some? ==> a.value in rows;
      assert b.Some? ==> b.value in rows;
    }

    /** UPDATE wallets SET balance = balance - amount, inside a transfer. */
    method TakeFrom(w: WalletId, amount: int) returns (raised: Option<SqlState>)
      requires w in wallets && 0 < amount <= wallets[w].balance <= MAX_BIGINT && currentTransactionId.Some?
      requires forall k :: k in ledger ==> ledger[k].txn != currentTransactionId || ledger[k].walletId != w
      modifies this`wallets, this`ledger, this`nextLedger
      ensures raised.None? && nextLedger == old(nextLedger) + 1
      ensures wallets == old(wallets)[w := old(wallets)[w].(balance := old(wallets)[w].balance - amount)]
      ensures ledger == old(ledger)[old(nextLedger) :=
                LedgerRow(w, currentTransactionId, Debit, amount, old(wallets)[w].balance, old(wallets)[w].balance - amount)]
    {
      hide UpdateBalance, LedgerChecks, Overlay;
      ghost var db, v := Contents(), wallets[w];
      DebitAccepted(db, currentTransactionId.value, w, amount, nextLedger);
      OverlayRow(db, w, v.(balance := v.balance - amount), nextLedger,
                 LedgerRow(w, currentTransactionId, Debit, amount, v.balance, v.balance - amount));
      raised := SetBalance(w, wallets[w].balance - amount);
    }

    /** UPDATE wallets SET balance = balance + amount, inside a transfer. */
    method GiveTo(w: WalletId, amount: int) returns (raised: Option<SqlState>)
      requires w in wallets && 0 <= wallets[w].balance <= MAX_BIGINT && 0 < amount <= MAX_BIGINT && currentTransactionId.Some?
      requires forall k :: k in ledger ==> ledger[k].txn != currentTransactionId || ledger[k].walletId != w
      modifies this`wallets, this`ledger, this`nextLedger
      ensures nextLedger >= old(nextLedger)
      ensures if old(wallets)[w].balance + amount > MAX_BIGINT then raised == Some(OutOfRange)
              else
                && raised.None? && nextLedger == old(nextLedger) + 1
                && wallets == old(wallets)[w := old(wallets)[w].(balance := old(wallets)[w].balance + amount)]
                && ledger == old(ledger)[old(nextLedger) :=
                     LedgerRow(w, currentTransactionId, Credit, amount, old(wallets)[w].balance, old(wallets)[w].balance + amount)]
    {
      hide UpdateBalance, LedgerChecks, Overlay;
      ghost var db, v := Contents(), wallets[w];
      CreditAccepted(db, currentTransactionId.value, w, amount, nextLedger);
      OverlayRow(db, w, v.(balance := v.balance + amount), nextLedger,
                 LedgerRow(w, currentTransactionId, Credit, amount, v.balance, v.balance + amount));
      raised := SetBalance(w, wallets[w].balance + amount);
    }

    /** INSERT INTO transactions, set_config, the two UPDATEs, and set_config with the empty string. */
    method Post(req: Request, from: WalletId, to: WalletId, newId: TxnId) returns (raised: Option<SqlState>)
      requires DbOk(Contents(), nextWallet, nextLedger) && newId !in transactions && req.Value() > 0
      requires Some(from) == WalletOf(wallets, req.fromUser) && Some(to) == WalletOf(wallets, req.toUser)
      requires req.fromUser != req.toUser && wallets[from].balance >= req.Value()
      modifies this`wallets, this`transactions, this`ledger, this`nextLedger, this`currentTransactionId
      ensures nextLedger >= old(nextLedger)
      ensures if old(wallets)[to].balance + req.Value() > MAX_BIGINT then raised == Some(OutOfRange)
              else
                && raised.None? && currentTransactionId.None? && nextLedger == old(nextLedger) + 2
                && Posted(old(Contents()), req, from, to, newId, old(nextLedger), Contents())
    {
      ghost var d := Contents();
      NoRowsYet(d, newId, nextWallet, nextLedger);
      transactions := transactions[newId := NewTransaction(req, from, to)];
      currentTransactionId := Some(newId);
      raised := TakeFrom(from, req.Value());
      if raised.Some? { return; }
      raised := GiveTo(to, req.Value());
      if raised.Some? { return; }
      currentTransactionId := None;
    }

    /** The posting is one serial transfer. */
    method PostTransfer(req: Request, from: WalletId, to: WalletId, newId: TxnId) returns (raised: Option<SqlState>)
      requires DbOk(Contents(), nextWallet, nextLedger) && newId !in transactions && req.Value() > 0
      requires Some(from) == WalletOf(wallets, req.fromUser) && Some(to) == WalletOf(wallets, req.toUser)
      requires req.fromUser != req.toUser && wallets[from].balance >= req.Value()
      modifies this`wallets, this`transactions, this`ledger, this`nextLedger, this`currentTransactionId
      ensures nextLedger >= old(nextLedger)
      ensures if old(wallets)[to].balance + req.Value() > MAX_BIGINT then raised == Some(OutOfRange)
              else
                && raised.None? && currentTransactionId.None?
                && DbOk(Contents(), nextWallet, nextLedger)
                && var c := Transfer(req, newId, old(nextLedger), old(nextLedger) + 1);
                   Legal(old(Contents()), c) && Contents() == Apply(old(Contents()), c)
    {
      hide DbOk, Legal, Apply, Posted;
      ghost var d, ln := Contents(), nextLedger;
      raised := Post(req, from, to, newId);
      if raised.None? {
        PostedIsTransfer(d, req, from, to, newId, Contents(), nextWallet, ln);
      }
    }

    /** What follows the checks; a raise rolls everything back. */
    method PostOrRollback(req: Request, from: WalletId, to: WalletId, newId: TxnId) returns (raised: Option<SqlState>)
      requires Valid() && newId !in transactions && req.Value() > 0
      requires Some(from) == WalletOf(wallets, req.fromUser) && Some(to) == WalletOf(wallets, req.toUser)
      requires req.fromUser != req.toUser && wallets[from].balance >= req.Value()
      modifies this
      ensures Valid()
      ensures if old(wallets)[to].balance + req.Value() > MAX_BIGINT
              then raised == Some(OutOfRange) && Contents() == old(Contents())
              else
                var c := Transfer(req, newId, old(nextLedger), old(nextLedger) + 1);
                raised.None? && Legal(old(Contents()), c) && Contents() == Apply(old(Contents()), c)
    {
      var saved := Contents();
      ghost var ln := nextLedger;
      raised := PostTransfer(req, from, to, newId);
      if raised.Some? {
        Rollback(saved);
        DbOkWiden(saved, nextWallet, ln, nextWallet, nextLedger);
      }
    }

    /** CALL transfer_funds in its own transaction: the answer is Decide's; a success has the effect of one
        serial transfer, anything else has no effect. */
    method TransferFunds(req: Request, newId: TxnId) returns (outcome: Outcome)
      requires Valid() && newId !in transactions
      modifies this
      ensures Valid()
      ensures outcome == Decide(old(Contents()), req)
      ensures if outcome.Done? then
                var c := Transfer(req, newId, old(nextLedger), old(nextLedger) + 1);
                Legal(old(Contents()), c) && Contents() == Apply(old(Contents()), c)
              else Contents() == old(Contents())
      ensures outcome.Done? ==>
                && newId in transactions
                && var t := transactions[newId];
                   && req.amount == Some(t.amount) && t.description == req.description && t.createdAt == req.startedAt
                   && t.url.None? && t.objectKey.None? && t.status == outcome.status
                   && (t.status.Pending? <==> t.amount > req.threshold) && (t.status.NotRequired? <==> t.amount <= req.threshold)
                   && Some(t.fromWallet) == WalletOf(old(wallets), req.fromUser)
                   && Some(t.toWallet) == WalletOf(old(wallets), req.toUser)
    {
      hide DbOk, Legal, Apply;
      ghost var before, ln, wn := Contents(), nextLedger, nextWallet;
      if req.amount.None? || req.amount.value <= 0 { return Raised(WL001); }
      if req.fromUser == req.toUser { return Raised(WL002); }
      var from, to := FetchWallets(req.fromUser, req.toUser);
      if from.None? { return Raised(WL003); }
      if to.None? { return Raised(WL004); }
      if wallets[from.value].balance < req.amount.value { return Raised(WL005); }
      var raised := PostOrRollback(req, from.value, to.value, newId);
      if raised.Some? { return Raised(raised.value); }
      TransferAsAsked(before, req, newId, ln, wn);
      outcome := Done(ReceiptNeeded(req.amount.value, req.threshold));
    }

    /** INSERT INTO wallets, with its trigger. */
    method InsertWallet(walletId: WalletId, userId: UserId, balance: int)
      modifies this`wallets, this`ledger, this`nextLedger
      ensures wallets == old(wallets)[walletId := Wallet(userId, balance)]
      ensures if balance > 0
              then ledger == old(ledger)[old(nextLedger) := LedgerRow(walletId, None, Opening, balance, 0, balance)]
                   && nextLedger == old(nextLedger) + 1
              else ledger == old(ledger) && nextLedger == old(nextLedger)
    {
      wallets := wallets[walletId := Wallet(userId, balance)];
      var opening := OpeningTrigger(walletId, balance);
      if opening.Some? {
        ledger := ledger[nextLedger := opening.value];
        nextLedger := nextLedger + 1;
      }
    }

    /** BEGIN; INSERT INTO users; INSERT INTO wallets with its OPENING row; COMMIT. A taken name or a balance
        outside the column's range leaves nothing behind. */
    method Register(name: string, balance: int) returns (ok: bool)
      requires Valid()
      modifies this
      ensures Valid()
      ensures ok <==> name !in old(users).Values && 0 <= balance <= MAX_BIGINT
      ensures if ok then
                var c := Registration(name, old(nextUser), old(nextWallet), balance, old(nextLedger));
                Legal(old(Contents()), c) && Contents() == Apply(old(Contents()), c)
              else Contents() == old(Contents())
      ensures ok ==>
                && old(nextUser) in users && users[old(nextUser)] == name
                && old(nextWallet) in wallets && wallets[old(nextWallet)] == Wallet(old(nextUser), balance)
    {
      if name in users.Values { return false; }
      var saved := Contents();
      ghost var wn, ln := nextWallet, nextLedger;
      var userId, walletId := nextUser, nextWallet;
      nextUser := userId + 1;
      users := users[userId := name];
      nextWallet := walletId + 1;
      ok := InBigint(balance) && WalletChecks(Wallet(userId, balance));
      if ok {
        InsertWallet(walletId, userId, balance);
        ghost var c := Registration(name, userId, walletId, balance, ln);
        CommitKeepsTables(saved, c, wn, ln, nextWallet, nextLedger);
        assert Contents() == Apply(saved, c);
      } else {
        Rollback(saved);
        DbOkWiden(saved, wn, ln, nextWallet, nextLedger);
      }
    }

    // ----- src/repositories/transaction.repository -----

    /** UPDATE transactions SET receipt_status = 'GENERATED', ... WHERE id. */
    method MarkReceiptGenerated(id: TxnId, key: string, url: string) returns (updated: bool)
      requires Valid()
      modifies this`transactions
      ensures Valid() && transactions == MarkGenerated(old(transactions), id, key, url)
      ensures updated <==> id in transactions
      ensures transactions.Keys == old(transactions).Keys
      ensures forall x :: x in transactions && x != id ==> transactions[x] == old(transactions)[x]
      ensures id in transactions ==>
                && transactions[id].status.Generated?
                && transactions[id].objectKey == Some(key) && transactions[id].url == Some(url)
                && SameTransfer(old(transactions)[id], transactions[id])
    {
      updated := id in transactions;
      if updated {
        ghost var before := Contents();
        assert FullyPosted(before, id);
        transactions := transactions[id := transactions[id].(status := Generated, objectKey := Some(key), url := Some(url))];
        ReceiptKeepsDbOk(before, id, transactions[id], nextWallet, nextLedger);
      }
    }

    /** UPDATE transactions SET receipt_status = 'FAILED' WHERE id AND receipt_status = 'PENDING'. */
    method MarkReceiptFailed(id: TxnId) returns (updated: bool)
      requires Valid()
      modifies this`transactions
      ensures Valid() && transactions == MarkFailed(old(transactions), id)
      ensures updated <==> id in old(transactions) && old(transactions)[id].status.Pending?
      ensures transactions.Keys == old(transactions).Keys
      ensures forall x :: x in transactions && x != id ==> transactions[x] == old(transactions)[x]
      ensures id in transactions ==>
                && transactions[id].status == (if updated then Failed else old(transactions)[id].status)
                && transactions[id].objectKey == old(transactions)[id].objectKey && transactions[id].url == old(transactions)[id].url
                && SameTransfer(old(transactions)[id], transactions[id])
    {
      updated := id in transactions && transactions[id].status.Pending?;
      if updated {
        ghost var before := Contents();
        assert FullyPosted(before, id);
        transactions := transactions[id := transactions[id].(status := Failed)];
        ReceiptKeepsDbOk(before, id, transactions[id], nextWallet, nextLedger);
      }
    }

    /** SELECT id ... WHERE 'PENDING' and old enough ORDER BY created_at LIMIT limit. */
    method FindPendingReceiptIds(now: int, olderThan: int, limit: nat) returns (ids: seq<TxnId>)
      ensures IsScan(transactions, now, olderThan, limit, ids)
      ensures forall k :: 0 <= k < |ids| ==>
                ids[k] in transactions && transactions[ids[k]].status.Pending? && transactions[ids[k]].createdAt < now - olderThan
      ensures forall j, k :: 0 <= j < k < |ids| ==>
                ids[j] != ids[k] && transactions[ids[j]].createdAt <= transactions[ids[k]].createdAt
      ensures |ids| <= limit
      ensures forall x :: x in transactions && transactions[x].status.Pending? && transactions[x].createdAt < now - olderThan && x !in ids ==>
                |ids| == limit && forall k :: 0 <= k < |ids| ==> transactions[ids[k]].createdAt <= transactions[x].createdAt
    {
      hide AllOverdue, Elements, IsScan;
      ids := [];
      ScanStarts(transactions, now, olderThan);
      var rest := AllOverdue(transactions, now, olderThan);
      while |ids| < limit && rest != {}
        invariant IsScan(transactions, now, olderThan, |ids|, ids) && |ids| <= limit
        invariant rest == AllOverdue(transactions, now, olderThan) - Elements(ids)
        decreases |rest|
      {
        ghost var oldest := Oldest(transactions, rest);
        var x :| x in rest && forall y :: y in rest ==> transactions[x].createdAt <= transactions[y].createdAt;
        ScanOneMore(transactions, now, olderThan, ids, x);
        ids, rest := ids + [x], rest - {x};
      }
      if rest == {} { FullScan(transactions, now, olderThan, limit, ids); }
      ScanMeans(transactions, now, olderThan, limit, ids);
    }
  }

  /** The tables after Post: what a serial transfer writes, field by field. */
  ghost predicate Posted(db: Db, req: Request, from: WalletId, to: WalletId, txn: TxnId, id: LedgerId, d: Db)
    requires from in db.wallets && to in db.wallets
  {
    var a, x, y := req.Value(), db.wallets[from], db.wallets[to];
    && d.users == db.users
    && d.wallets == db.wallets[from := x.(balance := x.balance - a)][to := y.(balance := y.balance + a)]
    && d.txns == db.txns[txn := NewTransaction(req, from, to)]
    && d.ledger == db.ledger[id := LedgerRow(from, Some(txn), Debit, a, x.balance, x.balance - a)]
                            [id + 1 := LedgerRow(to, Some(txn), Credit, a, y.balance, y.balance + a)]
  }

  lemma TransferAsAsked(db: Db, req: Request, txn: TxnId, ln: nat, wn: nat)
    requires DbOk(db, wn, ln) && Legal(db, Transfer(req, txn, ln, ln + 1))
    ensures var d := Apply(db, Transfer(req, txn, ln, ln + 1));
            && txn in d.txns
            && var t := d.txns[txn];
               && req.amount == Some(t.amount) && t.description == req.description && t.createdAt == req.startedAt
               && t.url.None? && t.objectKey.None?
               && (t.status.Pending? <==> t.amount > req.threshold) && (t.status.NotRequired? <==> t.amount <= req.threshold)
               && Some(t.fromWallet) == WalletOf(db.wallets, req.fromUser)
               && Some(t.toWallet) == WalletOf(db.wallets, req.toUser)
  {
    var c := Transfer(req, txn, ln, ln + 1);
    TransferInserts(db, c);
    hide Apply, Legal;
    SoleWallet(db.wallets, Apply(db, c).txns[txn].fromWallet);
    SoleWallet(db.wallets, Apply(db, c).txns[txn].toWallet);
  }

  lemma NextIdsAreLegal(db: Db, req: Request, txn: TxnId, wn: nat, ln: nat)
    requires WalletsOk(db, wn) && RowsOk(db, ln) && txn !in db.txns && Decide(db, req).Done?
    ensures Legal(db, Transfer(req, txn, ln, ln + 1))
  {
  }

  lemma PostedIsTransfer(db: Db, req: Request, from: WalletId, to: WalletId, txn: TxnId, d: Db, wn: nat, ln: nat)
    requires DbOk(db, wn, ln) && txn !in db.txns && Decide(db, req).Done?
    requires WalletOf(db.wallets, req.fromUser) == Some(from) && WalletOf(db.wallets, req.toUser) == Some(to)
    requires Posted(db, req, from, to, txn, ln, d)
    ensures var c := Transfer(req, txn, ln, ln + 1); Legal(db, c) && d == Apply(db, c)
    ensures DbOk(d, wn, ln + 2)
  {
    var c := Transfer(req, txn, ln, ln + 1);
    NextIdsAreLegal(db, req, txn, wn, ln);
    assert d == Apply(db, c);
    CommitKeepsTables(db, c, wn, ln, wn, ln + 2);
  }

  lemma CommitKeepsTables(db: Db, c: Commit, wn: nat, ln: nat, wn': nat, ln': nat)
    requires DbOk(db, wn, ln) && Legal(db, c) && wn <= wn' && ln <= ln' && IdsBelow(c, wn', ln')
    ensures DbOk(Apply(db, c), wn', ln')
  {
    DbOkWiden(db, wn, ln, wn', ln');
    ApplyKeepsDbOk(db, c, wn', ln');
  }

  /** Writing receipt columns disturbs neither the ledger's correspondence nor any balance. */
  lemma ReceiptKeepsDbOk(db: Db, id: TxnId, t: Transaction, wn: nat, ln: nat)
    requires DbOk(db, wn, ln) && id in db.txns && SameTransfer(db.txns[id], t) && TransactionChecks(t)
    ensures DbOk(db.(txns := db.txns[id := t]), wn, ln)
  {
    var d := db.(txns := db.txns[id := t]);
    forall x | x in d.txns ensures FullyPosted(d, x) {
      assert FullyPosted(db, x);
      var u := db.txns[x];
      var j :| j in db.ledger && Posts(db.ledger[j], x, u, u.fromWallet);
      var k :| k in db.ledger && Posts(db.ledger[k], x, u, u.toWallet);
      assert Posts(d.ledger[j], x, d.txns[x], u.fromWallet) && Posts(d.ledger[k], x, d.txns[x], u.toWallet);
    }
    forall k | k in d.ledger ensures Explained(d, k) { assert Explained(db, k); }
    forall w: WalletId ensures ChainOk(d, w, ln) { assert ChainOk(db, w, ln); }
  }

  lemma NoRowsYet(db: Db, txn: TxnId, wn: nat, ln: nat)
    requires DbOk(db, wn, ln) && txn !in db.txns
    ensures forall k :: k in db.ledger ==> db.ledger[k].txn != Some(txn)
  {
    forall k | k in db.ledger ensures db.ledger[k].txn != Some(txn) { assert Explained(db, k); }
  }
}
