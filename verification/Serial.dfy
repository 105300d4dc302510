/** The specification of the money engine: transfers and registrations executed one at a time.
    What holds of every history of such atomic commits is proved here once; the stored procedure
    and the concurrent engine are both shown to implement it. */
module Serial {
  import opened Wrappers
  import opened Schema
  import opened Ledger

  /** One CALL transfer_funds; `startedAt` is now() of its transaction, `amount` may be NULL. */
  datatype Request = Request(
    fromUser: UserId,
    toUser: UserId,
    amount: Option<int>,
    description: Option<string>,
    threshold: int,
    startedAt: int)
  {
    /** The amount of a call that passed the argument checks. */
    function Value(): int {
      if amount.Some? then amount.value else 0
    }
  }

  /** How a call ended: committed, raised, or lost with its connection. */
  datatype Outcome = Done(status: ReceiptStatus) | Raised(state: SqlState) | Lost

  /** What a committed unit of work did, with the ids it drew. A registration with balance 0 writes no
      OPENING row and its `openingId` means nothing. */
  datatype Commit =
    | Transfer(req: Request, txn: TxnId, debitId: LedgerId, creditId: LedgerId)
    | Registration(name: string, userId: UserId, walletId: WalletId, balance: int, openingId: LedgerId)

  function ReceiptNeeded(amount: int, threshold: int): ReceiptStatus {
    if amount > threshold then Pending else NotRequired
  }

  /** What an isolated call on `db` answers. */
  ghost function Decide(db: Db, req: Request): Outcome {
    if req.Value() <= 0 then Raised(WL001)
    else if req.fromUser == req.toUser then Raised(WL002)
    else
      var from := WalletOf(db.wallets, req.fromUser);
      var to := WalletOf(db.wallets, req.toUser);
      if from.None? then Raised(WL003)
      else if to.None? then Raised(WL004)
      else if db.wallets[from.value].balance < req.Value() then Raised(WL005)
      else if db.wallets[to.value].balance + req.Value() > MAX_BIGINT then Raised(OutOfRange)
      else Done(ReceiptNeeded(req.Value(), req.threshold))
  }

  /** Every ledger row of wallet w has an id below `id`. */
  ghost predicate Newest(ledger: map<LedgerId, LedgerRow>, w: WalletId, id: LedgerId) {
    forall k :: k in ledger && ledger[k].walletId == w ==> k < id
  }

  ghost predicate Legal(db: Db, c: Commit) {
    match c
    case Transfer(req, txn, debitId, creditId) =>
      && Decide(db, req).Done?
      && txn !in db.txns
      && debitId !in db.ledger && creditId !in db.ledger && debitId != creditId
      && Newest(db.ledger, WalletOf(db.wallets, req.fromUser).value, debitId)
      && Newest(db.ledger, WalletOf(db.wallets, req.toUser).value, creditId)
    case Registration(name, userId, walletId, balance, openingId) =>
      && 0 <= balance <= MAX_BIGINT
      && userId !in db.users && name !in db.users.Values
      && walletId !in db.wallets
      && (forall w :: w in db.wallets ==> db.wallets[w].userId != userId)
      && (balance > 0 ==> openingId !in db.ledger && Newest(db.ledger, walletId, openingId))
  }

  function NewTransaction(req: Request, from: WalletId, to: WalletId): Transaction {
    Transaction(from, to, req.Value(), req.description,
                ReceiptNeeded(req.Value(), req.threshold), None, None, req.startedAt)
  }

  ghost function Apply(db: Db, c: Commit): Db
    requires Legal(db, c)
  {
    match c
    case Transfer(req, txn, debitId, creditId) =>
      var a := req.Value();
      var from, to := WalletOf(db.wallets, req.fromUser).value, WalletOf(db.wallets, req.toUser).value;
      var x, y := db.wallets[from], db.wallets[to];
      Db(db.users,
         db.wallets[from := x.(balance := x.balance - a)][to := y.(balance := y.balance + a)],
         db.txns[txn := NewTransaction(req, from, to)],
         db.ledger[debitId := LedgerRow(from, Some(txn), Debit, a, x.balance, x.balance - a)]
                  [creditId := LedgerRow(to, Some(txn), Credit, a, y.balance, y.balance + a)])
    case Registration(name, userId, walletId, balance, openingId) =>
      Db(db.users[userId := name],
         db.wallets[walletId := Wallet(userId, balance)],
         db.txns,
         if balance > 0
         then db.ledger[openingId := LedgerRow(walletId, None, Opening, balance, 0, balance)]
         else db.ledger)
  }

  // ----- What a call answers and writes, column by column -----

  /** The answers one by one, in the order of the checks. */
  lemma DecideMeans(db: Db, req: Request)
    requires OneWalletPerUser(db.wallets)
    ensures Decide(db, req) == Raised(WL001) <==> req.amount.None? || req.amount.value <= 0
    ensures Decide(db, req) == Raised(WL002) <==> req.amount.Some? && req.amount.value > 0 && req.fromUser == req.toUser
    ensures req.amount.Some? && req.amount.value > 0 && req.fromUser != req.toUser ==>
              && (Decide(db, req) == Raised(WL003) <==> forall w :: w in db.wallets ==> db.wallets[w].userId != req.fromUser)
              && (Decide(db, req) == Raised(WL004) <==>
                    && (exists w :: w in db.wallets && db.wallets[w].userId == req.fromUser)
                    && (forall w :: w in db.wallets ==> db.wallets[w].userId != req.toUser))
    ensures req.amount.Some? && req.amount.value > 0 && req.fromUser != req.toUser ==>
              forall v, w :: v in db.wallets && w in db.wallets && db.wallets[v].userId == req.fromUser && db.wallets[w].userId == req.toUser ==>
                && (Decide(db, req) == Raised(WL005) <==> db.wallets[v].balance < req.amount.value)
                && (Decide(db, req) == Raised(OutOfRange) <==>
                      db.wallets[v].balance >= req.amount.value && db.wallets[w].balance + req.amount.value > 0x7FFF_FFFF_FFFF_FFFF)
    ensures Decide(db, req).Done? ==>
              && req.amount.Some? && req.amount.value > 0
              && Decide(db, req).status == if req.amount.value > req.threshold then Pending else NotRequired
  {
  }

  /** The row that a transfer inserts: the request's parties, amount, description and time, and PENDING exactly
      above the threshold. */
  lemma TransferInserts(db: Db, c: Commit)
    requires OneWalletPerUser(db.wallets) && c.Transfer? && Legal(db, c)
    ensures c.txn in Apply(db, c).txns && Apply(db, c).txns.Keys == db.txns.Keys + {c.txn}
    ensures forall id :: id in db.txns ==> Apply(db, c).txns[id] == db.txns[id]
    ensures var t := Apply(db, c).txns[c.txn];
            && c.req.amount == Some(t.amount) && t.description == c.req.description && t.createdAt == c.req.startedAt
            && t.url.None? && t.objectKey.None?
            && (t.status.Pending? <==> t.amount > c.req.threshold) && (t.status.NotRequired? <==> t.amount <= c.req.threshold)
            && t.fromWallet in db.wallets && db.wallets[t.fromWallet].userId == c.req.fromUser
            && t.toWallet in db.wallets && db.wallets[t.toWallet].userId == c.req.toUser
  {
  }

  /** The balances that a transfer moves. */
  lemma TransferMoves(db: Db, c: Commit)
    requires OneWalletPerUser(db.wallets) && c.Transfer? && Legal(db, c)
    ensures Apply(db, c).users == db.users && Apply(db, c).wallets.Keys == db.wallets.Keys
    ensures forall w :: w in db.wallets ==>
              && Apply(db, c).wallets[w].userId == db.wallets[w].userId
              && Apply(db, c).wallets[w].balance == db.wallets[w].balance +
                   if db.wallets[w].userId == c.req.fromUser then -c.req.Value()
                   else if db.wallets[w].userId == c.req.toUser then c.req.Value() else 0
  {
  }

  /** What a registration inserts: the user under its name, one wallet of that user, and an OPENING row of the
      whole balance exactly when there is one. */
  lemma RegistrationInserts(db: Db, c: Commit)
    requires c.Registration? && Legal(db, c)
    ensures var d := Apply(db, c);
            && d.users.Keys == db.users.Keys + {c.userId} && d.users[c.userId] == c.name
            && (forall u :: u in db.users ==> d.users[u] == db.users[u])
            && d.wallets.Keys == db.wallets.Keys + {c.walletId}
            && d.wallets[c.walletId].userId == c.userId && d.wallets[c.walletId].balance == c.balance
            && (forall w :: w in db.wallets ==> d.wallets[w] == db.wallets[w])
            && d.txns == db.txns
            && d.ledger.Keys == db.ledger.Keys + (if c.balance > 0 then {c.openingId} else {})
            && (forall k :: k in db.ledger ==> d.ledger[k] == db.ledger[k])
            && (c.balance > 0 ==>
                  var r := d.ledger[c.openingId];
                  && r.walletId == c.walletId && r.txn.None? && r.entryType.Opening?
                  && r.before == 0 && r.amount == c.balance == r.after)
  {
  }

  /** A history of commits, each legal on the state the earlier ones left. */
  ghost predicate History(commits: seq<Commit>)
    decreases |commits|, 0
  {
    commits == [] ||
    (History(commits[..|commits| - 1]) && Legal(Replay(commits[..|commits| - 1]), commits[|commits| - 1]))
  }

  ghost function Replay(commits: seq<Commit>): Db
    requires History(commits)
    decreases |commits|, 1
  {
    if commits == [] then EMPTY_DB
    else Apply(Replay(commits[..|commits| - 1]), commits[|commits| - 1])
  }

  lemma {:induction false} HistoryPrefix(commits: seq<Commit>, k: nat)
    requires History(commits) && k <= |commits|
    ensures History(commits[..k])
  {
    if k < |commits| {
      HistoryPrefix(commits[..|commits| - 1], k);
      assert commits[..|commits| - 1][..k] == commits[..k];
    } else {
      assert commits[..k] == commits;
    }
  }

  lemma HistoryExtend(commits: seq<Commit>, c: Commit)
    requires History(commits) && Legal(Replay(commits), c)
    ensures History(commits + [c]) && Replay(commits + [c]) == Apply(Replay(commits), c)
  {
    assert (commits + [c])[..|commits|] == commits;
  }

  /** The state after the first k commits. */
  ghost function StateAt(commits: seq<Commit>, k: nat): Db
    requires History(commits) && k <= |commits|
  {
    HistoryPrefix(commits, k);
    Replay(commits[..k])
  }

  // ----- The two updates of a transfer -----

  /** A debit within the balance passes every constraint and the trigger. */
  lemma DebitAccepted(view: Db, txn: TxnId, w: WalletId, a: int, id: LedgerId)
    requires w in view.wallets && 0 < a <= view.wallets[w].balance <= MAX_BIGINT
    requires forall k :: k in view.ledger ==> view.ledger[k].txn != Some(txn) || view.ledger[k].walletId != w
    ensures var v := view.wallets[w];
            UpdateBalance(view, Some(txn), w, v.balance - a, id) ==
            Success(Db(map[], map[w := v.(balance := v.balance - a)], map[],
                       map[id := LedgerRow(w, Some(txn), Debit, a, v.balance, v.balance - a)]))
  {
  }

  /** A credit passes unless the balance leaves the BIGINT range. */
  lemma CreditAccepted(view: Db, txn: TxnId, w: WalletId, a: int, id: LedgerId)
    requires w in view.wallets && view.wallets[w].balance >= 0 && 0 < a <= MAX_BIGINT
    requires forall k :: k in view.ledger ==> view.ledger[k].txn != Some(txn) || view.ledger[k].walletId != w
    ensures var v := view.wallets[w];
            UpdateBalance(view, Some(txn), w, v.balance + a, id) ==
            if v.balance + a > MAX_BIGINT then Failure(OutOfRange)
            else Success(Db(map[], map[w := v.(balance := v.balance + a)], map[],
                            map[id := LedgerRow(w, Some(txn), Credit, a, v.balance, v.balance + a)]))
  {
  }

  lemma SoleWallet(wallets: map<WalletId, Wallet>, w: WalletId)
    requires OneWalletPerUser(wallets) && w in wallets
    ensures WalletOf(wallets, wallets[w].userId) == Some(w)
  {
  }

  // ----- What every state satisfies. wn and ln bound the wallet and ledger ids in use. -----

  ghost predicate WalletsOk(db: Db, wn: nat) {
    && OneWalletPerUser(db.wallets)
    && forall w :: w in db.wallets ==> w < wn && 0 <= db.wallets[w].balance <= MAX_BIGINT
  }

  ghost predicate RowsOk(db: Db, ln: nat) {
    forall k :: k in db.ledger ==>
      && k < ln
      && db.ledger[k].walletId in db.wallets
      && LedgerChecks(db.ledger[k])
      && (db.ledger[k].entryType.Opening? <==> db.ledger[k].txn.None?)
  }

  /** The row that transaction t posts on wallet w: a DEBIT on its sender, a CREDIT on its recipient. */
  ghost predicate Posts(r: LedgerRow, id: TxnId, t: Transaction, w: WalletId) {
    && r.walletId == w
    && r.txn == Some(id)
    && r.amount == t.amount
    && ((w == t.fromWallet && r.entryType.Debit?) || (w == t.toWallet && r.entryType.Credit?))
  }

  ghost predicate PostedOn(db: Db, id: TxnId, w: WalletId)
    requires id in db.txns
  {
    exists k :: k in db.ledger && Posts(db.ledger[k], id, db.txns[id], w)
  }

  ghost predicate FullyPosted(db: Db, id: TxnId)
    requires id in db.txns
  {
    var t := db.txns[id];
    && TransactionChecks(t)
    && t.fromWallet in db.wallets && t.toWallet in db.wallets
    && PostedOn(db, id, t.fromWallet) && PostedOn(db, id, t.toWallet)
  }

  ghost predicate Explained(db: Db, k: LedgerId)
    requires k in db.ledger
  {
    var r := db.ledger[k];
    r.txn.Some? ==> r.txn.value in db.txns && Posts(r, r.txn.value, db.txns[r.txn.value], r.walletId)
  }

  ghost predicate LedgerKeyUnique(ledger: map<LedgerId, LedgerRow>) {
    forall j, k :: j in ledger && k in ledger && ledger[j].txn.Some? && ledger[j].txn == ledger[k].txn ==>
      ledger[j].walletId == ledger[k].walletId ==> j == k
  }

  /** Transactions and ledger correspond: every transaction has its DEBIT and its CREDIT, no wallet has
      two rows of one transaction, and every row with a transaction is one of these two. */
  ghost predicate PostingsOk(db: Db) {
    && (forall id {:trigger FullyPosted(db, id)} :: id in db.txns ==> FullyPosted(db, id))
    && (forall k {:trigger Explained(db, k)} :: k in db.ledger ==> Explained(db, k))
    && LedgerKeyUnique(db.ledger)
  }

  ghost predicate ChainOk(db: Db, w: WalletId, ln: nat) {
    var rows := RowsOf(db.ledger, w, ln);
    Chained(rows) && LastAfter(rows) == BalanceAt(db.wallets, w)
  }

  ghost predicate ChainsOk(db: Db, ln: nat) {
    forall w: WalletId :: ChainOk(db, w, ln)
  }

  ghost predicate MoneyOk(db: Db, wn: nat, ln: nat) {
    && SumBalances(db.wallets, wn) == SumOpenings(db.ledger, ln)
    && forall k :: k in db.ledger ==>
         && db.ledger[k].amount <= SumOpenings(db.ledger, ln)
         && db.ledger[k].before <= SumOpenings(db.ledger, ln)
         && db.ledger[k].after <= SumOpenings(db.ledger, ln)
  }

  ghost predicate DbOk(db: Db, wn: nat, ln: nat) {
    && WalletsOk(db, wn)
    && RowsOk(db, ln)
    && PostingsOk(db)
    && ChainsOk(db, ln)
    && MoneyOk(db, wn, ln)
  }

  ghost predicate IdsBelow(c: Commit, wn: nat, ln: nat) {
    match c
    case Transfer(_, _, debitId, creditId) => debitId < ln && creditId < ln
    case Registration(_, _, walletId, balance, openingId) => walletId < wn && (balance > 0 ==> openingId < ln)
  }

  lemma EmptyDbOk(wn: nat, ln: nat)
    ensures DbOk(EMPTY_DB, wn, ln)
  {
    forall w: WalletId ensures ChainOk(EMPTY_DB, w, ln) {
      NoRows(EMPTY_DB.ledger, w, ln);
    }
    EmptySums(wn, ln);
  }

  lemma {:induction false} EmptySums(wn: nat, ln: nat)
    ensures SumBalances(EMPTY_DB.wallets, wn) == 0 == SumOpenings(EMPTY_DB.ledger, ln)
    decreases wn + ln
  {
    if wn > 0 { EmptySums(wn - 1, ln); }
    if ln > 0 { EmptySums(wn, ln - 1); }
  }

  // ----- A commit keeps each part of DbOk -----

  lemma PostingsAfterTransfer(db: Db, d: Db, id: TxnId, t: Transaction, j: LedgerId, k: LedgerId)
    requires PostingsOk(db) && id !in db.txns && j !in db.ledger && k !in db.ledger && j != k
    requires d.txns == db.txns[id := t] && TransactionChecks(t)
    requires db.wallets.Keys <= d.wallets.Keys && t.fromWallet in d.wallets && t.toWallet in d.wallets
    requires j in d.ledger && k in d.ledger && d.ledger == db.ledger[j := d.ledger[j]][k := d.ledger[k]]
    requires Posts(d.ledger[j], id, t, t.fromWallet) && Posts(d.ledger[k], id, t, t.toWallet)
    ensures PostingsOk(d)
  {
    forall x | x in d.txns ensures FullyPosted(d, x) {
      if x != id {
        assert FullyPosted(db, x);
        StaysPosted(db, d, x);
      }
    }
    forall x | x in d.ledger ensures Explained(d, x) {
      if x != j && x != k { assert Explained(db, x); }
    }
    NewRowsUnique(db, d, id, j, k);
  }

  lemma NewRowsUnique(db: Db, d: Db, id: TxnId, j: LedgerId, k: LedgerId)
    requires LedgerKeyUnique(db.ledger) && id !in db.txns && j !in db.ledger && k !in db.ledger && j != k
    requires forall x :: x in db.ledger ==> Explained(db, x)
    requires j in d.ledger && k in d.ledger && d.ledger == db.ledger[j := d.ledger[j]][k := d.ledger[k]]
    requires d.ledger[j].txn == Some(id) == d.ledger[k].txn && d.ledger[j].walletId != d.ledger[k].walletId
    ensures LedgerKeyUnique(d.ledger)
  {
    forall x | x in db.ledger ensures db.ledger[x].txn != Some(id) { assert Explained(db, x); }
  }

  lemma StaysPosted(db: Db, d: Db, id: TxnId)
    requires id in db.txns && id in d.txns && d.txns[id] == db.txns[id] && FullyPosted(db, id)
    requires db.wallets.Keys <= d.wallets.Keys
    requires forall k :: k in db.ledger ==> k in d.ledger && d.ledger[k] == db.ledger[k]
    ensures FullyPosted(d, id)
  {
    var t := db.txns[id];
    var j :| j in db.ledger && Posts(db.ledger[j], id, t, t.fromWallet);
    var k :| k in db.ledger && Posts(db.ledger[k], id, t, t.toWallet);
    assert Posts(d.ledger[j], id, t, t.fromWallet) && Posts(d.ledger[k], id, t, t.toWallet);
  }

  lemma TransferKeepsPostings(db: Db, c: Commit, wn: nat, ln: nat)
    requires WalletsOk(db, wn) && PostingsOk(db) && c.Transfer? && Legal(db, c)
    ensures PostingsOk(Apply(db, c))
  {
    var from, to := WalletOf(db.wallets, c.req.fromUser).value, WalletOf(db.wallets, c.req.toUser).value;
    PostingsAfterTransfer(db, Apply(db, c), c.txn, NewTransaction(c.req, from, to), c.debitId, c.creditId);
  }

  lemma PostingsFrame(db: Db, d: Db)
    requires PostingsOk(db) && d.txns == db.txns && db.wallets.Keys <= d.wallets.Keys
    requires forall k :: k in db.ledger ==> k in d.ledger && d.ledger[k] == db.ledger[k]
    requires forall k :: k in d.ledger && k !in db.ledger ==> d.ledger[k].txn.None?
    ensures PostingsOk(d)
  {
    forall id | id in d.txns ensures FullyPosted(d, id) {
      assert FullyPosted(db, id);
      StaysPosted(db, d, id);
    }
    forall k | k in d.ledger ensures Explained(d, k) {
      if k in db.ledger { assert Explained(db, k); }
    }
    forall j, k | j in d.ledger && k in d.ledger && d.ledger[j].txn.Some? && d.ledger[j].txn == d.ledger[k].txn
      ensures d.ledger[j].walletId == d.ledger[k].walletId ==> j == k
    {
      assert j in db.ledger && k in db.ledger;
    }
  }

  lemma RegistrationKeepsPostings(db: Db, c: Commit)
    requires PostingsOk(db) && c.Registration? && Legal(db, c)
    ensures PostingsOk(Apply(db, c))
  {
    PostingsFrame(db, Apply(db, c));
  }

  /** Appending each wallet's newest row to the ledger keeps its chain. */
  lemma ChainAfterRow(ledger: map<LedgerId, LedgerRow>, id: LedgerId, row: LedgerRow, ln: nat)
    requires id < ln && id !in ledger && Newest(ledger, row.walletId, id)
    requires Chained(RowsOf(ledger, row.walletId, ln)) && LastAfter(RowsOf(ledger, row.walletId, ln)) == row.before
    ensures Chained(RowsOf(ledger[id := row], row.walletId, ln))
    ensures LastAfter(RowsOf(ledger[id := row], row.walletId, ln)) == row.after
  {
    RowsOfNewest(ledger, id, row, ln);
  }

  lemma TransferKeepsChains(db: Db, c: Commit, wn: nat, ln: nat)
    requires WalletsOk(db, wn) && ChainsOk(db, ln) && c.Transfer? && Legal(db, c) && IdsBelow(c, wn, ln)
    ensures ChainsOk(Apply(db, c), ln)
  {
    var d := Apply(db, c);
    var debit, credit := d.ledger[c.debitId], d.ledger[c.creditId];
    var l1 := db.ledger[c.debitId := debit];
    forall w: WalletId ensures ChainOk(d, w, ln) {
      assert ChainOk(db, w, ln);
      if w == debit.walletId {
        ChainAfterRow(db.ledger, c.debitId, debit, ln);
        RowsOfFrame(l1, d.ledger, w, ln);
      } else if w == credit.walletId {
        RowsOfFrame(db.ledger, l1, w, ln);
        ChainAfterRow(l1, c.creditId, credit, ln);
      } else {
        RowsOfFrame(db.ledger, d.ledger, w, ln);
      }
    }
  }

  lemma RegistrationKeepsChains(db: Db, c: Commit, wn: nat, ln: nat)
    requires RowsOk(db, ln) && ChainsOk(db, ln) && c.Registration? && Legal(db, c) && IdsBelow(c, wn, ln)
    ensures ChainsOk(Apply(db, c), ln)
  {
    var d := Apply(db, c);
    forall w: WalletId ensures ChainOk(d, w, ln) {
      assert ChainOk(db, w, ln);
      if w == c.walletId {
        NoRows(db.ledger, w, ln);
        if c.balance > 0 { ChainAfterRow(db.ledger, c.openingId, d.ledger[c.openingId], ln); }
      } else {
        RowsOfFrame(db.ledger, d.ledger, w, ln);
      }
    }
  }

  lemma TransferKeepsMoney(db: Db, c: Commit, wn: nat, ln: nat)
    requires WalletsOk(db, wn) && MoneyOk(db, wn, ln) && c.Transfer? && Legal(db, c) && IdsBelow(c, wn, ln)
    ensures MoneyOk(Apply(db, c), wn, ln)
    ensures SumOpenings(Apply(db, c).ledger, ln) == SumOpenings(db.ledger, ln)
  {
    var d := Apply(db, c);
    var from, to := WalletOf(db.wallets, c.req.fromUser).value, WalletOf(db.wallets, c.req.toUser).value;
    PartsWithinTotal(db.wallets, from, to, wn);
    PartsWithinTotal(db.wallets, to, from, wn);
    SumBalancesUpdate(db.wallets, from, d.wallets[from], wn);
    SumBalancesUpdate(db.wallets[from := d.wallets[from]], to, d.wallets[to], wn);
    SumOpeningsInsert(db.ledger, c.debitId, d.ledger[c.debitId], ln);
    SumOpeningsInsert(db.ledger[c.debitId := d.ledger[c.debitId]], c.creditId, d.ledger[c.creditId], ln);
  }

  lemma RegistrationKeepsMoney(db: Db, c: Commit, wn: nat, ln: nat)
    requires WalletsOk(db, wn) && MoneyOk(db, wn, ln) && c.Registration? && Legal(db, c) && IdsBelow(c, wn, ln)
    ensures MoneyOk(Apply(db, c), wn, ln)
    ensures SumOpenings(Apply(db, c).ledger, ln) == SumOpenings(db.ledger, ln) + c.balance
  {
    var d := Apply(db, c);
    SumBalancesNonNegative(db.wallets, wn);
    SumBalancesUpdate(db.wallets, c.walletId, d.wallets[c.walletId], wn);
    if c.balance > 0 { SumOpeningsInsert(db.ledger, c.openingId, d.ledger[c.openingId], ln); }
  }

  lemma ApplyKeepsTables(db: Db, c: Commit, wn: nat, ln: nat)
    requires WalletsOk(db, wn) && RowsOk(db, ln) && Legal(db, c) && IdsBelow(c, wn, ln)
    ensures WalletsOk(Apply(db, c), wn) && RowsOk(Apply(db, c), ln)
  {
    match c
    case Transfer(_, _, _, _) =>
    case Registration(_, _, _, _, _) =>
  }

  lemma ApplyKeepsDbOk(db: Db, c: Commit, wn: nat, ln: nat)
    requires DbOk(db, wn, ln) && Legal(db, c) && IdsBelow(c, wn, ln)
    ensures DbOk(Apply(db, c), wn, ln)
    ensures SumOpenings(Apply(db, c).ledger, ln) == SumOpenings(db.ledger, ln) + (if c.Registration? then c.balance else 0)
  {
    ApplyKeepsTables(db, c, wn, ln);
    if c.Transfer? {
      TransferKeepsPostings(db, c, wn, ln);
      TransferKeepsChains(db, c, wn, ln);
      TransferKeepsMoney(db, c, wn, ln);
    } else {
      RegistrationKeepsPostings(db, c);
      RegistrationKeepsChains(db, c, wn, ln);
      RegistrationKeepsMoney(db, c, wn, ln);
    }
  }

  // ----- Raising the bounds changes nothing -----

  lemma {:induction false} RowsOfWiden(ledger: map<LedgerId, LedgerRow>, w: WalletId, n: nat, m: nat)
    requires n <= m && forall k :: k in ledger ==> k < n
    ensures RowsOf(ledger, w, m) == RowsOf(ledger, w, n)
  {
    if n < m { RowsOfWiden(ledger, w, n, m - 1); }
  }

  lemma {:induction false} SumOpeningsWiden(ledger: map<LedgerId, LedgerRow>, n: nat, m: nat)
    requires n <= m && forall k :: k in ledger ==> k < n
    ensures SumOpenings(ledger, m) == SumOpenings(ledger, n)
  {
    if n < m { SumOpeningsWiden(ledger, n, m - 1); }
  }

  lemma {:induction false} SumBalancesWiden(wallets: map<WalletId, Wallet>, n: nat, m: nat)
    requires n <= m && forall k :: k in wallets ==> k < n
    ensures SumBalances(wallets, m) == SumBalances(wallets, n)
  {
    if n < m { SumBalancesWiden(wallets, n, m - 1); }
  }

  lemma DbOkWiden(db: Db, wn: nat, ln: nat, wn': nat, ln': nat)
    requires DbOk(db, wn, ln) && wn <= wn' && ln <= ln'
    ensures DbOk(db, wn', ln')
  {
    SumOpeningsWiden(db.ledger, ln, ln');
    SumBalancesWiden(db.wallets, wn, wn');
    forall w: WalletId ensures ChainOk(db, w, ln') {
      assert ChainOk(db, w, ln);
      RowsOfWiden(db.ledger, w, ln, ln');
    }
  }

  /** Every history leaves a database in which all of DbOk holds. */
  lemma {:induction false} HistoryKeepsDbOk(commits: seq<Commit>, wn: nat, ln: nat)
    requires History(commits)
    requires forall k :: 0 <= k < |commits| ==> IdsBelow(commits[k], wn, ln)
    ensures DbOk(Replay(commits), wn, ln)
  {
    if commits == [] {
      EmptyDbOk(wn, ln);
    } else {
      HistoryKeepsDbOk(commits[..|commits| - 1], wn, ln);
      ApplyKeepsDbOk(Replay(commits[..|commits| - 1]), commits[|commits| - 1], wn, ln);
    }
  }
}
