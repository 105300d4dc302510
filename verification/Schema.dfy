/** The tables, constraints and trigger functions of the wallet database.
    A BIGINT column is an `int`; leaving the 64-bit range is the error `OutOfRange`. */
module Schema {
  import opened Wrappers

  type UserId = int
  type WalletId = nat
  type LedgerId = nat
  /** A UUID in its canonical text form. */
  type TxnId = string

  const MAX_BIGINT: int := 0x7FFF_FFFF_FFFF_FFFF
  const MAX_SAFE_INTEGER: int := 0x1F_FFFF_FFFF_FFFF

  predicate InBigint(n: int) {
    -MAX_BIGINT - 1 <= n <= MAX_BIGINT
  }

  datatype ReceiptStatus = NotRequired | Pending | Generated | Failed

  datatype EntryType = Opening | Debit | Credit

  datatype Wallet = Wallet(userId: UserId, balance: int)

  datatype Transaction = Transaction(
    fromWallet: WalletId,
    toWallet: WalletId,
    amount: int,
    description: Option<string>,
    status: ReceiptStatus,
    url: Option<string>,
    objectKey: Option<string>,
    createdAt: int)

  datatype LedgerRow = LedgerRow(
    walletId: WalletId,
    txn: Option<TxnId>,
    entryType: EntryType,
    amount: int,
    before: int,
    after: int)

  /** The rows a session can see: the committed tables, or those tables under its own writes. */
  datatype Db = Db(
    users: map<UserId, string>,
    wallets: map<WalletId, Wallet>,
    txns: map<TxnId, Transaction>,
    ledger: map<LedgerId, LedgerRow>)

  const EMPTY_DB := Db(map[], map[], map[], map[])

  /** `overlay` is what a session wrote on top of `base`. */
  function Overlay(base: Db, overlay: Db): Db {
    Db(base.users + overlay.users,
       base.wallets + overlay.wallets,
       base.txns + overlay.txns,
       base.ledger + overlay.ledger)
  }

  /** SQLSTATEs raised by the procedure, the triggers and the column types and constraints. */
  datatype SqlState =
    | WL001 | WL002 | WL003 | WL004 | WL005 | WL006 | WL007
    | OutOfRange
    | CheckViolation
    | UniqueViolation

  // ----- CHECK constraints -----

  predicate WalletChecks(w: Wallet) {
    w.balance >= 0
  }

  predicate TransactionChecks(t: Transaction) {
    && t.amount > 0
    && t.fromWallet != t.toWallet
    && (t.status.Generated? <==> (t.url.Some? && t.objectKey.Some?))
  }

  predicate LedgerChecks(r: LedgerRow) {
    && r.amount > 0
    && r.before >= 0 && r.after >= 0
    && (r.txn.Some? || r.entryType.Opening?)
    && match r.entryType
       case Debit => r.after == r.before - r.amount
       case Credit => r.after == r.before + r.amount
       case Opening => r.before == 0 && r.after == r.amount
  }

  /** UNIQUE (transaction_id, wallet_id); NULL transaction ids never collide. */
  predicate LedgerKeyTaken(ledger: map<LedgerId, LedgerRow>, r: LedgerRow) {
    r.txn.Some? && exists k :: k in ledger && ledger[k].txn == r.txn && ledger[k].walletId == r.walletId
  }

  // ----- fn_wallet_balance_ledger -----

  /** AFTER INSERT ON wallets. */
  function OpeningTrigger(walletId: WalletId, balance: int): Option<LedgerRow> {
    if balance > 0
    then Some(LedgerRow(walletId, None, Opening, balance, 0, balance))
    else None
  }

  /** AFTER UPDATE OF balance, fired only when the balance is distinct; `setting` is
      app.current_transaction_id with the empty string read as NULL. */
  function BalanceTrigger(setting: Option<TxnId>, walletId: WalletId, oldBalance: int, newBalance: int)
    : Result<Option<LedgerRow>, SqlState>
  {
    if oldBalance == newBalance then Success(None)
    else if setting.None? then Failure(WL006)
    else
      var entryType := if newBalance < oldBalance then Debit else Credit;
      var amount := if newBalance < oldBalance then oldBalance - newBalance else newBalance - oldBalance;
      Success(Some(LedgerRow(walletId, setting, entryType, amount, oldBalance, newBalance)))
  }

  /** UPDATE wallets SET balance = newBalance WHERE id = w: column type, CHECK, trigger, and the
      constraints of the ledger row that the trigger inserts. Returns the rows written: none when no
      wallet matches. */
  function UpdateBalance(view: Db, setting: Option<TxnId>, w: WalletId, newBalance: int, ledgerId: LedgerId)
    : Result<Db, SqlState>
  {
    if w !in view.wallets then Success(EMPTY_DB)
    else
    var current := view.wallets[w];
    if !InBigint(newBalance) then Failure(OutOfRange)
    else if !WalletChecks(current.(balance := newBalance)) then Failure(CheckViolation)
    else
      var row :- BalanceTrigger(setting, w, current.balance, newBalance);
      var wallets := map[w := current.(balance := newBalance)];
      match row
      case None => Success(Db(map[], wallets, map[], map[]))
      case Some(r) =>
        if !InBigint(r.amount) then Failure(OutOfRange)
        else if !LedgerChecks(r) then Failure(CheckViolation)
        else if LedgerKeyTaken(view.ledger, r) then Failure(UniqueViolation)
        else Success(Db(map[], wallets, map[], map[ledgerId := r]))
  }

  // ----- fn_ledger_append_only -----

  /** BEFORE UPDATE OR DELETE ON transaction_ledger. */
  function AppendOnlyTrigger(): Option<SqlState> {
    Some(WL007)
  }

  /** UPDATE transaction_ledger to `row`, or DELETE, WHERE id = k. */
  function ChangeLedger(db: Db, k: LedgerId, row: Option<LedgerRow>): Result<Db, SqlState> {
    if k !in db.ledger then Success(db)
    else if AppendOnlyTrigger().Some? then Failure(AppendOnlyTrigger().value)
    else Success(db.(ledger := if row.Some? then db.ledger[k := row.value] else db.ledger - {k}))
  }

  // ----- Lookups -----

  ghost predicate OneWalletPerUser(wallets: map<WalletId, Wallet>) {
    forall v, w :: v in wallets && w in wallets && wallets[v].userId == wallets[w].userId ==> v == w
  }

  /** SELECT id FROM wallets WHERE user_id = user. */
  ghost function WalletOf(wallets: map<WalletId, Wallet>, user: UserId): (r: Option<WalletId>)
    ensures r.Some? ==> r.value in wallets && wallets[r.value].userId == user
    ensures r.None? ==> forall w :: w in wallets ==> wallets[w].userId != user
  {
    if w :| w in wallets && wallets[w].userId == user then Some(w) else None
  }
}
