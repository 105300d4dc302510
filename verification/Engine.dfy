/** The database under any number of concurrent connections, as a step system.
    A connection runs one statement at a time: a CALL transfer_funds, a registration, a stray UPDATE of a
    balance, on its own or later in the transaction of a CALL, or a stray change of a ledger row. Its writes
    stay private until it commits; a row lock makes others wait.
    Under READ COMMITTED the SELECT ... FOR UPDATE picks its rows from a snapshot, but the row it hands
    over once a lock is granted is the newest committed version.
    Assumed of PostgreSQL: these visibility and lock rules, fresh UUIDs, sequences that never repeat,
    and rollback of everything (writes, locks, transaction-local settings) when a statement raises. */
module Engine {
  import opened Wrappers
  import opened Schema
  import opened Ledger
  import opened Serial

  /** A row of wallets as fetched by the FOR loop. */
  datatype Row = Row(id: WalletId, wallet: Wallet)

  /** A call in progress. `began` counts the commits there were when it was issued. */
  datatype Call = Call(req: Request, began: nat)

  datatype Phase =
    | Idle
    | Called(call: Call)
    | Locking(call: Call, snap: nat, todo: seq<WalletId>, from: Option<Row>, to: Option<Row>)
    | Funded(call: Call, src: Row, dst: Row)
    | Inserted(call: Call, src: Row, dst: Row, txn: TxnId)
    | Armed(call: Call, src: Row, dst: Row, txn: TxnId)
    | Debited(call: Call, src: Row, dst: Row, txn: TxnId, debitId: LedgerId)
    | Credited(call: Call, src: Row, dst: Row, txn: TxnId, debitId: LedgerId, creditId: LedgerId)
    | Cleared(call: Call, src: Row, dst: Row, txn: TxnId, debitId: LedgerId, creditId: LedgerId)
    | Registering(name: string, balance: int)
    | UserAdded(name: string, balance: int, userId: UserId)
    | WalletAdded(name: string, balance: int, userId: UserId, walletId: WalletId, openingId: LedgerId)

  /** One connection: where its statement is, the row locks it holds, app.current_transaction_id
      (the empty string read as None), and its uncommitted writes. */
  datatype Session = Session(phase: Phase, locks: set<WalletId>, setting: Option<TxnId>, writes: Db)

  const IDLE := Session(Idle, {}, None, EMPTY_DB)

  /** A call that ended. `ended` counts the commits before it ended; its answer is that of an isolated
      call on the database after `at` commits. */
  datatype Finished = Finished(req: Request, began: nat, at: nat, ended: nat, outcome: Outcome)

  /** The committed tables, the sequences, the UUIDs drawn so far and the connections.
      `commits` and `finished` record what happened and steer nothing. */
  datatype State = State(
    db: Db,
    nextUser: UserId,
    nextWallet: WalletId,
    nextLedger: LedgerId,
    drawn: set<TxnId>,
    sessions: seq<Session>,
    commits: seq<Commit>,
    finished: seq<Finished>)

  function Initial(connections: nat): State {
    State(EMPTY_DB, 1, 1, 1, {}, seq(connections, _ => IDLE), [], [])
  }

  datatype Step =
    | Begin(i: nat, req: Request)
    | Snapshot(i: nat)
    | LockNext(i: nat)
    | Check(i: nat)
    | InsertTransaction(i: nat, txn: TxnId)
    | SetSetting(i: nat)
    | DebitSender(i: nat)
    | CreditRecipient(i: nat)
    | ClearSetting(i: nat)
    | CommitCall(i: nat)
    | BeginRegistration(i: nat, name: string, balance: int)
    | InsertUser(i: nat)
    | InsertWallet(i: nat)
    | CommitRegistration(i: nat)
    | Kill(i: nat)
    | StrayUpdate(i: nat, w: WalletId, balance: int)
    | StrayLedger(i: nat, k: LedgerId, row: Option<LedgerRow>)
    | LateUpdate(i: nat, w: WalletId, balance: int)

  // ----- Blocking -----

  ghost predicate LockedByOther(s: State, i: nat, w: WalletId) {
    exists j :: 0 <= j < |s.sessions| && j != i && w in s.sessions[j].locks
  }

  /** An uncommitted user row with the same name makes the unique index wait. */
  ghost predicate NameHeldByOther(s: State, i: nat, name: string) {
    exists j :: 0 <= j < |s.sessions| && j != i && name in s.sessions[j].writes.users.Values
  }

  ghost predicate Enabled(s: State, step: Step) {
    && step.i < |s.sessions|
    && var x := s.sessions[step.i];
       match step
       case Begin(_, _) => x.phase.Idle?
       case Snapshot(_) => x.phase.Called?
       case LockNext(i) => x.phase.Locking? && x.phase.todo != [] && !LockedByOther(s, i, x.phase.todo[0])
       case Check(_) => x.phase.Locking? && x.phase.todo == []
       case InsertTransaction(_, txn) => x.phase.Funded? && txn !in s.drawn
       case SetSetting(_) => x.phase.Inserted?
       case DebitSender(_) => x.phase.Armed?
       case CreditRecipient(_) => x.phase.Debited?
       case ClearSetting(_) => x.phase.Credited?
       case CommitCall(_) => x.phase.Cleared?
       case BeginRegistration(_, _, _) => x.phase.Idle?
       case InsertUser(i) => x.phase.Registering? && !NameHeldByOther(s, i, x.phase.name)
       case InsertWallet(_) => x.phase.UserAdded?
       case CommitRegistration(_) => x.phase.WalletAdded?
       case Kill(_) => !x.phase.Idle?
       case StrayUpdate(i, w, _) => x.phase.Idle? && !LockedByOther(s, i, w)
       case StrayLedger(_, _, _) => x.phase.Idle?
       case LateUpdate(i, w, b) => x.phase.Cleared? && !LockedByOther(s, i, w) && Alters(Overlay(s.db, x.writes), w, b)
  }

  predicate Alters(view: Db, w: WalletId, b: int) {
    w in view.wallets && view.wallets[w].balance != b
  }

  // ----- Effects -----

  function Put(s: State, i: nat, x: Session): State
    requires i < |s.sessions|
  {
    s.(sessions := s.sessions[i := x])
  }

  /** The statement raises: everything it did is rolled back and the caller gets the SQLSTATE. */
  function Raise(s: State, i: nat, call: Call, at: nat, e: SqlState): State
    requires i < |s.sessions|
  {
    Put(s, i, IDLE).(finished := s.finished + [Finished(call.req, call.began, at, |s.commits|, Raised(e))])
  }

  /** ORDER BY id. */
  function InOrder(x: Option<WalletId>, y: Option<WalletId>): seq<WalletId> {
    if x.None? && y.None? then []
    else if x.None? then [y.value]
    else if y.None? then [x.value]
    else if x.value < y.value then [x.value, y.value]
    else [y.value, x.value]
  }

  /** The ids of the wallets found by the snapshot, in the order in which they are locked. */
  ghost function LockOrder(wallets: map<WalletId, Wallet>, a: UserId, b: UserId): seq<WalletId> {
    InOrder(WalletOf(wallets, a), WalletOf(wallets, b))
  }

  function BeginCall(s: State, i: nat, req: Request): State
    requires i < |s.sessions|
  {
    Put(s, i, s.sessions[i].(phase := Called(Call(req, |s.commits|))))
  }

  /** Argument checks, then the snapshot of the SELECT. */
  ghost function TakeSnapshot(s: State, i: nat): State
    requires i < |s.sessions| && s.sessions[i].phase.Called?
  {
    var x := s.sessions[i];
    var call := x.phase.call;
    var req := call.req;
    if req.Value() <= 0 then Raise(s, i, call, |s.commits|, WL001)
    else if req.fromUser == req.toUser then Raise(s, i, call, |s.commits|, WL002)
    else
      var todo := LockOrder(s.db.wallets, req.fromUser, req.toUser);
      Put(s, i, x.(phase := Locking(call, |s.commits|, todo, None, None)))
  }

  /** The next lock is granted and the newest committed version of the row enters the loop body. */
  ghost function Lock(s: State, i: nat): State
    requires i < |s.sessions| && s.sessions[i].phase.Locking? && s.sessions[i].phase.todo != []
  {
    var x := s.sessions[i];
    var p := x.phase;
    var w := p.todo[0];
    if w !in s.db.wallets then Put(s, i, x.(phase := p.(todo := p.todo[1..])))
    else
      var row := Row(w, s.db.wallets[w]);
      var p' := if row.wallet.userId == p.call.req.fromUser
                then p.(todo := p.todo[1..], from := Some(row))
                else p.(todo := p.todo[1..], to := Some(row));
      Put(s, i, x.(phase := p', locks := x.locks + {w}))
  }

  /** A call that found no wallet answers as of its snapshot, any other as of now. */
  ghost function CheckFunds(s: State, i: nat): State
    requires i < |s.sessions| && s.sessions[i].phase.Locking?
  {
    var x := s.sessions[i];
    var p := x.phase;
    if p.from.None? then Raise(s, i, p.call, p.snap, WL003)
    else if p.to.None? then Raise(s, i, p.call, p.snap, WL004)
    else if p.from.value.wallet.balance < p.call.req.Value() then Raise(s, i, p.call, |s.commits|, WL005)
    else Put(s, i, x.(phase := Funded(p.call, p.from.value, p.to.value)))
  }

  function InsertRow(s: State, i: nat, txn: TxnId): State
    requires i < |s.sessions| && s.sessions[i].phase.Funded?
  {
    var x := s.sessions[i];
    var p := x.phase;
    var t := NewTransaction(p.call.req, p.src.id, p.dst.id);
    var s' := s.(drawn := s.drawn + {txn});
    if !TransactionChecks(t) then Raise(s', i, p.call, |s.commits|, CheckViolation)
    else
      Put(s', i, x.(phase := Inserted(p.call, p.src, p.dst, txn),
                    writes := Overlay(x.writes, Db(map[], map[], map[txn := t], map[]))))
  }

  /** set_config(..., true) with the id just inserted. */
  function Arm(s: State, i: nat): State
    requires i < |s.sessions| && s.sessions[i].phase.Inserted?
  {
    var x := s.sessions[i];
    var p := x.phase;
    Put(s, i, x.(setting := Some(p.txn), phase := Armed(p.call, p.src, p.dst, p.txn)))
  }

  ghost function DebitWallet(s: State, i: nat): State
    requires i < |s.sessions| && s.sessions[i].phase.Armed?
  {
    var x := s.sessions[i];
    var p := x.phase;
    var view := Overlay(s.db, x.writes);
    var id := s.nextLedger;
    var s' := s.(nextLedger := id + 1);
    match UpdateBalance(view, x.setting, p.src.id, BalanceAt(view.wallets, p.src.id) - p.call.req.Value(), id)
    case Failure(e) => Raise(s', i, p.call, |s.commits|, e)
    case Success(w) =>
      Put(s', i, x.(phase := Debited(p.call, p.src, p.dst, p.txn, id), writes := Overlay(x.writes, w)))
  }

  ghost function CreditWallet(s: State, i: nat): State
    requires i < |s.sessions| && s.sessions[i].phase.Debited?
  {
    var x := s.sessions[i];
    var p := x.phase;
    var view := Overlay(s.db, x.writes);
    var id := s.nextLedger;
    var s' := s.(nextLedger := id + 1);
    match UpdateBalance(view, x.setting, p.dst.id, BalanceAt(view.wallets, p.dst.id) + p.call.req.Value(), id)
    case Failure(e) => Raise(s', i, p.call, |s.commits|, e)
    case Success(w) =>
      Put(s', i, x.(phase := Credited(p.call, p.src, p.dst, p.txn, p.debitId, id), writes := Overlay(x.writes, w)))
  }

  /** set_config(..., true) with the empty string. */
  function Disarm(s: State, i: nat): State
    requires i < |s.sessions| && s.sessions[i].phase.Credited?
  {
    var x := s.sessions[i];
    var p := x.phase;
    Put(s, i, x.(setting := None, phase := Cleared(p.call, p.src, p.dst, p.txn, p.debitId, p.creditId)))
  }

  function CommitTransfer(s: State, i: nat): State
    requires i < |s.sessions| && s.sessions[i].phase.Cleared?
  {
    var x := s.sessions[i];
    var p := x.phase;
    var status := ReceiptNeeded(p.call.req.Value(), p.call.req.threshold);
    var n := |s.commits|;
    Put(s, i, IDLE).(
      db := Overlay(s.db, x.writes),
      commits := s.commits + [Transfer(p.call.req, p.txn, p.debitId, p.creditId)],
      finished := s.finished + [Finished(p.call.req, p.call.began, n, n, Done(status))])
  }

  function BeginUser(s: State, i: nat, name: string, balance: int): State
    requires i < |s.sessions|
  {
    Put(s, i, s.sessions[i].(phase := Registering(name, balance)))
  }

  /** A taken username violates the unique key and ends the registration; otherwise a user id is drawn. */
  function AddUser(s: State, i: nat): State
    requires i < |s.sessions| && s.sessions[i].phase.Registering?
  {
    var x := s.sessions[i];
    var p := x.phase;
    if p.name in s.db.users.Values then Put(s, i, IDLE)
    else
      Put(s.(nextUser := s.nextUser + 1), i,
          x.(phase := UserAdded(p.name, p.balance, s.nextUser),
             writes := Overlay(x.writes, Db(map[s.nextUser := p.name], map[], map[], map[]))))
  }

  /** INSERT INTO wallets with the OPENING row of its trigger; a bad balance rolls the registration back. */
  function AddWallet(s: State, i: nat): State
    requires i < |s.sessions| && s.sessions[i].phase.UserAdded?
  {
    var x := s.sessions[i];
    var p := x.phase;
    var w, id := s.nextWallet, s.nextLedger;
    var wallet := Wallet(p.userId, p.balance);
    var opening := OpeningTrigger(w, p.balance);
    if !InBigint(p.balance) || !WalletChecks(wallet) || (opening.Some? && !LedgerChecks(opening.value))
    then Put(s, i, IDLE)
    else
      Put(s.(nextWallet := w + 1, nextLedger := if opening.Some? then id + 1 else id), i,
          x.(phase := WalletAdded(p.name, p.balance, p.userId, w, id),
             writes := Overlay(x.writes,
               Db(map[], map[w := wallet], map[], if opening.Some? then map[id := opening.value] else map[]))))
  }

  function CommitUser(s: State, i: nat): State
    requires i < |s.sessions| && s.sessions[i].phase.WalletAdded?
  {
    var p := s.sessions[i].phase;
    Put(s, i, IDLE).(
      db := Overlay(s.db, s.sessions[i].writes),
      commits := s.commits + [Registration(p.name, p.userId, p.walletId, p.balance, p.openingId)])
  }

  /** The connection is lost, or its transaction aborted after the call: rollback; the call is lost. */
  function Disconnect(s: State, i: nat): State
    requires i < |s.sessions|
  {
    var p := s.sessions[i].phase;
    var s' := Put(s, i, IDLE);
    if InCall(p)
    then s'.(finished := s.finished + [Finished(p.call.req, p.call.began, |s.commits|, |s.commits|, Lost)])
    else s'
  }

  predicate InCall(p: Phase) {
    !p.Idle? && !p.Registering? && !p.UserAdded? && !p.WalletAdded?
  }

  /** UPDATE wallets SET balance = b WHERE id = w outside transfer_funds, committed at once. */
  ghost function Stray(s: State, i: nat, w: WalletId, b: int): State
    requires i < |s.sessions|
  {
    match UpdateBalance(s.db, s.sessions[i].setting, w, b, s.nextLedger)
    case Failure(_) => s
    case Success(writes) =>
      s.(db := Overlay(s.db, writes),
         nextLedger := if writes.ledger == map[] then s.nextLedger else s.nextLedger + 1)
  }

  /** UPDATE or DELETE of a ledger row by hand, committed at once. */
  function ChangeRow(s: State, k: LedgerId, row: Option<LedgerRow>): State {
    match ChangeLedger(s.db, k, row)
    case Failure(_) => s
    case Success(db) => s.(db := db)
  }

  /** UPDATE wallets SET balance = b WHERE id = w after the CALL returned, in the same transaction: an error
      aborts the transaction, the call with it. */
  ghost function Late(s: State, i: nat, w: WalletId, b: int): State
    requires i < |s.sessions|
  {
    var x := s.sessions[i];
    match UpdateBalance(Overlay(s.db, x.writes), x.setting, w, b, s.nextLedger)
    case Failure(_) => Disconnect(s, i)
    case Success(writes) => Put(s.(nextLedger := s.nextLedger + 1), i, x.(writes := Overlay(x.writes, writes)))
  }

  ghost function Next(s: State, step: Step): State
    requires Enabled(s, step)
  {
    match step
    case Begin(i, req) => BeginCall(s, i, req)
    case Snapshot(i) => TakeSnapshot(s, i)
    case LockNext(i) => Lock(s, i)
    case Check(i) => CheckFunds(s, i)
    case InsertTransaction(i, txn) => InsertRow(s, i, txn)
    case SetSetting(i) => Arm(s, i)
    case DebitSender(i) => DebitWallet(s, i)
    case CreditRecipient(i) => CreditWallet(s, i)
    case ClearSetting(i) => Disarm(s, i)
    case CommitCall(i) => CommitTransfer(s, i)
    case BeginRegistration(i, name, balance) => BeginUser(s, i, name, balance)
    case InsertUser(i) => AddUser(s, i)
    case InsertWallet(i) => AddWallet(s, i)
    case CommitRegistration(i) => CommitUser(s, i)
    case Kill(i) => Disconnect(s, i)
    case StrayUpdate(i, w, b) => Stray(s, i, w, b)
    case StrayLedger(_, k, row) => ChangeRow(s, k, row)
    case LateUpdate(i, w, b) => Late(s, i, w, b)
  }

  /** A run: any interleaving of the connections' steps. */
  ghost predicate Run(s: State, steps: seq<Step>, t: State)
    decreases |steps|
  {
    if steps == [] then s == t
    else Enabled(s, steps[0]) && Run(Next(s, steps[0]), steps[1..], t)
  }

  ghost predicate Reachable(t: State) {
    exists n: nat, steps: seq<Step> :: Run(Initial(n), steps, t)
  }
}
