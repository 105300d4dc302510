/** The invariant of the engine and its proof, step by step. */
module EngineInvariant {
  import opened Wrappers
  import opened Schema
  import opened Serial
  import opened Engine

  ghost predicate ValidArguments(req: Request) {
    req.Value() > 0 && req.fromUser != req.toUser
  }

  /** The session's copy of a row is the committed one. */
  ghost predicate Current(s: State, r: Row, user: UserId) {
    r.id in s.db.wallets && s.db.wallets[r.id] == r.wallet && r.wallet.userId == user
  }

  /** What holds from the funds check to the commit. */
  ghost predicate Secured(s: State, x: Session, call: Call, src: Row, dst: Row) {
    && call.began <= |s.commits|
    && ValidArguments(call.req)
    && x.locks == {src.id, dst.id}
    && Current(s, src, call.req.fromUser) && Current(s, dst, call.req.toUser)
    && src.wallet.balance >= call.req.Value()
  }

  function DebitRow(req: Request, src: Row, txn: TxnId): LedgerRow {
    LedgerRow(src.id, Some(txn), Debit, req.Value(), src.wallet.balance, src.wallet.balance - req.Value())
  }

  function CreditRow(req: Request, dst: Row, txn: TxnId): LedgerRow {
    LedgerRow(dst.id, Some(txn), Credit, req.Value(), dst.wallet.balance, dst.wallet.balance + req.Value())
  }

  /** The writes of a call after its insert, after its debit, and after its credit. */
  function Written(req: Request, src: Row, dst: Row, txn: TxnId): Db {
    Db(map[], map[], map[txn := NewTransaction(req, src.id, dst.id)], map[])
  }

  function WrittenDebit(req: Request, src: Row, dst: Row, txn: TxnId, debitId: LedgerId): Db {
    Written(req, src, dst, txn).(
      wallets := map[src.id := src.wallet.(balance := src.wallet.balance - req.Value())],
      ledger := map[debitId := DebitRow(req, src, txn)])
  }

  function WrittenCredit(req: Request, src: Row, dst: Row, txn: TxnId, debitId: LedgerId, creditId: LedgerId): Db {
    Overlay(WrittenDebit(req, src, dst, txn, debitId),
            Db(map[], map[dst.id := dst.wallet.(balance := dst.wallet.balance + req.Value())], map[],
               map[creditId := CreditRow(req, dst, txn)]))
  }

  function WrittenWallet(name: string, userId: UserId, walletId: WalletId, balance: int, openingId: LedgerId): Db {
    Db(map[userId := name], map[walletId := Wallet(userId, balance)], map[],
       if balance > 0 then map[openingId := LedgerRow(walletId, None, Opening, balance, 0, balance)] else map[])
  }

  ghost predicate Clean(x: Session) {
    x.setting.None? && x.writes == EMPTY_DB
  }

  /** Wallet ids a and b, if any, belong to the two users. */
  ghost predicate Belong(wallets: map<WalletId, Wallet>, req: Request, a: Option<WalletId>, b: Option<WalletId>) {
    && (a.Some? ==> a.value in wallets && wallets[a.value].userId == req.fromUser)
    && (b.Some? ==> b.value in wallets && wallets[b.value].userId == req.toUser)
  }

  ghost function Fetched(wallets: map<WalletId, Wallet>, w: Option<WalletId>, locks: set<WalletId>): Option<Row>
    requires w.Some? ==> w.value in wallets
  {
    if w.Some? && w.value in locks then Some(Row(w.value, wallets[w.value])) else None
  }

  /** In the lock loop: the rows fetched so far are the locked prefix of what the snapshot found. */
  ghost predicate LoopOk(wallets: map<WalletId, Wallet>, a: Option<WalletId>, b: Option<WalletId>,
                         x: Session)
    requires x.phase.Locking? && Belong(wallets, x.phase.call.req, a, b)
  {
    var p := x.phase;
    var all := InOrder(a, b);
    && |p.todo| <= |all| && p.todo == all[|all| - |p.todo|..]
    && x.locks == (set w | w in all && w !in p.todo)
    && p.from == Fetched(wallets, a, x.locks)
    && p.to == Fetched(wallets, b, x.locks)
  }

  ghost predicate LockingOk(s: State, x: Session)
    requires x.phase.Locking? && History(s.commits)
  {
    var p := x.phase;
    && ValidArguments(p.call.req)
    && p.call.began <= p.snap <= |s.commits|
    && Clean(x)
    && var found := StateAt(s.commits, p.snap).wallets;
       var a, b := WalletOf(found, p.call.req.fromUser), WalletOf(found, p.call.req.toUser);
       Belong(s.db.wallets, p.call.req, a, b) && LoopOk(s.db.wallets, a, b, x)
  }

  ghost predicate ArmedOk(s: State, x: Session)
    requires x.phase.Armed?
  {
    var p := x.phase;
    Secured(s, x, p.call, p.src, p.dst) && x.setting == Some(p.txn) && x.writes == Written(p.call.req, p.src, p.dst, p.txn)
  }

  ghost predicate DebitedOk(s: State, x: Session)
    requires x.phase.Debited?
  {
    var p := x.phase;
    && Secured(s, x, p.call, p.src, p.dst) && x.setting == Some(p.txn)
    && x.writes == WrittenDebit(p.call.req, p.src, p.dst, p.txn, p.debitId)
    && Newest(s.db.ledger, p.src.id, p.debitId)
  }

  ghost predicate PhaseOk(s: State, x: Session)
    requires History(s.commits)
  {
    match x.phase
    case Idle => x == IDLE
    case Called(call) => x.locks == {} && Clean(x) && call.began <= |s.commits|
    case Locking(_, _, _, _, _) => LockingOk(s, x)
    case Funded(call, src, dst) => Secured(s, x, call, src, dst) && Clean(x)
    case Inserted(call, src, dst, txn) =>
      Secured(s, x, call, src, dst) && x.setting.None? && x.writes == Written(call.req, src, dst, txn)
    case Armed(_, _, _, _) => ArmedOk(s, x)
    case Debited(_, _, _, _, _) => DebitedOk(s, x)
    case Credited(call, src, dst, txn, debitId, creditId) =>
      Posted(s, x, call, src, dst, txn, debitId, creditId) && x.setting == Some(txn)
    case Cleared(call, src, dst, txn, debitId, creditId) =>
      Posted(s, x, call, src, dst, txn, debitId, creditId) && x.setting.None?
    case Registering(_, _) => x.locks == {} && Clean(x)
    case UserAdded(name, _, userId) =>
      && x.locks == {} && x.setting.None?
      && x.writes == Db(map[userId := name], map[], map[], map[])
    case WalletAdded(name, balance, userId, walletId, openingId) =>
      && x.locks == {} && x.setting.None? && 0 <= balance <= MAX_BIGINT
      && x.writes == WrittenWallet(name, userId, walletId, balance, openingId)
  }

  ghost predicate Posted(s: State, x: Session, call: Call, src: Row, dst: Row, txn: TxnId, debitId: LedgerId, creditId: LedgerId) {
    && Secured(s, x, call, src, dst)
    && dst.wallet.balance + call.req.Value() <= MAX_BIGINT
    && debitId != creditId
    && x.writes == WrittenCredit(call.req, src, dst, txn, debitId, creditId)
    && Newest(s.db.ledger, src.id, debitId) && Newest(s.db.ledger, dst.id, creditId)
  }

  /** Locks are on committed rows; what is written is on locked rows or under fresh ids. */
  ghost predicate FootprintOk(s: State, x: Session) {
    && x.locks <= s.db.wallets.Keys
    && (forall w :: w in x.writes.wallets ==> w in x.locks || (w !in s.db.wallets && w < s.nextWallet))
    && (forall w :: w in x.writes.wallets && w in x.locks ==> x.writes.wallets[w].userId == s.db.wallets[w].userId)
    && (forall u :: u in x.writes.users ==> u !in s.db.users && u < s.nextUser && x.writes.users[u] !in s.db.users.Values)
    && (forall t :: t in x.writes.txns ==> t !in s.db.txns && t in s.drawn)
    && (forall k :: k in x.writes.ledger ==>
          k !in s.db.ledger && k < s.nextLedger && x.writes.ledger[k].walletId in x.writes.wallets)
  }

  ghost predicate SessionOk(s: State, x: Session)
    requires History(s.commits)
  {
    PhaseOk(s, x) && FootprintOk(s, x)
  }

  /** Two connections never hold the same lock or write under the same key. */
  ghost predicate Apart(x: Session, y: Session) {
    && x.locks !! y.locks
    && x.writes.wallets.Keys !! y.writes.wallets.Keys
    && x.writes.users.Keys !! y.writes.users.Keys
    && x.writes.users.Values !! y.writes.users.Values
    && x.writes.txns.Keys !! y.writes.txns.Keys
    && x.writes.ledger.Keys !! y.writes.ledger.Keys
  }

  predicate MissingWallet(o: Outcome) {
    o == Raised(WL003) || o == Raised(WL004)
  }

  /** A finished call got the answer of an isolated call at a moment between its start and its end:
      its end, or its snapshot when a wallet was missing. A success is the commit at that moment. */
  ghost predicate Answered(commits: seq<Commit>, f: Finished)
    requires History(commits)
  {
    && f.began <= f.at <= f.ended <= |commits|
    && (!MissingWallet(f.outcome) ==> f.at == f.ended)
    && (!f.outcome.Lost? ==> Decide(StateAt(commits, f.at), f.req) == f.outcome)
    && (f.outcome.Done? ==> f.at < |commits| && commits[f.at].Transfer? && commits[f.at].req == f.req)
  }

  function TransfersOf(commits: seq<Commit>): seq<Request> {
    if commits == [] then []
    else TransfersOf(commits[..|commits| - 1]) +
         if commits[|commits| - 1].Transfer? then [commits[|commits| - 1].req] else []
  }

  function SuccessesOf(finished: seq<Finished>): seq<Request> {
    if finished == [] then []
    else SuccessesOf(finished[..|finished| - 1]) +
         if finished[|finished| - 1].outcome.Done? then [finished[|finished| - 1].req] else []
  }

  ghost predicate RecordOk(s: State)
    requires History(s.commits)
  {
    && (forall k {:trigger Answered(s.commits, s.finished[k])} ::
          0 <= k < |s.finished| ==> Answered(s.commits, s.finished[k]))
    && (forall j, k :: 0 <= j < k < |s.finished| ==> s.finished[j].ended <= s.finished[k].ended)
    && TransfersOf(s.commits) == SuccessesOf(s.finished)
  }

  ghost predicate CommittedOk(s: State)
    requires History(s.commits)
  {
    && s.db == Replay(s.commits)
    && (forall k :: 0 <= k < |s.commits| ==> IdsBelow(s.commits[k], s.nextWallet, s.nextLedger))
    && (forall w :: w in s.db.wallets ==> s.db.wallets[w].userId in s.db.users)
    && (forall u :: u in s.db.users ==> u < s.nextUser)
    && s.db.txns.Keys <= s.drawn
  }

  ghost predicate Inv(s: State) {
    && History(s.commits)
    && CommittedOk(s)
    && RecordOk(s)
    && (forall i {:trigger SessionOk(s, s.sessions[i])} :: 0 <= i < |s.sessions| ==> SessionOk(s, s.sessions[i]))
    && (forall i, j {:trigger Apart(s.sessions[i], s.sessions[j])} ::
          0 <= i < j < |s.sessions| ==> Apart(s.sessions[i], s.sessions[j]))
  }

  lemma InitialInv(n: nat)
    ensures Inv(Initial(n))
  {
  }

  /** Everything proved of serial histories holds of the committed tables. */
  lemma InvDbOk(s: State)
    requires Inv(s)
    ensures DbOk(s.db, s.nextWallet, s.nextLedger)
  {
    HistoryKeepsDbOk(s.commits, s.nextWallet, s.nextLedger);
  }

  lemma InvWallets(s: State)
    requires Inv(s)
    ensures WalletsOk(s.db, s.nextWallet)
  {
    InvDbOk(s);
  }

  lemma InvRows(s: State)
    requires Inv(s)
    ensures forall k :: k in s.db.ledger ==> k < s.nextLedger && s.db.ledger[k].walletId in s.db.wallets
  {
    InvDbOk(s);
  }

  // ----- Steps that leave the committed tables alone -----

  /** t differs from s at most in connection i, in drawn ids, and in newly finished calls. */
  ghost predicate Local(s: State, t: State, i: nat) {
    && i < |s.sessions| == |t.sessions|
    && t.db == s.db && t.commits == s.commits
    && t.nextUser >= s.nextUser && t.nextWallet >= s.nextWallet && t.nextLedger >= s.nextLedger
    && s.drawn <= t.drawn
    && (forall j :: 0 <= j < |s.sessions| && j != i ==> t.sessions[j] == s.sessions[j])
  }

  lemma LocalKeepsSession(s: State, t: State, i: nat, x: Session)
    requires History(s.commits) && Local(s, t, i) && SessionOk(s, x)
    ensures SessionOk(t, x)
  {
  }

  lemma LocalKeepsInv(s: State, t: State, i: nat)
    requires Inv(s) && Local(s, t, i)
    requires RecordOk(t)
    requires SessionOk(t, t.sessions[i])
    requires forall j :: 0 <= j < |s.sessions| && j != i ==> Apart(t.sessions[i], s.sessions[j])
    ensures Inv(t)
  {
    forall j | 0 <= j < |t.sessions| ensures SessionOk(t, t.sessions[j]) {
      if j != i { LocalKeepsSession(s, t, i, s.sessions[j]); }
    }
    forall j, k | 0 <= j < k < |t.sessions| ensures Apart(t.sessions[j], t.sessions[k]) { }
    assert CommittedOk(t);
  }

  /** A step that changes neither locks nor writes cannot collide with another connection. */
  lemma SameWritesKeepInv(s: State, t: State, i: nat)
    requires Inv(s) && Local(s, t, i)
    requires RecordOk(t)
    requires SessionOk(t, t.sessions[i])
    requires t.sessions[i].locks == s.sessions[i].locks && t.sessions[i].writes == s.sessions[i].writes
    ensures Inv(t)
  {
    forall j | 0 <= j < |s.sessions| && j != i ensures Apart(t.sessions[i], s.sessions[j]) {
      assert Apart(s.sessions[if i < j then i else j], s.sessions[if i < j then j else i]);
    }
    LocalKeepsInv(s, t, i);
  }
}
