/** What every reachable state of the engine satisfies, in the words of the database design. */
module EngineTheorems {
  import opened Wrappers
  import opened Schema
  import opened Ledger
  import opened Numbers
  import opened Serial
  import opened Engine
  import opened EngineInvariant
  import opened EngineSteps
  import opened EngineCommits

  /** Serializability. The committed tables, ids included, are those of a serial history of transfers and
      registrations; every finished call got the answer of an isolated call at some moment between its
      start and its end (its end, unless a wallet was missing at its snapshot); calls are recorded in the
      order in which they ended, and the successful ones are, in that order, the transfers of the history. */
  lemma Serializable(t: State)
    requires Reachable(t)
    ensures History(t.commits) && t.db == Replay(t.commits)
    ensures forall k :: 0 <= k < |t.finished| ==> Answered(t.commits, t.finished[k])
    ensures forall j, k :: 0 <= j < k < |t.finished| ==> t.finished[j].ended <= t.finished[k].ended
    ensures SuccessesOf(t.finished) == TransfersOf(t.commits)
  {
    ReachableInv(t);
  }

  /** Replaying the ledger alone rebuilds every balance, and each wallet's rows chain from 0. */
  lemma LedgerRebuildsBalances(t: State)
    requires Reachable(t)
    ensures forall w :: w in t.db.wallets ==>
              var rows := RowsOf(t.db.ledger, w, t.nextLedger);
              Chained(rows) && LastAfter(rows) == t.db.wallets[w].balance == SignedSum(rows)
    ensures forall k :: k in t.db.ledger ==> k < t.nextLedger && t.db.ledger[k] in RowsOf(t.db.ledger, t.db.ledger[k].walletId, t.nextLedger)
  {
    ReachableInv(t);
    InvDbOk(t);
    forall w | w in t.db.wallets
      ensures var rows := RowsOf(t.db.ledger, w, t.nextLedger);
              Chained(rows) && LastAfter(rows) == t.db.wallets[w].balance == SignedSum(rows)
    {
      assert ChainOk(t.db, w, t.nextLedger);
      RowsOfElements(t.db.ledger, w, t.nextLedger);
      ChainAddsUp(RowsOf(t.db.ledger, w, t.nextLedger));
    }
    forall k | k in t.db.ledger
      ensures t.db.ledger[k] in RowsOf(t.db.ledger, t.db.ledger[k].walletId, t.nextLedger)
    {
      RowsOfComplete(t.db.ledger, k, t.nextLedger);
    }
  }

  /** Every committed transaction has exactly one DEBIT, on its sender, and one CREDIT, on its recipient,
      of its own amount; every other row is an OPENING. */
  lemma TransactionsMatchLedger(t: State)
    requires Reachable(t)
    ensures forall id :: id in t.db.txns ==> exists d, c ::
              && d in t.db.ledger && c in t.db.ledger && d != c
              && Posts(t.db.ledger[d], id, t.db.txns[id], t.db.txns[id].fromWallet)
              && Posts(t.db.ledger[c], id, t.db.txns[id], t.db.txns[id].toWallet)
              && forall k :: k in t.db.ledger && t.db.ledger[k].txn == Some(id) ==> k == d || k == c
    ensures forall k :: k in t.db.ledger && !t.db.ledger[k].entryType.Opening? ==>
              t.db.ledger[k].txn.Some? && t.db.ledger[k].txn.value in t.db.txns
  {
    ReachableInv(t);
    InvDbOk(t);
    forall id | id in t.db.txns
      ensures exists d, c ::
              && d in t.db.ledger && c in t.db.ledger && d != c
              && Posts(t.db.ledger[d], id, t.db.txns[id], t.db.txns[id].fromWallet)
              && Posts(t.db.ledger[c], id, t.db.txns[id], t.db.txns[id].toWallet)
              && forall k :: k in t.db.ledger && t.db.ledger[k].txn == Some(id) ==> k == d || k == c
    {
      TwoRows(t.db, id);
    }
    forall k | k in t.db.ledger && !t.db.ledger[k].entryType.Opening?
      ensures t.db.ledger[k].txn.Some? && t.db.ledger[k].txn.value in t.db.txns
    {
      assert Explained(t.db, k);
    }
  }

  lemma TwoRows(db: Db, id: TxnId)
    requires PostingsOk(db) && id in db.txns
    ensures exists d, c ::
              && d in db.ledger && c in db.ledger && d != c
              && Posts(db.ledger[d], id, db.txns[id], db.txns[id].fromWallet)
              && Posts(db.ledger[c], id, db.txns[id], db.txns[id].toWallet)
              && forall k :: k in db.ledger && db.ledger[k].txn == Some(id) ==> k == d || k == c
  {
    var x := db.txns[id];
    assert FullyPosted(db, id);
    var d :| d in db.ledger && Posts(db.ledger[d], id, x, x.fromWallet);
    var c :| c in db.ledger && Posts(db.ledger[c], id, x, x.toWallet);
    forall k | k in db.ledger && db.ledger[k].txn == Some(id) ensures k == d || k == c {
      assert Explained(db, k);
    }
  }

  // ----- Money -----

  /** No money is made or lost, and nothing exceeds what was put in. */
  lemma MoneyConserved(t: State)
    requires Reachable(t)
    ensures SumBalances(t.db.wallets, t.nextWallet) == SumOpenings(t.db.ledger, t.nextLedger)
    ensures forall w :: w in t.db.wallets ==>
              w < t.nextWallet && 0 <= t.db.wallets[w].balance <= SumOpenings(t.db.ledger, t.nextLedger)
    ensures forall k :: k in t.db.ledger ==>
              var r := t.db.ledger[k];
              && 0 < r.amount <= SumOpenings(t.db.ledger, t.nextLedger)
              && 0 <= r.before <= SumOpenings(t.db.ledger, t.nextLedger)
              && 0 <= r.after <= SumOpenings(t.db.ledger, t.nextLedger)
    ensures forall id :: id in t.db.txns ==> 0 < t.db.txns[id].amount <= SumOpenings(t.db.ledger, t.nextLedger)
  {
    ReachableInv(t);
    InvDbOk(t);
    forall w | w in t.db.wallets ensures t.db.wallets[w].balance <= SumOpenings(t.db.ledger, t.nextLedger) {
      PartsWithinTotal(t.db.wallets, w, w, t.nextWallet);
    }
    forall id | id in t.db.txns ensures 0 < t.db.txns[id].amount <= SumOpenings(t.db.ledger, t.nextLedger) {
      assert FullyPosted(t.db, id);
      var d :| d in t.db.ledger && Posts(t.db.ledger[d], id, t.db.txns[id], t.db.txns[id].fromWallet);
    }
  }

  /** The pg type parser for BIGINT columns: Number(value), or a RangeError when that is not a safe integer. */
  function ParseInt8(value: int): Option<int> {
    var magnitude: int := Round(if value < 0 then -value else value);
    if magnitude > MAX_SAFE_INTEGER then None else Some(if value < 0 then -magnitude else magnitude)
  }

  /** It returns the value itself exactly up to 2^53 - 1 in magnitude, and throws beyond: no other value is
      rounded into the safe range. */
  lemma ParsesExactlySafe(value: int)
    ensures ParseInt8(value) == if -0x1F_FFFF_FFFF_FFFF <= value <= 0x1F_FFFF_FFFF_FFFF then Some(value) else None
  {
    var m := if value < 0 then -value else value;
    if m < SIGNIFICANDS {
      UpTo53Bits(m);
      RoundKeepsDoubles(m);
    } else {
      UpTo53Bits(SIGNIFICANDS);
      NothingBetween(m, SIGNIFICANDS);
    }
  }

  /** While the money put in stays within the safe integers, reading back any amount of money never throws. */
  lemma MoneyParses(t: State)
    requires Reachable(t) && SumOpenings(t.db.ledger, t.nextLedger) <= MAX_SAFE_INTEGER
    ensures forall w :: w in t.db.wallets ==> ParseInt8(t.db.wallets[w].balance) == Some(t.db.wallets[w].balance)
    ensures forall id :: id in t.db.txns ==> ParseInt8(t.db.txns[id].amount) == Some(t.db.txns[id].amount)
    ensures forall k :: k in t.db.ledger ==>
              var r := t.db.ledger[k];
              ParseInt8(r.amount) == Some(r.amount) && ParseInt8(r.before) == Some(r.before) && ParseInt8(r.after) == Some(r.after)
  {
    MoneyConserved(t);
    forall n: int ensures -MAX_SAFE_INTEGER <= n <= MAX_SAFE_INTEGER ==> ParseInt8(n) == Some(n) { ParsesExactlySafe(n); }
  }

  /** Openings only grow along a history. */
  lemma {:induction false} OpeningsGrow(commits: seq<Commit>, k: nat, wn: nat, ln: nat)
    requires History(commits) && k <= |commits|
    requires forall j :: 0 <= j < |commits| ==> IdsBelow(commits[j], wn, ln)
    ensures DbOk(StateAt(commits, k), wn, ln)
    ensures SumOpenings(StateAt(commits, k).ledger, ln) <= SumOpenings(Replay(commits).ledger, ln)
    decreases |commits|
  {
    if k == |commits| {
      assert commits[..k] == commits;
      HistoryKeepsDbOk(commits, wn, ln);
    } else {
      var init, last := commits[..|commits| - 1], commits[|commits| - 1];
      OpeningsGrow(init, k, wn, ln);
      assert init[..k] == commits[..k];
      HistoryKeepsDbOk(init, wn, ln);
      assert IdsBelow(last, wn, ln);
      ApplyKeepsDbOk(Replay(init), last, wn, ln);
    }
  }

  /** A call ends with a commit, a lost connection, or one of WL001 to WL005; the BIGINT range can only be
      left when more money than that was put in. No other constraint or trigger ever fires in it. */
  lemma OnlyDocumentedFailures(t: State, f: Finished)
    requires Reachable(t) && f in t.finished
    ensures f.outcome.Done? || f.outcome.Lost?
            || f.outcome.state in {WL001, WL002, WL003, WL004, WL005, OutOfRange}
    ensures f.outcome == Raised(OutOfRange) ==> SumOpenings(t.db.ledger, t.nextLedger) > MAX_BIGINT
  {
    ReachableInv(t);
    InvNoOverflow(t, f);
  }

  lemma InvNoOverflow(t: State, f: Finished)
    requires Inv(t) && f in t.finished
    ensures Answered(t.commits, f)
    ensures f.outcome == Raised(OutOfRange) ==> SumOpenings(t.db.ledger, t.nextLedger) > MAX_BIGINT
  {
    var k :| 0 <= k < |t.finished| && t.finished[k] == f;
    assert Answered(t.commits, t.finished[k]);
    if f.outcome == Raised(OutOfRange) {
      var db := StateAt(t.commits, f.at);
      OpeningsGrow(t.commits, f.at, t.nextWallet, t.nextLedger);
      var from, to := WalletOf(db.wallets, f.req.fromUser).value, WalletOf(db.wallets, f.req.toUser).value;
      PartsWithinTotal(db.wallets, from, to, t.nextWallet);
    }
  }

  // ----- Ledger ids -----

  /** Commit k wrote row `id` of wallet w. */
  ghost predicate Wrote(commits: seq<Commit>, k: nat, w: WalletId, id: LedgerId)
    requires History(commits) && k < |commits|
  {
    && id in StateAt(commits, k + 1).ledger && id !in StateAt(commits, k).ledger
    && StateAt(commits, k + 1).ledger[id].walletId == w
  }

  lemma StateAtStep(commits: seq<Commit>, k: nat)
    requires History(commits) && k < |commits|
    ensures Legal(StateAt(commits, k), commits[k]) && StateAt(commits, k + 1) == Apply(StateAt(commits, k), commits[k])
  {
    HistoryPrefix(commits, k + 1);
    assert commits[..k + 1][..k] == commits[..k];
  }

  lemma CommitAddsRows(db: Db, c: Commit)
    requires Legal(db, c)
    ensures forall id :: id in db.ledger ==> id in Apply(db, c).ledger && Apply(db, c).ledger[id] == db.ledger[id]
  {
  }

  lemma {:induction false} LedgerGrows(commits: seq<Commit>, j: nat, k: nat)
    requires History(commits) && j <= k <= |commits|
    ensures forall id :: id in StateAt(commits, j).ledger ==>
              id in StateAt(commits, k).ledger && StateAt(commits, k).ledger[id] == StateAt(commits, j).ledger[id]
    decreases k
  {
    hide StateAt, Legal, Apply, History;
    if j < k {
      LedgerGrows(commits, j, k - 1);
      StateAtStep(commits, k - 1);
      CommitAddsRows(StateAt(commits, k - 1), commits[k - 1]);
    }
  }

  /** Ids are drawn before commit, but per wallet their order is the commit order. */
  lemma LedgerIdsFollowCommits(t: State, j: nat, k: nat, w: WalletId, a: LedgerId, b: LedgerId)
    requires Reachable(t) && History(t.commits) && j < k < |t.commits|
    requires Wrote(t.commits, j, w, a) && Wrote(t.commits, k, w, b)
    ensures a < b
  {
    LedgerGrows(t.commits, j + 1, k);
    StateAtStep(t.commits, k);
  }

  // ----- app.current_transaction_id -----

  /** The setting is non-empty exactly between its set and its clear, and names the transaction row that the
      same call has just inserted and not yet committed. */
  lemma SettingNamesOwnTransaction(t: State, i: nat)
    requires Reachable(t) && i < |t.sessions|
    ensures var x := t.sessions[i];
            && (x.setting.Some? <==> x.phase.Armed? || x.phase.Debited? || x.phase.Credited?)
            && (x.setting.Some? ==>
                  && x.setting.value == x.phase.txn
                  && x.phase.txn !in t.db.txns
                  && x.phase.txn in x.writes.txns
                  && x.writes.txns[x.phase.txn] == NewTransaction(x.phase.call.req, x.phase.src.id, x.phase.dst.id))
  {
    ReachableInv(t);
    assert SessionOk(t, t.sessions[i]);
    var x := t.sessions[i];
    if x.setting.Some? { assert x.phase.txn in x.writes.txns; }
  }

  /** A balance changed by a statement of its own: WL006, and nothing changes. */
  lemma StrayUpdateRejected(t: State, i: nat, w: WalletId, b: int)
    requires Reachable(t) && Enabled(t, StrayUpdate(i, w, b))
    ensures Next(t, StrayUpdate(i, w, b)) == t
    ensures w in t.db.wallets && b != t.db.wallets[w].balance && InBigint(b) && b >= 0 ==>
              UpdateBalance(t.db, t.sessions[i].setting, w, b, t.nextLedger) == Failure(WL006)
  {
    ReachableInv(t);
    StrayHasNoEffect(t, i, w, b);
  }

  /** A balance changed later in the transaction of a call: the transaction aborts, committed tables stay as they
      are, and the call is undone; a legal balance raises WL006. */
  lemma LateUpdateRejected(t: State, i: nat, w: WalletId, b: int)
    requires Reachable(t) && Enabled(t, LateUpdate(i, w, b))
    ensures var u := Next(t, LateUpdate(i, w, b));
            && u.db == t.db && u.commits == t.commits && u.sessions == t.sessions[i := IDLE]
            && u.finished == t.finished + [Finished(t.sessions[i].phase.call.req, t.sessions[i].phase.call.began,
                                                    |t.commits|, |t.commits|, Lost)]
    ensures InBigint(b) && b >= 0 ==>
              UpdateBalance(Overlay(t.db, t.sessions[i].writes), t.sessions[i].setting, w, b, t.nextLedger) == Failure(WL006)
  {
    ReachableInv(t);
    LateUpdateAborts(t, i, w, b);
  }

  /** It is the clear that rejects it: one statement earlier the trigger would have accepted any legal change of a
      third wallet, as a ledger row of this call's transaction. */
  lemma OnlyTheClearRejects(t: State, i: nat, w: WalletId, b: int)
    requires Reachable(t) && i < |t.sessions| && t.sessions[i].phase.Credited?
    requires w in t.db.wallets && w !in t.sessions[i].locks && b != t.db.wallets[w].balance && 0 <= b <= MAX_BIGINT
    ensures var x := t.sessions[i];
            var r := UpdateBalance(Overlay(t.db, x.writes), x.setting, w, b, t.nextLedger);
            && r.Success? && t.nextLedger in r.value.ledger
            && r.value.ledger[t.nextLedger].walletId == w && r.value.ledger[t.nextLedger].txn == Some(x.phase.txn)
  {
    ReachableInv(t);
    var x := t.sessions[i];
    InvWallets(t);
    OwnRowsOnLocked(t, i);
    assert 0 <= t.db.wallets[w].balance <= MAX_BIGINT;
    hide Inv, SessionOk, UpdateBalance, WalletsOk;
    assert w !in x.writes.wallets;
    TriggerAccepts(Overlay(t.db, x.writes), x.phase.txn, w, b, t.nextLedger);
  }

  lemma TriggerAccepts(view: Db, txn: TxnId, w: WalletId, b: int, id: LedgerId)
    requires w in view.wallets && 0 <= view.wallets[w].balance <= MAX_BIGINT && 0 <= b <= MAX_BIGINT
    requires b != view.wallets[w].balance
    requires forall k :: k in view.ledger && view.ledger[k].txn == Some(txn) ==> view.ledger[k].walletId != w
    ensures var r := UpdateBalance(view, Some(txn), w, b, id);
            r.Success? && id in r.value.ledger && r.value.ledger[id].walletId == w && r.value.ledger[id].txn == Some(txn)
  {
  }

  /** The rows of the call's own transaction are all on the wallets it has locked. */
  lemma OwnRowsOnLocked(t: State, i: nat)
    requires Inv(t) && i < |t.sessions| && t.sessions[i].phase.Credited?
    ensures var x := t.sessions[i];
            && x.setting == Some(x.phase.txn)
            && (forall w :: w in x.writes.wallets ==> w in x.locks)
            && forall k :: k in Overlay(t.db, x.writes).ledger && Overlay(t.db, x.writes).ledger[k].txn == x.setting ==>
                 Overlay(t.db, x.writes).ledger[k].walletId in x.locks
  {
    var x := t.sessions[i];
    assert SessionOk(t, x);
    InvDbOk(t);
    assert x.phase.txn in x.writes.txns;
    NoRowsOf(t.db, x.phase.txn);
  }

  lemma NoRowsOf(db: Db, txn: TxnId)
    requires PostingsOk(db) && txn !in db.txns
    ensures forall k :: k in db.ledger ==> db.ledger[k].txn != Some(txn)
  {
    forall k | k in db.ledger ensures db.ledger[k].txn != Some(txn) { assert Explained(db, k); }
  }

  /** A ledger row changed or deleted by hand: WL007, and nothing changes. */
  lemma LedgerChangeRejected(t: State, i: nat, k: LedgerId, row: Option<LedgerRow>)
    requires Enabled(t, StrayLedger(i, k, row))
    ensures Next(t, StrayLedger(i, k, row)) == t
    ensures k in t.db.ledger ==> ChangeLedger(t.db, k, row) == Failure(WL007)
  {
    LedgerChangeHasNoEffect(t, k, row);
  }

  /** What a connection commits are new ledger rows. */
  lemma CommitsFresh(s: State, i: nat)
    requires Inv(s) && i < |s.sessions|
    ensures forall k :: k in s.db.ledger ==>
              var d := Overlay(s.db, s.sessions[i].writes).ledger; k in d && d[k] == s.db.ledger[k]
  {
    assert SessionOk(s, s.sessions[i]);
  }

  lemma StepKeepsLedger(s: State, step: Step)
    requires Inv(s) && Enabled(s, step)
    ensures forall k :: k in s.db.ledger ==> k in Next(s, step).db.ledger && Next(s, step).db.ledger[k] == s.db.ledger[k]
  {
    match step
    case CommitCall(i) => CommitsFresh(s, i);
    case CommitRegistration(i) => CommitsFresh(s, i);
    case StrayUpdate(i, w, b) => StrayHasNoEffect(s, i, w, b);
    case StrayLedger(_, k, row) => LedgerChangeHasNoEffect(s, k, row);
    case LateUpdate(i, w, b) => LateUpdateAborts(s, i, w, b);
    case _ => OnlyCommitsWrite(s, step);
  }

  lemma OnlyCommitsWrite(s: State, step: Step)
    requires Enabled(s, step)
    requires !step.CommitCall? && !step.CommitRegistration? && !step.StrayUpdate? && !step.StrayLedger? && !step.LateUpdate?
    ensures Next(s, step).db == s.db
  {}

  /** The ledger is append-only: along every run, attempts to change it by hand included, a committed row stays
      as it is. */
  lemma {:induction false} LedgerIsAppendOnly(s: State, steps: seq<Step>, t: State)
    requires Inv(s) && Run(s, steps, t)
    ensures forall k :: k in s.db.ledger ==> k in t.db.ledger && t.db.ledger[k] == s.db.ledger[k]
    decreases |steps|
  {
    if steps != [] {
      StepKeepsLedger(s, steps[0]);
      StepKeepsInv(s, steps[0]);
      LedgerIsAppendOnly(Next(s, steps[0]), steps[1..], t);
    }
  }
}
