/** Reading the ledger: the rows of one wallet in id order, the balance chain, and sums over tables.
    Tables are partial maps from sequence-drawn ids, so ids may have gaps; `n` bounds the ids in use. */
module Ledger {
  import opened Wrappers
  import opened Schema

  /** SELECT * FROM transaction_ledger WHERE wallet_id = w ORDER BY id, for ids below n. */
  ghost function RowsOf(ledger: map<LedgerId, LedgerRow>, w: WalletId, n: nat): seq<LedgerRow> {
    if n == 0 then []
    else RowsOf(ledger, w, n - 1) +
         (if n - 1 in ledger && ledger[n - 1].walletId == w then [ledger[n - 1]] else [])
  }

  ghost function LastAfter(rows: seq<LedgerRow>): int {
    if rows == [] then 0 else rows[|rows| - 1].after
  }

  /** The first row starts at 0 and each row starts where the previous one ended. */
  ghost predicate Chained(rows: seq<LedgerRow>) {
    && (rows != [] ==> rows[0].before == 0)
    && forall k :: 1 <= k < |rows| ==> rows[k].before == rows[k - 1].after
  }

  function Signed(r: LedgerRow): int {
    if r.entryType.Debit? then -r.amount else r.amount
  }

  /** sum(CREDIT + OPENING) - sum(DEBIT), from the ledger alone. */
  ghost function SignedSum(rows: seq<LedgerRow>): int {
    if rows == [] then 0 else SignedSum(rows[..|rows| - 1]) + Signed(rows[|rows| - 1])
  }

  /** A row written with an id above all of its wallet's rows extends that wallet's chain at the end. */
  lemma {:induction false} RowsOfNewest(ledger: map<LedgerId, LedgerRow>, id: LedgerId, row: LedgerRow, n: nat)
    requires id < n && id !in ledger
    requires forall k :: k in ledger && ledger[k].walletId == row.walletId ==> k < id
    ensures RowsOf(ledger[id := row], row.walletId, n) == RowsOf(ledger, row.walletId, n) + [row]
  {
    if id == n - 1 {
      RowsOfFrame(ledger, ledger[id := row], row.walletId, n - 1);
    } else {
      RowsOfNewest(ledger, id, row, n - 1);
    }
  }

  /** Only rows of the wallet itself, with ids below the bound, matter. */
  lemma {:induction false} RowsOfFrame(a: map<LedgerId, LedgerRow>, b: map<LedgerId, LedgerRow>, w: WalletId, n: nat)
    requires forall k :: k < n ==> ((k in a && a[k].walletId == w) <==> (k in b && b[k].walletId == w))
    requires forall k :: k < n && k in a && k in b && a[k].walletId == w ==> a[k] == b[k]
    ensures RowsOf(a, w, n) == RowsOf(b, w, n)
  {
    if n > 0 { RowsOfFrame(a, b, w, n - 1); }
  }

  lemma {:induction false} RowsOfElements(ledger: map<LedgerId, LedgerRow>, w: WalletId, n: nat)
    ensures forall r :: r in RowsOf(ledger, w, n) ==> exists k :: k in ledger && k < n && ledger[k] == r && r.walletId == w
  {
    if n > 0 { RowsOfElements(ledger, w, n - 1); }
  }

  lemma {:induction false} RowsOfComplete(ledger: map<LedgerId, LedgerRow>, k: LedgerId, n: nat)
    requires k in ledger && k < n
    ensures ledger[k] in RowsOf(ledger, ledger[k].walletId, n)
  {
    if k < n - 1 { RowsOfComplete(ledger, k, n - 1); }
  }

  lemma {:induction false} NoRows(ledger: map<LedgerId, LedgerRow>, w: WalletId, n: nat)
    requires forall k :: k in ledger ==> ledger[k].walletId != w
    ensures RowsOf(ledger, w, n) == []
  {
    if n > 0 { NoRows(ledger, w, n - 1); }
  }

  /** A chain of rows that satisfy the arithmetic constraint adds up to its last balance. */
  lemma {:induction false} ChainAddsUp(rows: seq<LedgerRow>)
    requires Chained(rows)
    requires forall r :: r in rows ==> LedgerChecks(r)
    ensures SignedSum(rows) == LastAfter(rows)
  {
    if rows != [] {
      var init := rows[..|rows| - 1];
      assert rows[|rows| - 1] in rows;
      assert forall r :: r in init ==> r in rows;
      ChainAddsUp(init);
    }
  }

  // ----- Sums over tables -----

  ghost function SumBalances(wallets: map<WalletId, Wallet>, n: nat): int {
    if n == 0 then 0
    else SumBalances(wallets, n - 1) + if n - 1 in wallets then wallets[n - 1].balance else 0
  }

  ghost function BalanceAt(wallets: map<WalletId, Wallet>, w: WalletId): int {
    if w in wallets then wallets[w].balance else 0
  }

  lemma {:induction false} SumBalancesUpdate(wallets: map<WalletId, Wallet>, w: WalletId, v: Wallet, n: nat)
    requires w < n
    ensures SumBalances(wallets[w := v], n) == SumBalances(wallets, n) + v.balance - BalanceAt(wallets, w)
  {
    if w == n - 1 {
      SumBalancesFrame(wallets, w, v, n - 1);
    } else {
      SumBalancesUpdate(wallets, w, v, n - 1);
    }
  }

  lemma {:induction false} SumBalancesFrame(wallets: map<WalletId, Wallet>, w: WalletId, v: Wallet, n: nat)
    requires n <= w
    ensures SumBalances(wallets[w := v], n) == SumBalances(wallets, n)
  {
    if n > 0 { SumBalancesFrame(wallets, w, v, n - 1); }
  }

  /** With no negative balance, one wallet, or two different ones, hold at most the total. */
  lemma {:induction false} PartsWithinTotal(wallets: map<WalletId, Wallet>, v: WalletId, w: WalletId, n: nat)
    requires forall x :: x in wallets ==> wallets[x].balance >= 0
    requires v < n && w < n
    ensures BalanceAt(wallets, v) <= SumBalances(wallets, n)
    ensures v != w ==> BalanceAt(wallets, v) + BalanceAt(wallets, w) <= SumBalances(wallets, n)
  {
    var v' := Wallet(0, 0);
    SumBalancesUpdate(wallets, v, v', n);
    SumBalancesNonNegative(wallets[v := v'], n);
    if v != w {
      SumBalancesUpdate(wallets[v := v'], w, v', n);
      SumBalancesNonNegative(wallets[v := v'][w := v'], n);
    }
  }

  lemma {:induction false} SumBalancesNonNegative(wallets: map<WalletId, Wallet>, n: nat)
    requires forall x :: x in wallets ==> wallets[x].balance >= 0
    ensures SumBalances(wallets, n) >= 0
  {
    if n > 0 { SumBalancesNonNegative(wallets, n - 1); }
  }

  /** All money ever put into the system: the amounts of the OPENING rows. */
  ghost function SumOpenings(ledger: map<LedgerId, LedgerRow>, n: nat): int {
    if n == 0 then 0
    else SumOpenings(ledger, n - 1) +
         if n - 1 in ledger && ledger[n - 1].entryType.Opening? then ledger[n - 1].amount else 0
  }

  lemma {:induction false} SumOpeningsInsert(ledger: map<LedgerId, LedgerRow>, id: LedgerId, row: LedgerRow, n: nat)
    requires id !in ledger
    ensures SumOpenings(ledger[id := row], n) ==
            SumOpenings(ledger, n) + if id < n && row.entryType.Opening? then row.amount else 0
  {
    if n > 0 { SumOpeningsInsert(ledger, id, row, n - 1); }
  }
}
