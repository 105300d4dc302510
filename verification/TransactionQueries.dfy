/** Reading transactions: the two paged lists, the lookup by id, and the receipt download. */
module TransactionQueries {
  import opened Wrappers
  import opened Schema
  import opened Ordering
  import opened Receipts
  import opened Division
  import opened Serial

  // ----- ORDER BY created_at DESC, id DESC -----

  predicate Precedes(rows: Rows, x: TxnId, y: TxnId)
    requires x in rows && y in rows
  {
    rows[x].createdAt > rows[y].createdAt || (rows[x].createdAt == rows[y].createdAt && Less(y, x))
  }

  lemma PrecedesIsStrictTotal(rows: Rows, x: TxnId, y: TxnId, z: TxnId)
    requires x in rows && y in rows && z in rows
    ensures !Precedes(rows, x, x)
    ensures x != y ==> (Precedes(rows, x, y) <==> !Precedes(rows, y, x))
    ensures Precedes(rows, x, y) && Precedes(rows, y, z) ==> Precedes(rows, x, z)
  {
    LessTotal(x, x);
    LessTotal(x, y);
    if Less(y, x) && Less(z, y) { LessTransitive(z, y, x); }
  }

  ghost predicate InOrder(rows: Rows, ids: seq<TxnId>) {
    && (forall k :: 0 <= k < |ids| ==> ids[k] in rows)
    && forall j, k :: 0 <= j < k < |ids| ==> Precedes(rows, ids[j], ids[k])
  }

  /** The whole answer of a list query over `keep`: every row once, in order. */
  ghost predicate IsFullList(rows: Rows, keep: set<TxnId>, ids: seq<TxnId>) {
    InOrder(rows, ids) && Members(ids) == keep
  }

  lemma {:induction false} First(rows: Rows, keep: set<TxnId>) returns (x: TxnId)
    requires keep != {} && keep <= rows.Keys
    ensures x in keep && forall y :: y in keep && y != x ==> Precedes(rows, x, y)
  {
    x :| x in keep;
    if keep != {x} {
      var y := First(rows, keep - {x});
      PrecedesIsStrictTotal(rows, x, y, y);
      if Precedes(rows, y, x) {
        x := y;
      } else {
        forall z | z in keep && z != x ensures Precedes(rows, x, z) {
          PrecedesIsStrictTotal(rows, x, y, z);
        }
      }
    }
  }

  lemma {:induction false} FullListExists(rows: Rows, keep: set<TxnId>) returns (ids: seq<TxnId>)
    requires keep <= rows.Keys
    ensures IsFullList(rows, keep, ids)
    decreases |keep|
  {
    ids := [];
    if keep != {} {
      var x := First(rows, keep);
      var rest := FullListExists(rows, keep - {x});
      forall k | 0 <= k < |rest| ensures rest[k] in keep && rest[k] != x {
        assert rest[k] in Members(rest);
      }
      ids := [x] + rest;
      ConsMembers(x, rest);
    } else {
      NoMembers(ids);
    }
  }

  /** The ordering columns leave nothing open: a list query has exactly one answer, so its pages fit together. */
  lemma {:induction false} FullListUnique(rows: Rows, keep: set<TxnId>, a: seq<TxnId>, b: seq<TxnId>)
    requires IsFullList(rows, keep, a) && IsFullList(rows, keep, b)
    ensures a == b
    decreases |a|
  {
    NoMembers(a);
    NoMembers(b);
    if a != [] {
      assert a[0] in Members(a) && b[0] in Members(b);
      var j :| 0 <= j < |a| && a[j] == b[0];
      var k :| 0 <= k < |b| && b[k] == a[0];
      PrecedesIsStrictTotal(rows, a[0], b[0], b[0]);
      RestIsFull(rows, keep, a);
      RestIsFull(rows, keep, b);
      FullListUnique(rows, keep - {a[0]}, a[1..], b[1..]);
      assert a == [a[0]] + a[1..] && b == [b[0]] + b[1..];
    }
  }

  lemma RestIsFull(rows: Rows, keep: set<TxnId>, a: seq<TxnId>)
    requires IsFullList(rows, keep, a) && a != []
    ensures IsFullList(rows, keep - {a[0]}, a[1..])
  {
    assert a == [a[0]] + a[1..];
    ConsMembers(a[0], a[1..]);
    forall x | x in a[1..] ensures x != a[0] {
      var k :| 0 <= k < |a[1..]| && a[1..][k] == x;
      assert Precedes(rows, a[0], a[k + 1]);
      PrecedesIsStrictTotal(rows, a[0], a[0], a[0]);
    }
  }

  /** Earlier places hold rows at least as new, and of equal age the one whose id comes later. */
  lemma NewestFirst(rows: Rows, keep: set<TxnId>, full: seq<TxnId>)
    requires IsFullList(rows, keep, full)
    ensures forall x :: x in full <==> x in keep
    ensures forall j, k :: 0 <= j < k < |full| ==>
              && rows[full[j]].createdAt >= rows[full[k]].createdAt
              && (rows[full[j]].createdAt == rows[full[k]].createdAt ==> Before(full[k], full[j]))
  {
    forall x ensures x in full <==> x in keep { assert x in full <==> x in Members(full); }
    forall j, k | 0 <= j < k < |full|
      ensures rows[full[j]].createdAt >= rows[full[k]].createdAt
      ensures rows[full[j]].createdAt == rows[full[k]].createdAt ==> Before(full[k], full[j])
    {
      assert Precedes(rows, full[j], full[k]);
      LessMeans(full[k], full[j]);
    }
  }

  // ----- src/lib/pagination, toPage -----

  datatype Page = Page(items: seq<TxnId>, total: nat)
  datatype Response = Response(items: seq<TxnId>, page: nat, limit: nat, total: nat, totalPages: nat)

  function Least(a: nat, b: nat): nat {
    if a < b then a else b
  }

  /** LIMIT limit OFFSET offset, with COUNT(*) OVER () read from the first row, if there is one. */
  function ToPage(full: seq<TxnId>, limit: nat, offset: nat): Page {
    var items := full[Least(offset, |full|)..Least(offset + limit, |full|)];
    Page(items, if items == [] then 0 else |full|)
  }

  function ToOffset(page: nat, limit: nat): nat
    requires page >= 1
  {
    (page - 1) * limit
  }

  /** The service's answer for one page; the request schema asks for page >= 1 and limit >= 1. */
  function List(full: seq<TxnId>, page: nat, limit: nat): Response
    requires page >= 1 && limit >= 1
  {
    var p := ToPage(full, limit, ToOffset(page, limit));
    Response(p.items, page, limit, p.total, (p.total + limit - 1) / limit)
  }

  /** Pages 1 to n, one after the other. */
  function Pages(full: seq<TxnId>, n: nat, limit: nat): seq<TxnId>
    requires limit >= 1
  {
    if n == 0 then [] else Pages(full, n - 1, limit) + List(full, n, limit).items
  }

  lemma PageExtends(full: seq<TxnId>, offset: nat, limit: nat)
    ensures full[..Least(offset, |full|)] + ToPage(full, limit, offset).items == full[..Least(offset + limit, |full|)]
  {}

  /** The first n pages are the first n * limit rows. */
  lemma {:induction false} PagesArePrefix(full: seq<TxnId>, n: nat, limit: nat)
    requires limit >= 1
    ensures Pages(full, n, limit) == full[..Least(n * limit, |full|)]
  {
    if n > 0 {
      PagesArePrefix(full, n - 1, limit);
      assert n * limit == (n - 1) * limit + limit;
      PageExtends(full, (n - 1) * limit, limit);
    }
  }

  /** The reported total is the size of the list exactly when the page starts inside it (or the list is
      empty); a page past the end reports 0. */
  lemma TotalExactInside(full: seq<TxnId>, page: nat, limit: nat)
    requires page >= 1 && limit >= 1
    ensures List(full, page, limit).total == |full| <==> ToOffset(page, limit) < |full| || full == []
    ensures ToOffset(page, limit) >= |full| <==> List(full, page, limit).items == []
    ensures ToOffset(page, limit) >= |full| ==> List(full, page, limit).total == 0 == List(full, page, limit).totalPages
  {
    if ToOffset(page, limit) >= |full| {
      assert (0 + limit - 1) / limit == 0;
    } else {
      assert |List(full, page, limit).items| > 0;
    }
  }

  /** A page echoes what was asked for, and place k on it is place (page - 1) * limit + k of the list. */
  lemma PageIsSlice(full: seq<TxnId>, page: nat, limit: nat)
    requires page >= 1 && limit >= 1
    ensures var r := List(full, page, limit);
            && r.page == page && r.limit == limit && |r.items| <= limit
            && (forall k :: 0 <= k < |r.items| ==> (page - 1) * limit + k < |full| && r.items[k] == full[(page - 1) * limit + k])
            && (|r.items| < limit ==> (page - 1) * limit + |r.items| >= |full|)
  {
  }

  lemma EnoughPages(size: nat, limit: nat)
    requires limit >= 1
    ensures var n := (size + limit - 1) / limit;
            n * limit >= size && (n > 0 ==> (n - 1) * limit < size)
  {
    var n := (size + limit - 1) / limit;
    CeilingBound(size, limit, n);
    if n > 0 { CeilingBound(size, limit, n - 1); }
  }

  lemma PageInside(full: seq<TxnId>, p: nat, n: nat, limit: nat)
    requires limit >= 1 && 1 <= p <= n && (n - 1) * limit < |full|
    ensures List(full, p, limit).items != [] && List(full, p, limit).total == |full|
  {
    Monotone(p - 1, n - 1, limit);
    TotalExactInside(full, p, limit);
  }

  /** Following totalPages of the first page collects the whole list, in order, without gap or repeat, and
      every one of these pages has something on it and reports the same totals. */
  lemma PagesMakeTheList(full: seq<TxnId>, limit: nat)
    requires limit >= 1
    ensures Pages(full, List(full, 1, limit).totalPages, limit) == full
    ensures forall p :: 1 <= p <= List(full, 1, limit).totalPages ==>
              && List(full, p, limit).items != [] && List(full, p, limit).total == |full|
              && List(full, p, limit).totalPages == List(full, 1, limit).totalPages
  {
    var n := List(full, 1, limit).totalPages;
    EnoughPages(|full|, limit);
    assert ToOffset(1, limit) == 0;
    assert List(full, 1, limit).total == |full| && n == (|full| + limit - 1) / limit;
    PagesArePrefix(full, n, limit);
    assert full[..|full|] == full;
    forall p | 1 <= p <= n
      ensures List(full, p, limit).items != [] && List(full, p, limit).total == |full| && List(full, p, limit).totalPages == n
    {
      PageInside(full, p, n, limit);
    }
  }

  // ----- src/services/transaction.service -----

  datatype Requester = Requester(id: UserId, admin: bool)

  ghost predicate ForeignKeys(db: Db) {
    forall id :: id in db.txns ==> db.txns[id].fromWallet in db.wallets && db.txns[id].toWallet in db.wallets
  }

  predicate CanView(db: Db, id: TxnId, r: Requester)
    requires id in db.txns && db.txns[id].fromWallet in db.wallets && db.txns[id].toWallet in db.wallets
  {
    r.admin || db.wallets[db.txns[id].fromWallet].userId == r.id || db.wallets[db.txns[id].toWallet].userId == r.id
  }

  datatype QueryError = TransactionNotFound | ReceiptNotRequired | ReceiptNotReady

  function GetById(db: Db, id: TxnId, r: Requester): Result<Transaction, QueryError>
    requires id in db.txns ==> db.txns[id].fromWallet in db.wallets && db.txns[id].toWallet in db.wallets
  {
    if id !in db.txns || !CanView(db, id, r) then Failure(TransactionNotFound) else Success(db.txns[id])
  }

  /** WHERE from_wallet_id = (SELECT ...) OR to_wallet_id = (SELECT ...); no wallet, no rows. */
  ghost function OfUser(db: Db, user: UserId): set<TxnId> {
    var w := WalletOf(db.wallets, user);
    set id | id in db.txns && w.Some? && (db.txns[id].fromWallet == w.value || db.txns[id].toWallet == w.value)
  }

  /** What the list open to a requester ranges over: everything for an admin, else the requester's own. */
  ghost function Listable(db: Db, r: Requester): set<TxnId> {
    if r.admin then db.txns.Keys else OfUser(db, r.id)
  }

  /** A sound database meets what the queries rely on. */
  lemma SoundDbIsQueryable(db: Db, wn: nat, ln: nat)
    requires DbOk(db, wn, ln)
    ensures OneWalletPerUser(db.wallets) && ForeignKeys(db)
  {
    forall id | id in db.txns ensures db.txns[id].fromWallet in db.wallets && db.txns[id].toWallet in db.wallets {
      assert FullyPosted(db, id);
    }
  }

  ghost predicate OnAPage(full: seq<TxnId>, limit: nat, id: TxnId)
    requires limit >= 1
  {
    exists p :: 1 <= p <= List(full, 1, limit).totalPages && id in List(full, p, limit).items
  }

  /** Some page of the requester's list contains a transaction exactly when the lookup by id would show it. */
  lemma ListedIffViewable(db: Db, r: Requester, full: seq<TxnId>, limit: nat, id: TxnId)
    requires OneWalletPerUser(db.wallets) && ForeignKeys(db) && limit >= 1
    requires IsFullList(db.txns, Listable(db, r), full)
    ensures GetById(db, id, r).Success? <==> OnAPage(full, limit, id)
  {
    assert id in Listable(db, r) <==> GetById(db, id, r).Success?;
    var n := List(full, 1, limit).totalPages;
    PagesMakeTheList(full, limit);
    OnSomePage(full, n, limit, id);
    assert id in full <==> id in Members(full);
  }

  /** In a sound database every requester has exactly one full list, and its pages show exactly what the lookup by id
      would show. */
  lemma EveryRequesterSeesTheirOwn(db: Db, wn: nat, ln: nat, r: Requester, limit: nat) returns (full: seq<TxnId>)
    requires DbOk(db, wn, ln) && limit >= 1
    ensures IsFullList(db.txns, Listable(db, r), full)
    ensures forall other :: IsFullList(db.txns, Listable(db, r), other) ==> other == full
    ensures ForeignKeys(db) && forall id :: GetById(db, id, r).Success? <==> OnAPage(full, limit, id)
  {
    SoundDbIsQueryable(db, wn, ln);
    full := FullListExists(db.txns, Listable(db, r));
    forall other | IsFullList(db.txns, Listable(db, r), other) ensures other == full {
      FullListUnique(db.txns, Listable(db, r), other, full);
    }
    forall id ensures GetById(db, id, r).Success? <==> OnAPage(full, limit, id) {
      ListedIffViewable(db, r, full, limit, id);
    }
  }

  lemma {:induction false} OnSomePage(full: seq<TxnId>, n: nat, limit: nat, id: TxnId)
    requires limit >= 1
    ensures id in Pages(full, n, limit) <==> exists p :: 1 <= p <= n && id in List(full, p, limit).items
  {
    if n > 0 { OnSomePage(full, n - 1, limit, id); }
  }

  /** getReceiptDownloadUrl up to the storage call: the key it asks the storage for. */
  function ReceiptToDownload(db: Db, id: TxnId, r: Requester): Result<Option<string>, QueryError>
    requires id in db.txns ==> db.txns[id].fromWallet in db.wallets && db.txns[id].toWallet in db.wallets
  {
    var t :- GetById(db, id, r);
    if t.status.NotRequired? then Failure(ReceiptNotRequired)
    else if !t.status.Generated? then Failure(ReceiptNotReady)
    else Success(t.objectKey)
  }

  /** The lookup answers with the stored row itself, or that there is none to see. */
  lemma LookupMeans(db: Db, id: TxnId, r: Requester)
    requires ForeignKeys(db)
    ensures GetById(db, id, r) == Failure(TransactionNotFound) <==>
              id !in db.txns || !(r.admin || db.wallets[db.txns[id].fromWallet].userId == r.id || db.wallets[db.txns[id].toWallet].userId == r.id)
    ensures GetById(db, id, r) != Failure(TransactionNotFound) ==> id in db.txns && GetById(db, id, r) == Success(db.txns[id])
  {
  }

  /** The four answers of the download, each exactly when. */
  lemma DownloadMeans(db: Db, id: TxnId, r: Requester)
    requires ForeignKeys(db)
    ensures var seen := id in db.txns && CanView(db, id, r);
            && (ReceiptToDownload(db, id, r) == Failure(TransactionNotFound) <==> !seen)
            && (ReceiptToDownload(db, id, r) == Failure(ReceiptNotRequired) <==> seen && db.txns[id].status.NotRequired?)
            && (ReceiptToDownload(db, id, r) == Failure(ReceiptNotReady) <==>
                  seen && (db.txns[id].status.Pending? || db.txns[id].status.Failed?))
            && (ReceiptToDownload(db, id, r).Success? <==> seen && db.txns[id].status.Generated?)
            && (ReceiptToDownload(db, id, r).Success? ==> ReceiptToDownload(db, id, r).value == db.txns[id].objectKey)
  {
  }
}
