/** The recovery scan over a table of transactions: which rows a scan must contain, and how many rounds of
    scans clear a backlog. */
module Recovery {
  import opened Wrappers
  import opened Schema
  import opened Receipts
  import opened Division

  function Elements(ids: seq<TxnId>): set<TxnId> {
    set id | id in ids
  }

  lemma {:induction false} DistinctSize(ids: seq<TxnId>)
    requires Distinct(ids)
    ensures |Elements(ids)| == |ids|
  {
    if ids == [] {
      assert Elements(ids) == {};
    } else {
      var n := |ids| - 1;
      DistinctSize(ids[..n]);
      assert ids == ids[..n] + [ids[n]];
      assert Elements(ids) == Elements(ids[..n]) + {ids[n]};
      assert ids[n] !in Elements(ids[..n]);
    }
  }

  lemma {:induction false} SubsetSize(a: set<TxnId>, b: set<TxnId>)
    requires a <= b
    ensures |a| <= |b| && (|a| == |b| ==> a == b)
  {
    if a != {} {
      var x :| x in a;
      SubsetSize(a - {x}, b - {x});
    }
  }

  lemma {:induction false} Oldest(rows: Rows, ids: set<TxnId>) returns (x: TxnId)
    requires ids != {} && ids <= rows.Keys
    ensures x in ids && forall y :: y in ids ==> rows[x].createdAt <= rows[y].createdAt
  {
    x :| x in ids;
    if ids != {x} {
      var y := Oldest(rows, ids - {x});
      if rows[y].createdAt < rows[x].createdAt { x := y; }
    }
  }

  /** The scan of nothing. */
  lemma ScanStarts(rows: Rows, now: int, olderThan: int)
    ensures IsScan(rows, now, olderThan, 0, []) && AllOverdue(rows, now, olderThan) <= rows.Keys
    ensures AllOverdue(rows, now, olderThan) == AllOverdue(rows, now, olderThan) - Elements([])
  {}

  /** The oldest row that is left extends a scan by one. */
  lemma ScanOneMore(rows: Rows, now: int, olderThan: int, ids: seq<TxnId>, x: TxnId)
    requires IsScan(rows, now, olderThan, |ids|, ids)
    requires x in AllOverdue(rows, now, olderThan) - Elements(ids)
    requires forall y :: y in AllOverdue(rows, now, olderThan) - Elements(ids) ==> rows[x].createdAt <= rows[y].createdAt
    ensures IsScan(rows, now, olderThan, |ids| + 1, ids + [x])
    ensures Elements(ids + [x]) == Elements(ids) + {x}
  {
    DistinctSize(ids);
    assert x !in Elements(ids);
    SubsetSize(Elements(ids) + {x}, AllOverdue(rows, now, olderThan));
  }

  /** A scan that found every overdue row is a scan for every larger limit. */
  lemma FullScan(rows: Rows, now: int, olderThan: int, limit: nat, ids: seq<TxnId>)
    requires IsScan(rows, now, olderThan, |ids|, ids) && |ids| <= limit
    requires AllOverdue(rows, now, olderThan) - Elements(ids) == {}
    ensures IsScan(rows, now, olderThan, limit, ids)
  {
    DistinctSize(ids);
    forall id | id in AllOverdue(rows, now, olderThan) ensures id in Elements(ids) {
      assert id !in AllOverdue(rows, now, olderThan) - Elements(ids);
    }
    assert AllOverdue(rows, now, olderThan) == Elements(ids);
  }

  /** The query always has an answer. */
  lemma {:induction false} ScanExists(rows: Rows, now: int, olderThan: int, limit: nat) returns (ids: seq<TxnId>)
    ensures IsScan(rows, now, olderThan, limit, ids)
    decreases limit
  {
    if limit == 0 {
      ids := [];
    } else {
      ids := ScanExists(rows, now, olderThan, limit - 1);
      var rest := AllOverdue(rows, now, olderThan) - Elements(ids);
      if rest == {} {
        FullScan(rows, now, olderThan, limit, ids);
      } else {
        StrictlyMore(AllOverdue(rows, now, olderThan), ids);
        var x := Oldest(rows, rest);
        ScanOneMore(rows, now, olderThan, ids, x);
        ids := ids + [x];
      }
    }
  }

  lemma StrictlyMore(all: set<TxnId>, ids: seq<TxnId>)
    requires Distinct(ids) && Elements(ids) <= all && all - Elements(ids) != {}
    ensures |ids| < |all|
  {
    DistinctSize(ids);
    SubsetSize(Elements(ids), all);
  }

  /** The other overdue rows that a scan may list before `id`. */
  function Ahead(rows: Rows, now: int, olderThan: int, id: TxnId): set<TxnId>
    requires id in rows
  {
    set x | x in AllOverdue(rows, now, olderThan) && x != id && rows[x].createdAt <= rows[id].createdAt
  }

  /** A scan, row by row: PENDING and old enough, no row twice, oldest first, at most `limit`; what is left out
      is at least as young as everything listed, and then the limit is used up. */
  lemma ScanMeans(rows: Rows, now: int, olderThan: int, limit: nat, ids: seq<TxnId>)
    requires IsScan(rows, now, olderThan, limit, ids)
    ensures forall k :: 0 <= k < |ids| ==>
              ids[k] in rows && rows[ids[k]].status.Pending? && rows[ids[k]].createdAt < now - olderThan
    ensures forall j, k :: 0 <= j < k < |ids| ==> ids[j] != ids[k] && rows[ids[j]].createdAt <= rows[ids[k]].createdAt
    ensures |ids| <= limit
    ensures forall x :: x in rows && rows[x].status.Pending? && rows[x].createdAt < now - olderThan && x !in ids ==>
              |ids| == limit && forall k :: 0 <= k < |ids| ==> rows[ids[k]].createdAt <= rows[x].createdAt
  {
    forall k | 0 <= k < |ids| ensures ids[k] in AllOverdue(rows, now, olderThan) { assert ids[k] in ids; }
    forall x | x in rows && rows[x].status.Pending? && rows[x].createdAt < now - olderThan && x !in ids
      ensures |ids| == limit && forall k :: 0 <= k < |ids| ==> rows[ids[k]].createdAt <= rows[x].createdAt
    {
      assert x in AllOverdue(rows, now, olderThan);
      LeftOut(rows, now, olderThan, limit, ids, x);
    }
  }

  /** A scan that leaves out an overdue row is full of rows that are not younger. */
  lemma LeftOut(rows: Rows, now: int, olderThan: int, limit: nat, ids: seq<TxnId>, id: TxnId)
    requires IsScan(rows, now, olderThan, limit, ids) && id in AllOverdue(rows, now, olderThan) && id !in ids
    ensures |ids| == limit && Elements(ids) <= Ahead(rows, now, olderThan, id)
  {
    var all := AllOverdue(rows, now, olderThan);
    DistinctSize(ids);
    if |all| < limit {
      SubsetSize(Elements(ids), all);
      assert false;
    }
  }

  /** With enough rows ahead of it, some scan leaves `id` out. */
  lemma AvoidingScan(rows: Rows, now: int, olderThan: int, limit: nat, id: TxnId) returns (ids: seq<TxnId>)
    requires id in AllOverdue(rows, now, olderThan) && |Ahead(rows, now, olderThan, id)| >= limit
    ensures IsScan(rows, now, olderThan, limit, ids) && id !in ids
  {
    var all, ahead := AllOverdue(rows, now, olderThan), Ahead(rows, now, olderThan, id);
    ids := ScanExists(rows - {id}, now, olderThan, limit);
    assert AllOverdue(rows - {id}, now, olderThan) == all - {id};
    SubsetSize(ahead, all - {id});
    DistinctSize(ids);
    forall x | x in ids ensures rows[x].createdAt <= rows[id].createdAt {
      if rows[x].createdAt > rows[id].createdAt {
        forall y | y in ahead ensures y in ids {}
        assert ahead + {x} <= Elements(ids);
        SubsetSize(ahead + {x}, Elements(ids));
      }
    }
    SubsetSize(all - {id}, all);
  }

  /** An overdue receipt is in every possible scan exactly when fewer than `limit` others are at most as
      young as it is. */
  lemma InEveryScan(rows: Rows, now: int, olderThan: int, limit: nat, id: TxnId)
    requires id in AllOverdue(rows, now, olderThan)
    ensures (forall ids :: IsScan(rows, now, olderThan, limit, ids) ==> id in ids) <==>
            |Ahead(rows, now, olderThan, id)| < limit
  {
    if |Ahead(rows, now, olderThan, id)| < limit {
      forall ids | IsScan(rows, now, olderThan, limit, ids) ensures id in ids {
        if id !in ids {
          LeftOut(rows, now, olderThan, limit, ids, id);
          DistinctSize(ids);
          SubsetSize(Elements(ids), Ahead(rows, now, olderThan, id));
        }
      }
    } else {
      var ids := AvoidingScan(rows, now, olderThan, limit, id);
    }
  }

  /** The overdue rows that every scan lists before `id`. */
  function Older(rows: Rows, now: int, olderThan: int, id: TxnId): set<TxnId>
    requires id in rows
  {
    set x | x in AllOverdue(rows, now, olderThan) && rows[x].createdAt < rows[id].createdAt
  }

  /** The oldest rows first: as many places as there are strictly older rows hold exactly these. */
  lemma OlderFirst(rows: Rows, now: int, olderThan: int, id: TxnId, ids: seq<TxnId>)
    requires id in AllOverdue(rows, now, olderThan)
    requires |ids| == |Older(rows, now, olderThan, id)| && IsScan(rows, now, olderThan, |ids|, ids)
    ensures Elements(ids) == Older(rows, now, olderThan, id)
  {
    var older := Older(rows, now, olderThan, id);
    DistinctSize(ids);
    if older <= Elements(ids) {
      SubsetSize(older, Elements(ids));
    } else {
      var x :| x in older && x !in Elements(ids);
      assert Elements(ids) <= older;
      SubsetSize(Elements(ids), older);
    }
  }

  lemma {:induction false} ExtendScan(rows: Rows, now: int, olderThan: int, limit: nat, ids: seq<TxnId>) returns (all: seq<TxnId>)
    requires IsScan(rows, now, olderThan, |ids|, ids) && |ids| <= limit
    ensures IsScan(rows, now, olderThan, limit, all) && ids <= all
    decreases limit - |ids|
  {
    var rest := AllOverdue(rows, now, olderThan) - Elements(ids);
    if |ids| == limit {
      all := ids;
    } else if rest == {} {
      FullScan(rows, now, olderThan, limit, ids);
      all := ids;
    } else {
      var x := Oldest(rows, rest);
      ScanOneMore(rows, now, olderThan, ids, x);
      all := ExtendScan(rows, now, olderThan, limit, ids + [x]);
      assert ids <= ids + [x];
    }
  }

  lemma ScanOfSize(rows: Rows, now: int, olderThan: int, some: set<TxnId>) returns (ids: seq<TxnId>)
    requires some <= AllOverdue(rows, now, olderThan)
    ensures IsScan(rows, now, olderThan, |some|, ids) && |ids| == |some|
  {
    ids := ScanExists(rows, now, olderThan, |some|);
    SubsetSize(some, AllOverdue(rows, now, olderThan));
  }

  /** With fewer than `limit` strictly older overdue rows, some scan lists `id` right after them. */
  lemma ScanReaches(rows: Rows, now: int, olderThan: int, limit: nat, id: TxnId) returns (ids: seq<TxnId>, n: nat)
    requires id in AllOverdue(rows, now, olderThan) && |Older(rows, now, olderThan, id)| < limit
    ensures IsScan(rows, now, olderThan, limit, ids)
    ensures n < |ids| && ids[n] == id && Elements(ids[..n]) == Older(rows, now, olderThan, id)
  {
    hide IsScan, Elements;
    var older := Older(rows, now, olderThan, id);
    n := |older|;
    var front := ScanOfSize(rows, now, olderThan, older);
    OlderFirst(rows, now, olderThan, id, front);
    ScanOneMore(rows, now, olderThan, front, id);
    ids := ExtendScan(rows, now, olderThan, limit, front + [id]);
    assert ids[..n] == front && ids[n] == (front + [id])[n];
  }

  /** With `limit` strictly older overdue rows, no scan reaches `id`. */
  lemma Crowded(rows: Rows, now: int, olderThan: int, limit: nat, ids: seq<TxnId>, id: TxnId, older: set<TxnId>)
    requires IsScan(rows, now, olderThan, limit, ids)
    requires older <= AllOverdue(rows, now, olderThan) && |older| >= limit
    requires id in rows && forall x :: x in older ==> rows[x].createdAt < rows[id].createdAt
    ensures id !in ids
  {
    if id in ids {
      DistinctSize(ids);
      assert older + {id} <= Elements(ids);
      SubsetSize(older + {id}, Elements(ids));
    }
  }

  // ----- Rounds of recovery -----

  /** Every scanned receipt was settled, and no other row changed. */
  ghost predicate Settled(rows: Rows, ids: seq<TxnId>, after: Rows) {
    && after.Keys == rows.Keys
    && forall id :: id in rows ==> if id in ids then !after[id].status.Pending? else after[id] == rows[id]
  }

  /** tables[k] is the table before round k; each round scans and settles what it scanned. */
  ghost predicate Rounds(tables: seq<Rows>, now: int, olderThan: int, limit: nat, rounds: seq<seq<TxnId>>) {
    && |tables| == |rounds| + 1
    && forall k :: 0 <= k < |rounds| ==>
         IsScan(tables[k], now, olderThan, limit, rounds[k]) && Settled(tables[k], rounds[k], tables[k + 1])
  }

  lemma RoundRemoves(rows: Rows, now: int, olderThan: int, limit: nat, ids: seq<TxnId>, after: Rows)
    requires IsScan(rows, now, olderThan, limit, ids) && Settled(rows, ids, after)
    ensures AllOverdue(after, now, olderThan) == AllOverdue(rows, now, olderThan) - Elements(ids)
    ensures |AllOverdue(after, now, olderThan)| == |AllOverdue(rows, now, olderThan)| - |ids|
  {
    DistinctSize(ids);
    var all := AllOverdue(rows, now, olderThan);
    assert all == (all - Elements(ids)) + Elements(ids);
    assert AllOverdue(after, now, olderThan) == all - Elements(ids);
  }

  /** After k rounds of `limit`, exactly n - k * limit receipts are left, until none is. */
  lemma {:induction false} BacklogAfter(tables: seq<Rows>, now: int, olderThan: int, limit: nat, rounds: seq<seq<TxnId>>, k: nat)
    requires Rounds(tables, now, olderThan, limit, rounds) && k <= |rounds|
    ensures var n := |AllOverdue(tables[0], now, olderThan)|;
            |AllOverdue(tables[k], now, olderThan)| == if n <= k * limit then 0 else n - k * limit
  {
    if k > 0 {
      BacklogAfter(tables, now, olderThan, limit, rounds, k - 1);
      RoundRemoves(tables[k - 1], now, olderThan, limit, rounds[k - 1], tables[k]);
      assert k * limit == (k - 1) * limit + limit;
    }
  }

  /** A fixed backlog of n receipts is cleared in exactly ceil(n / limit) rounds, no fewer. */
  lemma BacklogDrains(tables: seq<Rows>, now: int, olderThan: int, limit: nat, rounds: seq<seq<TxnId>>, k: nat)
    requires Rounds(tables, now, olderThan, limit, rounds) && k <= |rounds| && limit > 0
    ensures AllOverdue(tables[k], now, olderThan) == {} <==>
            (|AllOverdue(tables[0], now, olderThan)| + limit - 1) / limit <= k
  {
    BacklogAfter(tables, now, olderThan, limit, rounds, k);
    CeilingBound(|AllOverdue(tables[0], now, olderThan)|, limit, k);
  }

  lemma AheadAfter(rows: Rows, now: int, olderThan: int, limit: nat, ids: seq<TxnId>, after: Rows, id: TxnId)
    requires IsScan(rows, now, olderThan, limit, ids) && Settled(rows, ids, after)
    requires id in AllOverdue(rows, now, olderThan) && id !in ids
    ensures id in AllOverdue(after, now, olderThan)
    ensures |Ahead(after, now, olderThan, id)| == |Ahead(rows, now, olderThan, id)| - limit
  {
    LeftOut(rows, now, olderThan, limit, ids, id);
    RoundRemoves(rows, now, olderThan, limit, ids, after);
    DistinctSize(ids);
    var ahead := Ahead(rows, now, olderThan, id);
    assert Ahead(after, now, olderThan, id) == ahead - Elements(ids);
    assert ahead == (ahead - Elements(ids)) + Elements(ids);
  }

  /** Until it is scanned, a receipt has `limit` rows fewer ahead of it after every round. */
  lemma {:induction false} AheadShrinks(tables: seq<Rows>, now: int, olderThan: int, limit: nat, rounds: seq<seq<TxnId>>, k: nat, id: TxnId)
    requires Rounds(tables, now, olderThan, limit, rounds) && k <= |rounds|
    requires id in AllOverdue(tables[0], now, olderThan)
    requires forall j :: 0 <= j < k ==> id !in rounds[j]
    ensures id in AllOverdue(tables[k], now, olderThan)
    ensures |Ahead(tables[k], now, olderThan, id)| == |Ahead(tables[0], now, olderThan, id)| - k * limit
  {
    if k > 0 {
      AheadShrinks(tables, now, olderThan, limit, rounds, k - 1, id);
      AheadAfter(tables[k - 1], now, olderThan, limit, rounds[k - 1], tables[k], id);
      hide IsScan, Settled, AllOverdue, Ahead;
      assert k * limit == (k - 1) * limit + limit;
    }
  }

  /** A receipt with p others ahead of it is scanned by round p div limit + 1. */
  lemma ScannedInTime(tables: seq<Rows>, now: int, olderThan: int, limit: nat, rounds: seq<seq<TxnId>>, id: TxnId)
    requires Rounds(tables, now, olderThan, limit, rounds) && limit > 0
    requires id in AllOverdue(tables[0], now, olderThan)
    requires |Ahead(tables[0], now, olderThan, id)| / limit < |rounds|
    ensures exists j :: 0 <= j <= |Ahead(tables[0], now, olderThan, id)| / limit && id in rounds[j]
  {
    var p := |Ahead(tables[0], now, olderThan, id)|;
    var k := p / limit + 1;
    RoundsEnough(p, limit);
    if forall j :: 0 <= j < k ==> id !in rounds[j] {
      AheadShrinks(tables, now, olderThan, limit, rounds, k, id);
      assert false;
    }
  }
}
