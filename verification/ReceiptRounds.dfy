/** Rounds of recovery in the pipeline itself: in every run that settles what each scan listed a receipt is scanned
    in time, and when no stuck record stands in the way such rounds can always be run. */
module ReceiptRounds {
  import opened Wrappers
  import opened Schema
  import opened Receipts
  import opened Recovery
  import opened Division
  import opened ReceiptPipeline
  import opened ReceiptInvariant
  import opened ReceiptTheorems
  import opened ReceiptProgress

  // ----- Every run -----

  /** Round k begins scans[k] in states[k]; then anything may happen, until the scanned receipts are settled in
      states[k + 1]. No transfer that is committed meanwhile started as early as `id`. */
  ghost predicate RoundsOf(states: seq<State>, scans: seq<seq<TxnId>>, runs: seq<seq<Step>>, id: TxnId) {
    && |states| == |scans| + 1 == |runs| + 1
    && forall k {:trigger scans[k]} :: 0 <= k < |scans| ==> RoundOf(states[k], scans[k], runs[k], states[k + 1], id)
  }

  ghost predicate RoundOf(s: State, ids: seq<TxnId>, steps: seq<Step>, t: State, id: TxnId) {
    && Enabled(s, BeginScan(ids)) && Leads(Next(s, BeginScan(ids)), steps, t)
    && (forall x :: x in ids && x in t.rows ==> !t.rows[x].status.Pending?)
    && (forall x :: x in t.rows && x !in s.rows && id in s.rows ==> t.rows[x].createdAt > s.rows[id].createdAt)
  }

  ghost predicate Waits(s: State, id: TxnId) {
    id in AllOverdue(s.rows, s.now, OLDER_THAN)
  }

  function AheadOf(s: State, id: TxnId): set<TxnId>
    requires id in s.rows
  {
    Ahead(s.rows, s.now, OLDER_THAN, id)
  }

  lemma RoundKeeps(s: State, ids: seq<TxnId>, steps: seq<Step>, t: State, id: TxnId)
    requires Inv(s) && RoundOf(s, ids, steps, t, id)
    ensures Moved(s, t) && Inv(t) && IsScan(s.rows, s.now, OLDER_THAN, s.batch, ids)
  {
    StepKeepsInv(s, BeginScan(ids));
    RunKeepsInv(Next(s, BeginScan(ids)), steps, t);
  }

  lemma AheadLeft(s: State, t: State, ids: seq<TxnId>, id: TxnId)
    requires Moved(s, t) && Waits(s, id) && id in t.rows && t.rows[id].status.Pending?
    requires forall x :: x in ids && x in t.rows ==> !t.rows[x].status.Pending?
    requires forall x :: x in t.rows && x !in s.rows ==> t.rows[x].createdAt > s.rows[id].createdAt
    ensures Waits(t, id) && AheadOf(t, id) <= AheadOf(s, id) - Elements(ids)
  {
    forall x | x in AheadOf(t, id) ensures x in AheadOf(s, id) - Elements(ids) {
      assert x in s.rows && RowMoved(s.rows[x], t.rows[x]) && RowMoved(s.rows[id], t.rows[id]);
    }
  }

  /** A round that passes over a waiting receipt takes a full batch of those ahead of it out of the way. */
  lemma RoundAdvances(s: State, ids: seq<TxnId>, steps: seq<Step>, t: State, id: TxnId)
    requires Inv(s) && RoundOf(s, ids, steps, t, id) && Waits(s, id) && id !in ids
    requires id in t.rows && t.rows[id].status.Pending?
    ensures Inv(t) && Waits(t, id) && t.batch == s.batch && |AheadOf(t, id)| <= |AheadOf(s, id)| - s.batch
  {
    RoundKeeps(s, ids, steps, t, id);
    LeftOut(s.rows, s.now, OLDER_THAN, s.batch, ids, id);
    DistinctSize(ids);
    AheadLeft(s, t, ids, id);
    hide RoundOf, Moved, IsScan, Inv;
    SubsetSize(AheadOf(t, id), AheadOf(s, id) - Elements(ids));
    assert AheadOf(s, id) == (AheadOf(s, id) - Elements(ids)) + Elements(ids);
  }

  ghost predicate PassedOver(states: seq<State>, scans: seq<seq<TxnId>>, k: nat, id: TxnId)
    requires k < |scans| && |states| == |scans| + 1
  {
    id !in scans[k] && id in states[k + 1].rows && states[k + 1].rows[id].status.Pending?
  }

  lemma {:induction false} RoundsAdvance(states: seq<State>, scans: seq<seq<TxnId>>, runs: seq<seq<Step>>, id: TxnId, k: nat)
    requires RoundsOf(states, scans, runs, id) && k <= |scans| && Inv(states[0]) && Waits(states[0], id)
    requires forall j :: 0 <= j < k ==> PassedOver(states, scans, j, id)
    ensures Inv(states[k]) && Waits(states[k], id) && states[k].batch == states[0].batch
    ensures |AheadOf(states[k], id)| <= |AheadOf(states[0], id)| - k * states[0].batch
  {
    hide RoundOf, Inv, Waits, AheadOf;
    if k > 0 {
      RoundsAdvance(states, scans, runs, id, k - 1);
      assert PassedOver(states, scans, k - 1, id);
      assert RoundOf(states[k - 1], scans[k - 1], runs[k - 1], states[k], id);
      RoundAdvances(states[k - 1], scans[k - 1], runs[k - 1], states[k], id);
      assert k * states[0].batch == (k - 1) * states[0].batch + states[0].batch;
    }
  }

  /** In every run, whatever time passes and whatever else commits, fails or crashes: if each round settles what it
      scanned, a receipt with p others ahead of it is scanned, or settled, by round p div batch + 1. */
  lemma ScannedInTimeInEveryRun(states: seq<State>, scans: seq<seq<TxnId>>, runs: seq<seq<Step>>, id: TxnId)
    requires RoundsOf(states, scans, runs, id) && Reachable(states[0]) && states[0].batch > 0 && Waits(states[0], id)
    requires |AheadOf(states[0], id)| / states[0].batch < |scans|
    ensures exists j :: 0 <= j <= |AheadOf(states[0], id)| / states[0].batch && !PassedOver(states, scans, j, id)
  {
    ReachableInv(states[0]);
    var p, batch := |AheadOf(states[0], id)|, states[0].batch;
    var k := p / batch + 1;
    RoundsEnough(p, batch);
    if forall j :: 0 <= j < k ==> PassedOver(states, scans, j, id) {
      RoundsAdvance(states, scans, runs, id, k);
      assert false;
    }
  }

  // ----- Such rounds can be run -----

  /** No overdue receipt is stuck behind an exhausted record. */
  ghost predicate NothingStuck(s: State) {
    forall x {:trigger Stuck(s, x)} :: x in AllOverdue(s.rows, s.now, OLDER_THAN) ==> !Stuck(s, x)
  }

  lemma StuckElsewhere(s: State, t: State, y: TxnId, x: TxnId)
    requires OnlyChanged(s, t, y) && x != y && Stuck(t, x)
    ensures Stuck(s, x)
  {
    if Reported(s, x) {
      var rep :| rep in s.reports && rep.id == x && IsFinalFailure(rep.unrecoverable, rep.attemptsMade, Some(s.attempts));
      assert rep in t.reports;
      assert Reported(t, x);
    }
  }

  /** The receipts that scan k has still to enqueue can be settled. */
  ghost predicate ScanIsOpen(s: State, k: nat) {
    && k < |s.scans| && Distinct(s.scans[k])
    && forall x {:trigger Stuck(s, x)} :: x in s.scans[k] ==> x in s.rows && s.rows[x].status.Pending? && !Stuck(s, x)
  }

  /** The first id of scan k is enqueued and settled. */
  lemma SettleFirst(s: State, k: nat) returns (steps: seq<Step>, t: State)
    requires Inv(s) && ScanIsOpen(s, k) && s.scans[k] != []
    ensures var y := s.scans[k][0];
            && Progresses(s, steps, t) && OnlyChanged(s, t, y) && t.now == s.now
            && t.scans == s.scans[k := s.scans[k][1..]]
            && y in t.rows && !t.rows[y].status.Pending?
  {
    var y := s.scans[k][0];
    assert y in s.scans[k] && !Stuck(s, y);
    var u := Next(s, EnqueueScanned(k));
    StepKeepsInv(s, EnqueueScanned(k));
    EnqueueEffect(s, k);
    hide Inv, Progresses, OnlyChanged, Next, Stuck;
    steps, t := CanSettle(u, y);
    StepFirst(s, EnqueueScanned(k), u, steps, t);
    OnlyChangedOn(s, u, t, y);
    steps := [EnqueueScanned(k)] + steps;
  }

  lemma EnqueueEffect(s: State, k: nat)
    requires k < |s.scans| && s.scans[k] != [] && !Stuck(s, s.scans[k][0])
    ensures var u, y := Next(s, EnqueueScanned(k)), s.scans[k][0];
            && OnlyChanged(s, u, y) && u.rows == s.rows && u.now == s.now && u.scans == s.scans[k := s.scans[k][1..]]
            && y in u.jobs && !Stuck(u, y)
  {
    var u, y := Next(s, EnqueueScanned(k)), s.scans[k][0];
    assert Reported(u, y) <==> Reported(s, y);
  }

  /** A round, from its open scan on. */
  lemma {:induction false} SettleScan(s: State, k: nat) returns (steps: seq<Step>, t: State)
    requires Inv(s) && ScanIsOpen(s, k)
    ensures Progresses(s, steps, t) && Settled(s.rows, s.scans[k], t.rows)
    ensures t.now == s.now && t.batch == s.batch && |t.scans| == |s.scans|
    ensures forall x {:trigger Stuck(t, x)} :: x !in s.scans[k] && Stuck(t, x) ==> Stuck(s, x)
    decreases if k < |s.scans| then |s.scans[k]| else 0
  {
    hide Inv, Progresses;
    if s.scans[k] == [] {
      NoSteps(s);
      steps, t := [], s;
    } else {
      var y, ids := s.scans[k][0], s.scans[k];
      var u;
      steps, u := SettleFirst(s, k);
      OneLess(s, u, k);
      var rest;
      ProgressKeeps(s, steps, u);
      rest, t := SettleScan(u, k);
      ProgressOn(s, steps, u, rest, t);
      steps := steps + rest;
      assert ids == [y] + ids[1..];
      forall x | x !in ids && Stuck(t, x) ensures Stuck(s, x) { StuckElsewhere(s, u, y, x); }
    }
  }

  lemma ProgressKeeps(s: State, steps: seq<Step>, t: State)
    requires Inv(s) && Progresses(s, steps, t)
    ensures Inv(t)
  {
    RunKeepsInv(s, steps, t);
  }

  lemma OneLess(s: State, u: State, k: nat)
    requires ScanIsOpen(s, k) && s.scans[k] != [] && OnlyChanged(s, u, s.scans[k][0])
    requires u.scans == s.scans[k := s.scans[k][1..]]
    ensures ScanIsOpen(u, k)
  {
    var ids := s.scans[k];
    forall x | x in ids[1..] ensures x in u.rows && u.rows[x].status.Pending? && !Stuck(u, x) {
      assert x in ids && !Stuck(s, x);
      var j :| 0 <= j < |ids[1..]| && ids[1..][j] == x;
      assert ids[j + 1] == x != ids[0];
      if Stuck(u, x) { StuckElsewhere(s, u, ids[0], x); }
    }
  }

  /** One round: a scan begins and everything it lists is settled. */
  lemma OneRound(s: State) returns (ids: seq<TxnId>, steps: seq<Step>, t: State)
    requires Inv(s) && NothingStuck(s)
    ensures Progresses(s, steps, t) && IsScan(s.rows, s.now, OLDER_THAN, s.batch, ids) && Settled(s.rows, ids, t.rows)
    ensures NothingStuck(t) && t.now == s.now && t.batch == s.batch && |t.scans| == |s.scans| + 1
  {
    ids := ScanExists(s.rows, s.now, OLDER_THAN, s.batch);
    var u := s.(scans := s.scans + [ids]);
    StepKeepsInv(s, BeginScan(ids));
    ScanOpens(s, ids);
    hide Inv, Progresses;
    steps, t := SettleScan(u, |s.scans|);
    StepFirst(s, BeginScan(ids), u, steps, t);
    steps := [BeginScan(ids)] + steps;
    forall x | x in AllOverdue(t.rows, t.now, OLDER_THAN) ensures !Stuck(t, x) {
      assert x !in ids && x in AllOverdue(s.rows, s.now, OLDER_THAN);
      assert !Stuck(s, x);
      SameStuck(s, u, x);
    }
  }

  lemma SameStuck(s: State, u: State, x: TxnId)
    requires u == s.(scans := u.scans)
    ensures Stuck(u, x) <==> Stuck(s, x)
  {
    assert Reported(u, x) <==> Reported(s, x);
  }

  lemma ScanOpens(s: State, ids: seq<TxnId>)
    requires NothingStuck(s) && IsScan(s.rows, s.now, OLDER_THAN, s.batch, ids)
    ensures ScanIsOpen(s.(scans := s.scans + [ids]), |s.scans|)
  {
    var u := s.(scans := s.scans + [ids]);
    forall x | x in ids ensures x in u.rows && u.rows[x].status.Pending? && !Stuck(u, x) {
      assert x in AllOverdue(s.rows, s.now, OLDER_THAN) && !Stuck(s, x);
      SameStuck(s, u, x);
    }
  }

  /** Any number of rounds can be run, one scan each, while the clock stands still. */
  lemma {:induction false} RoundsHappen(s: State, k: nat)
    returns (tables: seq<Rows>, rounds: seq<seq<TxnId>>, steps: seq<Step>, t: State)
    requires Inv(s) && NothingStuck(s)
    ensures Progresses(s, steps, t) && t.now == s.now && |t.scans| == |s.scans| + k
    ensures Rounds(tables, s.now, OLDER_THAN, s.batch, rounds) && |rounds| == k
    ensures tables[0] == s.rows && tables[k] == t.rows
    decreases k
  {
    hide Inv, Progresses, NothingStuck, IsScan, Settled;
    if k == 0 {
      NoSteps(s);
      tables, rounds, steps, t := [s.rows], [], [], s;
    } else {
      var ids, first, u := OneRound(s);
      ProgressKeeps(s, first, u);
      var laterTables, laterRounds, later;
      laterTables, laterRounds, later, t := RoundsHappen(u, k - 1);
      ProgressOn(s, first, u, later, t);
      tables, rounds, steps := [s.rows] + laterTables, [ids] + laterRounds, first + later;
    }
  }

  /** When nothing overdue is stuck, the pipeline can clear a backlog of n receipts with ceil(n / batch) scans. */
  lemma BacklogCanDrain(s: State) returns (steps: seq<Step>, t: State)
    requires Reachable(s) && NothingStuck(s) && s.batch > 0
    ensures Progresses(s, steps, t) && t.now == s.now && AllOverdue(t.rows, t.now, OLDER_THAN) == {}
    ensures |t.scans| == |s.scans| + (|AllOverdue(s.rows, s.now, OLDER_THAN)| + s.batch - 1) / s.batch
  {
    ReachableInv(s);
    var k := (|AllOverdue(s.rows, s.now, OLDER_THAN)| + s.batch - 1) / s.batch;
    var tables, rounds;
    tables, rounds, steps, t := RoundsHappen(s, k);
    BacklogDrains(tables, s.now, OLDER_THAN, s.batch, rounds, k);
  }
}
