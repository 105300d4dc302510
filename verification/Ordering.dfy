/** The order of strings by character codes, and lists that are strictly ordered by it. */
module Ordering {

  predicate Less(a: string, b: string) {
    b != [] && (a == [] || a[0] < b[0] || (a[0] == b[0] && Less(a[1..], b[1..])))
  }

  /** At the first place where they differ a has the smaller character code, or a ends there. */
  ghost predicate DiffersBelow(a: string, b: string, k: nat) {
    && k <= |a| && k < |b| && a[..k] == b[..k]
    && (k == |a| || a[k] as int < b[k] as int)
  }

  /** a comes before b, by their first difference. */
  ghost predicate Before(a: string, b: string) {
    exists k: nat :: DiffersBelow(a, b, k)
  }

  lemma SameStart(a: string, b: string, k: nat)
    requires 0 < k <= |a| && k <= |b| && a[..k] == b[..k]
    ensures a[0] == b[0]
  {
    assert a[..k][0] == a[0] && b[..k][0] == b[0];
  }

  /** What Less computes. */
  lemma {:induction false} LessMeans(a: string, b: string)
    ensures Less(a, b) <==> Before(a, b)
    decreases |a|
  {
    if a != [] && b != [] && a[0] == b[0] {
      LessMeans(a[1..], b[1..]);
      assert a == [a[0]] + a[1..] && b == [b[0]] + b[1..];
      if k: nat :| DiffersBelow(a[1..], b[1..], k) {
        assert a[..k + 1] == [a[0]] + a[1..][..k] && b[..k + 1] == [b[0]] + b[1..][..k];
        assert DiffersBelow(a, b, k + 1);
      }
      if k: nat :| DiffersBelow(a, b, k) {
        assert k > 0;
        assert a[1..][..k - 1] == a[..k][1..] && b[1..][..k - 1] == b[..k][1..];
        assert DiffersBelow(a[1..], b[1..], k - 1);
      }
    } else {
      if Less(a, b) { assert DiffersBelow(a, b, 0); }
      if k: nat :| DiffersBelow(a, b, k) {
        if k > 0 { SameStart(a, b, k); }
      }
    }
  }

  /** An ascending list, by first differences. */
  lemma AscendingMeans(xs: seq<string>)
    ensures Ascending(xs) <==> forall j, k :: 0 <= j < k < |xs| ==> Before(xs[j], xs[k])
  {
    forall j, k | 0 <= j < k < |xs| ensures Less(xs[j], xs[k]) <==> Before(xs[j], xs[k]) {
      LessMeans(xs[j], xs[k]);
    }
  }

  lemma {:induction false} LessTotal(a: string, b: string)
    ensures a == b || Less(a, b) || Less(b, a)
    ensures !(Less(a, b) && Less(b, a)) && !Less(a, a)
    decreases |a|
  {
    if a != [] && b != [] && a[0] == b[0] {
      LessTotal(a[1..], b[1..]);
      assert a == [a[0]] + a[1..] && b == [b[0]] + b[1..];
    }
    if a != [] { LessTotal(a[1..], a[1..]); }
  }

  lemma {:induction false} LessTransitive(a: string, b: string, c: string)
    requires Less(a, b) && Less(b, c)
    ensures Less(a, c)
    decreases |a|
  {
    if a != [] && a[0] == b[0] == c[0] { LessTransitive(a[1..], b[1..], c[1..]); }
  }

  ghost predicate Ascending(xs: seq<string>) {
    forall j, k :: 0 <= j < k < |xs| ==> Less(xs[j], xs[k])
  }

  function Members(xs: seq<string>): set<string> {
    set x | x in xs
  }

  lemma ConsMembers(x: string, xs: seq<string>)
    ensures Members([x] + xs) == {x} + Members(xs)
  {
    forall y ensures y in Members([x] + xs) <==> y in {x} + Members(xs) {
      if y in xs {
        var k :| 0 <= k < |xs| && xs[k] == y;
        assert ([x] + xs)[k + 1] == y;
      }
      assert ([x] + xs)[0] == x;
    }
  }

  lemma PrefixMembers(xs: seq<string>, k: nat)
    requires k < |xs|
    ensures Members(xs[..k + 1]) == Members(xs[..k]) + {xs[k]}
  {
    assert xs[..k + 1] == xs[..k] + [xs[k]];
  }

  /** Insertion of a new name into an ascending list. */
  function Insert(x: string, xs: seq<string>): seq<string> {
    if xs == [] then [x]
    else if Less(x, xs[0]) then [x] + xs
    else [xs[0]] + Insert(x, xs[1..])
  }

  lemma {:induction false} InsertAscends(x: string, xs: seq<string>)
    requires Ascending(xs) && x !in xs
    ensures Ascending(Insert(x, xs)) && Members(Insert(x, xs)) == Members(xs) + {x}
  {
    if xs == [] {
      assert Insert(x, xs) == [x];
    } else if Less(x, xs[0]) {
      forall k | 0 <= k < |xs| ensures Less(x, xs[k]) {
        if k > 0 { LessTransitive(x, xs[0], xs[k]); }
      }
    } else {
      var rest := Insert(x, xs[1..]);
      InsertAscends(x, xs[1..]);
      LessTotal(x, xs[0]);
      forall k | 0 <= k < |rest| ensures Less(xs[0], rest[k]) {
        assert rest[k] in Members(rest);
        if rest[k] != x {
          var j :| 0 <= j < |xs[1..]| && xs[1..][j] == rest[k];
          assert xs[j + 1] == rest[k];
        }
      }
      assert xs == [xs[0]] + xs[1..];
      assert Members(xs) == Members(xs[1..]) + {xs[0]};
      assert Members([xs[0]] + rest) == Members(rest) + {xs[0]};
    }
  }

  lemma NoMembers(xs: seq<string>)
    ensures xs == [] <==> Members(xs) == {}
  {
    if xs != [] { assert xs[0] in Members(xs); }
  }

  /** Only one ascending list has given members: sorting has one answer. */
  lemma {:induction false} AscendingUnique(xs: seq<string>, ys: seq<string>)
    requires Ascending(xs) && Ascending(ys) && Members(xs) == Members(ys)
    ensures xs == ys
  {
    NoMembers(xs);
    NoMembers(ys);
    if xs != [] {
      assert xs[0] in Members(ys) && (ys == [] || ys[0] in Members(xs));
      SameHead(xs, ys);
      TailMembers(xs);
      TailMembers(ys);
      AscendingUnique(xs[1..], ys[1..]);
      assert xs == [xs[0]] + xs[1..] && ys == [ys[0]] + ys[1..];
    }
  }

  lemma SameHead(xs: seq<string>, ys: seq<string>)
    requires Ascending(xs) && Ascending(ys) && xs != [] && ys != [] && xs[0] in ys && ys[0] in xs
    ensures xs[0] == ys[0]
  {
    LessTotal(xs[0], ys[0]);
  }

  lemma TailMembers(xs: seq<string>)
    requires Ascending(xs) && xs != []
    ensures Members(xs[1..]) == Members(xs) - {xs[0]}
  {
    assert xs == [xs[0]] + xs[1..];
    forall x | x in xs[1..] ensures x != xs[0] {
      var k :| 0 <= k < |xs[1..]| && xs[1..][k] == x;
      assert Less(xs[0], xs[k + 1]);
      LessTotal(xs[0], xs[0]);
    }
  }
}
