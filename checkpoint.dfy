/**
 * The merge step of both `save` functions: the new rows are appended to the stored table, the
 * result is sorted by its time index (`sort_index`), and rows whose dedup key was already met are
 * dropped, keeping the first (`drop_duplicates`). The model sorts by a stable insertion; pandas'
 * default sort is not stable, so the properties that matter are also stated for every order a sort
 * may leave equal times in (`DedupOfSortedPermutation`, `ResaveKeepsOnlyMergedKeys`,
 * `ResaveKeepsEveryMergedKey`).
 */
module Checkpoint {

  predicate SortedBy<R>(s: seq<R>, time: R -> int)
  {
    forall i, j :: 0 <= i < j < |s| ==> time(s[i]) <= time(s[j])
  }

  predicate UniqueKeys<R, K(==)>(s: seq<R>, key: R -> K)
  {
    forall i, j :: 0 <= i < |s| && 0 <= j < |s| && i != j ==> key(s[i]) != key(s[j])
  }

  // ----- sort_index -----

  /** Where a stable insertion puts `x`: after every leading row whose time is at most its own. */
  function InsertPos<R>(s: seq<R>, x: R, time: R -> int): (k: nat)
    ensures k <= |s|
  {
    if s == [] || time(x) < time(s[0]) then 0 else 1 + InsertPos(s[1..], x, time)
  }

  lemma {:induction false} InsertPosBounds<R>(s: seq<R>, x: R, time: R -> int)
    ensures forall i :: 0 <= i < InsertPos(s, x, time) ==> time(s[i]) <= time(x)
    ensures SortedBy(s, time) ==> forall i :: InsertPos(s, x, time) <= i < |s| ==> time(x) < time(s[i])
    decreases |s|
  {
    if s != [] && time(x) >= time(s[0]) {
      InsertPosBounds(s[1..], x, time);
      assert forall i :: 1 <= i < |s| ==> s[i] == s[1..][i - 1];
    }
  }

  function InsertByTime<R>(s: seq<R>, x: R, time: R -> int): seq<R>
  {
    if s == [] then [x]
    else if time(x) < time(s[0]) then [x] + s
    else [s[0]] + InsertByTime(s[1..], x, time)
  }

  lemma {:induction false} InsertShape<R>(s: seq<R>, x: R, time: R -> int)
    ensures InsertByTime(s, x, time) == s[..InsertPos(s, x, time)] + [x] + s[InsertPos(s, x, time)..]
    decreases |s|
  {
    if s != [] && time(x) >= time(s[0]) {
      InsertShape(s[1..], x, time);
      var k := InsertPos(s[1..], x, time);
      assert s[..k + 1] == [s[0]] + s[1..][..k];
      assert s[k + 1..] == s[1..][k..];
    }
  }

  /** Inserting adds exactly the inserted row. */
  lemma InsertPermutes<R>(s: seq<R>, x: R, time: R -> int)
    ensures multiset(InsertByTime(s, x, time)) == multiset(s) + multiset{x}
  {
    var k := InsertPos(s, x, time);
    InsertShape(s, x, time);
    var a, b := s[..k], s[k..];
    assert multiset(s) == multiset(a) + multiset(b) by { assert s == a + b; }
    assert multiset(a + [x] + b) == multiset(a) + multiset{x} + multiset(b);
  }

  /** Inserting into a sorted table keeps it sorted. */
  lemma InsertSorted<R>(s: seq<R>, x: R, time: R -> int)
    requires SortedBy(s, time)
    ensures SortedBy(InsertByTime(s, x, time), time)
  {
    var k := InsertPos(s, x, time);
    InsertShape(s, x, time);
    InsertPosBounds(s, x, time);
    var r := InsertByTime(s, x, time);
    assert |r| == |s| + 1;
    forall i, j | 0 <= i < j < |r| ensures time(r[i]) <= time(r[j]) {
      var si := if i < k then i else i - 1;
      var sj := if j <= k then j else j - 1;
      if i == k {
        assert r[i] == x && r[j] == s[sj];
      } else if j == k {
        assert r[i] == s[si] && r[j] == x;
      } else {
        assert r[i] == s[si] && r[j] == s[sj] && si < sj;
      }
    }
  }

  /** The table sorted by time: a time-sorted permutation of its input. */
  function SortByTime<R>(s: seq<R>, time: R -> int): seq<R>
  {
    if s == [] then []
    else InsertByTime(SortByTime(s[..|s| - 1], time), s[|s| - 1], time)
  }

  lemma {:induction false} SortByTimeSortsAndPermutes<R>(s: seq<R>, time: R -> int)
    ensures SortedBy(SortByTime(s, time), time)
    ensures multiset(SortByTime(s, time)) == multiset(s)
    decreases |s|
  {
    if s != [] {
      SortByTimeSortsAndPermutes(s[..|s| - 1], time);
      InsertSorted(SortByTime(s[..|s| - 1], time), s[|s| - 1], time);
      InsertPermutes(SortByTime(s[..|s| - 1], time), s[|s| - 1], time);
      assert s == s[..|s| - 1] + [s[|s| - 1]];
    }
  }

  // ----- drop_duplicates(keep='first') -----

  /** The rows in order, except those whose key is in `seen` or belongs to an earlier kept row. */
  function DedupFrom<R, K(==)>(s: seq<R>, key: R -> K, seen: set<K>): seq<R>
  {
    if s == [] then []
    else if key(s[0]) in seen then DedupFrom(s[1..], key, seen)
    else [s[0]] + DedupFrom(s[1..], key, seen + {key(s[0])})
  }

  function DropDuplicates<R, K(==)>(s: seq<R>, key: R -> K): seq<R>
  {
    DedupFrom(s, key, {})
  }

  /** Kept rows come from the input, avoid `seen` and carry distinct keys. */
  lemma {:induction false} DedupKeeps<R, K>(s: seq<R>, key: R -> K, seen: set<K>)
    ensures var r := DedupFrom(s, key, seen);
      && (forall m :: 0 <= m < |r| ==> r[m] in s && key(r[m]) !in seen)
      && UniqueKeys(r, key)
    decreases |s|
  {
    if s != [] {
      var seen' := if key(s[0]) in seen then seen else seen + {key(s[0])};
      DedupKeeps(s[1..], key, seen');
      var tail := DedupFrom(s[1..], key, seen');
      assert forall m :: 0 <= m < |tail| ==> tail[m] in s by {
        forall m | 0 <= m < |tail| ensures tail[m] in s {
          assert tail[m] in s[1..];
        }
      }
    }
  }

  lemma {:induction false} DedupSorted<R, K>(s: seq<R>, key: R -> K, seen: set<K>, time: R -> int)
    requires SortedBy(s, time)
    ensures SortedBy(DedupFrom(s, key, seen), time)
    decreases |s|
  {
    if s != [] {
      var seen' := if key(s[0]) in seen then seen else seen + {key(s[0])};
      DedupSorted(s[1..], key, seen', time);
      DedupKeeps(s[1..], key, seen');
      var tail := DedupFrom(s[1..], key, seen');
      forall m | 0 <= m < |tail| ensures time(s[0]) <= time(tail[m]) {
        var i :| 0 <= i < |s[1..]| && s[1..][i] == tail[m];
        assert s[i + 1] == tail[m];
      }
    }
  }

  /** In a time-sorted table, a kept row is no later than any row sharing its key. */
  lemma {:induction false} DedupEarliest<R, K>(s: seq<R>, key: R -> K, seen: set<K>, time: R -> int)
    requires SortedBy(s, time)
    ensures forall m, i :: 0 <= m < |DedupFrom(s, key, seen)| && 0 <= i < |s| && key(s[i]) == key(DedupFrom(s, key, seen)[m]) ==>
      time(DedupFrom(s, key, seen)[m]) <= time(s[i])
    decreases |s|
  {
    if s != [] {
      var seen' := if key(s[0]) in seen then seen else seen + {key(s[0])};
      DedupEarliest(s[1..], key, seen', time);
      DedupKeeps(s, key, seen);
      DedupKeeps(s[1..], key, seen');
      var r := DedupFrom(s, key, seen);
      var tail := DedupFrom(s[1..], key, seen');
      forall m, i | 0 <= m < |r| && 0 <= i < |s| && key(s[i]) == key(r[m])
        ensures time(r[m]) <= time(s[i])
      {
        if key(s[0]) !in seen && m == 0 {
          assert r[0] == s[0];
        } else {
          var m' := if key(s[0]) in seen then m else m - 1;
          assert r[m] == tail[m'];
          if i > 0 {
            assert s[i] == s[1..][i - 1];
          }
        }
      }
    }
  }

  /** The keys carried by a table's rows. */
  function KeysOf<R, K>(s: seq<R>, key: R -> K): set<K>
  {
    set i | 0 <= i < |s| :: key(s[i])
  }

  lemma KeysOfCons<R, K>(x: R, s: seq<R>, key: R -> K)
    ensures KeysOf([x] + s, key) == {key(x)} + KeysOf(s, key)
  {
    var xs := [x] + s;
    assert xs[0] == x;
    forall k | k in KeysOf(xs, key) ensures k in {key(x)} + KeysOf(s, key) {
      var i :| 0 <= i < |xs| && key(xs[i]) == k;
      if i > 0 { assert xs[i] == s[i - 1]; assert k in KeysOf(s, key); }
    }
    forall k | k in KeysOf(s, key) ensures k in KeysOf(xs, key) {
      var i :| 0 <= i < |s| && key(s[i]) == k;
      assert xs[i + 1] == s[i];
    }
    assert key(x) in KeysOf(xs, key);
  }

  /** Every key of the input that is not in `seen` is the key of some kept row. */
  lemma {:induction false} DedupCovers<R, K>(s: seq<R>, key: R -> K, seen: set<K>)
    ensures KeysOf(s, key) - seen <= KeysOf(DedupFrom(s, key, seen), key)
    decreases |s|
  {
    if s != [] {
      var seen' := if key(s[0]) in seen then seen else seen + {key(s[0])};
      DedupCovers(s[1..], key, seen');
      var tail := DedupFrom(s[1..], key, seen');
      KeysOfCons(s[0], s[1..], key);
      assert [s[0]] + s[1..] == s;
      if key(s[0]) !in seen {
        KeysOfCons(s[0], tail, key);
      }
    }
  }

  lemma SameElements<R>(p: seq<R>, rows: seq<R>)
    requires multiset(p) == multiset(rows)
    ensures forall x :: x in p <==> x in rows
  {
    forall x ensures x in p <==> x in rows {
      assert x in p <==> x in multiset(p);
    }
  }

  /** Every row of `r` is a row of `rows`. */
  ghost predicate FromRows<R>(r: seq<R>, rows: seq<R>)
  {
    forall m :: 0 <= m < |r| ==> r[m] in rows
  }

  /** Every key of `rows` is the key of some row of `r`. */
  ghost predicate CoversKeys<R, K>(r: seq<R>, rows: seq<R>, key: R -> K)
  {
    forall x :: x in rows ==> exists m :: 0 <= m < |r| && key(r[m]) == key(x)
  }

  /** Each row of `r` is no later than any row of `rows` with its key. */
  ghost predicate EarliestPerKey<R, K>(r: seq<R>, rows: seq<R>, time: R -> int, key: R -> K)
  {
    forall m, x :: 0 <= m < |r| && x in rows && key(x) == key(r[m]) ==> time(r[m]) <= time(x)
  }

  lemma DedupComesFrom<R, K>(p: seq<R>, rows: seq<R>, key: R -> K)
    requires multiset(p) == multiset(rows)
    ensures FromRows(DropDuplicates(p, key), rows)
  {
    SameElements(p, rows);
    DedupKeeps(p, key, {});
  }

  lemma DedupCoversRows<R, K>(p: seq<R>, rows: seq<R>, key: R -> K)
    requires multiset(p) == multiset(rows)
    ensures CoversKeys(DropDuplicates(p, key), rows, key)
  {
    var r := DropDuplicates(p, key);
    SameElements(p, rows);
    DedupCovers(p, key, {});
    forall x | x in rows ensures exists m :: 0 <= m < |r| && key(r[m]) == key(x) {
      var i :| 0 <= i < |p| && p[i] == x;
      assert key(x) in KeysOf(p, key);
      assert key(x) in KeysOf(r, key);
    }
  }

  lemma DedupEarliestRows<R, K>(p: seq<R>, rows: seq<R>, time: R -> int, key: R -> K)
    requires SortedBy(p, time) && multiset(p) == multiset(rows)
    ensures EarliestPerKey(DropDuplicates(p, key), rows, time, key)
  {
    var r := DropDuplicates(p, key);
    SameElements(p, rows);
    DedupEarliest(p, key, {}, time);
    forall m, x | 0 <= m < |r| && x in rows && key(x) == key(r[m]) ensures time(r[m]) <= time(x) {
      var i :| 0 <= i < |p| && p[i] == x;
      assert key(p[i]) == key(r[m]);
    }
  }

  /**
   * Whatever order a sort leaves rows with equal times in, dropping duplicates from a time-sorted
   * permutation of `rows` gives a time-sorted table with one row per key, only rows of `rows`, a
   * row for every key of `rows`, and for each key its earliest row.
   */
  lemma DedupOfSortedPermutation<R, K>(p: seq<R>, rows: seq<R>, time: R -> int, key: R -> K)
    requires SortedBy(p, time) && multiset(p) == multiset(rows)
    ensures SortedBy(DropDuplicates(p, key), time)
    ensures UniqueKeys(DropDuplicates(p, key), key)
    ensures FromRows(DropDuplicates(p, key), rows)
    ensures CoversKeys(DropDuplicates(p, key), rows, key)
    ensures EarliestPerKey(DropDuplicates(p, key), rows, time, key)
  {
    DedupKeeps(p, key, {});
    DedupSorted(p, key, {}, time);
    DedupComesFrom(p, rows, key);
    DedupCoversRows(p, rows, key);
    DedupEarliestRows(p, rows, time, key);
  }

  // ----- the merge -----

  /** One checkpoint merge: the stored table plus the new rows, sorted by time, deduplicated by key. */
  function Merge<R, K(==)>(table: seq<R>, rows: seq<R>, time: R -> int, key: R -> K): seq<R>
  {
    DropDuplicates(SortByTime(table + rows, time), key)
  }

  /**
   * The merged table is sorted by time, keeps one row per key, holds only rows of its inputs,
   * covers every key of its inputs, and keeps for each key its earliest row.
   */
  lemma MergeProperties<R, K>(table: seq<R>, rows: seq<R>, time: R -> int, key: R -> K)
    ensures SortedBy(Merge(table, rows, time, key), time)
    ensures UniqueKeys(Merge(table, rows, time, key), key)
    ensures FromRows(Merge(table, rows, time, key), table + rows)
    ensures CoversKeys(Merge(table, rows, time, key), table + rows, key)
    ensures EarliestPerKey(Merge(table, rows, time, key), table + rows, time, key)
  {
    SortByTimeSortsAndPermutes(table + rows, time);
    DedupOfSortedPermutation(SortByTime(table + rows, time), table + rows, time, key);
  }

  /** The earliest-survivor part of `MergeProperties`, for one row of the inputs. */
  lemma MergeKeepsEarliest<R, K>(table: seq<R>, rows: seq<R>, time: R -> int, key: R -> K, x: R)
    requires x in table + rows
    ensures forall m :: 0 <= m < |Merge(table, rows, time, key)| && key(Merge(table, rows, time, key)[m]) == key(x) ==>
      time(Merge(table, rows, time, key)[m]) <= time(x)
  {
    MergeProperties(table, rows, time, key);
  }

  /** The covering part of `MergeProperties`, for one row of the inputs: where its key survives. */
  lemma MergeCoverIndex<R, K>(table: seq<R>, rows: seq<R>, time: R -> int, key: R -> K, x: R) returns (n: nat)
    requires x in table + rows
    ensures n < |Merge(table, rows, time, key)| && key(Merge(table, rows, time, key)[n]) == key(x)
  {
    MergeProperties(table, rows, time, key);
    var m := Merge(table, rows, time, key);
    n :| 0 <= n < |m| && key(m[n]) == key(x);
  }

  // ----- saving the same rows again -----

  lemma {:induction false} DedupIdentity<R, K>(s: seq<R>, key: R -> K, seen: set<K>)
    requires UniqueKeys(s, key)
    requires forall i :: 0 <= i < |s| ==> key(s[i]) !in seen
    ensures DedupFrom(s, key, seen) == s
    decreases |s|
  {
    if s != [] {
      forall i | 0 <= i < |s[1..]| ensures key(s[1..][i]) !in seen + {key(s[0])} {
        assert s[1..][i] == s[i + 1];
      }
      assert UniqueKeys(s[1..], key) by {
        forall i, j | 0 <= i < |s[1..]| && 0 <= j < |s[1..]| && i != j ensures key(s[1..][i]) != key(s[1..][j]) {
          assert s[1..][i] == s[i + 1] && s[1..][j] == s[j + 1];
        }
      }
      DedupIdentity(s[1..], key, seen + {key(s[0])});
      assert s == [s[0]] + s[1..];
    }
  }

  lemma {:induction false} DedupAppend<R, K>(a: seq<R>, b: seq<R>, key: R -> K, seen: set<K>)
    ensures DedupFrom(a + b, key, seen) == DedupFrom(a, key, seen) + DedupFrom(b, key, seen + KeysOf(a, key))
    decreases |a|
  {
    if a == [] {
      assert a + b == b;
      assert seen + KeysOf(a, key) == seen;
    } else {
      assert (a + b)[1..] == a[1..] + b;
      assert (a + b)[0] == a[0];
      KeysOfCons(a[0], a[1..], key);
      assert [a[0]] + a[1..] == a;
      var seen' := if key(a[0]) in seen then seen else seen + {key(a[0])};
      DedupAppend(a[1..], b, key, seen');
      assert seen' + KeysOf(a[1..], key) == seen + KeysOf(a, key);
    }
  }

  lemma DedupSplit<R, K>(s: seq<R>, k: nat, key: R -> K)
    requires k <= |s|
    ensures DropDuplicates(s, key) == DedupFrom(s[..k], key, {}) + DedupFrom(s[k..], key, {} + KeysOf(s[..k], key))
  {
    assert s == s[..k] + s[k..];
    DedupAppend(s[..k], s[k..], key, {});
  }

  lemma DedupSkipsSeen<R, K>(x: R, b: seq<R>, key: R -> K, seen: set<K>)
    requires key(x) in seen
    ensures DedupFrom([x] + b, key, seen) == DedupFrom(b, key, seen)
  {
    assert ([x] + b)[1..] == b;
  }

  /** Putting a row into a table after some row with the same key changes nothing after dedup. */
  lemma DedupInsertAfterSameKey<R, K>(s: seq<R>, k: nat, x: R, key: R -> K)
    requires k <= |s| && key(x) in KeysOf(s[..k], key)
    ensures DropDuplicates(s[..k] + [x] + s[k..], key) == DropDuplicates(s, key)
  {
    var a, b := s[..k], s[k..];
    var seen := {} + KeysOf(a, key);
    calc {
      DropDuplicates(a + [x] + b, key);
      { assert a + [x] + b == a + ([x] + b); }
      DedupFrom(a + ([x] + b), key, {});
      { DedupAppend(a, [x] + b, key, {}); }
      DedupFrom(a, key, {}) + DedupFrom([x] + b, key, seen);
      { DedupSkipsSeen(x, b, key, seen); }
      DedupFrom(a, key, {}) + DedupFrom(b, key, seen);
      { DedupSplit(s, k, key); }
      DropDuplicates(s, key);
    }
  }

  /** Inserting a row whose key already occurs no later in a sorted table changes nothing after dedup. */
  lemma DedupInsertRedundant<R, K>(s: seq<R>, x: R, iy: nat, time: R -> int, key: R -> K)
    requires SortedBy(s, time)
    requires iy < |s| && key(s[iy]) == key(x) && time(s[iy]) <= time(x)
    ensures DropDuplicates(InsertByTime(s, x, time), key) == DropDuplicates(s, key)
  {
    var k := InsertPos(s, x, time);
    InsertPosBounds(s, x, time);
    InsertShape(s, x, time);
    assert iy < k;
    assert key(x) in KeysOf(s[..k], key) by { assert s[..k][iy] == s[iy]; }
    DedupInsertAfterSameKey(s, k, x, key);
  }

  lemma {:induction false} SortOfSorted<R>(s: seq<R>, time: R -> int)
    requires SortedBy(s, time)
    ensures SortByTime(s, time) == s
    decreases |s|
  {
    if s != [] {
      var init, last := s[..|s| - 1], s[|s| - 1];
      assert SortedBy(init, time);
      SortOfSorted(init, time);
      InsertShape(init, last, time);
      var k := InsertPos(init, last, time);
      InsertPosBounds(init, last, time);
      if k < |init| {
        assert false;
      }
      assert init[..k] == init && init[k..] == [];
      assert s == init + [last];
    }
  }

  lemma SortOfAppend<R>(u: seq<R>, x: R, time: R -> int)
    ensures SortByTime(u + [x], time) == InsertByTime(SortByTime(u, time), x, time)
  {
    assert (u + [x])[..|u + [x]| - 1] == u;
    assert (u + [x])[|u + [x]| - 1] == x;
  }

  lemma PermutedIndex<R>(s: seq<R>, t: seq<R>, y: R) returns (i: nat)
    requires multiset(s) == multiset(t) && y in t
    ensures i < |s| && s[i] == y
  {
    assert y in multiset(t);
    assert y in s;
    i :| 0 <= i < |s| && s[i] == y;
  }

  /** Row `x` is outdone by a row of `m` with the same key and no later time. */
  ghost predicate Outdone<R, K>(m: seq<R>, x: R, time: R -> int, key: R -> K)
  {
    exists n :: 0 <= n < |m| && key(m[n]) == key(x) && time(m[n]) <= time(x)
  }

  lemma {:induction false} MergeAgainCore<R, K>(m: seq<R>, xs: seq<R>, time: R -> int, key: R -> K)
    requires SortedBy(m, time) && UniqueKeys(m, key)
    requires forall x :: x in xs ==> Outdone(m, x, time, key)
    ensures DropDuplicates(SortByTime(m + xs, time), key) == m
    decreases |xs|
  {
    if xs == [] {
      assert m + xs == m;
      SortOfSorted(m, time);
      DedupIdentity(m, key, {});
    } else {
      var init, x := xs[..|xs| - 1], xs[|xs| - 1];
      assert xs == init + [x];
      assert forall y :: y in init ==> y in xs;
      MergeAgainCore(m, init, time, key);
      var s := SortByTime(m + init, time);
      SortByTimeSortsAndPermutes(m + init, time);
      assert m + xs == (m + init) + [x];
      SortOfAppend(m + init, x, time);
      assert Outdone(m, x, time, key);
      var n :| 0 <= n < |m| && key(m[n]) == key(x) && time(m[n]) <= time(x);
      var iy := PermutedIndex(s, m + init, m[n]);
      DedupInsertRedundant(s, x, iy, time, key);
    }
  }

  /** Saving the same rows again leaves the merged table exactly as it was. */
  lemma MergeIdempotent<R, K>(table: seq<R>, rows: seq<R>, time: R -> int, key: R -> K)
    ensures Merge(Merge(table, rows, time, key), rows, time, key) == Merge(table, rows, time, key)
  {
    var m := Merge(table, rows, time, key);
    MergeProperties(table, rows, time, key);
    forall x | x in rows ensures Outdone(m, x, time, key) {
      assert x in table + rows;
      var n :| 0 <= n < |m| && key(m[n]) == key(x);
    }
    MergeAgainCore(m, rows, time, key);
  }

  /** Some row of `m` has the key and the time of `x`. */
  ghost predicate MergedPair<R, K>(m: seq<R>, x: R, time: R -> int, key: R -> K)
  {
    exists n :: 0 <= n < |m| && key(m[n]) == key(x) && time(m[n]) == time(x)
  }

  lemma ResaveKeepsOnlyMergedKeys<R, K>(table: seq<R>, rows: seq<R>, p: seq<R>, time: R -> int, key: R -> K)
    requires SortedBy(p, time) && multiset(p) == multiset(Merge(table, rows, time, key) + rows)
    ensures forall i :: 0 <= i < |DropDuplicates(p, key)| ==> MergedPair(Merge(table, rows, time, key), DropDuplicates(p, key)[i], time, key)
  {
    var m := Merge(table, rows, time, key);
    var r := DropDuplicates(p, key);
    DedupComesFrom(p, m + rows, key);
    DedupEarliestRows(p, m + rows, time, key);
    forall i | 0 <= i < |r| ensures MergedPair(m, r[i], time, key) {
      assert r[i] in m + rows;
      if r[i] in m {
        var n :| 0 <= n < |m| && m[n] == r[i];
      } else {
        assert r[i] in table + rows;
        var n := MergeCoverIndex(table, rows, time, key, r[i]);
        MergeKeepsEarliest(table, rows, time, key, r[i]);
        assert time(m[n]) <= time(r[i]);
        assert m[n] in m + rows;
        assert time(r[i]) <= time(m[n]);
      }
    }
  }

  lemma ResaveKeepsEveryMergedKey<R, K>(table: seq<R>, rows: seq<R>, p: seq<R>, time: R -> int, key: R -> K)
    requires SortedBy(p, time) && multiset(p) == multiset(Merge(table, rows, time, key) + rows)
    ensures forall n :: 0 <= n < |Merge(table, rows, time, key)| ==> MergedPair(DropDuplicates(p, key), Merge(table, rows, time, key)[n], time, key)
  {
    var m := Merge(table, rows, time, key);
    var r := DropDuplicates(p, key);
    MergeProperties(table, rows, time, key);
    DedupComesFrom(p, m + rows, key);
    DedupCoversRows(p, m + rows, key);
    DedupEarliestRows(p, m + rows, time, key);
    forall n | 0 <= n < |m| ensures MergedPair(r, m[n], time, key) {
      assert m[n] in m + rows;
      var i :| 0 <= i < |r| && key(r[i]) == key(m[n]);
      assert r[i] in m + rows;
      if r[i] in m {
        var n' :| 0 <= n' < |m| && m[n'] == r[i];
      } else {
        assert r[i] in table + rows;
      }
    }
  }
}
