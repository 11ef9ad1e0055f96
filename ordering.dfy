/** The stable sorts the schedulers apply to their workloads (Python's
    `sorted` with a key): by arrival time in greedy.py and baseline.py, by
    (deadline, -priority) in dynamic_programming.py. */
module Ordering {
  import opened Workloads

  datatype Order = ByArrival | ByDeadlineThenPriority

  /** A sort key compared lexicographically, as Python compares tuples. */
  datatype SortKey = SortKey(major: real, minor: real)

  function Key(o: Order, w: Workload): SortKey {
    match o
    case ByArrival => SortKey(w.arrivalTime, 0.0)
    case ByDeadlineThenPriority => SortKey(w.deadline, -(w.priority as real))
  }

  predicate KeyLe(a: SortKey, b: SortKey) {
    a.major < b.major || (a.major == b.major && a.minor <= b.minor)
  }

  ghost predicate Sorted(o: Order, s: seq<Workload>) {
    forall i, j :: 0 <= i < j < |s| ==> KeyLe(Key(o, s[i]), Key(o, s[j]))
  }

  /** Inserts `w` behind every element whose key is not greater than its own,
      which is where a stable sort puts an element that came last. */
  function Insert(o: Order, s: seq<Workload>, w: Workload): (r: seq<Workload>)
    ensures multiset(r) == multiset(s) + multiset{w}
    decreases |s|
  {
    if s == [] || KeyLe(Key(o, s[|s| - 1]), Key(o, w)) then s + [w]
    else
      assert s == s[..|s| - 1] + [s[|s| - 1]];
      Insert(o, s[..|s| - 1], w) + [s[|s| - 1]]
  }

  /** An element whose key is no less than every key of a sorted sequence
      can go at its end. */
  lemma SortedAppendMax(o: Order, r: seq<Workload>, m: Workload)
    requires Sorted(o, r)
    requires forall i :: 0 <= i < |r| ==> KeyLe(Key(o, r[i]), Key(o, m))
    ensures Sorted(o, r + [m])
  {
    var t := r + [m];
    forall i, j | 0 <= i < j < |t| ensures KeyLe(Key(o, t[i]), Key(o, t[j])) {
      assert t[i] == r[i];
      if j < |r| {
        assert t[j] == r[j];
      }
    }
  }

  lemma {:induction false} InsertKeepsSorted(o: Order, s: seq<Workload>, w: Workload)
    requires Sorted(o, s)
    ensures Sorted(o, Insert(o, s, w))
    decreases |s|
  {
    if s == [] || KeyLe(Key(o, s[|s| - 1]), Key(o, w)) {
      forall i | 0 <= i < |s| ensures KeyLe(Key(o, s[i]), Key(o, w)) {
        if i < |s| - 1 {
          assert KeyLe(Key(o, s[i]), Key(o, s[|s| - 1]));
        }
      }
      SortedAppendMax(o, s, w);
    } else {
      var init, last := s[..|s| - 1], s[|s| - 1];
      assert Sorted(o, init) by {
        forall i, j | 0 <= i < j < |init| ensures KeyLe(Key(o, init[i]), Key(o, init[j])) {
          assert init[i] == s[i] && init[j] == s[j];
        }
      }
      InsertKeepsSorted(o, init, w);
      var r' := Insert(o, init, w);
      assert multiset(r') == multiset(init) + multiset{w};
      forall i | 0 <= i < |r'| ensures KeyLe(Key(o, r'[i]), Key(o, last)) {
        var x := r'[i];
        assert x in multiset(r');
        if x != w {
          assert x in multiset(init);
          var k :| 0 <= k < |init| && init[k] == x;
          assert KeyLe(Key(o, s[k]), Key(o, s[|s| - 1]));
        }
      }
      SortedAppendMax(o, r', last);
    }
  }

  /** Python's stable `sorted(ws, key=...)`. */
  function Sort(o: Order, ws: seq<Workload>): (r: seq<Workload>)
    ensures multiset(r) == multiset(ws)
    ensures |r| == |ws|
    ensures Sorted(o, r)
  {
    if ws == [] then []
    else
      assert ws == ws[..|ws| - 1] + [ws[|ws| - 1]];
      var sorted := Sort(o, ws[..|ws| - 1]);
      InsertKeepsSorted(o, sorted, ws[|ws| - 1]);
      var r := Insert(o, sorted, ws[|ws| - 1]);
      assert |r| == |multiset(r)|;
      r
  }

  /** The elements of `s` whose key is `k`, in their order in `s`. */
  function WithKey(o: Order, s: seq<Workload>, k: SortKey): seq<Workload> {
    if s == [] then []
    else WithKey(o, s[..|s| - 1], k) + (if Key(o, s[|s| - 1]) == k then [s[|s| - 1]] else [])
  }

  lemma WithKeySnoc(o: Order, s: seq<Workload>, x: Workload, k: SortKey)
    ensures WithKey(o, s + [x], k) == WithKey(o, s, k) + (if Key(o, x) == k then [x] else [])
  {
    assert (s + [x])[..|s|] == s;
  }

  lemma {:induction false} WithKeyInsert(o: Order, s: seq<Workload>, w: Workload, k: SortKey)
    ensures WithKey(o, Insert(o, s, w), k) == WithKey(o, s, k) + (if Key(o, w) == k then [w] else [])
    decreases |s|
  {
    if s == [] || KeyLe(Key(o, s[|s| - 1]), Key(o, w)) {
      WithKeySnoc(o, s, w, k);
    } else {
      var init, last := s[..|s| - 1], s[|s| - 1];
      assert s == init + [last];
      WithKeyInsert(o, init, w, k);
      var r' := Insert(o, init, w);
      assert Insert(o, s, w) == r' + [last];
      WithKeySnoc(o, r', last, k);
      WithKeySnoc(o, init, last, k);
      // Equal keys would have put `w` after `last`, so at most one of the
      // two contributes to key `k` and their order does not matter.
      if Key(o, last) == k {
        assert Key(o, w) != k;
        assert WithKey(o, r', k) == WithKey(o, init, k);
      } else {
        assert WithKey(o, r' + [last], k) == WithKey(o, r', k);
        assert WithKey(o, s, k) == WithKey(o, init, k);
      }
    }
  }

  /** Stability: for every key, the workloads with that key keep their
      relative order. */
  lemma {:induction false} SortIsStable(o: Order, ws: seq<Workload>, k: SortKey)
    ensures WithKey(o, Sort(o, ws), k) == WithKey(o, ws, k)
  {
    if ws != [] {
      SortIsStable(o, ws[..|ws| - 1], k);
      WithKeyInsert(o, Sort(o, ws[..|ws| - 1]), ws[|ws| - 1], k);
    }
  }
}
