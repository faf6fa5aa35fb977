/** SELECT ... WHERE keep ORDER BY before: row numbers of a table, filtered and sorted. */
module Query {

  /** Puts id in front of the first element it comes before. */
  function Place(ids: seq<nat>, id: nat, before: (nat, nat) -> bool): seq<nat> {
    if ids == [] then [id]
    else
      var n := |ids| - 1;
      if before(id, ids[n]) then Place(ids[..n], id, before) + [ids[n]] else ids + [id]
  }

  /** The kept row numbers below n, in order. */
  function OrderBy(n: nat, keep: nat -> bool, before: (nat, nat) -> bool): seq<nat> {
    if n == 0 then []
    else
      var rest := OrderBy(n - 1, keep, before);
      if keep(n - 1) then Place(rest, n - 1, before) else rest
  }

  /** before orders the kept rows below n strictly and totally. */
  ghost predicate Orders(n: nat, keep: nat -> bool, before: (nat, nat) -> bool) {
    && (forall i: nat, j: nat :: i < n && j < n && keep(i) && keep(j) && i != j ==> before(i, j) || before(j, i))
    && (forall i: nat, j: nat :: i < n && j < n && before(i, j) ==> !before(j, i))
    && (forall i: nat, j: nat, k: nat :: i < n && j < n && k < n && before(i, j) && before(j, k) ==> before(i, k))
  }

  ghost predicate InOrder(ids: seq<nat>, before: (nat, nat) -> bool) {
    forall a, b :: 0 <= a < b < |ids| ==> before(ids[a], ids[b])
  }

  lemma {:induction false} PlaceAdds(ids: seq<nat>, id: nat, before: (nat, nat) -> bool)
    ensures var r := Place(ids, id, before);
            && |r| == |ids| + 1 && id in r
            && (forall x :: x in r ==> x in ids || x == id) && forall x :: x in ids ==> x in r
  {
    if ids != [] {
      PlaceAdds(ids[..|ids| - 1], id, before);
      assert ids == ids[..|ids| - 1] + [ids[|ids| - 1]];
    }
  }

  /** Every kept row is selected and nothing else. */
  lemma {:induction false} OrderBySelects(n: nat, keep: nat -> bool, before: (nat, nat) -> bool)
    ensures forall id: nat :: id in OrderBy(n, keep, before) <==> id < n && keep(id)
  {
    if n > 0 {
      OrderBySelects(n - 1, keep, before);
      PlaceAdds(OrderBy(n - 1, keep, before), n - 1, before);
    }
  }

  lemma {:induction false} PlaceKeepsOrder(ids: seq<nat>, id: nat, n: nat, keep: nat -> bool,
                                           before: (nat, nat) -> bool)
    requires Orders(n, keep, before) && InOrder(ids, before) && id < n && keep(id) && id !in ids
    requires forall x :: x in ids ==> x < n && keep(x)
    ensures InOrder(Place(ids, id, before), before)
    decreases |ids|
  {
    if ids != [] {
      var m := |ids| - 1;
      if before(id, ids[m]) {
        assert forall x :: x in ids[..m] ==> x in ids;
        PlaceKeepsOrder(ids[..m], id, n, keep, before);
        PlaceAdds(ids[..m], id, before);
        var r := Place(ids[..m], id, before);
        forall a | 0 <= a < |r| ensures before(r[a], ids[m]) {
          assert r[a] in r;
        }
      } else {
        assert ids[m] in ids && before(ids[m], id);
        forall a | 0 <= a < |ids| ensures before(ids[a], id) {
          assert ids[a] in ids;
        }
      }
    }
  }

  /** The selection is in order, and so has no duplicates. */
  lemma {:induction false} OrderBySorts(n: nat, keep: nat -> bool, before: (nat, nat) -> bool)
    requires Orders(n, keep, before)
    ensures InOrder(OrderBy(n, keep, before), before)
  {
    if n > 0 {
      OrderBySorts(n - 1, keep, before);
      OrderBySelects(n - 1, keep, before);
      if keep(n - 1) {
        PlaceKeepsOrder(OrderBy(n - 1, keep, before), n - 1, n, keep, before);
      }
    }
  }

  /** The ids that satisfy keep, in the order they come in. */
  function Select(ids: seq<nat>, keep: nat -> bool): seq<nat> {
    if ids == [] then []
    else
      var n := |ids| - 1;
      Select(ids[..n], keep) + if keep(ids[n]) then [ids[n]] else []
  }

  lemma SelectOneMore(ids: seq<nat>, i: nat, keep: nat -> bool)
    requires i < |ids|
    ensures Select(ids[..i + 1], keep) == Select(ids[..i], keep) + if keep(ids[i]) then [ids[i]] else []
  {
    assert ids[..i + 1][..i] == ids[..i];
  }

  lemma {:induction false} SelectSelects(ids: seq<nat>, keep: nat -> bool)
    ensures forall k :: k in Select(ids, keep) <==> k in ids && keep(k)
  {
    if ids != [] {
      SelectSelects(ids[..|ids| - 1], keep);
      assert ids == ids[..|ids| - 1] + [ids[|ids| - 1]];
    }
  }

  lemma {:induction false} SelectKeepsOrder(ids: seq<nat>, keep: nat -> bool, before: (nat, nat) -> bool)
    requires InOrder(ids, before)
    ensures InOrder(Select(ids, keep), before)
  {
    if ids != [] {
      var n := |ids| - 1;
      SelectKeepsOrder(ids[..n], keep, before);
      SelectSelects(ids[..n], keep);
      var r := Select(ids[..n], keep);
      forall a | 0 <= a < |r| ensures before(r[a], ids[n]) {
        assert r[a] in r;
        var b :| 0 <= b < n && ids[..n][b] == r[a];
        assert ids[b] == r[a];
      }
    }
  }

  /** LIMIT n. */
  function Take(ids: seq<nat>, n: nat): seq<nat> {
    if |ids| > n then ids[..n] else ids
  }

  /** A limited selection keeps the first rows: what it leaves out comes after all that it keeps. */
  lemma TakeKeepsTheFirst(ids: seq<nat>, n: nat, before: (nat, nat) -> bool)
    requires InOrder(ids, before)
    ensures var kept := Take(ids, n);
            && |kept| <= n && InOrder(kept, before) && (forall k :: k in kept ==> k in ids)
            && forall k :: k in ids && k !in kept ==> |kept| == n && forall i :: 0 <= i < n ==> before(kept[i], k)
  {
    var kept := Take(ids, n);
    forall k | k in ids && k !in kept ensures |kept| == n && forall i :: 0 <= i < n ==> before(kept[i], k) {
      var j :| 0 <= j < |ids| && ids[j] == k;
      assert forall i :: 0 <= i < |kept| ==> kept[i] == ids[i] && kept[i] != k;
    }
  }
}
