/** How `max_in_flight` is divided over the open connections
    (`RdyControl._target_rdy_by_id` of asyncnsq/tcp/reader_rdy.py). */
module RdyShares {
  import opened Prelude
  import opened SetSum

  /** The share of the connection at position `i` of `n`, before its cap. */
  function Share(m: int, n: nat, i: nat): int
    requires n > 0
  {
    m / n + (if i < m % n then 1 else 0)
  }

  /** The target of an open connection; 0 stands for an id that is not in the answer. */
  ghost function Target(ids: set<ConnId>, id: ConnId, m: int, cap: int): int
    requires id in ids
  {
    if m <= 0 then 0 else Min(Share(m, |ids|, Rank(ids, id)), cap)
  }

  /** `divmod` over the sorted connections, with each share capped. */
  method TargetRdyById(caps: map<ConnId, int>, m: int) returns (targets: map<ConnId, int>)
    ensures targets.Keys == if m <= 0 then {} else caps.Keys
    ensures forall id :: id in targets ==> targets[id] == Target(caps.Keys, id, m, caps[id])
  {
    var connections := Sorted(caps.Keys);
    if |connections| == 0 || m <= 0 {
      assert caps.Keys == {} || m <= 0;
      return map[];
    }
    var base, remainder := m / |connections|, m % |connections|;
    targets := map[];
    for index := 0 to |connections|
      invariant targets.Keys == set id | id in connections[..index]
      invariant forall id :: id in targets ==> id in caps && targets[id] == Target(caps.Keys, id, m, caps[id])
    {
      var id := connections[index];
      assert id in caps.Keys;
      SortedRank(caps.Keys, index);
      var target := base + (if index < remainder then 1 else 0);
      targets := targets[id := Min(target, caps[id])];
      assert connections[..index + 1] == connections[..index] + [id];
    }
    assert connections[..|connections|] == connections;
  }

  // ---------- The shares are fair and exact ----------

  lemma DivMod(m: int, n: int)
    requires n > 0
    ensures m == n * (m / n) + m % n && 0 <= m % n < n
  {
  }

  /** `Share(m, n, i)` is the least integer not below (m - i) / n. */
  lemma ShareIsCeiling(m: int, n: nat, i: nat)
    requires i < n
    ensures n * (Share(m, n, i) - 1) < m - i <= n * Share(m, n, i)
  {
    DivMod(m, n);
    var q := m / n;
    assert n * (q + 1) == n * q + n;
    assert n * (q - 1) == n * q - n;
  }

  lemma SharesDifferByAtMostOne(m: int, n: nat, i: nat, j: nat)
    requires i < n && j < n
    ensures -1 <= Share(m, n, i) - Share(m, n, j) <= 1
    ensures i <= j ==> Share(m, n, i) >= Share(m, n, j)
  {
  }

  lemma MulMonotone(a: int, b: int, c: int)
    requires a <= b && 0 <= c
    ensures a * c <= b * c && c * a <= c * b
  {
  }

  /** Fewer connections, or fewer of them before this one, never make its share smaller. */
  lemma ShareMonotone(m: int, n: nat, i: nat, n': nat, i': nat)
    requires 0 < n' <= n && i' <= i < n && i' < n' && m > 0
    ensures Share(m, n', i') >= Share(m, n, i) >= 0
  {
    ShareIsCeiling(m, n, i);
    ShareIsCeiling(m, n', i');
    CeilingNonNegative(m, n, i, Share(m, n, i));
    CeilingNonNegative(m, n', i', Share(m, n', i'));
    CeilingsOrdered(m, n, i, Share(m, n, i), n', i', Share(m, n', i'));
  }

  lemma CeilingNonNegative(m: int, n: nat, i: nat, a: int)
    requires i < n && m > 0 && m - i <= n * a
    ensures 0 <= a
  {
    if a < 0 { MulMonotone(a, -1, n); }
  }

  lemma CeilingsOrdered(m: int, n: nat, i: nat, a: int, n': nat, i': nat, b: int)
    requires 0 < n' <= n && i' <= i < n && 0 <= a && 0 <= b
    requires n * (a - 1) < m - i && m - i' <= n' * b
    ensures b >= a
  {
    if b < a {
      MulMonotone(b, a - 1, n');
      MulMonotone(n', n, a - 1);
    }
  }

  /** Removing connections never lowers the target of one that stays; read the other way,
      adding connections never raises the target of one that was there. */
  lemma TargetMonotone(fewer: set<ConnId>, ids: set<ConnId>, id: ConnId, m: int, cap: int)
    requires id in fewer && fewer <= ids
    ensures Target(fewer, id, m, cap) >= Target(ids, id, m, cap)
  {
    if m > 0 {
      CardinalitySubset(fewer, ids);
      RankSubset(fewer, ids, id);
      RankBelow(fewer, id);
      RankBelow(ids, id);
      assert fewer != {} && |fewer| > 0;
      ShareMonotone(m, |ids|, Rank(ids, id), |fewer|, Rank(fewer, id));
    }
  }

  ghost function Shares(ids: set<ConnId>, m: int): map<ConnId, int>
    requires ids != {}
  {
    map id | id in ids :: Share(m, |ids|, Rank(ids, id))
  }

  ghost function Targets(ids: set<ConnId>, m: int, caps: map<ConnId, int>): map<ConnId, int>
    requires ids <= caps.Keys
  {
    map id | id in ids :: Target(ids, id, m, caps[id])
  }

  lemma RankOfLast(ids: set<ConnId>, first: set<ConnId>)
    requires first != {} && first <= ids
    requires forall x, y :: x in first && y in ids && y < x ==> y in first
    ensures Rank(ids, MaxOf(first)) == |first - {MaxOf(first)}|
  {
    var x := MaxOf(first);
    assert (set j | j in ids && j < x) == first - {x};
  }

  lemma OneMoreShare(k: nat, q: int, r: int)
    ensures (k + 1) * q + Min(k + 1, r) == k * q + Min(k, r) + q + (if k < r then 1 else 0)
  {
  }

  /** The sum over the first ids, in order. */
  lemma {:induction false} SumFirstShares(ids: set<ConnId>, first: set<ConnId>, f: map<ConnId, int>, q: int, r: nat)
    requires first <= ids == f.Keys
    requires forall x :: x in ids ==> f[x] == q + (if Rank(ids, x) < r then 1 else 0)
    requires forall x, y :: x in first && y in ids && y < x ==> y in first
    ensures Sum(first, f) == |first| * q + Min(|first|, r)
    decreases |first|
  {
    if first != {} {
      var x := MaxOf(first);
      var k := |first - {x}|;
      RankOfLast(ids, first);
      SumFirstShares(ids, first - {x}, f, q, r);
      OneMoreShare(k, q, r);
      assert |first| == k + 1;
    }
  }

  /** The shares add up to exactly `max_in_flight`. */
  lemma SharesSumExactly(ids: set<ConnId>, m: int)
    requires ids != {}
    ensures Sum(ids, Shares(ids, m)) == m
  {
    SumFirstShares(ids, ids, Shares(ids, m), m / |ids|, m % |ids|);
    DivMod(m, |ids|);
  }

  /** The capped targets never add up to more, and to exactly as much if and only if no
      cap binds. */
  lemma TargetsSum(ids: set<ConnId>, m: int, caps: map<ConnId, int>)
    requires ids <= caps.Keys && ids != {} && m > 0
    ensures Sum(ids, Targets(ids, m, caps)) <= m
    ensures Sum(ids, Targets(ids, m, caps)) == m <==>
            forall id :: id in ids ==> Share(m, |ids|, Rank(ids, id)) <= caps[id]
  {
    SharesSumExactly(ids, m);
    SumAtMost(ids, Targets(ids, m, caps), Shares(ids, m));
    if Sum(ids, Targets(ids, m, caps)) == m {
      forall id | id in ids
        ensures Share(m, |ids|, Rank(ids, id)) <= caps[id]
      {
        assert Targets(ids, m, caps)[id] == Shares(ids, m)[id];
      }
    }
  }
}
