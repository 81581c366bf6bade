/** Ordered finite sets of connection ids, and sums over them. */
module SetSum {

  /** A connection's id is the text of its endpoint. The code only compares ids, so integers
      in the same order stand for them. */
  type ConnId = int

  lemma HasElement(ids: set<ConnId>)
    requires ids != {}
    ensures exists x :: x in ids
  {
    if forall x :: x !in ids { assert false; }
  }

  lemma {:induction false} FindMax(ids: set<ConnId>) returns (m: ConnId)
    requires ids != {}
    ensures m in ids && forall x :: x in ids ==> x <= m
    decreases |ids|
  {
    HasElement(ids);
    m :| m in ids;
    var others := ids - {m};
    assert forall x :: x in ids ==> x in others || x == m;
    if others != {} {
      var n := FindMax(others);
      m := if m <= n then n else m;
    }
  }

  lemma MaxExists(ids: set<ConnId>)
    requires ids != {}
    ensures exists m :: m in ids && forall x :: x in ids ==> x <= m
  {
    var m := FindMax(ids);
  }

  function MaxOf(ids: set<ConnId>): (m: ConnId)
    requires ids != {}
    ensures m in ids && forall x :: x in ids ==> x <= m
  {
    MaxExists(ids);
    var m :| m in ids && forall x :: x in ids ==> x <= m;
    m
  }

  /** `sorted(ids)`. */
  function Sorted(ids: set<ConnId>): (s: seq<ConnId>)
    ensures |s| == |ids| && forall x :: x in s <==> x in ids
    decreases |ids|
  {
    if ids == {} then []
    else
      var m := MaxOf(ids);
      Sorted(ids - {m}) + [m]
  }

  /** How many ids come before `id`. */
  ghost function Rank(ids: set<ConnId>, id: ConnId): nat
  {
    |set j | j in ids && j < id|
  }

  lemma CardinalitySubset<T>(a: set<T>, b: set<T>)
    requires a <= b
    ensures |a| <= |b|
  {
    assert b == a + (b - a);
  }

  lemma RankBelow(ids: set<ConnId>, id: ConnId)
    requires id in ids
    ensures Rank(ids, id) < |ids|
  {
    CardinalitySubset((set j | j in ids && j < id), ids - {id});
  }

  lemma RankSubset(fewer: set<ConnId>, ids: set<ConnId>, id: ConnId)
    requires fewer <= ids
    ensures Rank(fewer, id) <= Rank(ids, id)
  {
    CardinalitySubset((set j | j in fewer && j < id), (set j | j in ids && j < id));
  }

  /** Position and rank in the sorted list are the same thing. */
  lemma {:induction false} SortedRank(ids: set<ConnId>, i: nat)
    requires i < |ids|
    ensures Rank(ids, Sorted(ids)[i]) == i
    decreases |ids|
  {
    var m := MaxOf(ids);
    var others := ids - {m};
    var s := Sorted(ids);
    if i == |ids| - 1 {
      assert (set j | j in ids && j < m) == others;
    } else {
      assert s[i] == Sorted(others)[i] && s[i] in Sorted(others);
      SortedRank(others, i);
      assert (set j | j in ids && j < s[i]) == (set j | j in others && j < s[i]);
    }
  }

  ghost function Sum(ids: set<ConnId>, f: map<ConnId, int>): int
    requires ids <= f.Keys
    decreases |ids|
  {
    if ids == {} then 0
    else
      var m := MaxOf(ids);
      f[m] + Sum(ids - {m}, f)
  }

  lemma {:induction false} SumAtMost(ids: set<ConnId>, f: map<ConnId, int>, g: map<ConnId, int>)
    requires ids <= f.Keys && ids <= g.Keys
    requires forall x :: x in ids ==> f[x] <= g[x]
    ensures Sum(ids, f) <= Sum(ids, g)
    ensures Sum(ids, f) == Sum(ids, g) <==> forall x :: x in ids ==> f[x] == g[x]
    decreases |ids|
  {
    if ids != {} {
      SumAtMost(ids - {MaxOf(ids)}, f, g);
    }
  }

  lemma {:induction false} SumRemove(ids: set<ConnId>, f: map<ConnId, int>, x: ConnId)
    requires x in ids && ids <= f.Keys
    ensures Sum(ids, f) == f[x] + Sum(ids - {x}, f)
    decreases |ids|
  {
    var m := MaxOf(ids);
    if m != x {
      SumRemove(ids - {m}, f, x);
      var m' := MaxOf(ids - {x});
      assert m' in ids && m in ids - {x};
      assert ids - {m} - {x} == ids - {x} - {m};
    }
  }

  lemma {:induction false} SumSame(ids: set<ConnId>, f: map<ConnId, int>, g: map<ConnId, int>)
    requires ids <= f.Keys && ids <= g.Keys
    requires forall x :: x in ids ==> f[x] == g[x]
    ensures Sum(ids, f) == Sum(ids, g)
  {
    SumAtMost(ids, f, g);
  }

  lemma {:induction false} SumNonNegative(ids: set<ConnId>, f: map<ConnId, int>)
    requires ids <= f.Keys && forall x :: x in ids ==> f[x] >= 0
    ensures Sum(ids, f) >= 0
    decreases |ids|
  {
    if ids != {} { SumNonNegative(ids - {MaxOf(ids)}, f); }
  }

  /** Two maps that differ at one id. */
  lemma SumPoint(ids: set<ConnId>, f: map<ConnId, int>, g: map<ConnId, int>, x: ConnId)
    requires x in ids && ids <= f.Keys && ids <= g.Keys
    requires forall y :: y in ids && y != x ==> f[y] == g[y]
    ensures Sum(ids, f) - Sum(ids, g) == f[x] - g[x]
  {
    SumRemove(ids, f, x);
    SumRemove(ids, g, x);
    SumSame(ids - {x}, f, g);
  }
}
