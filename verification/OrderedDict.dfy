/** A Python `dict`: keys in the order of their first insertion, each with one value. */
module OrderedDict {

  type Dict<K, V> = seq<(K, V)>

  /** `d[k] = v`: a known key keeps its place. */
  function Put<K(==), V>(d: Dict<K, V>, k: K, v: V): Dict<K, V>
  {
    if d == [] then [(k, v)]
    else if d[0].0 == k then [(k, v)] + d[1..]
    else [d[0]] + Put(d[1..], k, v)
  }

  /** `d.pop(k, None)`. */
  function Pop<K(==), V>(d: Dict<K, V>, k: K): Dict<K, V>
  {
    if d == [] then []
    else if d[0].0 == k then d[1..]
    else [d[0]] + Pop(d[1..], k)
  }

  /** `list(d.values())`. */
  function Values<K, V>(d: Dict<K, V>): (vs: seq<V>)
    ensures |vs| == |d| && forall i :: 0 <= i < |d| ==> vs[i] == d[i].1
  {
    seq(|d|, i requires 0 <= i < |d| => d[i].1)
  }

  ghost predicate Unique<K, V>(d: Dict<K, V>)
  {
    forall i, j :: 0 <= i < j < |d| ==> d[i].0 != d[j].0
  }

  lemma {:induction false} PutMember<K, V>(d: Dict<K, V>, k: K, v: V, e: (K, V))
    requires Unique(d)
    ensures e in Put(d, k, v) <==> e == (k, v) || (e in d && e.0 != k)
  {
    if d != [] {
      assert d == [d[0]] + d[1..];
      if d[0].0 == k {
        TailKeys(d, e);
      } else {
        PutMember(d[1..], k, v, e);
      }
    }
  }

  lemma {:induction false} PopMember<K, V>(d: Dict<K, V>, k: K, e: (K, V))
    requires Unique(d)
    ensures e in Pop(d, k) <==> e in d && e.0 != k
  {
    if d != [] {
      assert d == [d[0]] + d[1..];
      if d[0].0 == k {
        TailKeys(d, e);
      } else {
        PopMember(d[1..], k, e);
      }
    }
  }

  /** A known key keeps its place, and a new one comes last. */
  lemma {:induction false} PutKeepsOrder<K, V>(d: Dict<K, V>, k: K, v: V, i: nat)
    requires i <= |d| && (forall j :: 0 <= j < i ==> d[j].0 != k) && (i < |d| ==> d[i].0 == k)
    ensures Put(d, k, v) == if i < |d| then d[i := (k, v)] else d + [(k, v)]
  {
    if i > 0 {
      PutKeepsOrder(d[1..], k, v, i - 1);
      assert d == [d[0]] + d[1..];
    }
  }

  /** The others keep their order when a key goes. */
  lemma {:induction false} PopKeepsOrder<K, V>(d: Dict<K, V>, k: K, i: nat)
    requires i <= |d| && (forall j :: 0 <= j < i ==> d[j].0 != k) && (i < |d| ==> d[i].0 == k)
    ensures Pop(d, k) == if i < |d| then d[..i] + d[i + 1..] else d
  {
    if i > 0 {
      PopKeepsOrder(d[1..], k, i - 1);
      assert d == [d[0]] + d[1..];
    }
  }

  lemma TailKeys<K, V>(d: Dict<K, V>, e: (K, V))
    requires d != [] && Unique(d)
    ensures e in d[1..] ==> e.0 != d[0].0
  {
    if e in d[1..] {
      var i :| 0 <= i < |d[1..]| && d[1..][i] == e;
      assert d[i + 1] == e;
    }
  }

  lemma {:induction false} PutUnique<K, V>(d: Dict<K, V>, k: K, v: V)
    requires Unique(d)
    ensures Unique(Put(d, k, v))
  {
    if d != [] && d[0].0 != k {
      var r := Put(d[1..], k, v);
      PutUnique(d[1..], k, v);
      forall j | 0 <= j < |r|
        ensures r[j].0 != d[0].0
      {
        assert r[j] in r;
        PutMember(d[1..], k, v, r[j]);
        TailKeys(d, r[j]);
      }
    }
  }

  lemma {:induction false} PopUnique<K, V>(d: Dict<K, V>, k: K)
    requires Unique(d)
    ensures Unique(Pop(d, k))
  {
    if d != [] && d[0].0 != k {
      var r := Pop(d[1..], k);
      PopUnique(d[1..], k);
      forall j | 0 <= j < |r|
        ensures r[j].0 != d[0].0
      {
        assert r[j] in r;
        PopMember(d[1..], k, r[j]);
        TailKeys(d, r[j]);
      }
    }
  }

  lemma PutMembers<K, V>(d: Dict<K, V>, k: K, v: V)
    requires Unique(d)
    ensures Unique(Put(d, k, v))
    ensures forall e :: e in Put(d, k, v) <==> e == (k, v) || (e in d && e.0 != k)
  {
    PutUnique(d, k, v);
    forall e
      ensures e in Put(d, k, v) <==> e == (k, v) || (e in d && e.0 != k)
    {
      PutMember(d, k, v, e);
    }
  }

  lemma PopMembers<K, V>(d: Dict<K, V>, k: K)
    requires Unique(d)
    ensures Unique(Pop(d, k))
    ensures forall e :: e in Pop(d, k) <==> e in d && e.0 != k
  {
    PopUnique(d, k);
    forall e
      ensures e in Pop(d, k) <==> e in d && e.0 != k
    {
      PopMember(d, k, e);
    }
  }

  /** The same keys over other values. */
  function Mapped<K, V, W>(d: Dict<K, V>, f: V -> W): (r: Dict<K, W>)
    ensures |r| == |d|
  {
    if d == [] then [] else [(d[0].0, f(d[0].1))] + Mapped(d[1..], f)
  }

  lemma {:induction false} MappedPut<K, V, W>(d: Dict<K, V>, f: V -> W, k: K, v: V)
    ensures Mapped(Put(d, k, v), f) == Put(Mapped(d, f), k, f(v))
  {
    if d == [] {
      assert Mapped(Put(d, k, v)[1..], f) == [];
    } else if d[0].0 == k {
      assert Put(d, k, v)[1..] == d[1..];
    } else {
      assert Put(d, k, v)[1..] == Put(d[1..], k, v);
      MappedPut(d[1..], f, k, v);
    }
  }

  lemma {:induction false} MappedPop<K, V, W>(d: Dict<K, V>, f: V -> W, k: K)
    ensures Mapped(Pop(d, k), f) == Pop(Mapped(d, f), k)
  {
    if d != [] && d[0].0 != k {
      assert Pop(d, k)[1..] == Pop(d[1..], k);
      MappedPop(d[1..], f, k);
    }
  }

  lemma {:induction false} MappedAt<K, V, W>(d: Dict<K, V>, f: V -> W, i: nat)
    requires i < |d|
    ensures Mapped(d, f)[i] == (d[i].0, f(d[i].1))
  {
    if i > 0 { MappedAt(d[1..], f, i - 1); }
  }
}
