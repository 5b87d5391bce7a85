/** Python's `dict` as the chains use it: an insertion-ordered association list.
    Storing a key that is already present replaces its value in place; a new key
    is appended at the end, so iteration order is first-insertion order. */
module Dicts {
  import opened Wrappers
  import opened Seqs

  type Dict<K, V> = seq<(K, V)>

  /** The keys in iteration order. */
  function Keys<K, V>(d: Dict<K, V>): (ks: seq<K>)
    ensures |ks| == |d|
    ensures forall i :: 0 <= i < |d| ==> ks[i] == d[i].0
  {
    seq(|d|, i requires 0 <= i < |d| => d[i].0)
  }

  predicate NoDup<K(==)>(s: seq<K>) {
    forall i, j :: 0 <= i < j < |s| ==> s[i] != s[j]
  }

  /** Every key of a real Python dict occurs once. */
  predicate UniqueKeys<K(==,!new), V>(d: Dict<K, V>) {
    NoDup(Keys(d))
  }

  /** Position of the first entry with key `k`, if any. */
  function IndexOf<K(==,!new), V>(d: Dict<K, V>, k: K): (r: Option<nat>)
    ensures r.None? <==> k !in Keys(d)
    ensures r.Some? ==> r.value < |d| && d[r.value].0 == k
    ensures r.Some? ==> forall i :: 0 <= i < r.value ==> d[i].0 != k
  {
    if |d| == 0 then None
    else if d[0].0 == k then Some(0)
    else match IndexOf(d[1..], k)
      case None => None
      case Some(i) => Some(i + 1)
  }

  /** `d[k]`, or None where Python raises KeyError. */
  function Get<K(==,!new), V>(d: Dict<K, V>, k: K): (r: Option<V>)
    ensures r.None? <==> k !in Keys(d)
    ensures r.Some? ==> (k, r.value) in d
  {
    match IndexOf(d, k)
    case None => None
    case Some(i) => Some(d[i].1)
  }

  /** `d[k] = v`. */
  function Put<K(==,!new), V>(d: Dict<K, V>, k: K, v: V): (r: Dict<K, V>)
    ensures Get(r, k) == Some(v)
    ensures forall k' :: k' != k ==> Get(r, k') == Get(d, k')
    ensures Keys(r) == if k in Keys(d) then Keys(d) else Keys(d) + [k]
  {
    match IndexOf(d, k)
    case Some(i) =>
      var r := d[i := (k, v)];
      assert Keys(r) == Keys(d);
      assert IndexOf(r, k) == Some(i) by { IndexOfAfterUpdate(d, i, k, v, k); }
      forall k' | k' != k
        ensures Get(r, k') == Get(d, k')
      {
        IndexOfAfterUpdate(d, i, k, v, k');
      }
      r
    case None =>
      var r := d + [(k, v)];
      assert IndexOf(r, k) == Some(|d|) by { IndexOfAfterAppend(d, k, v, k); }
      forall k' | k' != k
        ensures Get(r, k') == Get(d, k')
      {
        IndexOfAfterAppend(d, k, v, k');
      }
      r
  }

  lemma {:induction false} IndexOfAfterUpdate<K(!new), V>(d: Dict<K, V>, i: nat, k: K, v: V, k': K)
    requires i < |d| && d[i].0 == k
    ensures IndexOf(d[i := (k, v)], k') == IndexOf(d, k')
  {
    var r := d[i := (k, v)];
    assert r[0].0 == d[0].0;
    if d[0].0 == k' {
      assert IndexOf(r, k') == Some(0) == IndexOf(d, k');
    } else if i == 0 {
      assert r[1..] == d[1..];
    } else {
      assert r[1..] == d[1..][i - 1 := (k, v)];
      IndexOfAfterUpdate(d[1..], i - 1, k, v, k');
    }
  }

  lemma {:induction false} IndexOfAfterAppend<K(!new), V>(d: Dict<K, V>, k: K, v: V, k': K)
    requires k !in Keys(d)
    ensures IndexOf(d + [(k, v)], k') == if k' == k then Some(|d|) else IndexOf(d, k')
  {
    if |d| > 0 {
      assert (d + [(k, v)])[1..] == d[1..] + [(k, v)];
      if d[0].0 != k' {
        IndexOfAfterAppend(d[1..], k, v, k');
      }
    }
  }

  /** Storing into a dict keeps its keys distinct. */
  lemma PutKeepsUniqueKeys<K(!new), V>(d: Dict<K, V>, k: K, v: V)
    requires UniqueKeys(d)
    ensures UniqueKeys(Put(d, k, v))
  {
    if k !in Keys(d) {
      var ks := Keys(d) + [k];
      assert Keys(Put(d, k, v)) == ks;
      forall i, j | 0 <= i < j < |ks|
        ensures ks[i] != ks[j]
      {
        if j == |ks| - 1 {
          assert ks[i] == Keys(d)[i];
        }
      }
    }
  }

  /** A dict comprehension `{k: v for k, v in ps}`: the pairs are stored left to right. */
  function FromPairs<K(==,!new), V>(ps: seq<(K, V)>): (r: Dict<K, V>)
    ensures UniqueKeys(r)
    ensures forall k :: k in Keys(r) <==> k in Keys(ps)
  {
    if |ps| == 0 then []
    else
      var init := ps[..|ps| - 1];
      var d := FromPairs(init);
      var k := ps[|ps| - 1].0;
      assert Keys(ps) == Keys(init) + [k];
      PutKeepsUniqueKeys(d, k, ps[|ps| - 1].1);
      Put(d, k, ps[|ps| - 1].1)
  }

  /** Building a dict from pairs whose keys are already distinct keeps the pairs as they are. */
  lemma {:induction false} FromDistinctPairs<K(!new), V>(ps: seq<(K, V)>)
    requires NoDup(Keys(ps))
    ensures FromPairs(ps) == ps
  {
    if |ps| > 0 {
      var init := ps[..|ps| - 1];
      var last := ps[|ps| - 1];
      assert Keys(init) == Keys(ps)[..|ps| - 1];
      assert NoDup(Keys(init));
      FromDistinctPairs(init);
      assert last.0 !in Keys(init) by {
        assert Keys(ps)[|ps| - 1] == last.0;
      }
      assert IndexOf(init, last.0).None?;
      assert FromPairs(ps) == Put(init, last.0, last.1);
      LastSplit(ps);
    }
  }

  /** Where a key first occurs is unchanged by appending a pair; the appended key,
      if new, is found at the end. */
  lemma {:induction false} IndexOfSnoc<K(!new), V>(d: Dict<K, V>, p: (K, V), x: K)
    ensures IndexOf(d + [p], x) ==
      if IndexOf(d, x).Some? then IndexOf(d, x) else if x == p.0 then Some(|d|) else None
  {
    if |d| > 0 {
      assert (d + [p])[1..] == d[1..] + [p];
      if d[0].0 != x {
        IndexOfSnoc(d[1..], p, x);
      }
    }
  }

  /** In a comprehension the last pair with a given key decides its value. */
  lemma {:induction false} FromPairsLastWins<K(!new), V>(ps: seq<(K, V)>, i: nat)
    requires i < |ps|
    requires forall j :: i < j < |ps| ==> ps[j].0 != ps[i].0
    ensures Get(FromPairs(ps), ps[i].0) == Some(ps[i].1)
  {
    var init := ps[..|ps| - 1];
    var last := ps[|ps| - 1];
    assert FromPairs(ps) == Put(FromPairs(init), last.0, last.1);
    if i < |ps| - 1 {
      assert init[i] == ps[i];
      forall j | i < j < |init|
        ensures init[j].0 != init[i].0
      {
        assert init[j] == ps[j];
      }
      FromPairsLastWins(init, i);
    }
  }

  /** The keys of `r` occur in `ps` in the same relative order. */
  predicate KeysInFirstOrder<K(==,!new), V>(ps: seq<(K, V)>, r: Dict<K, V>) {
    forall i, j :: 0 <= i < j < |r| ==>
      IndexOf(ps, r[i].0).Some? && IndexOf(ps, r[j].0).Some? &&
      IndexOf(ps, r[i].0).value < IndexOf(ps, r[j].0).value
  }

  /** A comprehension lists its keys in the order of their first occurrence among the pairs. */
  lemma {:induction false} FromPairsOrder<K(!new), V>(ps: seq<(K, V)>)
    ensures KeysInFirstOrder(ps, FromPairs(ps))
  {
    if |ps| > 0 {
      var init := ps[..|ps| - 1];
      var last := ps[|ps| - 1];
      LastSplit(ps);
      FromPairsOrder(init);
      var d := FromPairs(init);
      forall i | 0 <= i < |d|
        ensures IndexOf(init, d[i].0).Some? && IndexOf(ps, d[i].0) == IndexOf(init, d[i].0)
      {
        assert Keys(d)[i] == d[i].0;
        IndexOfSnoc(init, last, d[i].0);
      }
      assert FromPairs(ps) == Put(d, last.0, last.1);
      match IndexOf(d, last.0)
      case Some(idx) =>
        assert Put(d, last.0, last.1) == d[idx := (d[idx].0, last.1)];
        OrderSameKeys(init, ps, d, idx, last.1);
      case None =>
        assert Put(d, last.0, last.1) == d + [last];
        IndexOfSnoc(init, last, last.0);
        OrderAppend(init, ps, d, last);
    }
  }

  /** Replacing a value keeps the key order. */
  lemma OrderSameKeys<K(!new), V>(init: seq<(K, V)>, ps: seq<(K, V)>, d: Dict<K, V>, idx: nat, v: V)
    requires KeysInFirstOrder(init, d)
    requires forall i :: 0 <= i < |d| ==> IndexOf(init, d[i].0).Some? && IndexOf(ps, d[i].0) == IndexOf(init, d[i].0)
    requires idx < |d|
    ensures KeysInFirstOrder(ps, d[idx := (d[idx].0, v)])
  {
    var r := d[idx := (d[idx].0, v)];
    forall i, j | 0 <= i < j < |r|
      ensures IndexOf(ps, r[i].0).Some? && IndexOf(ps, r[j].0).Some?
      ensures IndexOf(ps, r[i].0).value < IndexOf(ps, r[j].0).value
    {
      assert r[i].0 == d[i].0 && r[j].0 == d[j].0;
    }
  }

  /** Appending a key first seen after all others keeps the key order. */
  lemma OrderAppend<K(!new), V>(init: seq<(K, V)>, ps: seq<(K, V)>, d: Dict<K, V>, p: (K, V))
    requires KeysInFirstOrder(init, d)
    requires forall i :: 0 <= i < |d| ==> IndexOf(init, d[i].0).Some? && IndexOf(ps, d[i].0) == IndexOf(init, d[i].0)
    requires IndexOf(ps, p.0) == Some(|init|)
    ensures KeysInFirstOrder(ps, d + [p])
  {
    var r := d + [p];
    forall i, j | 0 <= i < j < |r|
      ensures IndexOf(ps, r[i].0).Some? && IndexOf(ps, r[j].0).Some?
      ensures IndexOf(ps, r[i].0).value < IndexOf(ps, r[j].0).value
    {
      assert r[i] == d[i];
      if j < |d| {
        assert r[j] == d[j];
      }
    }
  }

  /** Python's `zip(ks, vs)`: pairs up to the shorter length. */
  function Zip<K, V>(ks: seq<K>, vs: seq<V>): (ps: seq<(K, V)>)
    ensures |ps| == if |ks| < |vs| then |ks| else |vs|
    ensures forall i :: 0 <= i < |ps| ==> ps[i] == (ks[i], vs[i])
  {
    if |ks| == 0 || |vs| == 0 then [] else [(ks[0], vs[0])] + Zip(ks[1..], vs[1..])
  }

  /** Zipping keys with at least as many values keeps every key, in order. */
  lemma ZipKeys<K, V>(ks: seq<K>, vs: seq<V>)
    requires |ks| <= |vs|
    ensures Keys(Zip(ks, vs)) == ks
  {
    var z := Zip(ks, vs);
    assert |Keys(z)| == |ks|;
    forall i | 0 <= i < |ks|
      ensures Keys(z)[i] == ks[i]
    {
      assert z[i] == (ks[i], vs[i]);
    }
  }

  /** With distinct keys, a key's value is found at its position. */
  lemma GetAtIndex<K(!new), V>(d: Dict<K, V>, i: nat)
    requires UniqueKeys(d) && i < |d|
    ensures Get(d, d[i].0) == Some(d[i].1)
  {
    var r := IndexOf(d, d[i].0);
    assert Keys(d)[i] == d[i].0;
  }
}
