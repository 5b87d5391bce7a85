/** `itertools.product(*lists)`: every way of picking one element from each list,
    in lexicographic order (the first list varies slowest). */
module Product {

  /** `[[x] + t for t in ts]`. */
  function PrependAll<T>(x: T, ts: seq<seq<T>>): (r: seq<seq<T>>)
    ensures |r| == |ts|
    ensures forall i :: 0 <= i < |ts| ==> r[i] == [x] + ts[i]
  {
    seq(|ts|, i requires 0 <= i < |ts| => [x] + ts[i])
  }

  /** `[[x] + t for x in xs for t in ts]`. */
  function Cross<T>(xs: seq<T>, ts: seq<seq<T>>): seq<seq<T>> {
    if |xs| == 0 then [] else PrependAll(xs[0], ts) + Cross(xs[1..], ts)
  }

  /** The cartesian product of `lists`, as `itertools.product` enumerates it. */
  function CartesianProduct<T>(lists: seq<seq<T>>): seq<seq<T>> {
    if |lists| == 0 then [[]] else Cross(lists[0], CartesianProduct(lists[1..]))
  }

  /** Product of the list lengths (1 for no lists). */
  function LengthProduct<T>(lists: seq<seq<T>>): nat {
    if |lists| == 0 then 1 else |lists[0]| * LengthProduct(lists[1..])
  }

  /** A tuple that picks, position by position, an element of each list. */
  ghost predicate Picks<T>(t: seq<T>, lists: seq<seq<T>>) {
    |t| == |lists| && forall i :: 0 <= i < |t| ==> t[i] in lists[i]
  }

  lemma {:induction false} CrossLength<T>(xs: seq<T>, ts: seq<seq<T>>)
    ensures |Cross(xs, ts)| == |xs| * |ts|
  {
    if |xs| > 0 {
      CrossLength(xs[1..], ts);
      assert |xs| * |ts| == |ts| + (|xs| - 1) * |ts|;
    }
  }

  /** The number of tuples is the product of the list lengths. */
  lemma {:induction false} ProductLength<T>(lists: seq<seq<T>>)
    ensures |CartesianProduct(lists)| == LengthProduct(lists)
  {
    if |lists| > 0 {
      ProductLength(lists[1..]);
      CrossLength(lists[0], CartesianProduct(lists[1..]));
    }
  }

  lemma {:induction false} LengthProductZero<T>(lists: seq<seq<T>>)
    ensures LengthProduct(lists) == 0 <==> exists i :: 0 <= i < |lists| && |lists[i]| == 0
  {
    if |lists| > 0 {
      LengthProductZero(lists[1..]);
      if LengthProduct(lists[1..]) == 0 {
        var i :| 0 <= i < |lists[1..]| && |lists[1..][i]| == 0;
        assert |lists[i + 1]| == 0;
      }
      if exists i :: 0 <= i < |lists| && |lists[i]| == 0 {
        var i :| 0 <= i < |lists| && |lists[i]| == 0;
        if i > 0 {
          assert |lists[1..][i - 1]| == 0;
        }
      }
    }
  }

  /** Some list is empty exactly when there are no tuples at all. */
  lemma EmptyProduct<T>(lists: seq<seq<T>>)
    ensures |CartesianProduct(lists)| == 0 <==> exists i :: 0 <= i < |lists| && |lists[i]| == 0
  {
    ProductLength(lists);
    LengthProductZero(lists);
  }

  lemma MulSucc(a: nat, n: nat)
    requires a > 0
    ensures a * n == n + (a - 1) * n
  {
  }

  /** Lexicographic order: tuple number `a * |ts| + b` of `Cross(xs, ts)` is `xs[a]` followed by `ts[b]`. */
  lemma {:induction false} CrossIndex<T>(xs: seq<T>, ts: seq<seq<T>>, a: nat, b: nat)
    requires a < |xs| && b < |ts|
    ensures a * |ts| + b < |Cross(xs, ts)|
    ensures Cross(xs, ts)[a * |ts| + b] == [xs[a]] + ts[b]
  {
    if a > 0 {
      CrossIndex(xs[1..], ts, a - 1, b);
      CrossShift(xs, ts, (a - 1) * |ts| + b);
      MulSucc(a, |ts|);
      assert xs[1..][a - 1] == xs[a];
    } else {
      CrossLength(xs, ts);
      var head := PrependAll(xs[0], ts);
      assert Cross(xs, ts) == head + Cross(xs[1..], ts);
      assert (head + Cross(xs[1..], ts))[b] == head[b];
    }
  }

  /** Past the first block of `|ts|` tuples, `Cross(xs, ts)` continues with `Cross(xs[1..], ts)`. */
  lemma CrossShift<T>(xs: seq<T>, ts: seq<seq<T>>, j: nat)
    requires |xs| > 0 && j < |Cross(xs[1..], ts)|
    ensures |ts| + j < |Cross(xs, ts)| && Cross(xs, ts)[|ts| + j] == Cross(xs[1..], ts)[j]
  {
    var head := PrependAll(xs[0], ts);
    var rest := Cross(xs[1..], ts);
    assert Cross(xs, ts) == head + rest;
    IndexPastPrefix(head, rest, j);
  }

  lemma IndexPastPrefix<T>(p: seq<T>, q: seq<T>, j: nat)
    requires j < |q|
    ensures |p| + j < |p + q| && (p + q)[|p| + j] == q[j]
  {
  }

  /** The tuples of a non-empty product, block by block: the first list's element
      `a` heads the `a`-th block of `|rest|` consecutive tuples, in which the
      remaining positions run through the product of the other lists in order. */
  lemma ProductIndex<T>(lists: seq<seq<T>>, a: nat, b: nat)
    requires |lists| > 0
    requires a < |lists[0]| && b < |CartesianProduct(lists[1..])|
    ensures a * |CartesianProduct(lists[1..])| + b < |CartesianProduct(lists)|
    ensures CartesianProduct(lists)[a * |CartesianProduct(lists[1..])| + b]
         == [lists[0][a]] + CartesianProduct(lists[1..])[b]
  {
    CrossIndex(lists[0], CartesianProduct(lists[1..]), a, b);
  }

  lemma {:induction false} CrossMembers<T>(xs: seq<T>, ts: seq<seq<T>>, t: seq<T>)
    ensures t in Cross(xs, ts) <==> |t| > 0 && t[0] in xs && t[1..] in ts
  {
    if |xs| > 0 {
      CrossMembers(xs[1..], ts, t);
      if |t| > 0 && t[1..] in ts {
        var i :| 0 <= i < |ts| && ts[i] == t[1..];
        if t[0] == xs[0] {
          assert PrependAll(xs[0], ts)[i] == t;
        }
      }
      if t in PrependAll(xs[0], ts) {
        var i :| 0 <= i < |ts| && PrependAll(xs[0], ts)[i] == t;
        assert t[1..] == ts[i];
      }
    }
  }

  /** Soundness and completeness: the tuples are exactly the ways of picking one
      element from each list. */
  lemma {:induction false} ProductMembers<T>(lists: seq<seq<T>>, t: seq<T>)
    ensures t in CartesianProduct(lists) <==> Picks(t, lists)
  {
    if |lists| == 0 {
      assert t in CartesianProduct(lists) <==> t == [];
    } else {
      CrossMembers(lists[0], CartesianProduct(lists[1..]), t);
      if |t| > 0 {
        ProductMembers(lists[1..], t[1..]);
        if Picks(t, lists) {
          assert forall i :: 0 <= i < |t[1..]| ==> t[1..][i] == t[i + 1];
        }
        if Picks(t[1..], lists[1..]) && t[0] in lists[0] {
          forall i | 0 <= i < |t|
            ensures t[i] in lists[i]
          {
            if i > 0 {
              assert t[1..][i - 1] == t[i];
            }
          }
        }
      }
    }
  }

  /** One-element lists give exactly one tuple, made of those elements. */
  lemma {:induction false} SingletonProduct<T>(lists: seq<seq<T>>, t: seq<T>)
    requires |t| == |lists|
    requires forall i :: 0 <= i < |lists| ==> lists[i] == [t[i]]
    ensures CartesianProduct(lists) == [t]
  {
    if |lists| > 0 {
      SingletonProduct(lists[1..], t[1..]);
      assert lists[0][1..] == [];
      assert Cross(lists[0], [t[1..]]) == PrependAll(t[0], [t[1..]]) + Cross(lists[0][1..], [t[1..]]);
      assert [t[0]] + t[1..] == t;
    }
  }
}
