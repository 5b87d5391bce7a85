/** Concatenating a list of lists (`itertools.chain(*xss)`, `list.extend` in a loop). */
module Seqs {

  /** Sum of the lengths of the lists in `xss`. */
  function TotalLength<T>(xss: seq<seq<T>>): nat {
    if |xss| == 0 then 0 else |xss[0]| + TotalLength(xss[1..])
  }

  /** The lists of `xss` one after another. */
  function Flatten<T>(xss: seq<seq<T>>): (r: seq<T>)
    ensures |r| == TotalLength(xss)
  {
    if |xss| == 0 then [] else xss[0] + Flatten(xss[1..])
  }

  /** Flattening distributes over concatenation, so no list is reordered. */
  lemma {:induction false} FlattenAppend<T>(a: seq<seq<T>>, b: seq<seq<T>>)
    ensures Flatten(a + b) == Flatten(a) + Flatten(b)
  {
    if |a| > 0 {
      assert (a + b)[1..] == a[1..] + b;
      FlattenAppend(a[1..], b);
    } else {
      assert a + b == b;
    }
  }

  /** A non-empty sequence is its prefix followed by its last element. */
  lemma LastSplit<T>(s: seq<T>)
    requires |s| > 0
    ensures s == s[..|s| - 1] + [s[|s| - 1]]
  {
  }
}
