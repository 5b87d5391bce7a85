/** `sep.join(xs)` and the facts the prompt builders rely on. */
module Strings {
  import opened Seqs

  /** Python's `sep.join(xs)`: the strings of `xs` with `sep` between neighbours. */
  function Join(sep: string, xs: seq<string>): (r: string)
    ensures |xs| == 0 ==> r == ""
    ensures |xs| > 0 ==> |xs[0]| <= |r| && r[..|xs[0]|] == xs[0]
  {
    if |xs| == 0 then ""
    else if |xs| == 1 then xs[0]
    else xs[0] + sep + Join(sep, xs[1..])
  }

  /** The joined string has the pieces' total length plus one separator per gap. */
  lemma {:induction false} JoinLength(sep: string, xs: seq<string>)
    requires |xs| > 0
    ensures |Join(sep, xs)| == TotalLength(xs) + (|xs| - 1) * |sep|
  {
    if |xs| > 1 {
      JoinLength(sep, xs[1..]);
      assert (|xs| - 1) * |sep| == (|xs| - 2) * |sep| + |sep|;
    }
  }

  /** Joining a concatenation puts exactly one separator at the seam. */
  lemma {:induction false} JoinAppend(sep: string, a: seq<string>, b: seq<string>)
    requires |a| > 0 && |b| > 0
    ensures Join(sep, a + b) == Join(sep, a) + sep + Join(sep, b)
  {
    if |a| == 1 {
      assert (a + b)[1..] == b;
    } else {
      assert (a + b)[1..] == a[1..] + b;
      JoinAppend(sep, a[1..], b);
    }
  }

  /** Where the `i`-th string starts inside `Join(sep, xs)`. */
  function Offset(sep: string, xs: seq<string>, i: nat): nat
    requires i <= |xs|
  {
    if i == 0 then 0 else Offset(sep, xs, i - 1) + |xs[i - 1]| + |sep|
  }

  /** Each string appears at its offset, followed by a separator unless it is the last:
      an independent, position-by-position description of `Join`. */
  lemma {:induction false} JoinLayout(sep: string, xs: seq<string>, i: nat)
    requires i < |xs|
    ensures Offset(sep, xs, i) + |xs[i]| <= |Join(sep, xs)|
    ensures Join(sep, xs)[Offset(sep, xs, i) .. Offset(sep, xs, i) + |xs[i]|] == xs[i]
    ensures i + 1 < |xs| ==>
      Offset(sep, xs, i) + |xs[i]| + |sep| <= |Join(sep, xs)| &&
      Join(sep, xs)[Offset(sep, xs, i) + |xs[i]| .. Offset(sep, xs, i) + |xs[i]| + |sep|] == sep
  {
    if i == 0 {
      JoinLayoutHead(sep, xs);
    } else {
      JoinLayout(sep, xs[1..], i - 1);
      JoinLayoutStep(sep, xs, i);
    }
  }

  /** The inductive step of `JoinLayout`: the layout of the tail, shifted past the
      first piece and its separator. */
  lemma JoinLayoutStep(sep: string, xs: seq<string>, i: nat)
    requires 0 < i < |xs|
    requires var t := xs[1..]; var o := Offset(sep, t, i - 1);
      o + |t[i - 1]| <= |Join(sep, t)| && Join(sep, t)[o .. o + |t[i - 1]|] == t[i - 1]
    requires var t := xs[1..]; var o := Offset(sep, t, i - 1);
      i < |t| ==> o + |t[i - 1]| + |sep| <= |Join(sep, t)| && Join(sep, t)[o + |t[i - 1]| .. o + |t[i - 1]| + |sep|] == sep
    ensures Offset(sep, xs, i) + |xs[i]| <= |Join(sep, xs)|
    ensures Join(sep, xs)[Offset(sep, xs, i) .. Offset(sep, xs, i) + |xs[i]|] == xs[i]
    ensures i + 1 < |xs| ==>
      Offset(sep, xs, i) + |xs[i]| + |sep| <= |Join(sep, xs)| &&
      Join(sep, xs)[Offset(sep, xs, i) + |xs[i]| .. Offset(sep, xs, i) + |xs[i]| + |sep|] == sep
  {
    var tail := xs[1..];
    OffsetShift(sep, xs, i);
    var head := xs[0] + sep;
    var jt := Join(sep, tail);
    JoinCons(sep, xs);
    var off := Offset(sep, xs, i);
    var o := Offset(sep, tail, i - 1);
    assert tail[i - 1] == xs[i];
    ShiftedSlice(head, jt, Join(sep, xs), off, o, xs[i]);
    if i + 1 < |xs| {
      ShiftedSlice(head, jt, Join(sep, xs), off + |xs[i]|, o + |xs[i]|, sep);
    }
  }

  lemma JoinCons(sep: string, xs: seq<string>)
    requires |xs| > 1
    ensures Join(sep, xs) == (xs[0] + sep) + Join(sep, xs[1..])
  {
  }

  lemma JoinLayoutHead(sep: string, xs: seq<string>)
    requires 0 < |xs|
    ensures Join(sep, xs)[..|xs[0]|] == xs[0]
    ensures 1 < |xs| ==> |xs[0]| + |sep| <= |Join(sep, xs)| && Join(sep, xs)[|xs[0]| .. |xs[0]| + |sep|] == sep
  {
    if |xs| > 1 {
      var rest := Join(sep, xs[1..]);
      assert Join(sep, xs) == xs[0] + sep + rest;
      assert (xs[0] + sep + rest)[|xs[0]| .. |xs[0]| + |sep|] == sep;
    }
  }

  /** A piece found at position `lo` of `q` is found at `|p| + lo` of `r == p + q`. */
  lemma ShiftedSlice(p: string, q: string, r: string, off: nat, lo: nat, w: string)
    requires r == p + q && off == |p| + lo
    requires lo + |w| <= |q| && q[lo .. lo + |w|] == w
    ensures off + |w| <= |r| && r[off .. off + |w|] == w
  {
    assert r[off .. off + |w|] == q[lo .. lo + |w|];
  }

  lemma {:induction false} OffsetShift(sep: string, xs: seq<string>, i: nat)
    requires 0 < i <= |xs|
    ensures Offset(sep, xs, i) == |xs[0]| + |sep| + Offset(sep, xs[1..], i - 1)
  {
    if i > 1 {
      OffsetShift(sep, xs, i - 1);
    }
  }
}
