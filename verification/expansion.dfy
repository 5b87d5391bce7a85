/** The input side of `ParallelChain._call` (and of `LLMChain._call`): selecting
    the prompt's variables, running the input parser over list values, and
    expanding list values into one branch per combination. */
module Expansion {
  import opened Wrappers
  import opened Dicts
  import opened Values
  import opened Product
  import opened Seqs

  /** Every variable in `vars` is a key of `inputs`. */
  predicate AllPresent<K(==,!new), V>(inputs: Dict<K, V>, vars: seq<K>) {
    forall i :: 0 <= i < |vars| ==> vars[i] in Keys(inputs)
  }

  /** `{k: inputs[k] for k in input_variables}`: the comprehension stores the
      variables left to right and stops at the first one missing, whose KeyError
      carries that variable. */
  function Select<K(==,!new), V>(inputs: Dict<K, V>, vars: seq<K>): Result<Dict<K, V>, K> {
    if |vars| == 0 then Ok([])
    else
      var k := vars[|vars| - 1];
      match Select(inputs, vars[..|vars| - 1])
      case Err(e) => Err(e)
      case Ok(d) =>
        match Get(inputs, k)
        case None => Err(k)
        case Some(v) => Ok(Put(d, k, v))
  }

  /** Selection succeeds exactly when every declared variable is an input key. */
  lemma {:induction false} SelectSucceeds<K(!new), V>(inputs: Dict<K, V>, vars: seq<K>)
    ensures Select(inputs, vars).Ok? <==> AllPresent(inputs, vars)
  {
    if |vars| > 0 {
      var init := vars[..|vars| - 1];
      var k := vars[|vars| - 1];
      SelectSucceeds(inputs, init);
      AllPresentSnoc(inputs, init, k);
      LastSplit(vars);
      assert Select(inputs, vars).Ok? <==> Select(inputs, init).Ok? && Get(inputs, k).Some?;
    }
  }

  lemma AllPresentSnoc<K(!new), V>(inputs: Dict<K, V>, vars: seq<K>, k: K)
    ensures AllPresent(inputs, vars + [k]) <==> AllPresent(inputs, vars) && k in Keys(inputs)
  {
    var ext := vars + [k];
    if AllPresent(inputs, vars) && k in Keys(inputs) {
      forall i | 0 <= i < |ext|
        ensures ext[i] in Keys(inputs)
      {
        if i < |vars| {
          assert ext[i] == vars[i];
        }
      }
    }
    if AllPresent(inputs, ext) {
      assert ext[|vars|] == k;
      forall i | 0 <= i < |vars|
        ensures vars[i] in Keys(inputs)
      {
        assert ext[i] == vars[i];
      }
    }
  }

  /** A failed selection raises KeyError for the first declared variable that is missing. */
  lemma {:induction false} SelectFirstMissing<K(!new), V>(inputs: Dict<K, V>, vars: seq<K>)
    requires Select(inputs, vars).Err?
    ensures exists i :: 0 <= i < |vars| && Select(inputs, vars).error == vars[i]
                        && vars[i] !in Keys(inputs) && AllPresent(inputs, vars[..i])
  {
    var init := vars[..|vars| - 1];
    var k := vars[|vars| - 1];
    assert vars[..|init|] == init;
    if Select(inputs, init).Err? {
      SelectFirstMissing(inputs, init);
      var i :| 0 <= i < |init| && Select(inputs, init).error == init[i]
               && init[i] !in Keys(inputs) && AllPresent(inputs, init[..i]);
      assert init[..i] == vars[..i];
    } else {
      SelectSucceeds(inputs, init);
      assert AllPresent(inputs, vars[..|init|]);
    }
  }

  /** The selected dict has distinct keys, exactly the declared variables, each
      with its value from the inputs: extra input keys are dropped. */
  lemma {:induction false} SelectContents<K(!new), V>(inputs: Dict<K, V>, vars: seq<K>)
    requires Select(inputs, vars).Ok?
    ensures UniqueKeys(Select(inputs, vars).value)
    ensures forall k :: k in Keys(Select(inputs, vars).value) <==> k in vars
    ensures forall k :: k in vars ==> Get(Select(inputs, vars).value, k) == Get(inputs, k)
  {
    if |vars| > 0 {
      var init := vars[..|vars| - 1];
      var k := vars[|vars| - 1];
      LastMembers(vars);
      SelectContents(inputs, init);
      var d := Select(inputs, init).value;
      PutKeepsUniqueKeys(d, k, Get(inputs, k).value);
      assert forall k' :: k' in Keys(d) ==> Get(d, k').Some?;
    }
  }

  lemma LastMembers<K>(xs: seq<K>)
    requires |xs| > 0
    ensures forall x :: x in xs <==> x in xs[..|xs| - 1] || x == xs[|xs| - 1]
  {
    LastSplit(xs);
  }

  /** With distinct variables the selection is the variables in declared order,
      each paired with its input value. */
  lemma {:induction false} SelectInOrder<K(!new), V>(inputs: Dict<K, V>, vars: seq<K>)
    requires Select(inputs, vars).Ok? && NoDup(vars)
    ensures AllPresent(inputs, vars)
    ensures |Select(inputs, vars).value| == |vars|
    ensures forall i :: 0 <= i < |vars| ==>
      Select(inputs, vars).value[i] == (vars[i], Get(inputs, vars[i]).value)
  {
    if |vars| > 0 {
      var init := vars[..|vars| - 1];
      var k := vars[|vars| - 1];
      assert NoDup(init) by {
        forall i, j | 0 <= i < j < |init|
          ensures init[i] != init[j]
        {
          assert init[i] == vars[i] && init[j] == vars[j];
        }
      }
      SelectInOrder(inputs, init);
      SelectSucceeds(inputs, vars);
      var d := Select(inputs, init).value;
      assert k !in Keys(d) by {
        forall i | 0 <= i < |d|
          ensures d[i].0 != k
        {
          assert d[i].0 == vars[i];
        }
      }
      SelectFreshLast(inputs, vars);
    }
  }

  /** A last variable not yet selected is appended to the selection. */
  lemma SelectFreshLast<K(!new), V>(inputs: Dict<K, V>, vars: seq<K>)
    requires |vars| > 0 && Select(inputs, vars).Ok?
    requires Select(inputs, vars[..|vars| - 1]).Ok?
    requires vars[|vars| - 1] !in Keys(Select(inputs, vars[..|vars| - 1]).value)
    ensures Select(inputs, vars).value
         == Select(inputs, vars[..|vars| - 1]).value + [(vars[|vars| - 1], Get(inputs, vars[|vars| - 1]).value)]
  {
    var d := Select(inputs, vars[..|vars| - 1]).value;
    var k := vars[|vars| - 1];
    assert Select(inputs, vars).value == Put(d, k, Get(inputs, k).value);
  }

  /** `input_parser(v) if isinstance(v, list) else v`. */
  function ParseValue(v: Value, parser: seq<string> -> seq<string>): Value {
    match v
    case Scalar(_) => v
    case List(xs) => List(parser(xs))
  }

  /** The optional input-parser pass over the selected inputs: list values go
      through the parser, strings pass through, and keys keep their order. */
  function ParseInputs(selected: Kwargs, inputParser: Option<seq<string> -> seq<string>>): (r: Kwargs)
    ensures Keys(r) == Keys(selected)
    ensures forall i :: 0 <= i < |selected| && selected[i].1.Scalar? ==> r[i] == selected[i]
    ensures inputParser.None? ==> r == selected
    ensures inputParser.Some? ==> forall i :: 0 <= i < |selected| && selected[i].1.List? ==>
      r[i].1 == List(inputParser.value(selected[i].1.items))
  {
    match inputParser
    case None => selected
    case Some(parser) =>
      seq(|selected|, i requires 0 <= i < |selected| => (selected[i].0, ParseValue(selected[i].1, parser)))
  }

  /** The input parser never touches strings. */
  lemma ParseScalars(selected: Kwargs, inputParser: Option<seq<string> -> seq<string>>)
    requires forall i :: 0 <= i < |selected| ==> selected[i].1.Scalar?
    ensures ParseInputs(selected, inputParser) == selected
  {
  }

  /** `listify`: a string stands for the one-element list holding it. */
  function Listify(v: Value): seq<string> {
    match v
    case Scalar(s) => [s]
    case List(xs) => xs
  }

  /** `list_of_selected_inputs`: each value as a list, in dict order. */
  function Choices(d: Kwargs): (ls: seq<seq<string>>)
    ensures |ls| == |d|
    ensures forall i :: 0 <= i < |d| ==> ls[i] == Listify(d[i].1)
  {
    seq(|d|, i requires 0 <= i < |d| => Listify(d[i].1))
  }

  function Scalars(xs: seq<string>): (vs: seq<Value>)
    ensures |vs| == |xs|
    ensures forall i :: 0 <= i < |xs| ==> vs[i] == Scalar(xs[i])
  {
    seq(|xs|, i requires 0 <= i < |xs| => Scalar(xs[i]))
  }

  /** `{k: v for k, v in zip(keys, options)}`. */
  function MakeBranch(keys: seq<string>, option: seq<string>): Kwargs {
    FromPairs(Zip(keys, Scalars(option)))
  }

  /** `list_of_branches` as written: every tuple of the cartesian product of the
      choices, in product order, zipped with the prompt's declared variables `vars`.
      The choices come from the selected dict, which holds each variable once, so a
      declared variable listed twice shifts the zip (see `ZipBranchesDuplicate`). */
  function ZipBranches(vars: seq<string>, d: Kwargs): seq<Kwargs> {
    var options := CartesianProduct(Choices(d));
    seq(|options|, i requires 0 <= i < |options| => MakeBranch(vars, options[i]))
  }

  /** `list_of_branches` as intended: each tuple zipped with the keys of the dict
      its choices came from. It agrees with `ZipBranches` whenever the declared
      variables are distinct, since they are then the selected dict's keys. */
  function Branches(d: Kwargs): seq<Kwargs> {
    ZipBranches(Keys(d), d)
  }

  /** The expansion step of `ParallelChain._call` applied to the selected inputs. */
  function Expand(selected: Kwargs, inputParser: Option<seq<string> -> seq<string>>): seq<Kwargs> {
    Branches(ParseInputs(selected, inputParser))
  }

  /** How many branches a value contributes: 1 for a string, its length for a list. */
  function Fanout(v: Value): nat {
    match v
    case Scalar(_) => 1
    case List(xs) => |xs|
  }

  /** Product of the fan-outs of all values. */
  function FanoutProduct(d: Kwargs): nat {
    if |d| == 0 then 1 else Fanout(d[0].1) * FanoutProduct(d[1..])
  }

  lemma {:induction false} FanoutProductIsLengthProduct(d: Kwargs)
    ensures FanoutProduct(d) == LengthProduct(Choices(d))
  {
    if |d| > 0 {
      FanoutProductIsLengthProduct(d[1..]);
      assert Choices(d)[1..] == Choices(d[1..]);
    }
  }

  /** The number of branches is the product of the list lengths, a string counting as 1. */
  lemma BranchCount(d: Kwargs)
    ensures |Branches(d)| == FanoutProduct(d)
  {
    ProductLength(Choices(d));
    FanoutProductIsLengthProduct(d);
  }

  /** A single empty list anywhere means no branch at all. */
  lemma NoBranches(d: Kwargs)
    ensures |Branches(d)| == 0 <==> exists i :: 0 <= i < |d| && d[i].1 == List([])
  {
    EmptyProduct(Choices(d));
    if exists i :: 0 <= i < |d| && d[i].1 == List([]) {
      var i :| 0 <= i < |d| && d[i].1 == List([]);
      assert |Choices(d)[i]| == 0;
    }
    if exists i :: 0 <= i < |Choices(d)| && |Choices(d)[i]| == 0 {
      var i :| 0 <= i < |Choices(d)| && |Choices(d)[i]| == 0;
      assert d[i].1 == List([]);
    }
  }

  /** With distinct keys, a branch is just the keys zipped with the chosen strings. */
  lemma MakeBranchDistinct(keys: seq<string>, option: seq<string>)
    requires NoDup(keys) && |option| == |keys|
    ensures MakeBranch(keys, option) == Zip(keys, Scalars(option))
  {
    ZipKeys(keys, Scalars(option));
    FromDistinctPairs(Zip(keys, Scalars(option)));
  }

  /** A branch over the keys of `d` that sets each one, in order, to a single
      string taken from its value in `d`. */
  ghost predicate IsBranchOf(b: Kwargs, d: Kwargs) {
    |b| == |d| &&
    forall i :: 0 <= i < |b| ==> b[i].0 == d[i].0 && b[i].1.Scalar? && b[i].1.text in Listify(d[i].1)
  }

  /** Every branch maps each key, in order, to one element of its list. */
  lemma BranchesPick(d: Kwargs, j: nat)
    requires UniqueKeys(d)
    requires j < |Branches(d)|
    ensures IsBranchOf(Branches(d)[j], d)
  {
    var keys := Keys(d);
    var options := CartesianProduct(Choices(d));
    var o := options[j];
    assert o in options;
    ProductMembers(Choices(d), o);
    MakeBranchDistinct(keys, o);
    var b := Branches(d)[j];
    assert b == Zip(keys, Scalars(o));
    forall i | 0 <= i < |b|
      ensures b[i].0 == d[i].0 && b[i].1.Scalar? && b[i].1.text in Listify(d[i].1)
    {
      assert b[i] == (keys[i], Scalar(o[i]));
      assert o[i] in Choices(d)[i];
    }
  }

  /** Conversely every such choice of strings occurs as a branch. */
  lemma BranchesComplete(d: Kwargs, b: Kwargs)
    requires UniqueKeys(d)
    requires IsBranchOf(b, d)
    ensures exists j :: 0 <= j < |Branches(d)| && Branches(d)[j] == b
  {
    var keys := Keys(d);
    var option := seq(|b|, i requires 0 <= i < |b| => b[i].1.text);
    ProductMembers(Choices(d), option);
    var options := CartesianProduct(Choices(d));
    var j :| 0 <= j < |options| && options[j] == option;
    MakeBranchDistinct(keys, option);
    assert MakeBranch(keys, option) == b;
    assert Branches(d)[j] == b;
  }

  /** Branch order is lexicographic in key order: for `d = [first] + rest`, branch
      number `a * |rest branches| + c` sets the first key to its `a`-th choice and
      agrees with branch `c` of the remaining keys. */
  lemma BranchOrder(d: Kwargs, a: nat, c: nat)
    requires UniqueKeys(d) && |d| > 0
    requires a < |Listify(d[0].1)| && c < |Branches(d[1..])|
    ensures a * |Branches(d[1..])| + c < |Branches(d)|
    ensures Branches(d)[a * |Branches(d[1..])| + c]
         == [(d[0].0, Scalar(Listify(d[0].1)[a]))] + Branches(d[1..])[c]
  {
    var keys := Keys(d);
    assert Keys(d[1..]) == keys[1..];
    assert Branches(d[1..]) == ZipBranches(keys[1..], d[1..]);
    assert Branches(d) == ZipBranches(keys, d);
    ZipBranchOrder(keys, d, a, c);
  }

  lemma ZipBranchOrder(vars: seq<string>, d: Kwargs, a: nat, c: nat)
    requires Keys(d) == vars && NoDup(vars) && |d| > 0
    requires a < |Listify(d[0].1)| && c < |ZipBranches(vars[1..], d[1..])|
    ensures a * |ZipBranches(vars[1..], d[1..])| + c < |ZipBranches(vars, d)|
    ensures ZipBranches(vars, d)[a * |ZipBranches(vars[1..], d[1..])| + c]
         == [(vars[0], Scalar(Listify(d[0].1)[a]))] + ZipBranches(vars[1..], d[1..])[c]
  {
    var ls := Choices(d);
    assert ls[1..] == Choices(d[1..]);
    assert ls[0] == Listify(d[0].1);
    var rest := CartesianProduct(ls[1..]);
    assert |ZipBranches(vars[1..], d[1..])| == |rest|;
    ProductIndex(ls, a, c);
    var idx := a * |rest| + c;
    var o := rest[c];
    assert o in rest;
    ProductMembers(ls[1..], o);
    assert Keys(d[1..]) == vars[1..];
    assert NoDup(vars[1..]) by {
      forall i, j | 0 <= i < j < |vars[1..]|
        ensures vars[1..][i] != vars[1..][j]
      {
        assert vars[1..][i] == vars[i + 1] && vars[1..][j] == vars[j + 1];
      }
    }
    var x := ls[0][a];
    assert CartesianProduct(ls)[idx] == [x] + o;
    assert ZipBranches(vars, d)[idx] == MakeBranch(vars, [x] + o);
    assert ZipBranches(vars[1..], d[1..])[c] == MakeBranch(vars[1..], o);
    MakeBranchCons(vars, x, o);
  }

  lemma MakeBranchCons(keys: seq<string>, x: string, o: seq<string>)
    requires |keys| == |o| + 1 && NoDup(keys) && NoDup(keys[1..])
    ensures MakeBranch(keys, [x] + o) == [(keys[0], Scalar(x))] + MakeBranch(keys[1..], o)
  {
    MakeBranchDistinct(keys[1..], o);
    MakeBranchDistinct(keys, [x] + o);
    ZipScalarsCons(keys, x, o);
  }

  lemma ZipScalarsCons(keys: seq<string>, x: string, o: seq<string>)
    requires |keys| == |o| + 1
    ensures Zip(keys, Scalars([x] + o)) == [(keys[0], Scalar(x))] + Zip(keys[1..], Scalars(o))
  {
    var r := Zip(keys, Scalars([x] + o));
    var t := [(keys[0], Scalar(x))] + Zip(keys[1..], Scalars(o));
    assert |r| == |t|;
    forall i | 0 <= i < |r|
      ensures r[i] == t[i]
    {
      if i > 0 {
        assert ([x] + o)[i] == o[i - 1];
      }
    }
  }

  /** When every value is a string there is exactly one branch, and it is the
      dict itself. */
  lemma ScalarsGiveOneBranch(d: Kwargs)
    requires UniqueKeys(d)
    requires forall i :: 0 <= i < |d| ==> d[i].1.Scalar?
    ensures Branches(d) == [d]
  {
    var t := seq(|d|, i requires 0 <= i < |d| => d[i].1.text);
    SingletonProduct(Choices(d), t);
    MakeBranchDistinct(Keys(d), t);
    assert MakeBranch(Keys(d), t) == d;
  }

  /** Expanding string-only selected inputs, with or without an input parser,
      gives back the selection as the single branch. */
  lemma ExpandScalars(selected: Kwargs, inputParser: Option<seq<string> -> seq<string>>)
    requires UniqueKeys(selected)
    requires forall i :: 0 <= i < |selected| ==> selected[i].1.Scalar?
    ensures Expand(selected, inputParser) == [selected]
  {
    ParseScalars(selected, inputParser);
    ScalarsGiveOneBranch(selected);
  }

  /** With distinct declared variables the selection's keys are exactly those
      variables in order, so the zip as written and the intended one give the same
      branches, with or without an input parser. */
  lemma ZipBranchesDistinct(inputs: Kwargs, vars: seq<string>, inputParser: Option<seq<string> -> seq<string>>)
    requires Select(inputs, vars).Ok? && NoDup(vars)
    ensures ZipBranches(vars, ParseInputs(Select(inputs, vars).value, inputParser))
         == Expand(Select(inputs, vars).value, inputParser)
  {
    SelectInOrder(inputs, vars);
    var selected := Select(inputs, vars).value;
    assert Keys(selected) == vars by {
      forall i | 0 <= i < |vars|
        ensures Keys(selected)[i] == vars[i]
      {
        assert selected[i] == (vars[i], Get(inputs, vars[i]).value);
      }
    }
    assert Keys(ParseInputs(selected, inputParser)) == vars;
  }

  /** The zip as written, on the declared variables `["a", "a", "b"]` with both
      inputs strings: selection keeps `a` once, so the one option `("x", "y")` is
      zipped with `a, a` and the branch sets `a` to "y" and lacks `b`, whereas the
      intended branch is the selection itself. */
  lemma ZipBranchesDuplicate()
    ensures var inputs := [("a", Scalar("x")), ("b", Scalar("y"))];
      && Select(inputs, ["a", "a", "b"]) == Ok(inputs)
      && ZipBranches(["a", "a", "b"], inputs) == [[("a", Scalar("y"))]]
      && Branches(inputs) == [inputs]
  {
    var inputs := [("a", Scalar("x")), ("b", Scalar("y"))];
    SelectDuplicate(inputs);
    assert Keys(inputs) == ["a", "b"];
    ScalarsGiveOneBranch(inputs);
    ZipDuplicate(inputs);
  }

  lemma SelectDuplicate(inputs: Kwargs)
    requires inputs == [("a", Scalar("x")), ("b", Scalar("y"))]
    ensures Select(inputs, ["a", "a", "b"]) == Ok(inputs)
  {
    var one := [("a", Scalar("x"))];
    var vars := ["a", "a", "b"];
    SelectDuplicatePrefix(inputs);
    ExampleLookups(inputs);
    assert vars[..2] == ["a", "a"];
    assert Select(inputs, vars[..2]) == Ok(one);
    assert Select(inputs, vars) == Ok(Put(one, "b", Scalar("y")));
    assert IndexOf(one, "b") == None;
    assert Put(one, "b", Scalar("y")) == one + [("b", Scalar("y"))];
    assert one + [("b", Scalar("y"))] == inputs;
  }

  lemma SelectDuplicatePrefix(inputs: Kwargs)
    requires inputs == [("a", Scalar("x")), ("b", Scalar("y"))]
    ensures Select(inputs, ["a", "a"]) == Ok([("a", Scalar("x"))])
  {
    var one := [("a", Scalar("x"))];
    var vars := ["a", "a"];
    SelectFirst(inputs);
    ExampleLookups(inputs);
    assert vars[..1] == ["a"];
    assert Select(inputs, vars[..1]) == Ok(one);
    assert Select(inputs, vars) == Ok(Put(one, "a", Scalar("x")));
    assert IndexOf(one, "a") == Some(0);
    assert Put(one, "a", Scalar("x")) == one[0 := ("a", Scalar("x"))];
    assert one[0 := ("a", Scalar("x"))] == one;
  }

  lemma SelectFirst(inputs: Kwargs)
    requires inputs == [("a", Scalar("x")), ("b", Scalar("y"))]
    ensures Select(inputs, ["a"]) == Ok([("a", Scalar("x"))])
  {
    var vars := ["a"];
    var empty: Kwargs := [];
    ExampleLookups(inputs);
    assert vars[..0] == [];
    assert Select(inputs, vars[..0]) == Ok(empty);
    assert Select(inputs, vars) == Ok(Put(empty, "a", Scalar("x")));
    assert IndexOf(empty, "a") == None;
    assert Put(empty, "a", Scalar("x")) == empty + [("a", Scalar("x"))];
    assert empty + [("a", Scalar("x"))] == [("a", Scalar("x"))];
  }

  lemma ExampleLookups(inputs: Kwargs)
    requires inputs == [("a", Scalar("x")), ("b", Scalar("y"))]
    ensures Get(inputs, "a") == Some(Scalar("x")) && Get(inputs, "b") == Some(Scalar("y"))
  {
    assert IndexOf(inputs, "a") == Some(0);
    assert inputs[0].0 != "b" && inputs[1..] == [("b", Scalar("y"))];
    assert IndexOf(inputs, "b") == Some(1);
  }

  lemma ZipDuplicate(inputs: Kwargs)
    requires inputs == [("a", Scalar("x")), ("b", Scalar("y"))]
    ensures ZipBranches(["a", "a", "b"], inputs) == [[("a", Scalar("y"))]]
  {
    assert Choices(inputs) == [["x"], ["y"]];
    SingletonProduct(Choices(inputs), ["x", "y"]);
    var ps := Zip(["a", "a", "b"], Scalars(["x", "y"]));
    assert ps == [("a", Scalar("x")), ("a", Scalar("y"))];
    assert ps[..1] == [("a", Scalar("x"))];
    assert FromPairs(ps[..1]) == [("a", Scalar("x"))];
    assert MakeBranch(["a", "a", "b"], ["x", "y"]) == [("a", Scalar("y"))];
  }
}
