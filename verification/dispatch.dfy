/** The dispatch half of `ParallelChain._call`: one backend call per branch,
    the per-branch results concatenated in branch order, and the optional
    output-parser pass. The thread pool is modelled as the ordered map that
    `executor.map` presents to its caller. */
module Dispatch {
  import opened Wrappers
  import opened Values
  import opened Seqs

  /** One backend call: the formatted prompt and the keyword options passed with it
      (`n` is None when the caller passes no `n` or passes `n=None`, `stop` is None
      when it passes no `stop`). */
  datatype Request = Request(prompt: string, n: Option<int>, stop: Option<Value>)

  /** What a chain call did: the backend requests it issued and what it returned or raised. */
  datatype Run<T> = Run(requests: seq<Request>, outcome: Result<T, Error>)

  /** The chain prompt's `format(**kwargs)`. */
  type PromptFormat = Kwargs -> Result<string, Error>

  /** The backend called with options, returning the list of completions. */
  type Generate = Request -> seq<string>

  /** `self.n or n`: the chain's own `n` unless it is None or 0. */
  function EffectiveN(chainN: Option<int>, callN: Option<int>): Option<int> {
    if chainN.Some? && chainN.value != 0 then chainN else callN
  }

  /** Every branch formats without raising. */
  predicate AllFormat(branches: seq<Kwargs>, format: PromptFormat) {
    forall i :: 0 <= i < |branches| ==> format(branches[i]).Ok?
  }

  /** `branch_call` mapped over the branches and the results chained together. The
      requests list, in branch order, a call for every branch whose prompt formats,
      all with the same `n` and `stop`; the caller sees the first failure in branch
      order, or else all completions concatenated in branch order. After a failure
      the pool cancels the calls still queued, so past the first failing branch the
      requests are the calls that may be made, not the ones that must be
      (`DispatchFailurePrefix` gives the ones that must). */
  function DispatchBranches(branches: seq<Kwargs>, format: PromptFormat, generate: Generate,
                            n: Option<int>, stop: Option<Value>): Run<seq<string>>
  {
    if |branches| == 0 then Run([], Ok([]))
    else
      var rest := DispatchBranches(branches[1..], format, generate, n, stop);
      match format(branches[0])
      case Err(e) => Run(rest.requests, Err(e))
      case Ok(prompt) =>
        var request := Request(prompt, n, stop);
        var outcome := match rest.outcome
          case Err(e) => Err(e)
          case Ok(more) => Ok(generate(request) + more);
        Run([request] + rest.requests, outcome)
  }

  /** A single branch is one call on its prompt, or its formatting error and no call. */
  lemma DispatchSingle(b: Kwargs, format: PromptFormat, generate: Generate, n: Option<int>, stop: Option<Value>)
    ensures format(b).Err? ==> DispatchBranches([b], format, generate, n, stop) == Run([], Err(format(b).error))
    ensures format(b).Ok? ==>
      (DispatchBranches([b], format, generate, n, stop)
         == Run([Request(format(b).value, n, stop)], Ok(generate(Request(format(b).value, n, stop)))))
  {
    assert [b][1..] == [];
    if format(b).Ok? {
      var request := Request(format(b).value, n, stop);
      assert generate(request) + [] == generate(request);
    }
  }

  /** The completions of each request, in request order. */
  function Responses(requests: seq<Request>, generate: Generate): (rs: seq<seq<string>>)
    ensures |rs| == |requests|
    ensures forall i :: 0 <= i < |requests| ==> rs[i] == generate(requests[i])
  {
    seq(|requests|, i requires 0 <= i < |requests| => generate(requests[i]))
  }

  /** Every backend call carries the shared `n` and `stop`; there is at most one call
      per branch, exactly one (with that branch's prompt, in branch order) when every
      branch formats, and none at all when there are no branches. */
  lemma {:induction false} DispatchRequests(branches: seq<Kwargs>, format: PromptFormat, generate: Generate,
                                            n: Option<int>, stop: Option<Value>)
    ensures var run := DispatchBranches(branches, format, generate, n, stop);
      && |run.requests| <= |branches|
      && (forall i :: 0 <= i < |run.requests| ==> run.requests[i].n == n && run.requests[i].stop == stop)
      && (AllFormat(branches, format) ==>
            |run.requests| == |branches| &&
            forall i :: 0 <= i < |branches| ==> run.requests[i] == Request(format(branches[i]).value, n, stop))
      && (|branches| == 0 ==> run.requests == [])
  {
    if |branches| > 0 {
      DispatchRequests(branches[1..], format, generate, n, stop);
      if AllFormat(branches, format) {
        assert AllFormat(branches[1..], format) by {
          forall i | 0 <= i < |branches[1..]|
            ensures format(branches[1..][i]).Ok?
          {
            assert branches[1..][i] == branches[i + 1];
          }
        }
        assert format(branches[0]).Ok?;
        var rest := DispatchBranches(branches[1..], format, generate, n, stop);
        var run := DispatchBranches(branches, format, generate, n, stop);
        assert run.requests == [Request(format(branches[0]).value, n, stop)] + rest.requests;
        forall i | 0 <= i < |branches|
          ensures run.requests[i] == Request(format(branches[i]).value, n, stop)
        {
          if i > 0 {
            assert run.requests[i] == rest.requests[i - 1];
            assert branches[1..][i - 1] == branches[i];
          }
        }
      }
    }
  }

  /** The call succeeds exactly when every branch formats; it then returns the
      concatenation of every request's completions in branch order, otherwise the
      error of the first branch that fails. */
  lemma {:induction false} DispatchOutcome(branches: seq<Kwargs>, format: PromptFormat, generate: Generate,
                                           n: Option<int>, stop: Option<Value>)
    ensures var run := DispatchBranches(branches, format, generate, n, stop);
      && (run.outcome.Ok? <==> AllFormat(branches, format))
      && (run.outcome.Ok? ==> run.outcome.value == Flatten(Responses(run.requests, generate)))
      && (run.outcome.Err? ==>
            exists i :: 0 <= i < |branches| && format(branches[i]).Err?
                        && run.outcome.error == format(branches[i]).error
                        && AllFormat(branches[..i], format))
  {
    if |branches| > 0 {
      var rest := DispatchBranches(branches[1..], format, generate, n, stop);
      var run := DispatchBranches(branches, format, generate, n, stop);
      DispatchOutcome(branches[1..], format, generate, n, stop);
      assert AllFormat(branches, format) <==> format(branches[0]).Ok? && AllFormat(branches[1..], format) by {
        if format(branches[0]).Ok? && AllFormat(branches[1..], format) {
          forall i | 0 <= i < |branches|
            ensures format(branches[i]).Ok?
          {
            if i > 0 {
              assert branches[1..][i - 1] == branches[i];
            }
          }
        }
        if AllFormat(branches, format) {
          forall i | 0 <= i < |branches[1..]|
            ensures format(branches[1..][i]).Ok?
          {
            assert branches[1..][i] == branches[i + 1];
          }
        }
      }
      if format(branches[0]).Err? {
        assert run.outcome.error == format(branches[0]).error;
        assert AllFormat(branches[..0], format);
      } else {
        var request := Request(format(branches[0]).value, n, stop);
        assert run.requests == [request] + rest.requests;
        assert Responses(run.requests, generate) == [generate(request)] + Responses(rest.requests, generate);
        if rest.outcome.Err? {
          var i :| 0 <= i < |branches[1..]| && format(branches[1..][i]).Err?
                   && rest.outcome.error == format(branches[1..][i]).error
                   && AllFormat(branches[1..][..i], format);
          assert branches[1..][i] == branches[i + 1];
          var pre := branches[..i + 1];
          assert AllFormat(pre, format) by {
            forall j | 0 <= j < |pre|
              ensures format(pre[j]).Ok?
            {
              if j > 0 {
                assert pre[j] == branches[1..][..i][j - 1];
              }
            }
          }
        }
      }
    }
  }

  /** A failed dispatch: the result iterator waits on the branches in order, so every
      branch before the first failing one has made its call; those calls are the
      first requests, and at most one further request follows per later branch. */
  lemma DispatchFailurePrefix(branches: seq<Kwargs>, format: PromptFormat, generate: Generate,
                              n: Option<int>, stop: Option<Value>)
    requires DispatchBranches(branches, format, generate, n, stop).outcome.Err?
    ensures var run := DispatchBranches(branches, format, generate, n, stop);
      exists i :: 0 <= i < |branches| && format(branches[i]).Err?
        && run.outcome.error == format(branches[i]).error
        && i <= |run.requests| <= |branches| - 1
        && forall j :: 0 <= j < i ==>
             format(branches[j]).Ok? && run.requests[j] == Request(format(branches[j]).value, n, stop)
  {
    var run := DispatchBranches(branches, format, generate, n, stop);
    DispatchOutcome(branches, format, generate, n, stop);
    var i :| 0 <= i < |branches| && format(branches[i]).Err?
             && run.outcome.error == format(branches[i]).error
             && AllFormat(branches[..i], format);
    DispatchUpTo(branches, i, format, generate, n, stop);
  }

  lemma DispatchUpTo(branches: seq<Kwargs>, i: nat, format: PromptFormat, generate: Generate,
                     n: Option<int>, stop: Option<Value>)
    requires i < |branches| && format(branches[i]).Err? && AllFormat(branches[..i], format)
    ensures var run := DispatchBranches(branches, format, generate, n, stop);
      && i <= |run.requests| <= |branches| - 1
      && forall j :: 0 <= j < i ==>
           format(branches[j]).Ok? && run.requests[j] == Request(format(branches[j]).value, n, stop)
  {
    var run := DispatchBranches(branches, format, generate, n, stop);
    var pre := branches[..i];
    var post := branches[i..];
    assert pre + post == branches;
    DispatchAppendRequests(pre, post, format, generate, n, stop);
    DispatchRequests(pre, format, generate, n, stop);
    DispatchRequests(post[1..], format, generate, n, stop);
    assert post[0] == branches[i];
    assert DispatchBranches(post, format, generate, n, stop).requests
        == DispatchBranches(post[1..], format, generate, n, stop).requests;
    forall j | 0 <= j < i
      ensures format(branches[j]).Ok? && run.requests[j] == Request(format(branches[j]).value, n, stop)
    {
      assert pre[j] == branches[j];
    }
  }

  /** `executor.map` keeps branch order: dispatching two runs of branches back to
      back issues the first run's requests, then the second's. */
  lemma {:induction false} DispatchAppendRequests(a: seq<Kwargs>, b: seq<Kwargs>, format: PromptFormat, generate: Generate,
                                                  n: Option<int>, stop: Option<Value>)
    ensures DispatchBranches(a + b, format, generate, n, stop).requests
         == DispatchBranches(a, format, generate, n, stop).requests + DispatchBranches(b, format, generate, n, stop).requests
  {
    if |a| == 0 {
      assert a + b == b;
    } else {
      assert (a + b)[1..] == a[1..] + b;
      assert (a + b)[0] == a[0];
      DispatchAppendRequests(a[1..], b, format, generate, n, stop);
    }
  }

  /** ... and reports the first run's failure, else the second's, else their
      completions concatenated in that order. */
  lemma {:induction false} DispatchAppend(a: seq<Kwargs>, b: seq<Kwargs>, format: PromptFormat, generate: Generate,
                                          n: Option<int>, stop: Option<Value>)
    ensures var ra := DispatchBranches(a, format, generate, n, stop);
            var rb := DispatchBranches(b, format, generate, n, stop);
            var rab := DispatchBranches(a + b, format, generate, n, stop);
      && (rab.outcome.Ok? <==> ra.outcome.Ok? && rb.outcome.Ok?)
      && (rab.outcome.Ok? ==> rab.outcome.value == ra.outcome.value + rb.outcome.value)
      && (ra.outcome.Err? ==> rab.outcome == ra.outcome)
      && (ra.outcome.Ok? && rb.outcome.Err? ==> rab.outcome == rb.outcome)
  {
    if |a| == 0 {
      assert a + b == b;
    } else {
      assert (a + b)[1..] == a[1..] + b;
      assert (a + b)[0] == a[0];
      DispatchAppend(a[1..], b, format, generate, n, stop);
      var ra := DispatchBranches(a, format, generate, n, stop);
      var rab := DispatchBranches(a + b, format, generate, n, stop);
      var restA := DispatchBranches(a[1..], format, generate, n, stop);
      var restAB := DispatchBranches(a[1..] + b, format, generate, n, stop);
      var rb := DispatchBranches(b, format, generate, n, stop);
      if format(a[0]).Err? {
        assert ra.outcome == Err(format(a[0]).error);
        assert rab.outcome == Err(format(a[0]).error);
      } else {
        var g := generate(Request(format(a[0]).value, n, stop));
        if restA.outcome.Err? {
          assert restAB.outcome == restA.outcome;
          assert ra.outcome == Err(restA.outcome.error);
          assert rab.outcome == Err(restA.outcome.error);
        } else if rb.outcome.Err? {
          assert restAB.outcome == rb.outcome;
          assert ra.outcome == Ok(g + restA.outcome.value);
          assert rab.outcome == rb.outcome;
        } else {
          assert restAB.outcome == Ok(restA.outcome.value + rb.outcome.value);
          assert ra.outcome == Ok(g + restA.outcome.value);
          assert rab.outcome == Ok(g + (restA.outcome.value + rb.outcome.value));
          assert g + (restA.outcome.value + rb.outcome.value) == (g + restA.outcome.value) + rb.outcome.value;
        }
      }
    }
  }

  /** An output parser's result as a list: a non-list is wrapped as a singleton. */
  function Normalize(p: Parsed): seq<string> {
    match p
    case Single(s) => [s]
    case Many(xs) => xs
  }

  /** The optional output-parser pass: each response is parsed and the parser
      outputs are concatenated in response order. */
  function PostProcess(responses: seq<string>, outputParser: Option<string -> Parsed>): seq<string> {
    match outputParser
    case None => responses
    case Some(parse) => ParseEach(responses, parse)
  }

  /** `for r in responses: parsed_responses.extend(normalised parse(r))`. */
  function ParseEach(responses: seq<string>, parse: string -> Parsed): seq<string> {
    if |responses| == 0 then [] else Normalize(parse(responses[0])) + ParseEach(responses[1..], parse)
  }

  /** The parser's lists, one per response, in response order. */
  function ParsedLists(responses: seq<string>, parse: string -> Parsed): (ls: seq<seq<string>>)
    ensures |ls| == |responses|
    ensures forall i :: 0 <= i < |responses| ==> ls[i] == Normalize(parse(responses[i]))
  {
    seq(|responses|, i requires 0 <= i < |responses| => Normalize(parse(responses[i])))
  }

  /** Parsing is the in-order concatenation of the per-response lists, so its length
      is the sum of their lengths. */
  lemma {:induction false} ParseEachIsFlatten(responses: seq<string>, parse: string -> Parsed)
    ensures ParseEach(responses, parse) == Flatten(ParsedLists(responses, parse))
    ensures |ParseEach(responses, parse)| == TotalLength(ParsedLists(responses, parse))
  {
    if |responses| > 0 {
      ParseEachIsFlatten(responses[1..], parse);
      assert ParsedLists(responses, parse)[1..] == ParsedLists(responses[1..], parse);
    }
  }

  /** Parsing two batches of responses gives the two parsed batches, in order. */
  lemma {:induction false} PostProcessAppend(a: seq<string>, b: seq<string>, outputParser: Option<string -> Parsed>)
    ensures PostProcess(a + b, outputParser) == PostProcess(a, outputParser) + PostProcess(b, outputParser)
  {
    if outputParser.Some? {
      if |a| == 0 {
        assert a + b == b;
      } else {
        assert (a + b)[1..] == a[1..] + b;
        PostProcessAppend(a[1..], b, outputParser);
      }
    }
  }

  /** A parser that never returns a list is applied response by response. */
  lemma {:induction false} PostProcessSingles(responses: seq<string>, parse: string -> Parsed)
    requires forall i :: 0 <= i < |responses| ==> parse(responses[i]).Single?
    ensures |PostProcess(responses, Some(parse))| == |responses|
    ensures forall i :: 0 <= i < |responses| ==> PostProcess(responses, Some(parse))[i] == parse(responses[i]).text
  {
    if |responses| > 0 {
      PostProcessSingles(responses[1..], parse);
      var r := PostProcess(responses, Some(parse));
      assert r == [parse(responses[0]).text] + PostProcess(responses[1..], Some(parse));
      forall i | 0 <= i < |responses|
        ensures r[i] == parse(responses[i]).text
      {
        if i > 0 {
          assert responses[1..][i - 1] == responses[i];
        }
      }
    }
  }

  /** A parser that maps "A,B" to the list "A", "B" and every other response to
      itself turns the responses "A,B" and "C" into "A", "B", "C". */
  lemma PostProcessSplitExample()
    ensures PostProcess(["A,B", "C"], Some((r: string) => if r == "A,B" then Many(["A", "B"]) else Single(r)))
         == ["A", "B", "C"]
  {
    var parse := (r: string) => if r == "A,B" then Many(["A", "B"]) else Single(r);
    assert ["A,B", "C"][1..] == ["C"];
    assert parse("C") == Single("C");
  }
}
