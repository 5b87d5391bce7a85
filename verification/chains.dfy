/** `LLMChain` and `ParallelChain` from langchain/chains/llm.py. A chain call is
    modelled as a `Run`: the backend requests it issued, and the output record it
    returned or the error it raised. */
module Chains {
  import opened Wrappers
  import opened Dicts
  import opened Values
  import opened Seqs
  import opened Expansion
  import opened Dispatch

  const DefaultOutputKey: string := "text"
  /** The default of `ParallelChain._call`'s `n` argument. */
  const DefaultCallN: Option<int> := Some(1)
  /** The input key whose value, when present, is forwarded as the backend's `stop`. */
  const StopKey: string := "stop"
  /** What `ThreadPoolExecutor(max_workers)` raises for a pool size of 0 or less. */
  const PoolSizeMessage: string := "max_workers must be greater than 0"

  /** The prompt object a chain holds: its declared variables, its `format`, and the
      `output_parser` that `predict_and_parse` applies. */
  datatype ChainPrompt = ChainPrompt(inputVariables: seq<string>, format: PromptFormat, outputParser: Option<string -> Parsed>)

  /** The language model: called without `n` it returns one completion (`LLMChain`),
      called with `n` it returns a list of completions (`ParallelChain`). */
  datatype Llm = Llm(complete: Request -> string, generate: Generate)

  datatype LlmChain = LlmChain(prompt: ChainPrompt, llm: Llm, outputKey: string)

  /** A `ParallelChain`; `maxBranchingFactor` sizes the thread pool. Only its
      refusal of a size of 0 or less is modelled; the pool's scheduling is not
      (see `Dispatch.DispatchBranches`). */
  datatype ParallelChain = ParallelChain(
    chain: LlmChain,
    inputParser: Option<seq<string> -> seq<string>>,
    outputParser: Option<string -> Parsed>,
    n: Option<int>,
    maxBranchingFactor: int)

  /** A chain as configured with the defaults. */
  function NewLlmChain(prompt: ChainPrompt, llm: Llm): LlmChain {
    LlmChain(prompt, llm, DefaultOutputKey)
  }

  /** `kwargs["stop"] = inputs["stop"]` only when the key is present. */
  function StopOption(inputs: Kwargs): (stop: Option<Value>)
    ensures stop.Some? <==> StopKey in Keys(inputs)
    ensures stop.Some? ==> (StopKey, stop.value) in inputs
  {
    Get(inputs, StopKey)
  }

  /** The selected inputs of a selection that succeeds. */
  function Selected(inputs: Kwargs, vars: seq<string>): Kwargs
    requires AllPresent(inputs, vars)
  {
    SelectSucceeds(inputs, vars);
    Select(inputs, vars).value
  }

  /** `LLMChain._call`: select the declared variables, format, call the model once
      (passing `stop` only when present), and wrap the completion under the output key. */
  function LlmCall(chain: LlmChain, inputs: Kwargs): (run: Run<Kwargs>)
    ensures !AllPresent(inputs, chain.prompt.inputVariables) ==>
      run.requests == [] &&
      exists i :: 0 <= i < |chain.prompt.inputVariables| &&
        run.outcome == Err(KeyError(chain.prompt.inputVariables[i])) &&
        chain.prompt.inputVariables[i] !in Keys(inputs) &&
        AllPresent(inputs, chain.prompt.inputVariables[..i])
    ensures |run.requests| <= 1
    ensures forall i :: 0 <= i < |run.requests| ==>
      run.requests[i].n.None? && run.requests[i].stop == StopOption(inputs)
    ensures |run.requests| == 1 ==>
      AllPresent(inputs, chain.prompt.inputVariables) &&
      chain.prompt.format(Selected(inputs, chain.prompt.inputVariables)) == Ok(run.requests[0].prompt)
    ensures run.outcome.Ok? ==>
      |run.requests| == 1 &&
      run.outcome.value == [(chain.outputKey, Scalar(chain.llm.complete(run.requests[0])))]
    ensures AllPresent(inputs, chain.prompt.inputVariables) ==>
      var formatted := chain.prompt.format(Selected(inputs, chain.prompt.inputVariables));
      && (formatted.Err? ==> run == Run([], Err(formatted.error)))
      && (formatted.Ok? ==>
            var request := Request(formatted.value, None, StopOption(inputs));
            run == Run([request], Ok([(chain.outputKey, Scalar(chain.llm.complete(request)))])))
  {
    var vars := chain.prompt.inputVariables;
    SelectSucceeds(inputs, vars);
    match Select(inputs, vars)
    case Err(k) =>
      SelectFirstMissing(inputs, vars);
      Run([], Err(KeyError(k)))
    case Ok(selected) =>
      match chain.prompt.format(selected)
      case Err(e) => Run([], Err(e))
      case Ok(prompt) =>
        var request := Request(prompt, None, StopOption(inputs));
        Run([request], Ok([(chain.outputKey, Scalar(chain.llm.complete(request)))]))
  }

  /** `LLMChain.predict`: the completion stored under the output key. */
  function Predict(chain: LlmChain, kwargs: Kwargs): (run: Run<string>)
    ensures run.requests == LlmCall(chain, kwargs).requests
    ensures run.outcome.Err? <==> LlmCall(chain, kwargs).outcome.Err?
    ensures run.outcome.Err? ==> run.outcome.error == LlmCall(chain, kwargs).outcome.error
    ensures run.outcome.Ok? ==> |run.requests| == 1 && run.outcome.value == chain.llm.complete(run.requests[0])
  {
    var call := LlmCall(chain, kwargs);
    match call.outcome
    case Err(e) => Run(call.requests, Err(e))
    case Ok(record) =>
      assert Get(record, chain.outputKey) == Some(record[0].1);
      Run(call.requests, Ok(Get(record, chain.outputKey).value.text))
  }

  /** `LLMChain.predict_and_parse`: the prompt's output parser applied to the
      completion, or the completion itself when the prompt has no parser. */
  function PredictAndParse(chain: LlmChain, kwargs: Kwargs): (run: Run<Parsed>)
    ensures run.requests == Predict(chain, kwargs).requests
    ensures run.outcome.Err? <==> Predict(chain, kwargs).outcome.Err?
    ensures run.outcome.Err? ==> run.outcome.error == Predict(chain, kwargs).outcome.error
    ensures run.outcome.Ok? && chain.prompt.outputParser.None? ==>
      run.outcome.value == Single(Predict(chain, kwargs).outcome.value)
    ensures run.outcome.Ok? && chain.prompt.outputParser.Some? ==>
      run.outcome.value == chain.prompt.outputParser.value(Predict(chain, kwargs).outcome.value)
  {
    var predicted := Predict(chain, kwargs);
    match predicted.outcome
    case Err(e) => Run(predicted.requests, Err(e))
    case Ok(text) =>
      match chain.prompt.outputParser
      case None => Run(predicted.requests, Ok(Single(text)))
      case Some(parse) => Run(predicted.requests, Ok(parse(text)))
  }

  /** `ParallelChain._call(inputs, n=1)`: select, parse list inputs, expand into
      branches (zipped with the selection's keys, see `Expansion.Branches`),
      dispatch every branch with the shared options, chain the results and run
      the output parser. Creating the thread pool, after expansion and before any
      backend call, raises ValueError when the pool size is 0 or less. */
  function ParallelCall(pc: ParallelChain, inputs: Kwargs, callN: Option<int> := DefaultCallN): Run<Kwargs> {
    var vars := pc.chain.prompt.inputVariables;
    match Select(inputs, vars)
    case Err(k) => Run([], Err(KeyError(k)))
    case Ok(selected) =>
      var branches := Expand(selected, pc.inputParser);
      if pc.maxBranchingFactor <= 0 then Run([], Err(ValueError(PoolSizeMessage)))
      else Collect(pc, DispatchBranches(branches, pc.chain.prompt.format, pc.chain.llm.generate,
                                        EffectiveN(pc.n, callN), StopOption(inputs)))
  }

  /** `ParallelChain._call` as written: each product tuple is zipped with the
      declared variables rather than with the selection's keys. */
  function ParallelCallAsWritten(pc: ParallelChain, inputs: Kwargs, callN: Option<int> := DefaultCallN): Run<Kwargs> {
    var vars := pc.chain.prompt.inputVariables;
    match Select(inputs, vars)
    case Err(k) => Run([], Err(KeyError(k)))
    case Ok(selected) =>
      var branches := ZipBranches(vars, ParseInputs(selected, pc.inputParser));
      if pc.maxBranchingFactor <= 0 then Run([], Err(ValueError(PoolSizeMessage)))
      else Collect(pc, DispatchBranches(branches, pc.chain.prompt.format, pc.chain.llm.generate,
                                        EffectiveN(pc.n, callN), StopOption(inputs)))
  }

  /** With distinct declared variables the call as written is the modelled call, so
      every lemma about `ParallelCall` holds of it. */
  lemma ParallelCallAsWrittenAgrees(pc: ParallelChain, inputs: Kwargs, callN: Option<int>)
    requires NoDup(pc.chain.prompt.inputVariables)
    ensures ParallelCallAsWritten(pc, inputs, callN) == ParallelCall(pc, inputs, callN)
  {
    if Select(inputs, pc.chain.prompt.inputVariables).Ok? {
      ZipBranchesDistinct(inputs, pc.chain.prompt.inputVariables, pc.inputParser);
    }
  }

  /** `{self.output_key: responses}` after the output parser, once every branch returned. */
  function Collect(pc: ParallelChain, run: Run<seq<string>>): Run<Kwargs> {
    match run.outcome
    case Err(e) => Run(run.requests, Err(e))
    case Ok(responses) => Run(run.requests, Ok([(pc.chain.outputKey, List(PostProcess(responses, pc.outputParser)))]))
  }

  lemma ParallelCallUnfold(pc: ParallelChain, inputs: Kwargs, callN: Option<int>)
    requires AllPresent(inputs, pc.chain.prompt.inputVariables) && pc.maxBranchingFactor > 0
    ensures ParallelCall(pc, inputs, callN) ==
      Collect(pc, DispatchBranches(Expand(Selected(inputs, pc.chain.prompt.inputVariables), pc.inputParser),
                                   pc.chain.prompt.format, pc.chain.llm.generate, EffectiveN(pc.n, callN), StopOption(inputs)))
  {
    SelectSucceeds(inputs, pc.chain.prompt.inputVariables);
  }

  /** The inputs after the input-parser pass (selection must succeed). */
  function Prepared(pc: ParallelChain, inputs: Kwargs): Kwargs
    requires AllPresent(inputs, pc.chain.prompt.inputVariables)
  {
    ParseInputs(Selected(inputs, pc.chain.prompt.inputVariables), pc.inputParser)
  }

  /** A missing declared variable raises KeyError for the first such variable
      before any backend call. */
  lemma ParallelMissingVariable(pc: ParallelChain, inputs: Kwargs, callN: Option<int>)
    requires !AllPresent(inputs, pc.chain.prompt.inputVariables)
    ensures ParallelCall(pc, inputs, callN).requests == []
    ensures exists i :: (0 <= i < |pc.chain.prompt.inputVariables|
      && ParallelCall(pc, inputs, callN).outcome == Err(KeyError(pc.chain.prompt.inputVariables[i]))
      && pc.chain.prompt.inputVariables[i] !in Keys(inputs)
      && AllPresent(inputs, pc.chain.prompt.inputVariables[..i]))
  {
    SelectSucceeds(inputs, pc.chain.prompt.inputVariables);
    SelectFirstMissing(inputs, pc.chain.prompt.inputVariables);
  }

  /** With every declared variable present, a pool size of 0 or less raises
      ValueError before any backend call, whatever the branches. */
  lemma ParallelPoolSize(pc: ParallelChain, inputs: Kwargs, callN: Option<int>)
    requires AllPresent(inputs, pc.chain.prompt.inputVariables)
    ensures pc.maxBranchingFactor <= 0 ==>
      ParallelCall(pc, inputs, callN) == Run([], Err(ValueError(PoolSizeMessage)))
  {
    SelectSucceeds(inputs, pc.chain.prompt.inputVariables);
  }

  /** Every backend call of a parallel call carries the same `n` (`self.n or n`) and
      the same `stop` (the input's, only when present), and there are at most as
      many calls as branches: the product of the list lengths, a string counting 1. */
  lemma ParallelRequests(pc: ParallelChain, inputs: Kwargs, callN: Option<int>)
    ensures var run := ParallelCall(pc, inputs, callN);
      forall i :: 0 <= i < |run.requests| ==>
        run.requests[i].n == EffectiveN(pc.n, callN) && run.requests[i].stop == StopOption(inputs)
    ensures AllPresent(inputs, pc.chain.prompt.inputVariables) ==>
      |ParallelCall(pc, inputs, callN).requests| <= FanoutProduct(Prepared(pc, inputs))
  {
    var vars := pc.chain.prompt.inputVariables;
    SelectSucceeds(inputs, vars);
    if Select(inputs, vars).Ok? && pc.maxBranchingFactor > 0 {
      var branches := Expand(Select(inputs, vars).value, pc.inputParser);
      DispatchRequests(branches, pc.chain.prompt.format, pc.chain.llm.generate, EffectiveN(pc.n, callN), StopOption(inputs));
      BranchCount(Prepared(pc, inputs));
    }
  }

  /** `self.n or n`: every backend call carries the chain's `n` unless that is None
      or 0, in which case it carries the call's `n`. */
  lemma ParallelN(pc: ParallelChain, inputs: Kwargs, callN: Option<int>)
    ensures var run := ParallelCall(pc, inputs, callN);
      && (pc.n.Some? && pc.n.value != 0 ==> forall i :: 0 <= i < |run.requests| ==> run.requests[i].n == pc.n)
      && (pc.n.None? || pc.n == Some(0) ==> forall i :: 0 <= i < |run.requests| ==> run.requests[i].n == callN)
  {
    ParallelRequests(pc, inputs, callN);
  }

  /** Called without `n`, a chain whose own `n` is None or 0 asks for one completion
      per call. */
  lemma ParallelDefaultN(pc: ParallelChain, inputs: Kwargs)
    requires pc.n.None? || pc.n == Some(0)
    ensures forall i :: 0 <= i < |ParallelCall(pc, inputs).requests| ==> ParallelCall(pc, inputs).requests[i].n == Some(1)
  {
    ParallelN(pc, inputs, DefaultCallN);
  }

  /** A list input that is empty (after the input parser) means no branch, hence no
      backend call and an empty list under the output key. */
  lemma ParallelEmptyList(pc: ParallelChain, inputs: Kwargs, callN: Option<int>)
    requires AllPresent(inputs, pc.chain.prompt.inputVariables)
    requires pc.maxBranchingFactor > 0
    requires exists i :: 0 <= i < |Prepared(pc, inputs)| && Prepared(pc, inputs)[i].1 == List([])
    ensures ParallelCall(pc, inputs, callN).requests == []
    ensures ParallelCall(pc, inputs, callN).outcome == Ok([(pc.chain.outputKey, List(PostProcess([], pc.outputParser)))])
    ensures ParallelCall(pc, inputs, callN).outcome == Ok([(pc.chain.outputKey, List([]))])
  {
    var vars := pc.chain.prompt.inputVariables;
    SelectSucceeds(inputs, vars);
    NoBranches(Prepared(pc, inputs));
  }

  /** When every declared variable has a string value the expansion yields the
      selected inputs as the one and only branch. */
  lemma ScalarInputsExpandToSelection(pc: ParallelChain, inputs: Kwargs)
    requires AllPresent(inputs, pc.chain.prompt.inputVariables)
    requires forall i :: 0 <= i < |pc.chain.prompt.inputVariables| ==>
      Get(inputs, pc.chain.prompt.inputVariables[i]).value.Scalar?
    ensures Expand(Selected(inputs, pc.chain.prompt.inputVariables), pc.inputParser)
         == [Selected(inputs, pc.chain.prompt.inputVariables)]
  {
    var vars := pc.chain.prompt.inputVariables;
    SelectSucceeds(inputs, vars);
    SelectContents(inputs, vars);
    SelectedScalars(inputs, vars);
    ExpandScalars(Selected(inputs, vars), pc.inputParser);
  }

  lemma SelectedScalars(inputs: Kwargs, vars: seq<string>)
    requires AllPresent(inputs, vars)
    requires forall i :: 0 <= i < |vars| ==> Get(inputs, vars[i]).value.Scalar?
    ensures forall i :: 0 <= i < |Selected(inputs, vars)| ==> Selected(inputs, vars)[i].1.Scalar?
  {
    SelectSucceeds(inputs, vars);
    SelectContents(inputs, vars);
    var selected := Selected(inputs, vars);
    forall i | 0 <= i < |selected|
      ensures selected[i].1.Scalar?
    {
      var k := selected[i].0;
      assert Keys(selected)[i] == k;
      assert k in vars;
      var j :| 0 <= j < |vars| && vars[j] == k;
      GetAtIndex(selected, i);
      assert Get(selected, k) == Get(inputs, vars[j]);
    }
  }

  /** When every declared variable has a string value there is exactly one backend
      call, on the prompt formatted from the selected inputs, and the output is that
      call's completions after the output parser. */
  lemma ParallelScalarInputs(pc: ParallelChain, inputs: Kwargs, callN: Option<int>)
    requires AllPresent(inputs, pc.chain.prompt.inputVariables)
    requires pc.maxBranchingFactor > 0
    requires forall i :: 0 <= i < |pc.chain.prompt.inputVariables| ==>
      Get(inputs, pc.chain.prompt.inputVariables[i]).value.Scalar?
    ensures var formatted := pc.chain.prompt.format(Selected(inputs, pc.chain.prompt.inputVariables));
            var run := ParallelCall(pc, inputs, callN);
      && (formatted.Err? ==> run == Run([], Err(formatted.error)))
      && (formatted.Ok? ==>
            var request := Request(formatted.value, EffectiveN(pc.n, callN), StopOption(inputs));
            run == Run([request], Ok([(pc.chain.outputKey, List(PostProcess(pc.chain.llm.generate(request), pc.outputParser)))])))
  {
    var vars := pc.chain.prompt.inputVariables;
    var selected := Selected(inputs, vars);
    ScalarInputsExpandToSelection(pc, inputs);
    var n := EffectiveN(pc.n, callN);
    var stop := StopOption(inputs);
    ParallelCallUnfold(pc, inputs, callN);
    DispatchSingle(selected, pc.chain.prompt.format, pc.chain.llm.generate, n, stop);
  }

  /** A parallel call that returns has a one-key record: under the output key, the
      output parser's pass over the concatenation, in branch order, of the
      completions of every backend call; it returns exactly when every branch formats. */
  lemma ParallelOutcome(pc: ParallelChain, inputs: Kwargs, callN: Option<int>)
    requires AllPresent(inputs, pc.chain.prompt.inputVariables)
    requires pc.maxBranchingFactor > 0
    ensures var vars := pc.chain.prompt.inputVariables;
            var branches := Branches(Prepared(pc, inputs));
            var run := ParallelCall(pc, inputs, callN);
      && (run.outcome.Ok? <==> AllFormat(branches, pc.chain.prompt.format))
      && (AllFormat(branches, pc.chain.prompt.format) ==>
            |run.requests| == |branches| &&
            forall i :: 0 <= i < |branches| ==>
              run.requests[i] == Request(pc.chain.prompt.format(branches[i]).value, EffectiveN(pc.n, callN), StopOption(inputs)))
      && (run.outcome.Ok? ==>
            Keys(run.outcome.value) == [pc.chain.outputKey] &&
            run.outcome.value[0].1 == List(PostProcess(Flatten(Responses(run.requests, pc.chain.llm.generate)), pc.outputParser)))
      && (run.outcome.Ok? && pc.outputParser.None? ==>
            |run.outcome.value[0].1.items| == TotalLength(Responses(run.requests, pc.chain.llm.generate)))
  {
    var vars := pc.chain.prompt.inputVariables;
    SelectSucceeds(inputs, vars);
    var branches := Branches(Prepared(pc, inputs));
    ParallelCallUnfold(pc, inputs, callN);
    DispatchOutcome(branches, pc.chain.prompt.format, pc.chain.llm.generate, EffectiveN(pc.n, callN), StopOption(inputs));
    DispatchRequests(branches, pc.chain.prompt.format, pc.chain.llm.generate, EffectiveN(pc.n, callN), StopOption(inputs));
    var run := ParallelCall(pc, inputs, callN);
    if run.outcome.Ok? {
      assert Keys(run.outcome.value) == [pc.chain.outputKey];
    }
  }

  /** A parallel call that fails after selection reports the first branch, in branch
      order, whose prompt does not format; the calls of all earlier branches are the
      first requests, and the later branches add at most one request each. */
  lemma ParallelFailurePrefix(pc: ParallelChain, inputs: Kwargs, callN: Option<int>)
    requires AllPresent(inputs, pc.chain.prompt.inputVariables)
    requires pc.maxBranchingFactor > 0
    requires ParallelCall(pc, inputs, callN).outcome.Err?
    ensures var branches := Branches(Prepared(pc, inputs));
            var run := ParallelCall(pc, inputs, callN);
      exists i :: 0 <= i < |branches| && pc.chain.prompt.format(branches[i]).Err?
        && run.outcome.error == pc.chain.prompt.format(branches[i]).error
        && i <= |run.requests| <= |branches| - 1
        && forall j :: 0 <= j < i ==>
             pc.chain.prompt.format(branches[j]).Ok? &&
             run.requests[j] == Request(pc.chain.prompt.format(branches[j]).value, EffectiveN(pc.n, callN), StopOption(inputs))
  {
    SelectSucceeds(inputs, pc.chain.prompt.inputVariables);
    DispatchFailurePrefix(Branches(Prepared(pc, inputs)), pc.chain.prompt.format, pc.chain.llm.generate,
                          EffectiveN(pc.n, callN), StopOption(inputs));
  }
}
