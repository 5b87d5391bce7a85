# LLMChain, ParallelChain and the prompt schema

This project models, in Dafny, the core of an early version of the `langchain` Python
library: the two prompt schemas of `langchain/prompt.py` (`Prompt` and `DynamicPrompt`)
and the two chains of `langchain/chains/llm.py` (`LLMChain` and `ParallelChain`).

- A **prompt** is a template plus the names of the variables it expects. Constructing one
  runs a root validator. The validator rejects an unknown template format. It then
  formats the template with every declared variable set to `"foo"`, turning a `KeyError`
  into `ValueError("Invalid prompt schema.")`. `from_examples` joins examples with a
  separator between a prefix and a suffix. A `DynamicPrompt` keeps the pieces, validates
  only its suffix, and assembles the template each time it formats.
- An **LLMChain** call selects the prompt's declared variables from the inputs. A missing
  one raises `KeyError`. The call formats the prompt and calls the language model once,
  forwarding `stop` only when the inputs hold it. It returns the completion under the
  output key (`"text"` by default). `predict` returns that completion, and
  `predict_and_parse` runs the prompt's output parser over it.
- A **ParallelChain** call also selects the declared variables. It passes every list value
  through the optional input parser, then expands the values into branches: the
  cartesian product of the values, a string counting as a one-element list, in
  lexicographic order. It calls the model once per branch with the shared `n`
  (`self.n or n`) and `stop`. It chains the completion lists in branch order, and the
  optional output parser flattens them further (a non-list result counts as a singleton).

The modules follow that structure:

| file | module | contents |
|---|---|---|
| wrappers.dfy | `Wrappers` | `Option`, `Result` with `:-` support |
| dicts.dfy | `Dicts` | Python's insertion-ordered `dict` as an association list, `zip` |
| values.dfy | `Values` | input values (string or list of strings), errors, parser results |
| seqs.dfy | `Seqs` | `itertools.chain` / `list.extend` as `Flatten` |
| strings.dfy | `Strings` | `sep.join(xs)` and its layout |
| product.dfy | `Product` | `itertools.product` |
| prompts.dfy | `Prompts` | `Prompt`, `DynamicPrompt`, validators, `from_examples` |
| expansion.dfy | `Expansion` | selection, input parser, `listify`, branch expansion |
| dispatch.dfy | `Dispatch` | per-branch model calls, result chaining, output parser |
| chains.dfy | `Chains` | `LLMChain._call`, `predict`, `predict_and_parse`, `ParallelChain._call` |

Several parts of the program are outside the model and enter it as function-valued
parameters or fields:

- the language model: `Llm.complete` returns one completion and `Llm.generate` returns the
  list returned for a call with `n`. Both are modelled as deterministic: the same request
  always gets the same response;
- the prompt's `format`;
- the input and output parsers;
- the f-string formatter (`Prompts.Formatter`).

Where each operation of the source is modelled, and which members describe it:

- `Prompt.format` (langchain/prompt.py:37-52) is `Prompts.Format`. It is described by
  `Prompts.ValidatedPromptFormats` and `Prompts.ConstructedPromptFormats`.
- `DynamicPrompt.format` (langchain/prompt.py:145-164) is `Prompts.DynamicFormat`. It is
  described by `Prompts.ConstructedDynamicPromptFormats` and
  `Prompts.DynamicFormatMatchesFromExamples`.
- The two `template_is_valid` validators share `Prompts.CheckTemplate`. It is described
  through `Prompts.NewPrompt` and `Prompts.NewDynamicPrompt`.
- The `LLMChain` field default `output_key = "text"` (langchain/chains/llm.py:30) is
  `Chains.DefaultOutputKey`, used by the constructor `Chains.NewLlmChain`.
- `LLMChain._call`, `predict` and `predict_and_parse` are `Chains.LlmCall`,
  `Chains.Predict` and `Chains.PredictAndParse`. Each has its own contract.
- `ParallelChain._call` (langchain/chains/llm.py:107-163) is `Chains.ParallelCall`. It
  is described by `Chains.ParallelMissingVariable`, `Chains.ParallelRequests`,
  `Chains.ParallelN`, `Chains.ParallelDefaultN`, `Chains.ParallelEmptyList`,
  `Chains.ParallelScalarInputs`, `Chains.ParallelOutcome`,
  `Chains.ParallelFailurePrefix` and `Chains.ParallelPoolSize`. Its stages are the
  following:
  - Selection (line 108) is `Expansion.Select`. It is described by
    `Expansion.SelectSucceeds`, `Expansion.SelectFirstMissing`,
    `Expansion.SelectContents` and `Expansion.SelectInOrder`.
  - The input parser (lines 109-113) is `Expansion.ParseInputs`.
  - `listify` (lines 117-121) is `Expansion.Listify`, used by `Expansion.Choices`.
  - Branch expansion (lines 123-129) is `Expansion.Branches`. It is described by
    `Expansion.BranchCount`, `Expansion.NoBranches`, `Expansion.BranchesPick`,
    `Expansion.BranchesComplete`, `Expansion.BranchOrder` and
    `Expansion.ScalarsGiveOneBranch`. The expansion as written is
    `Expansion.ZipBranches` and the call as written is `Chains.ParallelCallAsWritten`
    (see Findings); `Expansion.ZipBranchesDistinct` and
    `Chains.ParallelCallAsWrittenAgrees` show they agree with the model when the
    declared variables are distinct.
  - Creating the thread pool (line 149) is the `maxBranchingFactor` test in
    `Chains.ParallelCall`. It is described by `Chains.ParallelPoolSize`.
  - `branch_call` mapped over the branches (lines 135-151) is
    `Dispatch.DispatchBranches`, with `self.n or n` as `Dispatch.EffectiveN`. It is
    described by `Dispatch.DispatchSingle`, `Dispatch.DispatchRequests`,
    `Dispatch.DispatchOutcome`, `Dispatch.DispatchFailurePrefix`,
    `Dispatch.DispatchAppendRequests` and `Dispatch.DispatchAppend`.
  - The output parser (lines 153-160) is `Dispatch.PostProcess`, with the list
    normalisation as `Dispatch.Normalize`. It is described by
    `Dispatch.ParseEachIsFlatten`, `Dispatch.PostProcessAppend`,
    `Dispatch.PostProcessSingles` and `Dispatch.PostProcessSplitExample`.

Python's default arguments are Dafny default parameters:

- `template_format="f-string"` for `NewPrompt` and `NewDynamicPrompt`;
- `example_separator="\n\n"` and `prefix=""` for both `from_examples`;
- `n=1` for `ParallelChain._call`.

A chain call returns a `Run`. A `Run` records the model requests the call issued, in
order, and either the returned record or the raised error. That is how "no model call
happens before a `KeyError`" and "an empty list means no calls" are stated.

## Model

| member | source | states |
|---|---|---|
| Dicts.Put | langchain/chains/llm.py:128 | storing a key makes it map to the new value and leaves every other key's lookup alone; a present key keeps its position, a new key is appended, as a Python dict does |
| Dicts.FromPairs | langchain/chains/llm.py:128 | a dict comprehension over pairs has distinct keys, exactly the keys that occur among the pairs |
| Dicts.FromPairsLastWins | langchain/chains/llm.py:128 | in a comprehension the last pair with a given key decides that key's value |
| Dicts.FromPairsOrder | langchain/chains/llm.py:128 | a comprehension lists its keys in the order of their first occurrence among the pairs |
| Dicts.FromDistinctPairs | langchain/chains/llm.py:128 | a comprehension over pairs whose keys are distinct gives those pairs back unchanged, in order |
| Dicts.Get | langchain/chains/llm.py:53 | `d[k]` is missing exactly when `k` is not a key; a found value is paired with `k` in the dict |
| Expansion.SelectSucceeds | langchain/chains/llm.py:53 | selecting the declared variables succeeds exactly when every one of them is an input key |
| Expansion.SelectFirstMissing | langchain/chains/llm.py:108 | a failed selection raises KeyError for the first declared variable missing from the inputs, all earlier ones being present |
| Expansion.SelectContents | langchain/chains/llm.py:108 | the selection has distinct keys, exactly the declared variables, each mapped to its input value; extra input keys are dropped |
| Expansion.SelectInOrder | langchain/chains/llm.py:53 | with distinct declared variables the selection lists them in declared order, each with its input value |
| Expansion.ParseInputs | langchain/chains/llm.py:109-113 | the input parser keeps the keys and their order, leaves strings unchanged, replaces each list by the parser's result, and with no parser changes nothing |
| Expansion.ParseScalars | langchain/chains/llm.py:111 | inputs that are all strings come out of the parser pass unchanged |
| Expansion.BranchCount | langchain/chains/llm.py:126-129 | the number of branches is the product of the list lengths, each string counting 1 |
| Expansion.NoBranches | langchain/chains/llm.py:126-129 | there are no branches exactly when some selected value is an empty list |
| Expansion.BranchesPick | langchain/chains/llm.py:126-129 | every branch maps each selected variable, in order, to a single string from that variable's listified value |
| Expansion.BranchesComplete | langchain/chains/llm.py:126-129 | every way of picking one string per selected variable occurs as a branch |
| Expansion.BranchOrder | langchain/chains/llm.py:126-129 | branches come in lexicographic order: the first variable's choice varies slowest, each heading a block of all branches of the remaining variables |
| Expansion.ScalarsGiveOneBranch | langchain/chains/llm.py:123-129 | when every selected value is a string there is exactly one branch, equal to the selected inputs |
| Expansion.ExpandScalars | langchain/chains/llm.py:109-129 | the same holds with or without an input parser |
| Expansion.ZipBranchesDistinct | langchain/chains/llm.py:108-129 | when the declared variables are distinct and all present, zipping the product tuples of the (optionally parsed) selection with the declared variables, as written, gives the same branches as zipping with the selection's keys |
| Chains.ParallelCallAsWrittenAgrees | langchain/chains/llm.py:107-163 | with distinct declared variables, the parallel call zipping with the declared variables, as written, is the modelled call on every input and every `n` |
| Expansion.ZipBranchesDuplicate | langchain/chains/llm.py:108-129 | with the declared variables `a, a, b`, selection keeps `a` once, and the zip as written makes the single branch map `a` to `b`'s value and drop `b` |
| Product.ProductLength | langchain/chains/llm.py:126 | `itertools.product` yields as many tuples as the product of the list lengths |
| Product.EmptyProduct | langchain/chains/llm.py:126 | the product is empty exactly when one of the lists is empty |
| Product.ProductIndex | langchain/chains/llm.py:126 | tuple `a * m + b` of the product is element `a` of the first list followed by tuple `b` of the product of the rest (`m` tuples) |
| Product.ProductMembers | langchain/chains/llm.py:126 | a tuple is in the product exactly when it picks one element of each list, position by position |
| Product.SingletonProduct | langchain/chains/llm.py:126 | the product of one-element lists is the single tuple of those elements |
| Dispatch.DispatchSingle | langchain/chains/llm.py:135-147 | one branch is either its formatting error with no model call, or one call on its prompt whose completions are the result |
| Dispatch.DispatchRequests | langchain/chains/llm.py:135-150 | every model call carries the shared `n` and `stop`; at most one call per branch, exactly one per branch in branch order when every branch formats, none without branches |
| Dispatch.DispatchOutcome | langchain/chains/llm.py:149-151 | the map returns exactly when every branch formats; it then yields the concatenation of each call's completions in call order, otherwise the error of the first branch that fails |
| Dispatch.DispatchFailurePrefix | langchain/chains/llm.py:149-151 | a failed map reports the first branch whose prompt does not format; the calls of all earlier branches are the first requests, in branch order, and at most one request follows per later branch |
| Dispatch.DispatchAppendRequests | langchain/chains/llm.py:150 | dispatching two runs of branches back to back records the first run's calls and then the second's |
| Dispatch.DispatchAppend | langchain/chains/llm.py:150-151 | concatenated branch runs report the first run's failure, else the second's, else both runs' completions in order |
| Dispatch.ParseEachIsFlatten | langchain/chains/llm.py:153-160 | the output-parser pass is the in-order concatenation of the per-response results, so its length is the sum of theirs |
| Dispatch.PostProcessAppend | langchain/chains/llm.py:153-160 | the parser pass over two batches of responses is the two parsed batches, in order |
| Dispatch.PostProcessSingles | langchain/chains/llm.py:157-159 | a parser that never returns a list maps the responses one to one, in order |
| Dispatch.PostProcessSplitExample | langchain/chains/llm.py:153-160 | a parser splitting "A,B" turns the responses "A,B" and "C" into "A", "B", "C" |
| Seqs.FlattenAppend | langchain/chains/llm.py:151 | chaining two lists of lists is chaining each and concatenating, so no completion is reordered |
| Chains.StopOption | langchain/chains/llm.py:58-59 | `stop` is forwarded exactly when the inputs hold the key `"stop"`, and then with its value |
| Chains.LlmCall | langchain/chains/llm.py:52-63 | a missing declared variable raises KeyError for the first missing one in declared order, before any model call; otherwise a formatting error is raised with no call, and a formatted prompt gives exactly one call on it, without `n` and with the forwarded `stop`, and the one-key record mapping the output key to that call's completion |
| Chains.Predict | langchain/chains/llm.py:65-75 | issues the same calls and raises the same errors as the chain call; on success it is the single call's completion |
| Chains.PredictAndParse | langchain/chains/llm.py:77-83 | issues the same calls as `predict` and fails exactly when it does, with the same error; on success it is the output parser applied to the completion, or the completion itself without a parser |
| Chains.ParallelMissingVariable | langchain/chains/llm.py:108 | a missing declared variable raises KeyError for the first missing one, before any model call |
| Chains.ParallelRequests | langchain/chains/llm.py:140-146 | every model call carries `self.n or n` and the forwarded `stop`; there are at most as many calls as branches, the product of the list lengths |
| Chains.ParallelN | langchain/chains/llm.py:146 | every model call carries the chain's `n` unless it is None or 0, and the call's `n` otherwise |
| Chains.ParallelDefaultN | langchain/chains/llm.py:107 | called without `n`, a chain whose own `n` is None or 0 asks for one completion per call |
| Chains.ParallelPoolSize | langchain/chains/llm.py:107-149 | once every declared variable is present, a pool size (`max_branching_factor`) of 0 or less raises ValueError before any model call, whatever the branches |
| Chains.ParallelEmptyList | langchain/chains/llm.py:123-151 | with a positive pool size, an empty list input (after the input parser) means no model call and an empty list under the output key |
| Chains.ScalarInputsExpandToSelection | langchain/chains/llm.py:108-129 | string-only inputs expand to the selected inputs as the only branch |
| Chains.ParallelScalarInputs | langchain/chains/llm.py:107-163 | with a positive pool size and string-only inputs, a parallel call is one model call on the prompt of the selected inputs, returning its completions after the output parser, or the formatting error with no call |
| Chains.ParallelOutcome | langchain/chains/llm.py:135-163 | with a positive pool size, a parallel call returns exactly when every branch formats; then it makes one call per branch, in branch order, on that branch's formatted prompt with the shared `n` and `stop`; the result has the output key only, holding the parser pass over all completions chained in branch order |
| Chains.ParallelFailurePrefix | langchain/chains/llm.py:135-151 | with a positive pool size, a parallel call that fails after selection raises the error of the first branch that does not format; all earlier branches' calls are the first requests, with the shared `n` and `stop` |
| Strings.Join | langchain/prompt.py:101 | joining no examples gives the empty string; a join starts with the first example |
| Strings.JoinLength | langchain/prompt.py:101 | the joined length is the pieces' total plus one separator per gap |
| Strings.JoinAppend | langchain/prompt.py:101 | joining two non-empty runs of examples puts exactly one separator at the seam |
| Strings.JoinLayout | langchain/prompt.py:101 | each example sits at its offset in the joined string, followed by the separator unless it is the last |
| Prompts.DummyInputs | langchain/prompt.py:66 | the validation inputs have distinct keys, exactly the declared variables, every value `"foo"` |
| Prompts.NewPrompt | langchain/prompt.py:54-72 | a prompt is built exactly when its format (by default `f-string`) is `f-string` and the template formats with the dummy inputs; it then stores the fields as given; an unknown format raises its ValueError, a KeyError from the check becomes "Invalid prompt schema.", and any other formatter error passes through unchanged |
| Prompts.AssembleTemplate | langchain/prompt.py:101-102 | with no examples the template is prefix then suffix; with one it is prefix, that example, suffix |
| Prompts.FromExamples | langchain/prompt.py:74-103 | succeeds exactly when the assembled template validates; the prompt's template is prefix, joined examples, suffix, with the given variables and the `f-string` format; on failure the error is the check's, a KeyError turned into "Invalid prompt schema." |
| Prompts.NewDynamicPrompt | langchain/prompt.py:166-184 | a dynamic prompt is built exactly when its format is `f-string` and its suffix alone formats with the dummy inputs; it stores every field as given; the errors are as for `Prompts.NewPrompt`, with the suffix checked |
| Prompts.DynamicFromExamples | langchain/prompt.py:186-202 | succeeds exactly when the suffix validates, storing the examples, separator, variables, prefix and suffix with the `f-string` format; on failure the error is the suffix check's, a KeyError turned into "Invalid prompt schema." |
| Prompts.ValidatedPromptFormats | langchain/prompt.py:37-72 | a prompt that passed validation formats without error when every declared variable is given the value `"foo"` |
| Prompts.ConstructedPromptFormats | langchain/prompt.py:37-72 | a prompt that passed validation never fails the formatter lookup: formatting it applies the f-string formatter to its template |
| Prompts.ConstructedDynamicPromptFormats | langchain/prompt.py:145-184 | a dynamic prompt that passed validation formats by applying the f-string formatter to prefix, examples joined by the separator, and suffix |
| Prompts.FromExamplesDefaults | langchain/prompt.py:75-103 | left at their defaults, the examples are joined with a blank line and nothing precedes them |
| Prompts.DynamicFromExamplesDefaults | langchain/prompt.py:187-202 | left at their defaults, a dynamic prompt stores the separator `"\n\n"` and the empty prefix |
| Prompts.DynamicFormatMatchesFromExamples | langchain/prompt.py:145-164 | a dynamic prompt formats exactly like the prompt that `Prompt.from_examples` builds from the same pieces, for every keyword set |
| Prompts.DynamicValidationIgnoresPrefixAndExamples | langchain/prompt.py:168-183 | whether a dynamic prompt is accepted, and with which error, never depends on its prefix, examples or separator |

## Left out

- The thread pool is modelled only as far as the caller sees it. `executor.map` submits every branch at once. `list(...)` waits for the results in branch order and raises the first failure. `Run.requests` lists the calls in branch order, not in the order the pool runs them. Of `maxBranchingFactor` the model keeps only the pool's refusal of a size of 0 or less, the ValueError "max_workers must be greater than 0" raised by Python's `ThreadPoolExecutor` (`Chains.ParallelPoolSize`). In the program a positive size also bounds how many calls run at once, and so which queued calls are cancelled after a failure; the model does not represent that.
- Dispatch.DispatchBranches: after the first failing branch the pool cancels the calls still queued, so which later calls run depends on scheduling. The model records the largest possible set: a call for every later branch that formats. Dispatch.DispatchFailurePrefix and Chains.ParallelFailurePrefix state only what is certain: the calls of every branch before the failing one.
- Dispatch.DispatchAppendRequests: true of the model. For the program it is exact only when no branch of either run fails. Past a failing branch its requests are the calls that may be made, for the reason above.
- Verbose logging (`langchain.logger`) is left out because it has no effect on results.
- The base class `Chain.__call__` is not part of this model. It validates inputs and merges outputs. `predict` is modelled as calling `_call` directly and reading the output key.
- The f-string formatter (`langchain.formatting`) is not part of this model. It enters as a parameter that returns a string or raises an error. `KeyError` is the case the validators single out.
- The language model, prompt objects and parsers are parameters, because their code is not part of this model. They are modelled as total functions: an exception raised by the model or a parser is not modelled.
- Input values are strings or lists of strings. Other Python values and a parser that returns a dict (allowed by `predict_and_parse`'s annotation) are left out.
- pydantic's wrapping of validator errors into `ValidationError` is not modelled. The validator's `ValueError` is reported as is.
- `Extra.forbid` and pydantic's field type checks are left out, because they belong to the pydantic library.
- The HuggingFace model wrapper, the `langchain.llms` package index and the map-rerank question-answering prompt only call this code or are called by it; they are not part of this model.
- Expansion.SelectInOrder: requires distinct declared variables. With duplicates the selection keeps one entry per variable, which Expansion.SelectContents still describes.
- Chains.ParallelCall: expands with the corrected `Expansion.Branches`. It zips each tuple with the selection's keys. The source zips with the declared variables, and the two differ only when a variable is declared twice (see Findings): `Chains.ParallelCallAsWrittenAgrees` proves they coincide for distinct variables.
- Chains.ParallelRequests: gives an upper bound on the number of model calls. The exact count, one per branch when every branch formats, is stated by Dispatch.DispatchRequests.

## Findings

| source | as written | input that shows it | evidently intended | confidence | as-written member | corrected member |
|---|---|---|---|---|---|---|
| langchain/chains/llm.py:128 | each product tuple is zipped with `self.prompt.input_variables`, while the tuple has one entry per key of the deduplicated `selected_inputs` | declared variables `["a", "a", "b"]`, inputs `{"a": "x", "b": "y"}`: the one branch is `{"a": "y"}`, with `b` missing and `a` holding `b`'s value | zip with the keys of `selected_inputs`, giving the branch `{"a": "x", "b": "y"}`, as `LLMChain._call` formats | medium; not executed | Expansion.ZipBranchesDuplicate | Expansion.ScalarsGiveOneBranch |
