/** `Prompt` and `DynamicPrompt` from langchain/prompt.py: template assembly from
    examples, formatting through the template-format table, and the root
    validators that run whenever either is constructed. */
module Prompts {
  import opened Wrappers
  import opened Dicts
  import opened Values
  import opened Strings

  /** The only key of the template-format table. */
  const FString: string := "f-string"
  const DefaultExampleSeparator: string := "\n\n"
  const DefaultPrefix: string := ""
  /** The value every declared variable gets when a template is checked. */
  const DummyValue: string := "foo"
  const InvalidSchema: string := "Invalid prompt schema."

  /** The f-string formatter (`formatter.format(template, **kwargs)`), whose
      internals are not part of this model: it yields a string or raises,
      KeyError when the template names a variable `kwargs` lacks. */
  type Formatter = (string, Kwargs) -> Result<string, Error>

  function InvalidFormatMessage(templateFormat: string): string {
    "Invalid template format. Got `" + templateFormat + "`; should be one of ['f-string']"
  }

  /** `{v: "foo" for v in input_variables}`. */
  function DummyInputs(inputVariables: seq<string>): (d: Kwargs)
    ensures UniqueKeys(d)
    ensures forall k :: k in Keys(d) <==> k in inputVariables
    ensures forall i :: 0 <= i < |d| ==> d[i].1 == Scalar(DummyValue)
  {
    var ps := seq(|inputVariables|, i requires 0 <= i < |inputVariables| => (inputVariables[i], Scalar(DummyValue)));
    assert forall k :: k in Keys(ps) <==> k in inputVariables by {
      assert Keys(ps) == inputVariables;
    }
    AllValuesAfterFromPairs(ps, Scalar(DummyValue));
    FromPairs(ps)
  }

  lemma {:induction false} AllValuesAfterFromPairs<V>(ps: seq<(string, V)>, v: V)
    requires forall i :: 0 <= i < |ps| ==> ps[i].1 == v
    ensures forall i :: 0 <= i < |FromPairs(ps)| ==> FromPairs(ps)[i].1 == v
  {
    if |ps| > 0 {
      var init := ps[..|ps| - 1];
      AllValuesAfterFromPairs(init, v);
      var d := FromPairs(init);
      var k := ps[|ps| - 1].0;
      assert FromPairs(ps) == Put(d, k, v);
      match IndexOf(d, k)
      case Some(i) =>
        assert Put(d, k, v) == d[i := (k, v)];
      case None =>
        assert Put(d, k, v) == d + [(k, v)];
    }
  }

  /** The validators' `except KeyError`: a KeyError raised while checking a template
      becomes "Invalid prompt schema."; any other error passes through unchanged. */
  function SchemaError(e: Error): Error {
    if e.KeyError? then ValueError(InvalidSchema) else e
  }

  /** The body shared by both root validators: reject an unknown template format,
      then format `template` with every declared variable set to "foo"; a KeyError
      becomes "Invalid prompt schema.", any other failure of the formatter passes through. */
  function CheckTemplate(template: string, inputVariables: seq<string>, templateFormat: string, fstr: Formatter): Result<(), Error> {
    if templateFormat != FString then Err(ValueError(InvalidFormatMessage(templateFormat)))
    else match fstr(template, DummyInputs(inputVariables))
      case Ok(_) => Ok(())
      case Err(e) => Err(SchemaError(e))
  }

  datatype Prompt = Prompt(inputVariables: seq<string>, template: string, templateFormat: string)

  /** Constructing a `Prompt`: the fields are stored as given once `template_is_valid` passes. */
  function NewPrompt(inputVariables: seq<string>, template: string, fstr: Formatter, templateFormat: string := FString): (r: Result<Prompt, Error>)
    ensures r.Ok? <==> templateFormat == FString && fstr(template, DummyInputs(inputVariables)).Ok?
    ensures r.Ok? ==> r.value == Prompt(inputVariables, template, templateFormat)
    ensures templateFormat != FString ==> r == Err(ValueError(InvalidFormatMessage(templateFormat)))
    ensures templateFormat == FString && fstr(template, DummyInputs(inputVariables)).Err? ==>
      var e := fstr(template, DummyInputs(inputVariables)).error;
      && (e.KeyError? ==> r == Err(ValueError(InvalidSchema)))
      && (!e.KeyError? ==> r == Err(e))
  {
    var _ :- CheckTemplate(template, inputVariables, templateFormat, fstr);
    Ok(Prompt(inputVariables, template, templateFormat))
  }

  /** `Prompt.format`: look the formatter up by template format (a KeyError for an
      unknown one) and apply it to the template. */
  function Format(p: Prompt, kwargs: Kwargs, fstr: Formatter): Result<string, Error> {
    if p.templateFormat == FString then fstr(p.template, kwargs) else Err(KeyError(p.templateFormat))
  }

  /** What the validator buys: a constructed prompt formats without error once every
      declared variable is given the dummy value. */
  lemma ValidatedPromptFormats(inputVariables: seq<string>, template: string, fstr: Formatter, templateFormat: string)
    requires NewPrompt(inputVariables, template, fstr, templateFormat).Ok?
    ensures Format(NewPrompt(inputVariables, template, fstr, templateFormat).value, DummyInputs(inputVariables), fstr).Ok?
  {
  }

  /** A constructed prompt never fails the formatter lookup: formatting it is the
      f-string formatter applied to its template, for every keyword set. */
  lemma ConstructedPromptFormats(inputVariables: seq<string>, template: string, fstr: Formatter, templateFormat: string, kwargs: Kwargs)
    requires NewPrompt(inputVariables, template, fstr, templateFormat).Ok?
    ensures Format(NewPrompt(inputVariables, template, fstr, templateFormat).value, kwargs, fstr) == fstr(template, kwargs)
  {
  }

  /** The template both prompt kinds build from examples. */
  function AssembleTemplate(examples: seq<string>, separator: string, prefix: string, suffix: string): (t: string)
    ensures |examples| == 0 ==> t == prefix + suffix
    ensures |examples| == 1 ==> t == prefix + examples[0] + suffix
  {
    prefix + Join(separator, examples) + suffix
  }

  /** `Prompt.from_examples`; the separator and prefix default as in Python. */
  function FromExamples(examples: seq<string>, suffix: string, inputVariables: seq<string>, fstr: Formatter,
                        separator: string := DefaultExampleSeparator, prefix: string := DefaultPrefix): (r: Result<Prompt, Error>)
    ensures r.Ok? <==> fstr(prefix + Join(separator, examples) + suffix, DummyInputs(inputVariables)).Ok?
    ensures r.Ok? ==> r.value.template == prefix + Join(separator, examples) + suffix
    ensures r.Ok? ==> r.value.inputVariables == inputVariables && r.value.templateFormat == FString
    ensures r.Ok? && |examples| == 0 ==> r.value.template == prefix + suffix
    ensures r.Ok? && |examples| == 1 ==> r.value.template == prefix + examples[0] + suffix
    ensures r.Err? ==>
      r.error == SchemaError(fstr(prefix + Join(separator, examples) + suffix, DummyInputs(inputVariables)).error)
  {
    NewPrompt(inputVariables, AssembleTemplate(examples, separator, prefix, suffix), fstr)
  }

  datatype DynamicPrompt = DynamicPrompt(
    examples: seq<string>,
    exampleSeparator: string,
    inputVariables: seq<string>,
    prefix: string,
    suffix: string,
    templateFormat: string)

  /** Constructing a `DynamicPrompt`: its validator checks only the suffix. */
  function NewDynamicPrompt(examples: seq<string>, exampleSeparator: string, inputVariables: seq<string>,
                            prefix: string, suffix: string, fstr: Formatter, templateFormat: string := FString): (r: Result<DynamicPrompt, Error>)
    ensures r.Ok? <==> templateFormat == FString && fstr(suffix, DummyInputs(inputVariables)).Ok?
    ensures r.Ok? ==> r.value == DynamicPrompt(examples, exampleSeparator, inputVariables, prefix, suffix, templateFormat)
    ensures templateFormat != FString ==> r == Err(ValueError(InvalidFormatMessage(templateFormat)))
    ensures templateFormat == FString && fstr(suffix, DummyInputs(inputVariables)).Err? ==>
      var e := fstr(suffix, DummyInputs(inputVariables)).error;
      && (e.KeyError? ==> r == Err(ValueError(InvalidSchema)))
      && (!e.KeyError? ==> r == Err(e))
  {
    var _ :- CheckTemplate(suffix, inputVariables, templateFormat, fstr);
    Ok(DynamicPrompt(examples, exampleSeparator, inputVariables, prefix, suffix, templateFormat))
  }

  /** `DynamicPrompt.format`: assemble the template, then format it like `Prompt.format`. */
  function DynamicFormat(p: DynamicPrompt, kwargs: Kwargs, fstr: Formatter): Result<string, Error> {
    var template := AssembleTemplate(p.examples, p.exampleSeparator, p.prefix, p.suffix);
    if p.templateFormat == FString then fstr(template, kwargs) else Err(KeyError(p.templateFormat))
  }

  /** A constructed dynamic prompt formats the template assembled from its pieces
      with the f-string formatter, for every keyword set. */
  lemma ConstructedDynamicPromptFormats(examples: seq<string>, exampleSeparator: string, inputVariables: seq<string>,
                                        prefix: string, suffix: string, fstr: Formatter, templateFormat: string, kwargs: Kwargs)
    requires NewDynamicPrompt(examples, exampleSeparator, inputVariables, prefix, suffix, fstr, templateFormat).Ok?
    ensures DynamicFormat(NewDynamicPrompt(examples, exampleSeparator, inputVariables, prefix, suffix, fstr, templateFormat).value, kwargs, fstr)
         == fstr(prefix + Join(exampleSeparator, examples) + suffix, kwargs)
  {
  }

  /** `DynamicPrompt.from_examples`; the separator and prefix default as in Python. */
  function DynamicFromExamples(examples: seq<string>, suffix: string, inputVariables: seq<string>, fstr: Formatter,
                               separator: string := DefaultExampleSeparator, prefix: string := DefaultPrefix): (r: Result<DynamicPrompt, Error>)
    ensures r.Ok? <==> fstr(suffix, DummyInputs(inputVariables)).Ok?
    ensures r.Ok? ==> r.value == DynamicPrompt(examples, separator, inputVariables, prefix, suffix, FString)
    ensures r.Err? ==> r.error == SchemaError(fstr(suffix, DummyInputs(inputVariables)).error)
  {
    NewDynamicPrompt(examples, separator, inputVariables, prefix, suffix, fstr)
  }

  /** A `DynamicPrompt` formats exactly as the `Prompt` built by `from_examples`
      from the same pieces, for every keyword set. */
  lemma DynamicFormatMatchesFromExamples(examples: seq<string>, suffix: string, inputVariables: seq<string>,
                                         separator: string, prefix: string, fstr: Formatter, kwargs: Kwargs)
    requires FromExamples(examples, suffix, inputVariables, fstr, separator, prefix).Ok?
    requires DynamicFromExamples(examples, suffix, inputVariables, fstr, separator, prefix).Ok?
    ensures DynamicFormat(DynamicFromExamples(examples, suffix, inputVariables, fstr, separator, prefix).value, kwargs, fstr)
         == Format(FromExamples(examples, suffix, inputVariables, fstr, separator, prefix).value, kwargs, fstr)
  {
  }

  /** Left at their defaults, the examples are separated by a blank line and
      nothing precedes them. */
  lemma FromExamplesDefaults(examples: seq<string>, suffix: string, inputVariables: seq<string>, fstr: Formatter)
    ensures FromExamples(examples, suffix, inputVariables, fstr).Ok? ==>
      FromExamples(examples, suffix, inputVariables, fstr).value.template == Join("\n\n", examples) + suffix
  {
    assert "" + Join("\n\n", examples) == Join("\n\n", examples);
  }

  /** Likewise for a dynamic prompt, which stores the default separator and prefix. */
  lemma DynamicFromExamplesDefaults(examples: seq<string>, suffix: string, inputVariables: seq<string>, fstr: Formatter)
    ensures DynamicFromExamples(examples, suffix, inputVariables, fstr).Ok? ==>
      var p := DynamicFromExamples(examples, suffix, inputVariables, fstr).value;
      p.exampleSeparator == "\n\n" && p.prefix == "" && p.examples == examples && p.suffix == suffix
  {
  }

  /** Whether a `DynamicPrompt` is accepted never depends on its prefix, examples or separator. */
  lemma DynamicValidationIgnoresPrefixAndExamples(
    examples1: seq<string>, separator1: string, prefix1: string,
    examples2: seq<string>, separator2: string, prefix2: string,
    inputVariables: seq<string>, suffix: string, fstr: Formatter, templateFormat: string)
    ensures NewDynamicPrompt(examples1, separator1, inputVariables, prefix1, suffix, fstr, templateFormat).Ok?
        <==> NewDynamicPrompt(examples2, separator2, inputVariables, prefix2, suffix, fstr, templateFormat).Ok?
    ensures NewDynamicPrompt(examples1, separator1, inputVariables, prefix1, suffix, fstr, templateFormat).Err? ==>
      NewDynamicPrompt(examples1, separator1, inputVariables, prefix1, suffix, fstr, templateFormat).error
        == NewDynamicPrompt(examples2, separator2, inputVariables, prefix2, suffix, fstr, templateFormat).error
  {
  }
}
