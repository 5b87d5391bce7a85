/** The values that flow through a chain call. */
module Values {
  import opened Dicts

  /** An input value: a single string, or a list of strings to branch over. */
  datatype Value = Scalar(text: string) | List(items: seq<string>)

  /** The Python exceptions the core raises or lets through. */
  datatype Error = KeyError(key: string) | ValueError(message: string)

  /** Keyword arguments / an input or output record: an ordered dict of values. */
  type Kwargs = Dict<string, Value>

  /** What an output parser returns: one string, or a list of strings. */
  datatype Parsed = Single(text: string) | Many(items: seq<string>)
}
