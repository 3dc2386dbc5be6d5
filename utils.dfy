/** Small helpers shared by the dispatcher and the tables: rendering an
    optional string, and the two usage messages. */
module Utils {
  import opened Base

  /** `opt_string_eval`: the value itself, or `"-"` when it is absent. */
  function OptStringEval(value: Option<string>): (r: string)
    ensures value.Some? ==> r == value.value
    ensures value.None? ==> r == "-"
  {
    match value
    case Some(v) => v
    case None => "-"
  }

  /** The placeholder is ambiguous: a present `"-"` renders like an absent
      value, so the rendering is not injective. */
  lemma OptStringEvalCollides()
    ensures OptStringEval(Some("-")) == OptStringEval(None)
    ensures Some("-") != None
  {
  }

  /** Any rendering other than `"-"` gives the value back. */
  lemma OptStringEvalRecovers(value: Option<string>)
    requires OptStringEval(value) != "-"
    ensures value == Some(OptStringEval(value))
  {
  }

  /** The two usage messages: `invalid_machine` and `invalid_image`. */
  datatype UsageMessage = InvalidMachine | InvalidImage

  /** The text a usage message prints. */
  function UsageText(m: UsageMessage): string {
    match m
    case InvalidMachine => "Error: specify a machine name to work with. See --help for more information."
    case InvalidImage => "Error: specify a image name to work with. See --help for more information."
  }
}
