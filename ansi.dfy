/** The terminal colouring helpers of src/system/constants.ts: the shell
    prompt and the two output wrappers, all built from ANSI escape codes. */
module Ansi {
  import opened Wrappers
  import opened JsStrings

  const Bold := "\U{1B}[1m"
  const Reset := "\U{1B}[0m"
  const Yellow := "\U{1B}[33m"
  const BoldRed := "\U{1B}[1;31m"

  /** What every prompt ends with after the directory. */
  const PromptTail := "$" + Reset + " "

  /** What `stderr` puts before the `stdout`-wrapped message. */
  const ErrorTag := BoldRed + "ERROR:" + Reset + " "

  /** `formatPrompt(cwd)`: the directory in bold followed by "$", a reset and
      a space; a missing directory shows as "/". */
  function FormatPrompt(cwd: Option<string>): (r: string)
    ensures StartsWith(r, Bold) && EndsWith(r, PromptTail)
    ensures |r| == |Bold| + |cwd.GetOr("/")| + |PromptTail|
    ensures r[|Bold|..|r| - |PromptTail|] == cwd.GetOr("/")
  {
    Bold + cwd.GetOr("/") + PromptTail
  }

  /** `stdout(input)`: the input in yellow, then a reset. */
  function Stdout(input: string): (r: string)
    ensures StartsWith(r, Yellow) && EndsWith(r, Reset)
    ensures |r| == |Yellow| + |input| + |Reset|
    ensures r[|Yellow|..|r| - |Reset|] == input
  {
    Yellow + input + Reset
  }

  /** `stderr(input)`: a bold red "ERROR:" tag, a reset and a space, then
      `stdout(input)`. */
  function Stderr(input: string): (r: string)
    ensures StartsWith(r, ErrorTag) && EndsWith(r, Stdout(input))
    ensures |r| == |ErrorTag| + |Stdout(input)|
  {
    var r := ErrorTag + Stdout(input);
    StartsWithConcat(ErrorTag, Stdout(input));
    EndsWithConcat(ErrorTag, Stdout(input));
    r
  }

  /** The directory shown in a prompt built by FormatPrompt. */
  function PromptDirectory(prompt: string): string
    requires |prompt| >= |Bold| + |PromptTail|
  {
    prompt[|Bold|..|prompt| - |PromptTail|]
  }

  /** The text inside a `stdout` wrapping. */
  function StdoutText(wrapped: string): string
    requires |wrapped| >= |Yellow| + |Reset|
  {
    wrapped[|Yellow|..|wrapped| - |Reset|]
  }

  /** The prompt shows exactly the directory it was made from (or "/"), so
      two prompts are equal only when their directories are. */
  lemma PromptShowsDirectory(cwd: Option<string>)
    ensures PromptDirectory(FormatPrompt(cwd)) == cwd.GetOr("/")
  {
  }

  lemma PromptInjective(a: string, b: string)
    requires FormatPrompt(Some(a)) == FormatPrompt(Some(b))
    ensures a == b
  {
    PromptShowsDirectory(Some(a));
    PromptShowsDirectory(Some(b));
  }

  /** Each wrapper contains its input verbatim, at a fixed position. */
  lemma WrappersContainInput(input: string)
    ensures StdoutText(Stdout(input)) == input
    ensures Stdout(input)[|Yellow|..|Yellow| + |input|] == input
    ensures Stderr(input)[|ErrorTag| + |Yellow|..|ErrorTag| + |Yellow| + |input|] == input
    ensures FormatPrompt(Some(input))[|Bold|..|Bold| + |input|] == input
  {
    var e := Stderr(input);
    assert e == ErrorTag + Stdout(input);
    assert e[|ErrorTag|..] == Stdout(input);
  }
}
