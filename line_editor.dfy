/** The terminal's line editor (the `onData` handler of
    src/components/Xterm.tsx): one input buffer, changed by each event, and
    the terminal operations each event issues. The command table and the
    commands themselves are outside: an Enter records which command would
    run with which arguments, and the prompt written afterwards is the
    prompt as it stands once the command has finished. */
module LineEditor {
  import opened JsStrings

  const Enter := "\r"
  const BackspaceChar := '\U{0008}'
  const DeleteChar := '\U{007F}'
  /** Cursor back, blank the cell, cursor back again. */
  const Erase := "\U{0008} \U{0008}"

  datatype TermOp = Write(text: string) | Writeln(text: string) | Run(command: string, args: seq<string>)

  /** "\b", or anything whose first code is 127. */
  predicate IsBackspace(data: string) {
    data == [BackspaceChar] || (|data| > 0 && data[0] == DeleteChar)
  }

  /** The command line: the trimmed buffer split on single spaces; the first
      piece names the command, the rest are its arguments. */
  function Parse(buffer: string): (string, seq<string>) {
    var parts := Split(Trim(buffer), ' ');
    (parts[0], parts[1..])
  }

  /** What Enter issues: a new line, the command if there is one by that
      name, and the prompt, unless the command rejects: the awaited call
      then leaves the handler before the prompt is written. */
  function EnterOps(cmd: string, args: seq<string>, commands: set<string>, prompt: string, rejects: bool)
    : seq<TermOp>
  {
    [Writeln("")] + (if cmd in commands then [Run(cmd, args)] else [])
    + (if cmd in commands && rejects then [] else [Write(prompt)])
  }

  /** What one input event does: the new buffer and the terminal
      operations, in order. `rejects` says that the command an Enter runs
      rejects; the buffer is then left as it was. */
  function Step(buffer: string, data: string, commands: set<string>, prompt: string, rejects: bool)
    : (r: (string, seq<TermOp>))
    ensures data == Enter ==> r.0 == "" || r.0 == buffer
    ensures data != Enter && IsBackspace(data) ==> StartsWith(buffer, r.0) && |buffer| - |r.0| <= 1
    ensures data != Enter && !IsBackspace(data) ==> StartsWith(r.0, buffer) && r.0[|buffer|..] == data
    ensures |r.1| <= 3
  {
    if data == Enter then
      var (cmd, args) := Parse(buffer);
      (if cmd in commands && rejects then buffer else "", EnterOps(cmd, args, commands, prompt, rejects))
    else if IsBackspace(data) then
      if |buffer| > 0 then (buffer[..|buffer| - 1], [Write(Erase)]) else (buffer, [])
    else
      (buffer + data, [Write(data)])
  }

  class Terminal {
    /** `inputBuffer.current`. */
    var buffer: string
    /** Everything written to the terminal and every command run so far. */
    var output: seq<TermOp>

    constructor ()
      ensures buffer == "" && output == []
    {
      buffer := "";
      output := [];
    }

    /** The `term.onData` handler. */
    method OnData(data: string, commands: set<string>, prompt: string, rejects: bool)
      modifies this
      ensures buffer == Step(old(buffer), data, commands, prompt, rejects).0
      ensures output == old(output) + Step(old(buffer), data, commands, prompt, rejects).1
    {
      if data == Enter {
        var parts := Split(Trim(buffer), ' ');
        var cmd, args := parts[0], parts[1..];
        output := output + [Writeln("")];
        if cmd in commands {
          output := output + [Run(cmd, args)];
          if rejects {
            return;
          }
          buffer := "";
        } else {
          buffer := "";
        }
        output := output + [Write(prompt)];
      } else if data == [BackspaceChar] || (|data| > 0 && data[0] == DeleteChar) {
        if |buffer| > 0 {
          buffer := buffer[..|buffer| - 1];
          output := output + [Write(Erase)];
        }
      } else {
        buffer := buffer + data;
        output := output + [Write(data)];
      }
    }
  }

  lemma EnterOpsShape(cmd: string, args: seq<string>, commands: set<string>, prompt: string, rejects: bool)
    ensures var ops := EnterOps(cmd, args, commands, prompt, rejects);
      |ops| >= 2 && ops[0] == Writeln("")
      && (ops[|ops| - 1] == Write(prompt) <==> !(cmd in commands && rejects))
      && ((exists k :: 0 <= k < |ops| && ops[k].Run?) <==> cmd in commands)
      && (forall k :: 0 <= k < |ops| && ops[k].Run? ==> ops[k] == Run(cmd, args))
      && (forall k :: 0 <= k < |ops| - 1 ==> !ops[k].Write?)
  {
    var ops := EnterOps(cmd, args, commands, prompt, rejects);
    if cmd in commands {
      assert ops[1].Run?;
    }
  }

  /** Enter writes a new line first and runs a command exactly when its
      name is in the table, with the rest of the line as its arguments.
      A command that completes leaves the buffer empty and the prompt
      written last; one that rejects leaves the buffer as it was and
      writes no prompt. */
  lemma EnterDispatches(buffer: string, commands: set<string>, prompt: string, rejects: bool)
    ensures var r := Step(buffer, Enter, commands, prompt, rejects);
      EnterOutcome(buffer, Parse(buffer).0, Parse(buffer).1, r.0, r.1, commands, prompt, rejects)
  {
    var r := Step(buffer, Enter, commands, prompt, rejects);
    EnterStep(buffer, commands, prompt, rejects);
    EnterOutcomeOfOps(buffer, Parse(buffer).0, Parse(buffer).1, r.0, r.1, commands, prompt, rejects);
  }

  /** What Enter on `buffer`, parsed as `cmd` and `args`, leaves: buffer
      `b` and operations `ops`. */
  predicate EnterOutcome(buffer: string, cmd: string, args: seq<string>, b: string, ops: seq<TermOp>,
                         commands: set<string>, prompt: string, rejects: bool)
  {
    var completes := !(cmd in commands && rejects);
    |ops| >= 2 && ops[0] == Writeln("")
    && (completes ==> b == "" && ops[|ops| - 1] == Write(prompt))
    && (!completes ==> b == buffer && Write(prompt) !in ops)
    && ((exists k :: 0 <= k < |ops| && ops[k].Run?) <==> cmd in commands)
    && (forall k :: 0 <= k < |ops| && ops[k].Run? ==> ops[k] == Run(cmd, args))
  }

  lemma EnterOutcomeOfOps(buffer: string, cmd: string, args: seq<string>, b: string, ops: seq<TermOp>,
                          commands: set<string>, prompt: string, rejects: bool)
    requires b == (if cmd in commands && rejects then buffer else "")
    requires ops == EnterOps(cmd, args, commands, prompt, rejects)
    ensures EnterOutcome(buffer, cmd, args, b, ops, commands, prompt, rejects)
  {
    EnterOpsShape(cmd, args, commands, prompt, rejects);
    if cmd in commands && rejects {
      RejectedWritesNoPrompt(cmd, args, commands, prompt, rejects);
    }
  }

  /** Enter's buffer and operations, named by the parsed line. */
  lemma EnterStep(buffer: string, commands: set<string>, prompt: string, rejects: bool)
    ensures var cmd := Parse(buffer).0;
      Step(buffer, Enter, commands, prompt, rejects)
      == (if cmd in commands && rejects then buffer else "",
          EnterOps(cmd, Parse(buffer).1, commands, prompt, rejects))
  {
  }

  /** A rejecting command is followed by no prompt at all. */
  lemma RejectedWritesNoPrompt(cmd: string, args: seq<string>, commands: set<string>, prompt: string, rejects: bool)
    requires cmd in commands && rejects
    ensures Write(prompt) !in EnterOps(cmd, args, commands, prompt, rejects)
  {
    assert EnterOps(cmd, args, commands, prompt, rejects) == [Writeln(""), Run(cmd, args)];
  }

  /** After a rejected command the old line stays in the buffer, so what is
      typed next is appended to it. */
  lemma RejectedLineLingers(buffer: string, typed: string, commands: set<string>, prompt: string)
    requires Parse(buffer).0 in commands
    requires typed != Enter && !IsBackspace(typed)
    ensures Step(Step(buffer, Enter, commands, prompt, true).0, typed, commands, prompt, false).0 == buffer + typed
  {
    var b1 := Step(buffer, Enter, commands, prompt, true).0;
    assert b1 == buffer;
  }

  /** "ls" rejected, then "pwd" typed, leaves "lspwd" for the next Enter. */
  lemma RejectedLsThenPwd(prompt: string)
    ensures var commands := {"ls", "pwd"};
      Step(Step("ls", Enter, commands, prompt, true).0, "pwd", commands, prompt, false).0 == "lspwd"
  {
    assert TrimStart("ls") == "ls";
    assert TrimEnd("ls") == "ls";
    SplitWithoutSeparator("ls", ' ');
    assert Parse("ls").0 == "ls";
    assert !IsBackspace("pwd");
    RejectedLineLingers("ls", "pwd", {"ls", "pwd"}, prompt);
  }

  /** The command and its arguments, joined back with spaces, give the
      trimmed line. */
  lemma ParseRejoins(buffer: string)
    ensures var (cmd, args) := Parse(buffer); Join([cmd] + args, " ") == Trim(buffer)
  {
    var parts := Split(Trim(buffer), ' ');
    JoinSplit(Trim(buffer), ' ');
    assert [parts[0]] + parts[1..] == parts;
  }

  /** An ordinary event appends the data and echoes exactly it. */
  lemma RegularInputAppends(buffer: string, data: string, commands: set<string>, prompt: string, rejects: bool)
    requires data != Enter && !IsBackspace(data)
    ensures Step(buffer, data, commands, prompt, rejects) == (buffer + data, [Write(data)])
  {
  }

  /** Backspace removes exactly the last character and erases it on
      screen; on an empty buffer it does nothing at all. */
  lemma BackspaceRemovesLast(buffer: string, data: string, commands: set<string>, prompt: string, rejects: bool)
    requires IsBackspace(data) && data != Enter
    ensures |buffer| > 0 ==> Step(buffer, data, commands, prompt, rejects) == (buffer[..|buffer| - 1], [Write(Erase)])
    ensures |buffer| > 0 ==> buffer == Step(buffer, data, commands, prompt, rejects).0 + [buffer[|buffer| - 1]]
    ensures buffer == "" ==> Step(buffer, data, commands, prompt, rejects) == ("", [])
  {
  }

  /** Typing one ordinary character and then backspace restores the
      buffer. */
  lemma TypeThenErase(buffer: string, c: char, commands: set<string>, prompt: string, rejects: bool)
    requires [c] != Enter && c != BackspaceChar && c != DeleteChar
    ensures var (b1, ops1) := Step(buffer, [c], commands, prompt, rejects);
      var (b2, ops2) := Step(b1, [BackspaceChar], commands, prompt, rejects);
      b2 == buffer && ops1 == [Write([c])] && ops2 == [Write(Erase)]
  {
    assert (buffer + [c])[..|buffer|] == buffer;
  }
}
