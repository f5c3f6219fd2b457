/** The terminal commands of src/system/commands/index.ts that check their
    arguments or compute a path and then perform one effect: `login`,
    `whoami`, `spawn`, `echo`, `kill`, `open`, `view`, `close` and `wipe`.
    Each command is a function from its arguments and the app context to
    the effects it performs, in order. */
module Commands {
  import opened Wrappers
  import opened JsStrings
  import opened Ansi

  /** The JSON-like values the agent state holds. */
  datatype JsValue = Str(s: string) | Arr(items: seq<JsValue>) | Other(tag: nat)

  /** The agent state: an object with named fields. */
  type AgentState = map<string, JsValue>

  /** The parts of the app context the commands read: whether the terminal
      and the agent connection exist, the agent state, and the page origin. */
  datatype Ctx = Ctx(hasTerm: bool, hasAgent: bool, agentState: Option<AgentState>, origin: string)

  datatype Effect =
    | Writeln(text: string)
    | AgentCall(name: string, args: seq<string>)
    | SetKey(key: string)
    | SetFilePath(path: Option<string>)
    | OpenWindow(url: string)
    | SetAgentState(state: AgentState)

  const WwwRoot := "/var/www/"

  /** `agentState?.<field>` when it holds a string. */
  function Field(ctx: Ctx, name: string): Option<string> {
    if ctx.agentState.Some? && name in ctx.agentState.value && ctx.agentState.value[name].Str? then
      Some(ctx.agentState.value[name].s)
    else None
  }

  /** The path `open` and `view` work on: an absolute argument as is,
      anything else after `agentState?.cwd` (which reads "undefined" when
      there is no state). */
  function Resolve(ctx: Ctx, arg: string): (path: string)
    ensures StartsWith(arg, "/") ==> path == arg
    ensures !StartsWith(arg, "/") ==> path == Interpolate(Field(ctx, "cwd")) + arg
  {
    if StartsWith(arg, "/") then arg else Interpolate(Field(ctx, "cwd")) + arg
  }

  /** `login`: exactly one argument is handed to `setKey`; anything else
      prints the usage and sets nothing. */
  function Login(args: seq<string>): (effects: seq<Effect>)
    ensures |args| == 1 <==> (exists e :: e in effects && e.SetKey?)
    ensures |args| == 1 ==> effects == [SetKey(args[0])]
    ensures |args| != 1 ==> effects == [Writeln(Stdout("Usage: login [password]"))]
  {
    if |args| != 1 then [Writeln(Stdout("Usage: login [password]"))]
    else
      var effects := [SetKey(args[0])];
      assert effects[0] in effects;
      effects
  }

  /** `whoami`: the user name from the agent state, in the output colour. */
  function Whoami(ctx: Ctx): (effects: seq<Effect>)
    ensures !ctx.hasTerm || ctx.agentState.None? ==> effects == []
    ensures ctx.hasTerm && ctx.agentState.Some? ==>
      effects == [Writeln(Stdout(Interpolate(Field(ctx, "username"))))]
  {
    if !ctx.hasTerm || ctx.agentState.None? then []
    else [Writeln(Stdout(Interpolate(Field(ctx, "username"))))]
  }

  /** `spawn`: the arguments, joined by single spaces, go to the agent as
      one goal string. */
  function Spawn(args: seq<string>, ctx: Ctx): (effects: seq<Effect>)
    ensures !ctx.hasAgent || !ctx.hasTerm ==> effects == []
    ensures ctx.hasAgent && ctx.hasTerm ==> effects == [AgentCall("spawn", [Join(args, " ")])]
  {
    if !ctx.hasAgent || !ctx.hasTerm then [] else [AgentCall("spawn", [Join(args, " ")])]
  }

  /** The goal `spawn` sends splits back into the typed arguments when none
      of them holds a space. */
  lemma SpawnKeepsArguments(args: seq<string>, ctx: Ctx)
    requires ctx.hasAgent && ctx.hasTerm && |args| >= 1
    requires forall i :: 0 <= i < |args| ==> ' ' !in args[i]
    ensures Split(Spawn(args, ctx)[0].args[0], ' ') == args
  {
    SplitJoin(args, ' ');
  }

  /** `echo`: the arguments joined by spaces, wrapped by `stderr`. */
  function Echo(args: seq<string>, ctx: Ctx): (effects: seq<Effect>)
    ensures !ctx.hasTerm ==> effects == []
    ensures ctx.hasTerm ==>
      |effects| == 1 && effects[0].Writeln?
      && effects[0].text == ErrorTag + Yellow + Join(args, " ") + Reset
  {
    if !ctx.hasTerm then [] else [Writeln(Stderr(Join(args, " ")))]
  }

  /** `kill`: exactly one argument is sent to the agent, and the success
      message is written once that call resolves; `callFails` says that it
      rejects, which ends the command before the message. Anything else
      prints the usage and calls nothing. */
  function Kill(args: seq<string>, ctx: Ctx, callFails: bool): (effects: seq<Effect>)
    ensures !ctx.hasTerm || !ctx.hasAgent ==> effects == []
    ensures ctx.hasTerm && ctx.hasAgent && |args| != 1 ==> effects == [Writeln(Stdout("Usage: kill [procId]"))]
    ensures ctx.hasTerm && ctx.hasAgent && |args| == 1 && callFails ==>
      effects == [AgentCall("kill", [args[0]])]
    ensures ctx.hasTerm && ctx.hasAgent && |args| == 1 && !callFails ==>
      effects == [AgentCall("kill", [args[0]]), Writeln("Process " + args[0] + " successfully aborted.")]
  {
    if !ctx.hasTerm || !ctx.hasAgent then []
    else if |args| != 1 then [Writeln(Stdout("Usage: kill [procId]"))]
    else
      var call := [AgentCall("kill", [args[0]])];
      if callFails then call else call + [Writeln("Process " + args[0] + " successfully aborted.")]
  }

  /** `kill` reaches the agent exactly when it is given one argument, and
      confirms exactly when that call resolves. */
  lemma KillCallsAgentOnlyWithOneArgument(args: seq<string>, ctx: Ctx, callFails: bool)
    requires ctx.hasTerm && ctx.hasAgent
    ensures (exists e :: e in Kill(args, ctx, callFails) && e.AgentCall?) <==> |args| == 1
    ensures (exists e :: e in Kill(args, ctx, callFails) && e.Writeln? && StartsWith(e.text, "Process "))
      <==> |args| == 1 && !callFails
  {
    var effects := Kill(args, ctx, callFails);
    if |args| == 1 {
      assert effects[0].AgentCall?;
      if !callFails {
        assert effects[1].Writeln? && StartsWith(effects[1].text, "Process ");
      }
    } else {
      assert effects[0].text[0] == '\U{1B}';
    }
  }

  /** `open`: shows the resolved first argument in the editor; no argument,
      no effect. */
  function Open(args: seq<string>, ctx: Ctx): (effects: seq<Effect>)
    ensures |args| == 0 ==> effects == []
    ensures |args| > 0 ==> effects == [SetFilePath(Some(Resolve(ctx, args[0])))]
  {
    if |args| == 0 then [] else [SetFilePath(Some(Resolve(ctx, args[0])))]
  }

  /** `view`: opens a window only for a resolved path under /var/www/, on
      the page origin followed by the path without its leading "/var". */
  function View(args: seq<string>, ctx: Ctx): (effects: seq<Effect>)
    ensures |args| == 0 ==> effects == []
    ensures |args| > 0 && !StartsWith(Resolve(ctx, args[0]), WwwRoot) ==> effects == []
    ensures |args| > 0 && StartsWith(Resolve(ctx, args[0]), WwwRoot) ==>
      effects == [OpenWindow(ctx.origin + Resolve(ctx, args[0])[4..])]
  {
    if |args| == 0 then []
    else
      var path := Resolve(ctx, args[0]);
      if !StartsWith(path, WwwRoot) then [] else [OpenWindow(ctx.origin + path[4..])]
  }

  /** What `view` opens is the origin followed by "/www/...": putting "/var"
      back in front of what follows the origin gives the path `open` would
      edit. */
  lemma ViewServesWhatOpenEdits(args: seq<string>, ctx: Ctx)
    requires View(args, ctx) != []
    ensures |args| > 0
    ensures var url := View(args, ctx)[0].url;
      StartsWith(url, ctx.origin)
      && StartsWith(url[|ctx.origin|..], "/www/")
      && Open(args, ctx) == [SetFilePath(Some("/var" + url[|ctx.origin|..]))]
  {
    var path := Resolve(ctx, args[0]);
    var url := ctx.origin + path[4..];
    assert url[|ctx.origin|..] == path[4..];
    assert path[..4] == "/var";
    assert path == path[..4] + path[4..];
    assert url[..|ctx.origin|] == ctx.origin;
    assert path[4..][..5] == path[4..9];
  }

  /** `close`: clears the editor's file. */
  function Close(): (effects: seq<Effect>)
    ensures effects == [SetFilePath(None)]
  {
    [SetFilePath(None)]
  }

  /** `wipe`: the agent state with an empty conversation and every other
      field kept (an absent state becomes just the empty conversation). */
  function Wipe(ctx: Ctx): (effects: seq<Effect>)
    ensures !ctx.hasAgent ==> effects == []
    ensures ctx.hasAgent ==>
      |effects| == 1 && effects[0].SetAgentState?
      && var s := effects[0].state;
         "conversation" in s && s["conversation"] == Arr([])
         && (forall k :: k != "conversation" ==>
               (k in s <==> ctx.agentState.Some? && k in ctx.agentState.value)
               && (k in s ==> s[k] == ctx.agentState.value[k]))
  {
    if !ctx.hasAgent then []
    else
      var prev := if ctx.agentState.Some? then ctx.agentState.value else map[];
      [SetAgentState(prev["conversation" := Arr([])])]
  }
}
