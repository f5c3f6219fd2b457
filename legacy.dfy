/** The older single-file command table: `whoami`, `ls` name extraction,
    `cd`'s prompt update, the argument checks of `dload`, and its own copy
    of the `uload` upload loop. */
module LegacyCommands {
  import opened Wrappers
  import opened JsStrings
  import opened Ansi
  import opened Store
  import opened Chunked
  import LsCommand
  import UloadCommand

  const Usage := "Usage: dload [path/to/file]"
  /** This copy writes through `writeFile`, with a capital F. */
  const WriteName := "writeFile"

  /** `whoami` always answers with the fixed name. */
  function Whoami(hasTerm: bool): (lines: seq<string>)
    ensures hasTerm <==> lines == ["sam"]
    ensures !hasTerm <==> lines == []
  {
    if hasTerm then ["sam"] else []
  }

  /** The text one entry adds to the `ls` line: the file name, or the
      directory name in bold; a directory path with too few segments
      interpolates as "undefined". */
  function Piece(e: FSEntry): string {
    (if e.kind == File then Interpolate(LsCommand.ParseName(e))
     else Bold + Interpolate(LsCommand.ParseName(e)) + Reset) + "\t"
  }

  /** The line `ls` accumulates over the entries, in order. */
  function LsText(entries: seq<FSEntry>): string {
    if entries == [] then "" else LsText(entries[..|entries| - 1]) + Piece(entries[|entries| - 1])
  }

  /** The `forEach` that builds the line, then the single `writeln`. */
  method Ls(hasTerm: bool, hasAgent: bool, entries: seq<FSEntry>) returns (lines: seq<string>)
    ensures !hasTerm || !hasAgent ==> lines == []
    ensures hasTerm && hasAgent ==> lines == [LsText(entries)]
  {
    if !hasTerm || !hasAgent {
      return [];
    }
    var str := "";
    for i := 0 to |entries|
      invariant str == LsText(entries[..i])
    {
      assert entries[..i + 1][..i] == entries[..i];
      str := str + Piece(entries[i]);
    }
    assert entries[..|entries|] == entries;
    lines := [str];
  }

  /** A child file `d + n` shows as `n` and a child directory `d + n + "/"`
      as `n` in bold, each followed by a tab. */
  lemma PieceOfChild(d: string, n: string, size: Option<nat>, ts: Option<Timestamp>, owner: Option<string>)
    requires EndsWith(d, "/") && '/' !in n
    ensures Piece(FSEntry(File, d + n, size, ts, owner, None)) == n + "\t"
    ensures Piece(FSEntry(Dir, d + n + "/", None, None, None, None)) == Bold + n + Reset + "\t"
  {
    LsCommand.ParseNameOfChild(d, n, ts, size, owner);
  }

  /** `cd` replaces the prompt only with a truthy directory from the agent. */
  function CdPrompt(hasTerm: bool, hasAgent: bool, current: string, cwd: Option<string>): (prompt: string)
    ensures hasTerm && hasAgent && cwd.Some? && cwd.value != "" ==>
      prompt == FormatPrompt(Some(cwd.value)) && PromptDirectory(prompt) == cwd.value
    ensures !(hasTerm && hasAgent && cwd.Some? && cwd.value != "") ==> prompt == current
  {
    if !hasTerm || !hasAgent || cwd.None? || cwd.value == "" then current
    else
      PromptShowsDirectory(Some(cwd.value));
      FormatPrompt(Some(cwd.value))
  }

  /** What `dload` does before its save dialog: with other than one
      argument it prints usage and calls nothing; otherwise it asks the
      agent for the entry, and a missing entry is reported and then
      dereferenced anyway (the command fails outside its `try`). */
  datatype DloadStart =
    | DloadSkipped
    | DloadUsage
    | DloadMissing(line: string)
    | DloadSave(suggestedName: string)

  function StartDload(hasTerm: bool, hasAgent: bool, args: seq<string>, entry: Option<FSEntry>): (r: DloadStart)
    ensures r.DloadUsage? <==> hasTerm && hasAgent && |args| != 1
    ensures r.DloadMissing? <==> hasTerm && hasAgent && |args| == 1 && entry.None?
    ensures r.DloadMissing? ==> r.line == args[0] + " does not exist."
    ensures r.DloadSave? ==>
      hasTerm && hasAgent && |args| == 1 && entry.Some?
      && '/' !in r.suggestedName && EndsWith(entry.value.path, r.suggestedName)
    ensures hasTerm && hasAgent && |args| == 1 && entry.Some? ==>
      r == DloadSave(Split(entry.value.path, '/')[|Split(entry.value.path, '/')| - 1])
  {
    if !hasTerm || !hasAgent then DloadSkipped
    else if |args| != 1 then DloadUsage
    else if entry.None? then DloadMissing(args[0] + " does not exist.")
    else
      var slugs := Split(entry.value.path, '/');
      LastSegmentIsSuffix(entry.value.path);
      SplitPiecesLackSeparator(entry.value.path, '/');
      DloadSave(slugs[|slugs| - 1])
  }

  /** The last piece of a split is the text after the last "/". */
  lemma {:induction false} LastSegmentIsSuffix(s: string)
    ensures EndsWith(s, Split(s, '/')[|Split(s, '/')| - 1])
  {
    if s != [] {
      var rest := Split(s[1..], '/');
      var last := rest[|rest| - 1];
      LastSegmentIsSuffix(s[1..]);
      assert s[|s| - |last|..] == s[1..][|s[1..]| - |last|..];
      if s[0] != '/' && |rest| == 1 {
        JoinSplit(s[1..], '/');
        assert s == [s[0]] + s[1..];
      }
    }
  }

  /** This copy of `uload`: exactly one argument, the target path (which
      may be empty), then the same upload through `writeFile`. */
  method Uload(hasTerm: bool, hasAgent: bool, args: seq<string>, picked: Result<UloadCommand.PickedFile, string>,
               failure: Option<CallFailure>)
    returns (calls: seq<Call<byte>>, lines: seq<string>)
    ensures !hasTerm || !hasAgent ==> calls == [] && lines == []
    ensures hasTerm && hasAgent && |args| != 1 ==> calls == [] && lines == [Usage]
    ensures hasTerm && hasAgent && |args| == 1 && picked.Failure? ==>
      calls == [] && lines == [UloadCommand.ErrorLine(picked.error)]
    ensures hasTerm && hasAgent && |args| == 1 && picked.Success? ==>
      var full := UploadCalls(WriteName, args[0], picked.value.size, picked.value.values);
      if failure.Some? && failure.value.index < |full| then
        calls == full[..failure.value.index + 1] && lines == [UloadCommand.ErrorLine(failure.value.message)]
      else
        calls == full && lines == []
  {
    calls, lines := [], [];
    if !hasTerm || !hasAgent {
      return;
    }
    if |args| != 1 {
      lines := [Usage];
      return;
    }
    var path := args[0];
    if picked.Failure? {
      lines := [UloadCommand.ErrorLine(picked.error)];
      return;
    }
    var total, error;
    calls, total, error := Transfer(WriteName, path, picked.value.size, picked.value.values, failure);
    if error.Some? {
      lines := [UloadCommand.ErrorLine(error.value)];
    }
  }

  /** The two copies of `uload` send the same bytes in the same chunks; they
      differ only in the write method's name. */
  lemma UloadCopiesAgree(path: string, file: UloadCommand.PickedFile, k: nat)
    requires k < |UploadCalls(WriteName, path, file.size, file.values)|
    ensures |UploadCalls(WriteName, path, file.size, file.values)|
         == |UploadCalls(UloadCommand.WriteName, path, file.size, file.values)|
    ensures var c := UploadCalls(WriteName, path, file.size, file.values)[k];
      var d := UploadCalls(UloadCommand.WriteName, path, file.size, file.values)[k];
      (c.WriteCall? <==> d.WriteCall?) && (c.WriteCall? ==> c.data == d.data && c.path == d.path)
      && (!c.WriteCall? ==> c == d)
  {
    RenamedWrites(WriteName, UloadCommand.WriteName, path, file.values);
    var a := ValueWrites(WriteName, path, file.values);
    var b := ValueWrites(UloadCommand.WriteName, path, file.values);
    if 0 < k <= |a| {
      assert UploadCalls(WriteName, path, file.size, file.values)[k] == a[k - 1];
      assert UploadCalls(UloadCommand.WriteName, path, file.size, file.values)[k] == b[k - 1];
      WritesNamed(WriteName, path, file.values, a[k - 1]);
    }
  }
}
