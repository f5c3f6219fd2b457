# Quorra terminal and agent, modelled in Dafny

Quorra is a browser terminal backed by a Cloudflare agent. The agent keeps
a current directory, lists and reads objects of a bucket, and receives
uploads through a table of open fixed-length streams. The browser side has
three parts:

- a line editor, which dispatches commands on Enter;
- a command set: `ls`, `cd`, `login`, `spawn`, `kill`, `open`, `view`, the
  chunked `uload`, and an older single-file command table;
- an on-screen keyboard and an editor whose `saveFile` streams the buffer
  to the agent in 16 KiB slices.

The server side also includes:

- the `fs` syscall object;
- the e-mail tools offered to a language model;
- the model and provider lookup tables.

This project models all of these in Dafny.

## How the model is built

- **State the source changes in place is held in classes.** Methods state
  the whole new state.
  - `Agent.Quorra` holds the agent's directory and descriptor table.
  - `Fs.Descriptors` holds the `fs` table.
  - `LineEditor.Terminal` holds the input buffer.
  - `Keyboard.ActiveKeys` holds the highlighted key set.
- **Loops in the source are loops in the model.** They cover:
  - `cat`;
  - the `ls` `forEach` loops;
  - both nested upload loops;
  - the editor's slice loop.

  Each loop is proved against a recursive specification function, such as
  `Chunked.UploadCalls`, `Editor.SaveCalls`, `LsCommand.LongLines` or
  `LegacyCommands.LsText`. Lemmas state what that function guarantees.
- **Bucket reads are inputs.** The bucket's `list` call is a function
  parameter, and `get`/`head` are lookups in a `Store.Bucket` map.
- **Agent calls are traces.** An agent call is a `Chunked.Call` value.
- **A failing call is an input.** The call that throws, if any, is given
  as `Chunked.CallFailure`: its index in the call sequence and the text of
  the thrown value. This makes every `catch` path reachable.
- **A rejected await is an input.** Some awaits in the source have no
  `catch`, and a rejection there ends the handler early:
  - `rejects` says that the command an Enter runs in the line editor
    rejects;
  - `sendFails` says that `sendReply` rejects in the e-mail handler;
  - `callFails` says that the agent's `kill` call rejects in `kill`.
- **JavaScript string behaviour is modelled where the code depends on it.**
  `JsStrings` covers:
  - `split` on a one-character separator, and `join`;
  - `trim`, `padStart`/`padEnd`, `String(n)`, ASCII case mapping;
  - "undefined" in template literals;
  - `Math.max` over lengths.
- **`entries.sort()` is the identity.** The source sorts the listing with
  no comparator, so JavaScript compares every entry as the same string,
  "[object Object]". The sort is stable, so the listing keeps its order,
  and the model keeps it too.

Where the descriptions of the system and the code differ, the model follows
the code. Details:

- **`uload` usage line.** Both `uload` commands print the usage line
  "Usage: dload [path/to/file]".
- **Write method name.**
  - `src/system/commands/uload.ts` and the editor write through
    `"writefile"`.
  - The copy in `src/system/commands.ts` writes through `"writeFile"`.
- **Process table.** The agent in `api/index.ts` has no process table or
  task loop; `spawn`, `kill` and `ps` only forward to it.
- **Owner default.**
  - `fs.readdir` defaults a missing owner to `Owner.User`.
  - `fs.stat` does not.

  `Owner.User` is taken to be `"user"`: that is the value `ls` compares
  owners against.
- **Unnamed directory in `ls`.** A directory path with too few segments
  makes `ls` fail computing its column widths. The model returns
  `Failure` there.
- **No user name in `ls`.** The agent state holds only `cwd`, so
  `agentState.username` is undefined unless a state carries one. The owner
  column then reads the length of undefined for any entry owned by
  "user" or by no one, every directory entry included. `LsCommand.Ls`
  takes the user name as an option and returns `Failure` there.

## Model

| member | source | states |
|---|---|---|
| Agent.ToAbsolutePath | api/index.ts:101-103 | an absolute path is kept; any other path is appended to the current directory with no separator |
| Agent.AbsolutePathProperties | api/index.ts:101-103 | resolving against an absolute directory gives an absolute path, and resolving twice equals resolving once |
| Agent.CdTarget | api/index.ts:117-118 | the `cd` target always ends with "/": it is the resolved path itself when that already ends with "/", and otherwise that path plus "/" |
| Agent.CdTargetIsDirectory | api/index.ts:113-126 | from an absolute directory, the `cd` target is again an absolute directory path |
| Agent.ListDir | api/index.ts:22-42 | one file entry per object (key, size, upload time, no body), then one directory entry per delimited prefix, in that order |
| Agent.GetFile | api/index.ts:44-57 | null exactly when the key is absent; otherwise a file entry with the object's key, size and time, carrying the body only when not head-only |
| Agent.Quorra.constructor | api/index.ts:8-10 | an agent woken with saved state keeps that directory; a fresh one has no state and no open streams |
| Agent.Quorra.OnStart | api/index.ts:15-20 | without saved state the directory becomes "/"; with it nothing changes |
| Agent.Quorra.Open | api/index.ts:59-75 | the stream is registered under the absolute path, replacing any earlier one, and the upload of its readable end starts |
| Agent.Quorra.Close | api/index.ts:77-87 | an unknown path is a no-op; otherwise that stream is closed and exactly its entry is deleted |
| Agent.Quorra.WriteFile | api/index.ts:89-99 | data reaches the stream open for the absolute path; with none it returns null and nothing is written |
| Agent.Quorra.Ls | api/index.ts:106-111 | lists the resolved first argument, or the current directory when there is none |
| Agent.Quorra.Cd | api/index.ts:113-126 | with exactly one argument whose target lists non-empty, the directory becomes the target and is returned; otherwise nothing changes and nothing is returned |
| Agent.Quorra.Cat | api/index.ts:128-150 | no argument or no object sends nothing; an object with a body sends each chunk in order, then ends; an object without a body throws |
| Agent.Quorra.File | api/index.ts:152-160 | with an argument, the head-only lookup of the argument resolved against the current directory: present exactly when the object exists, and never with a body |
| Agent.StartThenCd | api/index.ts:113-126 | starting fresh and then running any `cd` leaves an absolute directory ending in "/" |
| Fs.ReadDir | api/fs.ts:8-29 | one file entry per object, with its owner defaulting to "user", then one directory entry per prefix |
| Fs.ReadDirFilesHaveOwners | api/fs.ts:14-27 | exactly the first entries are files, and every file entry has an owner |
| Fs.Stat | api/fs.ts:40-54 | null exactly when the head lookup misses; otherwise the object's entry with the owner metadata as stored |
| Fs.StatAgreesWithReadDir | api/fs.ts:46-52 | `stat` and `readdir` agree on an object in every field; on the owner too, unless the metadata is missing, where `readdir` says "user" and `stat` nothing |
| Fs.ReadFile | api/fs.ts:84-99 | null exactly when there is no object or it has no body; otherwise the body stream or the text, as asked |
| Fs.Descriptors.constructor | api/fs.ts:4 | the descriptor table starts empty |
| Fs.Descriptors.Open | api/fs.ts:55-62 | the stream is registered under the path as given, and the upload starts with the owner as metadata |
| Fs.Descriptors.UploadSettled | api/fs.ts:63-74 | once the upload settles, the path's entry is gone; a failure is logged as "-- DURING OPEN --name: message" |
| Fs.Descriptors.Close | api/fs.ts:76-81 | an unknown path is a no-op; otherwise that stream is closed and exactly its entry deleted |
| Fs.Descriptors.WriteFile | api/fs.ts:30-36 | data reaches the stream open for the path; with none it returns null and nothing is written |
| Fs.UploadOnce | api/fs.ts:55-81 | open, write, close, settle: the write reaches the opened stream, a later write is refused, and no entry is left |
| Tools.ReplySubject | api/tools.ts:43-45 | the reply subject always starts with "Re: "; a subject already starting so is kept, any other gets the prefix ("undefined" when absent) |
| Tools.ReplySubjectIdempotent | api/tools.ts:43-45 | replying to a reply does not stack prefixes |
| Tools.MailPath | api/tools.ts:74-76 | the stored mail lies under /var/mail/ and ends with "_", the first 8 UUID characters and ".txt" |
| Tools.StoredContent | api/tools.ts:77-85 | the stored text starts with the formatted mail; a truthy reply appends a blank line and the formatted reply under the reply subject |
| Tools.Reply | api/tools.ts:54-67 | the reply names the original message in both `In-Reply-To` and `References`, comes from "Quorra" at the agent's address, goes to the mail's sender, has a subject starting with "Re: " and carries the given text |
| Tools.HandleEmail | api/tools.ts:53-87 | a truthy reply is sent first, to the sender; the mail is stored, last, exactly unless that send rejects, which ends the handler before the `put` |
| Tools.HandleEmailThreadsReply | api/tools.ts:53-87 | when the send succeeds, the reply goes to the sender from Quorra, under "Re: ", with both threading headers naming the original message, and the mail is stored whatever `shouldStore` says |
| Tools.RejectEmail | api/tools.ts:111-115 | the reason reaches the reject callback unchanged |
| Tools.GetToolDefsByMode | api/tools.ts:125-134 | two e-mail tools in e-mail mode, none for all-syscalls, an error otherwise |
| Tools.GenerateCallFunction | api/tools.ts:137-170 | the e-mail dispatcher, the unimplemented placeholder, or an error otherwise |
| Tools.Invoke | api/tools.ts:157-166 | the e-mail dispatcher runs `handleEmail` for its name and rejects with the given reason for the other; any other name does nothing; the placeholder logs "Unimplemented. Tried" with the name and arguments |
| Tools.ModesAgree | api/tools.ts:125-170 | a mode has tool definitions exactly when it has a call function; every offered tool is dispatched; other names do nothing |
| Models.GetModelSystemPrompt | api/utils.ts:38-52 | each known model gets its prompt, and any other model is an error naming it |
| Models.GetProviderConfig | api/utils.ts:54-72 | each known model gets its provider URL and key variable, and any other model is an error naming it |
| Models.LookupsAgree | api/utils.ts:38-72 | a model has a prompt exactly when it has a provider, and both lookups reject an unknown model with the same message; the Hermes prompts go with the Nous provider, and each provider's key variable matches its URL |
| Ansi.FormatPrompt | src/system/constants.ts:1 | the prompt is bold, the directory ("/" when none), then "$", reset and a space |
| Ansi.Stdout | src/system/constants.ts:2 | the text wrapped in yellow and reset |
| Ansi.Stderr | src/system/constants.ts:3 | a bold red "ERROR:" tag, then the text in yellow |
| Ansi.PromptShowsDirectory | src/system/constants.ts:1 | the directory can be read back from the prompt |
| Ansi.PromptInjective | src/system/constants.ts:1 | different directories give different prompts |
| Ansi.WrappersContainInput | src/system/constants.ts:2-3 | each wrapper shows its input at a fixed position after its colour codes, and the text can be read back out of `stdout` |
| LineEditor.Step | src/components/Xterm.tsx:55-77 | Enter leaves the buffer empty or, after a rejected command, unchanged; backspace drops at most the last character; other input is appended exactly; no event issues more than three terminal operations |
| LineEditor.Terminal.OnData | src/components/Xterm.tsx:54-77 | the buffer and the terminal output advance by exactly one input step; a rejecting command leaves the handler before the buffer is cleared and the prompt written |
| LineEditor.EnterOpsShape | src/components/Xterm.tsx:58-65 | what Enter issues starts with a new line, holds a command run exactly when the name is in the table, with the given arguments, writes nothing before the end, and ends with the prompt exactly unless the command rejects |
| LineEditor.EnterDispatches | src/components/Xterm.tsx:55-65 | Enter writes a new line and runs the first word with the rest as arguments exactly when it is a command; a completed command or an unknown name empties the buffer and writes the prompt last; a rejected command keeps the buffer and writes no prompt |
| LineEditor.RejectedLineLingers | src/components/Xterm.tsx:59-61 | after a rejected command, what is typed next is appended to the old line |
| LineEditor.RejectedLsThenPwd | src/components/Xterm.tsx:59-61 | "ls" rejected, then "pwd" typed, leaves "lspwd" in the buffer |
| LineEditor.ParseRejoins | src/components/Xterm.tsx:57 | the command and its arguments, joined by spaces, give the trimmed line back |
| LineEditor.RegularInputAppends | src/components/Xterm.tsx:72-76 | other input is appended to the buffer and echoed exactly |
| LineEditor.BackspaceRemovesLast | src/components/Xterm.tsx:66-71 | backspace removes exactly the last character and erases it on screen; on an empty buffer it does nothing |
| LineEditor.TypeThenErase | src/components/Xterm.tsx:66-76 | typing one character then backspace restores the buffer |
| Commands.Resolve | src/system/commands/index.ts:72-78 | an absolute argument is kept; otherwise the state's directory ("undefined" when absent) is prefixed |
| Commands.Login | src/system/commands/index.ts:20-27 | the key is set exactly when there is one argument, and is that argument; otherwise the usage is printed |
| Commands.Whoami | src/system/commands/index.ts:34-37 | with a terminal and state, prints the state's user name wrapped for stdout; otherwise nothing |
| Commands.Spawn | src/system/commands/index.ts:48-51 | the agent's `spawn` gets the arguments joined by spaces |
| Commands.SpawnKeepsArguments | src/system/commands/index.ts:48-51 | arguments without spaces are recovered exactly from what `spawn` sends |
| Commands.Echo | src/system/commands/index.ts:52-55 | with a terminal, exactly one line is printed: the error tag, then the arguments joined by spaces in yellow, then reset; without one nothing |
| Commands.Kill | src/system/commands/index.ts:60-68 | nothing without a terminal and an agent; other than one argument prints the usage; one argument is sent to the agent's `kill`, and the success line follows exactly when that call resolves |
| Commands.KillCallsAgentOnlyWithOneArgument | src/system/commands/index.ts:60-68 | the agent is called exactly when there is one argument, and the kill is confirmed exactly when there is one argument and the call resolves |
| Commands.Open | src/system/commands/index.ts:72-78 | the editor's file becomes the resolved argument; no argument does nothing |
| Commands.View | src/system/commands/index.ts:79-86 | only paths under /var/www/ open a window, at the origin plus the path without "/var" |
| Commands.ViewServesWhatOpenEdits | src/system/commands/index.ts:72-86 | `view` opens the URL of the very file `open` would edit |
| Commands.Close | src/system/commands/index.ts:87-89 | the editor's file is cleared |
| Commands.Wipe | src/system/commands/index.ts:90-92 | the conversation becomes empty and every other state field is kept |
| LsCommand.RequestPath | src/system/commands/ls.ts:44-48 | the path option, else the current directory, else "/"; kept as it is when it ends with "/", and given one otherwise |
| LsCommand.ParseOwner | src/system/commands/ls.ts:13-14 | "user" stands for the session's user name; other owners are shown as stored |
| LsCommand.ParseName | src/system/commands/ls.ts:36-39 | a name never holds "/", and every file has one |
| LsCommand.ParseNameOfChild | src/system/commands/ls.ts:36-39 | a child file `d + n` is named `n`, and a child directory `d + n + "/"` is named `n` |
| LsCommand.ColumnWidths | src/system/commands/ls.ts:51-62 | each column is as wide as its longest text over all entries, hidden ones included; 0 wide for no entries, where `Math.max()` gives -Infinity, which no line reads |
| LsCommand.ColumnsAlign | src/system/commands/ls.ts:51-76 | every owner, size and time fits its column, so padding gives each exactly the column width |
| LsCommand.ShownEntries | src/system/commands/ls.ts:67 | exactly the shown entries remain: every kept entry is shown, every shown entry is kept, and the kept ones keep their order |
| LsCommand.ShownEntriesKeepsCount | src/system/commands/ls.ts:67 | a shown entry occurs in the listing exactly as many times as in the directory |
| LsCommand.HidingFiltersLong | src/system/commands/ls.ts:63-85 | hiding dot-names is only a filter: listing the shown entries with `all` gives the same long lines, one per shown entry |
| LsCommand.HidingFiltersShort | src/system/commands/ls.ts:63-85 | the same for the short listing's line |
| LsCommand.LongListing | src/system/commands/ls.ts:63-76 | the loop's lines are the long lines of the shown entries, in order |
| LsCommand.ShortListing | src/system/commands/ls.ts:77-85 | the loop's string is the shown names, each followed by a tab |
| LsCommand.Ls | src/system/commands/ls.ts:51-85 | the TypeError exactly when some entry has no name, or when there is no user name and some entry is owned by "user" or by no one; otherwise the long lines, or one stdout-wrapped short line |
| LsCommand.OwnersIgnoreUnreadName | src/system/commands/ls.ts:13-14 | when no owner needs the user name, no owner shown is "user", and any stand-in name gives the same owners |
| Chunked.ChunksFromProperties | src/system/commands/uload.ts:33-47 | a value's slices join back to it; there is at least one slice, and none is over 16384 bytes |
| Chunked.UploadPayload | src/system/commands/uload.ts:24-49 | the writes carry exactly the bytes the reader yielded, in order |
| Chunked.UploadWritesBounded | src/system/commands/uload.ts:36-46 | every call between open and close is a write of at most 16384 bytes, and every value read gives at least one write |
| Chunked.OpenFirstCloseLast | src/system/commands/uload.ts:24-30 | `open` is the first call and only the first; `close` is the last and only the last |
| Chunked.RenamedWrites | src/system/commands.ts:132-138 | renaming the write method changes nothing but the name in each write |
| Chunked.SendValue | src/system/commands/uload.ts:33-47 | the inner loop makes exactly one value's writes, stopping after the call that throws |
| Chunked.Transfer | src/system/commands/uload.ts:24-49 | the calls are the whole upload, cut off after the call that throws; without a throw, `total` counts the bytes sent |
| UloadCommand.Uload | src/system/commands/uload.ts:10-53 | a missing path prints the usage and calls nothing; a picker or agent failure is printed as "uload error: "; otherwise the whole upload runs |
| UloadCommand.UploadDeliversFile | src/system/commands/uload.ts:24-49 | a completed upload opens with the file size, sends exactly the file's bytes through `writefile` in slices of at most 16384, then closes |
| LegacyCommands.Whoami | src/system/commands.ts:18-21 | writes "sam" exactly when there is a terminal |
| LegacyCommands.Ls | src/system/commands.ts:22-34 | the loop writes one line holding every entry's piece, in order |
| LegacyCommands.PieceOfChild | src/system/commands.ts:27-31 | a child file shows its last segment, and a child directory shows its segment in bold; each is followed by a tab |
| LegacyCommands.CdPrompt | src/system/commands.ts:46-52 | the prompt shows the new directory exactly when the agent returns a non-empty one; otherwise it is unchanged |
| LegacyCommands.StartDload | src/system/commands.ts:59-71 | other than one argument prints the usage, with no agent call; a missing entry is reported; otherwise the save starts with the path's last segment as the suggested name |
| LegacyCommands.LastSegmentIsSuffix | src/system/commands.ts:70-71 | the last segment of a split is a suffix of the path |
| LegacyCommands.Uload | src/system/commands.ts:95-147 | other than one argument prints the usage and calls nothing; failures are printed as "uload error: "; otherwise the whole upload runs through `writeFile` |
| LegacyCommands.UloadCopiesAgree | src/system/commands.ts:95-147 | this copy and uload.ts make the same calls with the same bytes; only the write method's name differs |
| Editor.Encode | src/components/Editor.tsx:56 | the encoding has one to four bytes per character, and exactly one per character exactly when the text is ASCII |
| Editor.EncodeChar | src/components/Editor.tsx:56 | one character encodes to 1 to 4 bytes, and to 1 byte exactly when it is ASCII |
| Editor.EncodeAppend | src/components/Editor.tsx:60-66 | encoding a concatenation encodes the parts, so slicing before encoding changes no bytes |
| Editor.EncodeLength | src/components/Editor.tsx:57 | the encoding is never shorter than the text, and equally long exactly for ASCII text |
| Editor.Slices | src/components/Editor.tsx:59-66 | no slice exactly when nothing is left past `total`; every slice is non-empty and at most 16384 long |
| Editor.SlicesProperties | src/components/Editor.tsx:59-66 | slices are non-empty and at most 16384 long, there are ceil(length/16384) of them, and joined they give the content |
| Editor.SavedPayload | src/components/Editor.tsx:55-68 | the writes carry the content's encoding; there are ceil(length/16384) of them between open and close; empty content makes none |
| Editor.WriteSlices | src/components/Editor.tsx:58-67 | the loop makes one encoded write per slice, stopping after the call that throws |
| Editor.WriteContent | src/components/Editor.tsx:55-72 | open, the slices, close; a throwing call ends the save, is logged and is not rethrown |
| Editor.SaveFileAsWritten | src/components/Editor.tsx:52-74 | nothing happens without an editor and an agent; otherwise the content is saved with the character count as declared size |
| Editor.AsWrittenSizeMismatch | src/components/Editor.tsx:57 | the declared character count equals the bytes sent exactly for ASCII text; "é" declares 1 and sends C3 A9 |
| Editor.SaveFile | src/components/Editor.tsx:52-74 | the same save, declaring the encoded size |
| Editor.CorrectedSizeMatches | src/components/Editor.tsx:57 | with the encoded size, a completed save declares exactly the bytes it writes |
| Keyboard.LabelFromKey | src/components/Keyboard.tsx:12-17 | Enter, Backspace and space get names; every other key is upper-cased |
| Keyboard.IsWideKey | src/components/Keyboard.tsx:27-28 | the wide keys are named keys in capitals, none a single character |
| Keyboard.WidthForLabel | src/components/Keyboard.tsx:27-36 | 420 exactly for SPACE, 70 for the other wide keys, 50 for other multi-character labels, 35 for the rest |
| Keyboard.SendText | src/components/Keyboard.tsx:51-68 | ENTER fires "\r" directly; through `term.input`, BACK sends DEL, SPACE a space, TAB a tab, and any other label itself, lower-cased unless shift is held; without a terminal `input` does nothing |
| Keyboard.KeysDriveLineEditor | src/components/Keyboard.tsx:51-68 | ENTER gives the line editor's Enter, BACK its backspace; a letter key types itself, lower-case unless shift is held |
| Keyboard.ModifierKeysTypeTheirNames | src/components/Keyboard.tsx:65-66 | SHIFT, CONTROL and ESC, pressed without shift, type "shift", "control" and "esc" |
| Keyboard.WithActive | src/components/Keyboard.tsx:149-155 | the label is in the new set exactly when it went down; every other label is unchanged |
| Keyboard.WithActiveIdempotent | src/components/Keyboard.tsx:149-155 | setting a label twice equals setting it once; the last setting wins |
| Keyboard.ActiveKeys.constructor | src/components/Keyboard.tsx:147 | nothing is highlighted at first |
| Keyboard.ActiveKeys.SetActiveKey | src/components/Keyboard.tsx:149-155 | the highlighted set is updated for exactly that label |
| Keyboard.ActiveKeys.Press | src/components/Keyboard.tsx:159-162 | a keydown with Ctrl held highlights nothing; otherwise its label is highlighted |
| Keyboard.ActiveKeys.Lift | src/components/Keyboard.tsx:163 | a keyup always removes its label's highlight |
| Keyboard.ActiveKeys.SpecialKeys | src/components/Keyboard.tsx:171-175 | shift, alt and control are set exactly when SHIFT, ALT or CONTROL is highlighted |
| Keyboard.ActiveKeys.PointerDown | src/components/Keyboard.tsx:70-74 | the key is highlighted, and its text is sent with shift as it was before the press |
| Keyboard.ActiveKeys.PointerUp | src/components/Keyboard.tsx:76 | releasing or leaving the key removes its highlight |
| Keyboard.ShiftedLetter | src/components/Keyboard.tsx:51-76 | after pressing the on-screen SHIFT, a letter key types its upper-case letter; once SHIFT is released, the same key types the lower-case letter |

## Left out

- Browser and runtime I/O are inputs or traces: the file pickers, the
  file reader, the bucket, the clock, the UUID generator and `fetch`.
  Awaits are treated as sequential, and concurrent events are not modelled.
- Strings are sequences of Unicode scalar values. JavaScript counts UTF-16
  code units, so a character above U+FFFF counts 1 here and 2 there.
  `Editor.Slices` therefore never splits a surrogate pair, while
  `saveFile` can.
- `trim` covers the white space and line terminators JavaScript lists;
  `toUpperCase`/`toLowerCase` map only ASCII letters.
- `Store.byte` values are what `Uint8Array.from(Object.values(data))`
  yields; the JSON transport of chunks is not modelled.
- `formatTimestamp` in `ls` reads the clock and the locale. It is a
  function parameter.
- `formatEmailAsString` and QUORRA_MAIL are not part of this model. They
  are parameters of `Tools.MailEnv`.
- Tools.HandleEmail: the MIME message is the list of headers set on it,
  not its raw encoding.
- `commandLineArgs` (src/libs) is not part of this model.
  - `uload`'s parsed `path` option is an input.
  - `LsCommand.LsOptions` holds `ls`'s parsed options.
- The commands `clear`, `reboot`, `ps`, `test`, `cat`, `file`, `rm` and
  `ask`: each only forwards to the terminal or to an agent call whose
  implementation is not in these files.
- The `cat` and `file` of src/system/commands.ts: same reason.
- `dload`'s save dialog and streamed download: browser I/O.
  `LegacyCommands.StartDload` stops at the suggested file name. The
  TypeError after "does not exist." is where `DloadMissing` ends.
- `fs.unlink`: a single bucket delete with no logic of its own.
- Agent.Quorra.Cat: the chunks are the object body's chunks. The
  `releaseLock` in `finally` has no observable effect here.
- The upload pipe itself is not modelled: the fixed-length stream's
  refusal of too many or too few bytes, and the bucket `put` consuming the
  readable end.
- Console logging is not modelled, except where it is the only outcome:
  the `fs.open` watcher and `saveFile`.
- LineEditor.Terminal.OnData: a command name is looked up as a member of a
  set. JavaScript's `in` also finds inherited names such as "toString".
- Keyboard.LabelFromKey: the lookup object's inherited names (such as
  "constructor") are not modelled. They are not values `KeyboardEvent.key`
  takes.
- The agent runtime, the RPC framework (`@callable`), the React components'
  rendering and styling, and the keyboard layout constants are not modelled.

## Findings

| source | as written | input that shows it | evidently intended | confidence | as-written member | corrected member |
|---|---|---|---|---|---|---|
| src/components/Editor.tsx:57 | `open` declares `content.length` (UTF-16 units), but the writes carry `TextEncoder` bytes, and the agent's `open` (api/index.ts:62) makes a stream of exactly the declared length | content "é": declares 1, writes the 2 bytes C3 A9 | declare the encoded byte count | high, not executed | Editor.AsWrittenSizeMismatch | Editor.CorrectedSizeMatches |
