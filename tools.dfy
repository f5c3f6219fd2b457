/** The e-mail tools of api/tools.ts: the two tool definitions offered in
    e-mail mode, `handleEmail` (optional threaded reply, then storing the
    mail) and `rejectEmail`, the dispatch by tool name, and the per-mode
    tables. MIME construction, the clock and the UUID generator are outside
    the model: the reply is a record of its headers, and the date part and
    the UUID of the stored path are inputs. */
module Tools {
  import opened Wrappers
  import opened JsStrings

  const HandleEmailName := "handleEmail"
  const RejectEmailName := "rejectEmail"
  const ReplyPrefix := "Re: "
  const MailDir := "/var/mail/"
  const ModeEmail := "email"
  const ModeAllSyscalls := "allSyscalls"

  datatype Address = Address(address: string, name: string)

  /** The parsed incoming e-mail (only the fields the tools read). */
  datatype Email = Email(
    from: Address,
    subject: Option<string>,
    text: Option<string>,
    html: Option<string>,
    messageId: string)

  /** What the handler needs from its surroundings: `formatEmailAsString`
      (defined outside this file), the QUORRA_MAIL address, the UTC date
      digits of the stored path and a fresh UUID. */
  datatype MailEnv = MailEnv(
    format: (Address, string, string) -> string,
    quorraMail: string,
    datePart: string,
    uuid: string)

  /** The reply as the MIME builder is told to build it. */
  datatype ReplyMessage = ReplyMessage(
    inReplyTo: string,
    references: string,
    senderName: string,
    senderAddr: string,
    recipient: string,
    subject: string,
    body: string)

  datatype MailEffect =
    | SendReply(from: string, to: string, message: ReplyMessage)
    | Put(path: string, content: string)
    | Reject(reason: string)
    | ConsoleError(line: string, name: string, args: ToolArgs)

  /** The arguments a model passes to a tool call. */
  datatype ToolArgs = ToolArgs(shouldStore: bool, reply: Option<string>, reason: string)

  datatype ParamDef = ParamDef(name: string, kind: string, required: bool)
  datatype ToolDef = ToolDef(name: string, description: string, parameters: seq<ParamDef>)

  const HandleEmailDef := ToolDef(HandleEmailName, "Handles the email when it is NOT to be rejected.",
    [ParamDef("shouldStore", "boolean", true), ParamDef("reply", "string", false)])
  const RejectEmailDef := ToolDef(RejectEmailName, "Rejects the email with the given reason. The user will not receive it.",
    [ParamDef("reason", "string", true)])

  /** The subject of the reply: kept when it already starts with "Re: ",
      otherwise prefixed with it (an absent subject reads "undefined"). */
  function ReplySubject(subject: Option<string>): (r: string)
    ensures StartsWith(r, ReplyPrefix)
    ensures subject.Some? && StartsWith(subject.value, ReplyPrefix) ==> r == subject.value
    ensures !(subject.Some? && StartsWith(subject.value, ReplyPrefix)) ==> r == ReplyPrefix + Interpolate(subject)
  {
    if subject.Some? && StartsWith(subject.value, ReplyPrefix) then subject.value
    else (StartsWithConcat(ReplyPrefix, Interpolate(subject)); ReplyPrefix + Interpolate(subject))
  }

  /** Replying to a reply does not stack prefixes. */
  lemma ReplySubjectIdempotent(subject: Option<string>)
    ensures ReplySubject(Some(ReplySubject(subject))) == ReplySubject(subject)
  {
  }

  /** JavaScript truthiness of an optional string. */
  predicate Truthy(s: Option<string>) {
    s.Some? && s.value != ""
  }

  /** The stored mail's path: date digits, "_", the first 8 UUID characters
      and ".txt" under /var/mail/. */
  function MailPath(datePart: string, uuid: string): (path: string)
    requires |uuid| >= 8
    ensures StartsWith(path, MailDir)
    ensures EndsWith(path, "_" + uuid[..8] + ".txt")
  {
    var tail := "_" + uuid[..8] + ".txt";
    assert MailDir + datePart + tail == MailDir + (datePart + tail);
    StartsWithConcat(MailDir, datePart + tail);
    EndsWithConcat(MailDir + datePart, tail);
    MailDir + datePart + tail
  }

  /** The formatted original mail. */
  function FormattedEmail(env: MailEnv, email: Email): string {
    env.format(email.from, email.subject.GetOr(""), email.text.GetOr(email.html.GetOr("")))
  }

  /** What gets stored: the formatted original, then "\n\n" and the
      formatted reply when there is one. */
  function StoredContent(env: MailEnv, email: Email, reply: Option<string>): (content: string)
    ensures StartsWith(content, FormattedEmail(env, email))
    ensures !Truthy(reply) ==> content == FormattedEmail(env, email)
    ensures Truthy(reply) ==>
      content[|FormattedEmail(env, email)|..]
      == "\n\n" + env.format(Address(env.quorraMail, "Quorra"), ReplySubject(email.subject), reply.value)
  {
    var formattedReply :=
      if Truthy(reply) then "\n\n" + env.format(Address(env.quorraMail, "Quorra"), ReplySubject(email.subject), reply.value)
      else "";
    StartsWithConcat(FormattedEmail(env, email), formattedReply);
    FormattedEmail(env, email) + formattedReply
  }

  /** The reply message: to the original sender, from Quorra, threaded on
      the original message id. */
  function Reply(email: Email, quorraAddr: string, body: string): (m: ReplyMessage)
    ensures m.inReplyTo == email.messageId && m.references == email.messageId
    ensures m.senderName == "Quorra" && m.senderAddr == quorraAddr && m.recipient == email.from.address
    ensures StartsWith(m.subject, ReplyPrefix) && m.body == body
  {
    ReplyMessage(email.messageId, email.messageId, "Quorra", quorraAddr, email.from.address,
                 ReplySubject(email.subject), body)
  }

  /** The `handleEmail` tool: a reply is sent first when `reply` is truthy,
      then the mail is stored whatever `shouldStore` says. `sendFails` says
      that `sendReply` rejects: the rejection leaves the handler before the
      mail is stored. */
  function HandleEmail(env: MailEnv, email: Email, quorraAddr: string, args: ToolArgs, sendFails: bool)
    : (effects: seq<MailEffect>)
    requires |env.uuid| >= 8
    ensures |effects| == if Truthy(args.reply) && !sendFails then 2 else 1
    ensures Truthy(args.reply) ==>
      effects[0] == SendReply(quorraAddr, email.from.address, Reply(email, quorraAddr, args.reply.value))
    ensures !(Truthy(args.reply) && sendFails) ==>
      effects[|effects| - 1] == Put(MailPath(env.datePart, env.uuid), StoredContent(env, email, args.reply))
    ensures (exists e :: e in effects && e.Put?) <==> !(Truthy(args.reply) && sendFails)
  {
    var store := [Put(MailPath(env.datePart, env.uuid), StoredContent(env, email, args.reply))];
    if Truthy(args.reply) then
      var send := [SendReply(quorraAddr, email.from.address, Reply(email, quorraAddr, args.reply.value))];
      if sendFails then send else assert (send + store)[1] in send + store; send + store
    else assert store[0] in store; store
  }

  /** The reply, when sent, goes back to the sender under a "Re: " subject
      with both threading headers naming the original message; the mail is
      stored in either case, so `shouldStore` changes nothing. */
  lemma HandleEmailThreadsReply(env: MailEnv, email: Email, quorraAddr: string, args: ToolArgs)
    requires |env.uuid| >= 8
    ensures var effects := HandleEmail(env, email, quorraAddr, args, false);
      (forall e :: e in effects && e.SendReply? ==>
        e.to == email.from.address && e.from == quorraAddr
        && e.message.inReplyTo == email.messageId && e.message.references == email.messageId
        && StartsWith(e.message.subject, ReplyPrefix) && e.message.body == args.reply.value && Truthy(args.reply))
      && (exists e :: e in effects && e.Put? && StartsWith(e.path, MailDir))
      && effects == HandleEmail(env, email, quorraAddr, args.(shouldStore := !args.shouldStore), false)
  {
    var effects := HandleEmail(env, email, quorraAddr, args, false);
    assert effects[|effects| - 1] in effects;
  }

  /** The `rejectEmail` tool hands its reason unchanged to the callback. */
  function RejectEmail(args: ToolArgs): (effects: seq<MailEffect>)
    ensures effects == [Reject(args.reason)]
  {
    [Reject(args.reason)]
  }

  /** The call function of a mode, as `generateCallFunction` builds it. */
  datatype CallFunction =
    | EmailDispatcher(env: MailEnv, email: Email, quorraAddr: string)
    | Unimplemented

  /** `getToolDefsByMode`: the two e-mail tools, none for all-syscalls, and
      an error for any other mode. */
  function GetToolDefsByMode(mode: string): (r: Result<seq<ToolDef>, string>)
    ensures mode == ModeEmail ==> r == Success([HandleEmailDef, RejectEmailDef])
    ensures mode == ModeAllSyscalls ==> r == Success([])
    ensures mode != ModeEmail && mode != ModeAllSyscalls ==>
      r == Failure("Trying to get tools for an unsupported mode.")
  {
    if mode == ModeEmail then Success([HandleEmailDef, RejectEmailDef])
    else if mode == ModeAllSyscalls then Success([])
    else Failure("Trying to get tools for an unsupported mode.")
  }

  /** `generateCallFunction`: the e-mail dispatcher, the all-syscalls
      placeholder, or an error for any other mode. */
  function GenerateCallFunction(mode: string, env: MailEnv, email: Email, quorraAddr: string)
    : (r: Result<CallFunction, string>)
    ensures mode == ModeEmail ==> r == Success(EmailDispatcher(env, email, quorraAddr))
    ensures mode == ModeAllSyscalls ==> r == Success(Unimplemented)
    ensures mode != ModeEmail && mode != ModeAllSyscalls ==>
      r == Failure("Trying to generate callFunction for an unsupported mode.")
  {
    if mode == ModeEmail then Success(EmailDispatcher(env, email, quorraAddr))
    else if mode == ModeAllSyscalls then Success(Unimplemented)
    else Failure("Trying to generate callFunction for an unsupported mode.")
  }

  /** Calling a tool through a call function. The e-mail dispatcher runs
      `handleEmail` or `rejectEmail` on an exact name match and does
      nothing for any other name; the placeholder only logs, with the name
      and arguments it was given. `sendFails` is as for HandleEmail. */
  function Invoke(cf: CallFunction, name: string, args: ToolArgs, sendFails: bool): (effects: seq<MailEffect>)
    requires cf.EmailDispatcher? ==> |cf.env.uuid| >= 8
    ensures cf.EmailDispatcher? && name == HandleEmailName ==>
      effects == HandleEmail(cf.env, cf.email, cf.quorraAddr, args, sendFails)
    ensures cf.EmailDispatcher? && name == RejectEmailName ==> effects == [Reject(args.reason)]
    ensures cf.EmailDispatcher? && name != HandleEmailName && name != RejectEmailName ==> effects == []
    ensures cf.Unimplemented? ==> effects == [ConsoleError("Unimplemented. Tried", name, args)]
  {
    match cf
    case EmailDispatcher(env, email, quorraAddr) =>
      if name == HandleEmailName then HandleEmail(env, email, quorraAddr, args, sendFails)
      else if name == RejectEmailName then RejectEmail(args)
      else []
    case Unimplemented => [ConsoleError("Unimplemented. Tried", name, args)]
  }

  /** The two tables agree: a mode has tool definitions exactly when it has
      a call function, and every tool offered in a mode is dispatched by
      that mode's call function, while names it does not offer do nothing
      in e-mail mode. */
  lemma ModesAgree(mode: string, env: MailEnv, email: Email, quorraAddr: string, name: string, args: ToolArgs,
                    sendFails: bool)
    requires |env.uuid| >= 8
    ensures GetToolDefsByMode(mode).Success? <==> GenerateCallFunction(mode, env, email, quorraAddr).Success?
    ensures mode == ModeEmail ==>
      var defs := GetToolDefsByMode(mode).value;
      var cf := GenerateCallFunction(mode, env, email, quorraAddr).value;
      (forall d :: d in defs ==> Invoke(cf, d.name, args, sendFails) != [])
      && ((forall d :: d in defs ==> d.name != name) ==> Invoke(cf, name, args, sendFails) == [])
  {
    if mode == ModeEmail {
      var defs := GetToolDefsByMode(mode).value;
      var cf := GenerateCallFunction(mode, env, email, quorraAddr).value;
      assert defs == [HandleEmailDef, RejectEmailDef];
      assert HandleEmailDef in defs && RejectEmailDef in defs;
      forall d | d in defs
        ensures Invoke(cf, d.name, args, sendFails) != []
      {
        if d == HandleEmailDef {
          assert Invoke(cf, d.name, args, sendFails) == HandleEmail(env, email, quorraAddr, args, sendFails);
        }
      }
    }
  }
}
