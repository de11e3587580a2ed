/**
  The `processPrefixCommand` message handler
  (src/events/message/9_processPrefixCommand.ts, lines 72-226): from a chat
  message to one of ignored, denied with a warning reply, dispatched to the
  command's handler, or failed with an error reply and a log entry.

  Sending replies and writing the log are not performed: they are recorded in
  the `Outcome`. The command's handler is the parameter `handler`.
 */
module ProcessPrefixCommand {
  import opened Wrappers
  import opened JsString
  import opened Permissions
  import opened StaffPolicy
  import opened OptionExtractor

  datatype Author = Author(id: string, bot: bool)

  /** What the handler reads of a discord.js `Message`. `member` is
      `message.member`, `botMember` is `message.guild.members.me`, and
      `botCanSendHere` is `permissionsIn(message.channel).has("SendMessages")`
      for the bot. */
  datatype Message = Message(
    content: string,
    inGuild: bool,
    author: Option<Author>,
    guildId: string,
    member: Option<Member>,
    botMember: Option<Member>,
    botCanSendHere: bool)

  /** `prefixCommand.options`; an absent permission list is `undefined`. */
  datatype CommandOptions = CommandOptions(
    botStaffOnly: bool,
    guildAdminOnly: bool,
    requiredUserPerms: Option<seq<Permission>>,
    requiredClientPerms: Option<seq<Permission>>)

  datatype PrefixCommand = PrefixCommand(options: Option<CommandOptions>)

  /** The client: the bot's user id (`client.user?.id`) and the registry
      `client.commands.prefix.all`, keyed by exact command name. */
  datatype Client = Client(userId: Option<string>, prefixCommands: map<string, PrefixCommand>)

  /** `config.client.support_server`. */
  datatype SupportServerConfig = SupportServerConfig(inviteOnCommandError: bool, inviteUrl: string, guildId: string)

  /** `config.client`: `PREFIX`, `staff` and `support_server`. */
  datatype ClientConfig = ClientConfig(prefix: string, staff: StaffConfig, supportServer: SupportServerConfig)

  datatype Color = Orange | Red

  /** A reply embed; `supportInvite` is the URL of the "Support Server" link
      button when one is attached. Every reply is sent with
      `allowedMentions: { repliedUser: false }` and `fetchReply: false`. */
  datatype Reply = Reply(color: Color, title: string, description: string, supportInvite: Option<string>)

  /** One `logger.error(category, message, err)` call. */
  datatype LogEntry = LogEntry(category: string, message: string, error: string)

  /** What the handler receives besides the client and the message:
      `{ prefix, commandName, cleanContent, getCommandOption }`. */
  datatype Invocation = Invocation(prefix: string, commandName: string, cleanContent: string)

  /** How a call of the command's `execute` ends. */
  datatype HandlerResult = Returned | Threw(error: string)

  datatype DenialReason =
    | StaffOnly
    | GuildAdminOnly
    | MissingUserPerms(missing: seq<string>)
    | MissingClientPerms(missing: seq<string>)

  datatype GateDecision = Allowed | Denied(reason: DenialReason)

  datatype Outcome =
    | Ignored
    | Refused(reply: Reply)
    | Completed(invocation: Invocation)
    | Failed(invocation: Invocation, reply: Reply, log: LogEntry)

  /** `userMention(id)`. */
  function UserMention(id: string): string {
    "<@" + id + ">"
  }

  /** `userMention(client.user?.id || "")`: the same text the client user
      prints as, and a `<@...>` mention even without a client user. */
  function ClientMention(client: Client): (r: string)
    ensures client.userId.Some? ==> r == ClientUserText(client)
    ensures client.userId.None? ==> r == "<@>"
    ensures |r| >= 3 && r[..2] == "<@" && r[|r| - 1] == '>'
  {
    UserMention(if client.userId.Some? then client.userId.value else "")
  }

  /** `${client.user}`: a discord.js user prints as its mention. */
  function ClientUserText(client: Client): string {
    if client.userId.Some? then UserMention(client.userId.value) else "null"
  }

  /** The prefix in effect (lines 83-100): the configured prefix if the
      lower-cased content starts with it as written, else the bot mention if the
      lower-cased content starts with that, else none. */
  function ResolvePrefix(content: string, configured: string, mention: string): (r: Option<string>)
    ensures r.Some? <==> StartsWith(ToLower(content), configured) || StartsWith(ToLower(content), mention)
    ensures r.Some? ==> StartsWith(ToLower(content), r.value) && |r.value| <= |content|
    ensures r.Some? && r.value != configured ==> r.value == mention && !StartsWith(ToLower(content), configured)
  {
    var lower := ToLower(content);
    if StartsWith(lower, configured) then Some(configured)
    else if StartsWith(lower, mention) then Some(mention)
    else None
  }

  datatype Tokens = Tokens(commandName: string, cleanContent: string)

  /** Lines 103-107: strip the prefix's length from the original-case content
      and trim; the command name is the text before the first space, and the
      clean content is the trimmed rest. `None` is the early return on an empty
      command name. */
  function Tokenise(content: string, prefix: string): (r: Option<Tokens>)
    ensures var rest := Trim(Substring(content, |prefix|));
      && (r.None? <==> rest == [])
      && (r.Some? ==>
           var name := r.value.commandName;
           && name != []
           && name <= rest
           && ' ' !in name
           && (|name| == |rest| || rest[|name|] == ' ')
           && r.value.cleanContent == Trim(rest[|name|..]))
  {
    var rest := Trim(Substring(content, |prefix|));
    var commandName := FirstSpaceToken(rest);
    if commandName == [] then None
    else Some(Tokens(commandName, Trim(rest[|commandName|..])))
  }

  /** Lines 143-144: the caller's missing permissions, checked only when the
      command lists some and the caller has a member record. */
  function UserMissing(options: CommandOptions, message: Message): (r: seq<Permission>)
    ensures r != [] ==> options.requiredUserPerms.Some? && message.member.Some?
    ensures options.requiredUserPerms.Some? && message.member.Some? ==>
      r == Missing(options.requiredUserPerms.value, message.member.value)
  {
    if options.requiredUserPerms.Some? && message.member.Some? then
      Missing(options.requiredUserPerms.value, message.member.value)
    else []
  }

  /** Lines 156-157: the bot's missing permissions, checked only when the
      command lists some and the bot has a member record. */
  function ClientMissing(options: CommandOptions, message: Message): (r: seq<Permission>)
    ensures r != [] ==> options.requiredClientPerms.Some? && message.botMember.Some?
    ensures options.requiredClientPerms.Some? && message.botMember.Some? ==>
      r == Missing(options.requiredClientPerms.value, message.botMember.value)
  {
    if options.requiredClientPerms.Some? && message.botMember.Some? then
      Missing(options.requiredClientPerms.value, message.botMember.value)
    else []
  }

  /** The checks of lines 116-167, in order, the first failure deciding. The
      caller's permissions are checked only with a member record, the bot's only
      with its own. */
  function Gate(staff: StaffConfig, commandName: string, options: CommandOptions, message: Message, authorId: string): (d: GateDecision)
    ensures d == Denied(StaffOnly) <==>
      options.botStaffOnly && !UserIsStaffOrBypassable(staff, commandName, authorId)
    ensures
      var staffOk := !options.botStaffOnly || UserIsStaffOrBypassable(staff, commandName, authorId);
      var adminOk := !options.guildAdminOnly || UserHasGuildAdminOrBypassable(staff, commandName, message.member, authorId);
      var userMissing := UserMissing(options, message);
      var clientMissing := ClientMissing(options, message);
      && (d == Denied(GuildAdminOnly) <==> staffOk && !adminOk)
      && (d == Denied(MissingUserPerms(userMissing)) <==> staffOk && adminOk && userMissing != [])
      && (d == Denied(MissingClientPerms(clientMissing)) <==> staffOk && adminOk && userMissing == [] && clientMissing != [])
    ensures d.Denied? && !d.reason.StaffOnly? ==>
      !options.botStaffOnly || UserIsStaffOrBypassable(staff, commandName, authorId)
    ensures d == Denied(GuildAdminOnly) ==>
      options.guildAdminOnly && !UserHasGuildAdminOrBypassable(staff, commandName, message.member, authorId)
    ensures d.Denied? && d.reason.MissingUserPerms? ==>
      && options.requiredUserPerms.Some? && message.member.Some?
      && d.reason.missing == Missing(options.requiredUserPerms.value, message.member.value) != []
    ensures d.Denied? && d.reason.MissingClientPerms? ==>
      && options.requiredClientPerms.Some? && message.botMember.Some?
      && d.reason.missing == Missing(options.requiredClientPerms.value, message.botMember.value) != []
    ensures d == Allowed <==>
      && (options.botStaffOnly ==> UserIsStaffOrBypassable(staff, commandName, authorId))
      && (options.guildAdminOnly ==> UserHasGuildAdminOrBypassable(staff, commandName, message.member, authorId))
      && (options.requiredUserPerms.Some? && message.member.Some? ==>
            forall p :: p in options.requiredUserPerms.value ==> Has(message.member.value, p))
      && (options.requiredClientPerms.Some? && message.botMember.Some? ==>
            forall p :: p in options.requiredClientPerms.value ==> Has(message.botMember.value, p))
  {
    var userMissing :=
      if options.requiredUserPerms.Some? && message.member.Some? then
        PassedIffNothingMissing(options.requiredUserPerms.value, message.member.value);
        UserMissing(options, message)
      else UserMissing(options, message);
    var clientMissing :=
      if options.requiredClientPerms.Some? && message.botMember.Some? then
        PassedIffNothingMissing(options.requiredClientPerms.value, message.botMember.value);
        ClientMissing(options, message)
      else ClientMissing(options, message);
    if options.botStaffOnly && !UserIsStaffOrBypassable(staff, commandName, authorId) then Denied(StaffOnly)
    else if options.guildAdminOnly && !UserHasGuildAdminOrBypassable(staff, commandName, message.member, authorId) then Denied(GuildAdminOnly)
    else if userMissing != [] then Denied(MissingUserPerms(userMissing))
    else if clientMissing != [] then Denied(MissingClientPerms(clientMissing))
    else Allowed
  }

  /** "⚠️ " before the titles of the warning replies. */
  const Warning: string := "\U{26A0}\U{FE0F} "

  /** The sentences that open the two permission denials; the missing
      permissions follow them. */
  const UserPermsHeading: string := "You must have the following permissions:\n"
  const ClientPermsHeading: string := "I need the following permissions:\n"

  /** The warning reply for each denial (lines 126-164). */
  function DenialReply(client: Client, reason: DenialReason): (r: Reply)
    ensures r.color == Orange && r.supportInvite.None?
    ensures reason.MissingUserPerms? || reason.MissingClientPerms? ==> r.title == Warning + "Missing Permissions"
    ensures reason.StaffOnly? ==>
      && r.title == Warning + "Staff Only"
      && r.description == "Only the developers of " + ClientUserText(client) + " can use this command."
    ensures reason.GuildAdminOnly? ==>
      && r.title == Warning + "Server Admin Only"
      && r.description == "You must be an admin of this server to use this command."
    ensures reason.MissingUserPerms? ==>
      r.description == UserPermsHeading + Join(reason.missing, ", ")
    ensures reason.MissingClientPerms? ==>
      r.description == ClientPermsHeading + Join(reason.missing, ", ")
  {
    match reason
    case StaffOnly =>
      Reply(Orange, Warning + "Staff Only",
        "Only the developers of " + ClientUserText(client) + " can use this command.", None)
    case GuildAdminOnly =>
      Reply(Orange, Warning + "Server Admin Only",
        "You must be an admin of this server to use this command.", None)
    case MissingUserPerms(missing) =>
      Reply(Orange, Warning + "Missing Permissions",
        UserPermsHeading + Join(missing, ", "), None)
    case MissingClientPerms(missing) =>
      Reply(Orange, Warning + "Missing Permissions",
        ClientPermsHeading + Join(missing, ", "), None)
  }

  /** Lines 187-190: invite to the support server only when the feature is on, a
      URL is configured, and the command was not used in the support server. */
  predicate InviteToSupportServer(support: SupportServerConfig, guildId: string) {
    support.inviteOnCommandError && support.inviteUrl != "" && guildId != support.guildId
  }

  /** The title of the error reply (line 206) and the category of its log
      entry (line 220). */
  const ErrorTitle: string := "\U{26D4} Error"
  const LogCategory: string := "$_TIMESTAMP $_COMMAND"

  /** The error reply of lines 204-215. */
  function FailureReply(support: SupportServerConfig, guildId: string, invocation: Invocation): (r: Reply)
    ensures r.color == Red && r.title == ErrorTitle
    ensures r.supportInvite.Some? <==> InviteToSupportServer(support, guildId)
    ensures r.supportInvite.Some? ==> r.supportInvite.value == support.inviteUrl
  {
    Reply(Red, ErrorTitle,
      "An error occurred while using **`" + invocation.prefix + invocation.commandName + "`**.",
      if InviteToSupportServer(support, guildId) then Some(support.inviteUrl) else None)
  }

  /** The log call of lines 219-223. */
  function FailureLog(invocation: Invocation, guildId: string, authorId: string, error: string): (r: LogEntry)
    ensures r.category == LogCategory && r.error == error
    ensures "name: " + invocation.prefix + invocation.commandName + " | guild: '" <= r.message
    ensures var tail := " | user: '" + authorId + "'";
      |tail| <= |r.message| && r.message[|r.message| - |tail|..] == tail
  {
    LogEntry(LogCategory,
      "name: " + invocation.prefix + invocation.commandName + " | guild: '" + guildId + "' | user: '" + authorId + "'",
      error)
  }

  /** `getCommandOption(prefix, name, allowSpaces)`: the extractor bound to the
      clean content, so neither the prefix nor the command name is searched. */
  function GetCommandOption(invocation: Invocation, prefix: string, name: string, allowSpaces: bool): (r: Option<string>)
    ensures r.None? <==> forall j :: !FlagAt(invocation.cleanContent, name, j)
    ensures r.Some? ==> exists i :: MatchedAt(invocation.cleanContent, prefix, name, allowSpaces, i, r.value)
  {
    GetOption(invocation.cleanContent, prefix, name, allowSpaces)
  }

  /** Line 77 and line 80: messages the handler does not look at. */
  predicate Eligible(message: Message) {
    && message.inGuild
    && message.author.Some?
    && !message.author.value.bot
    && message.content != ""
    && message.botMember.Some?
    && message.botCanSendHere
  }

  /** A message that passed lines 77-111: the prefix in effect, the tokens,
      the registered command and the author. */
  datatype Resolution = Resolution(prefix: string, tokens: Tokens, command: PrefixCommand, authorId: string)

  /** Lines 77-111: `None` is every silent early return before the checks. */
  function Resolve(client: Client, config: ClientConfig, message: Message): (r: Option<Resolution>)
    ensures r.None? <==>
      var prefix := ResolvePrefix(message.content, config.prefix, ClientMention(client));
      || !Eligible(message)
      || prefix.None?
      || Tokenise(message.content, prefix.value).None?
      || Tokenise(message.content, prefix.value).value.commandName !in client.prefixCommands
    ensures r.Some? ==> Eligible(message) && r.value.authorId == message.author.value.id
    ensures r.Some? ==> ResolvePrefix(message.content, config.prefix, ClientMention(client)) == Some(r.value.prefix)
    ensures r.Some? ==> Tokenise(message.content, r.value.prefix) == Some(r.value.tokens)
    ensures r.Some? ==>
      && r.value.tokens.commandName in client.prefixCommands
      && client.prefixCommands[r.value.tokens.commandName] == r.value.command
  {
    if !Eligible(message) then None
    else
      match ResolvePrefix(message.content, config.prefix, ClientMention(client))
      case None => None
      case Some(prefix) =>
        match Tokenise(message.content, prefix)
        case None => None
        case Some(tokens) =>
          if tokens.commandName !in client.prefixCommands then None
          else Some(Resolution(prefix, tokens, client.prefixCommands[tokens.commandName], message.author.value.id))
  }

  /** Line 116: a command without options skips every check. */
  function Decide(config: ClientConfig, message: Message, r: Resolution): (d: GateDecision)
    ensures d.Denied? ==> r.command.options.Some?
    ensures r.command.options.Some? ==>
      d == Gate(config.staff, r.tokens.commandName, r.command.options.value, message, r.authorId)
  {
    if r.command.options.None? then Allowed
    else Gate(config.staff, r.tokens.commandName, r.command.options.value, message, r.authorId)
  }

  /** Lines 169-223: call the command's `execute`; on a throw, reply with the
      error embed and log. */
  function Dispatch(config: ClientConfig, message: Message, r: Resolution, handler: Invocation -> HandlerResult): (o: Outcome)
    ensures o.Completed? || o.Failed?
    ensures o.invocation == Invocation(r.prefix, r.tokens.commandName, r.tokens.cleanContent)
    ensures o.Completed? <==> handler(o.invocation) == Returned
    ensures o.Failed? ==>
      && handler(o.invocation) == Threw(o.log.error)
      && o.reply == FailureReply(config.supportServer, message.guildId, o.invocation)
      && o.log == FailureLog(o.invocation, message.guildId, r.authorId, o.log.error)
  {
    var invocation := Invocation(r.prefix, r.tokens.commandName, r.tokens.cleanContent);
    match handler(invocation)
    case Returned => Completed(invocation)
    case Threw(error) =>
      Failed(invocation,
        FailureReply(config.supportServer, message.guildId, invocation),
        FailureLog(invocation, message.guildId, r.authorId, error))
  }

  /** The whole handler as a function of its inputs. */
  function Process(client: Client, config: ClientConfig, message: Message, handler: Invocation -> HandlerResult): (o: Outcome)
    ensures o.Ignored? <==> Resolve(client, config, message).None?
    ensures !o.Ignored? ==> Eligible(message)
    ensures o.Refused? ==> o.reply.color == Orange && o.reply.supportInvite.None?
    ensures o.Completed? ==> handler(o.invocation) == Returned
    ensures o.Failed? ==> handler(o.invocation) == Threw(o.log.error) && o.reply.color == Red
  {
    match Resolve(client, config, message)
    case None => Ignored
    case Some(r) =>
      match Decide(config, message, r)
      case Denied(reason) => Refused(DenialReply(client, reason))
      case Allowed => Dispatch(config, message, r, handler)
  }

  /** Lines 116-167: the four checks in order, returning at the first failure. */
  method CheckGate(staff: StaffConfig, commandName: string, options: CommandOptions, message: Message, authorId: string)
    returns (decision: GateDecision)
    ensures decision == Gate(staff, commandName, options, message, authorId)
  {
    if options.botStaffOnly && !UserIsStaffOrBypassable(staff, commandName, authorId) {
      return Denied(StaffOnly);
    }
    if options.guildAdminOnly {
      var hasAdmin := message.member.Some? && Has(message.member.value, Administrator);
      var bypass := GetStaffGuildAdminBypass(staff, commandName);
      if !(hasAdmin || authorId in bypass) {
        return Denied(GuildAdminOnly);
      }
    }
    if options.requiredUserPerms.Some? && message.member.Some? {
      var permCheck := HasRequiredPermissions(message.member.value, options.requiredUserPerms.value);
      if !permCheck.passed {
        return Denied(MissingUserPerms(permCheck.missing));
      }
    }
    if options.requiredClientPerms.Some? && message.botMember.Some? {
      var permCheck := HasRequiredPermissions(message.botMember.value, options.requiredClientPerms.value);
      if !permCheck.passed {
        return Denied(MissingClientPerms(permCheck.missing));
      }
    }
    return Allowed;
  }

  /** `execute(client, message)`, step by step with its early returns. */
  method Execute(client: Client, config: ClientConfig, message: Message, handler: Invocation -> HandlerResult)
    returns (outcome: Outcome)
    ensures outcome == Process(client, config, message, handler)
  {
    if !message.inGuild || message.author.None? || message.author.value.bot || message.content == "" {
      return Ignored;
    }
    if message.botMember.None? || !message.botCanSendHere {
      return Ignored;
    }

    var messageLowerCase := ToLower(message.content);
    var prefix := config.prefix;
    var startsWithPrefix := StartsWith(messageLowerCase, prefix);
    if !startsWithPrefix {
      var clientMention := ClientMention(client);
      if StartsWith(messageLowerCase, clientMention) {
        startsWithPrefix := true;
        prefix := clientMention;
      } else {
        return Ignored;
      }
    }
    assert ResolvePrefix(message.content, config.prefix, ClientMention(client)) == Some(prefix);

    var contentWithoutPrefix := Trim(Substring(message.content, |prefix|));
    var commandName := FirstSpaceToken(contentWithoutPrefix);
    if commandName == "" {
      return Ignored;
    }
    var cleanContent := Trim(contentWithoutPrefix[|commandName|..]);
    assert Tokenise(message.content, prefix) == Some(Tokens(commandName, cleanContent));

    if commandName !in client.prefixCommands {
      return Ignored;
    }
    var prefixCommand := client.prefixCommands[commandName];
    var authorId := message.author.value.id;
    var resolution := Resolution(prefix, Tokens(commandName, cleanContent), prefixCommand, authorId);
    assert Eligible(message);
    assert Resolve(client, config, message) == Some(resolution);

    if prefixCommand.options.Some? {
      var decision := CheckGate(config.staff, commandName, prefixCommand.options.value, message, authorId);
      if decision.Denied? {
        return Refused(DenialReply(client, decision.reason));
      }
    }

    var extra := Invocation(prefix, commandName, cleanContent);
    match handler(extra)
    case Returned =>
      outcome := Completed(extra);
    case Threw(err) =>
      outcome := Failed(extra,
        FailureReply(config.supportServer, message.guildId, extra),
        FailureLog(extra, message.guildId, authorId, err));
  }
}
