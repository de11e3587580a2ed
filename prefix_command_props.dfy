/**
  Properties of the `processPrefixCommand` handler: when it stays silent, how
  the prefix and the tokens are found, the order of the checks, and what the
  error path records.
 */
module PrefixCommandProperties {
  import opened Wrappers
  import opened JsString
  import opened Permissions
  import opened StaffPolicy
  import opened ProcessPrefixCommand

  /** Which outcome each stage leads to: silence exactly when the message does
      not resolve, a refusal exactly when a check fails, carrying that check's
      reply, and the handler's outcome exactly when every check passes. */
  lemma ProcessByStage(client: Client, config: ClientConfig, message: Message, handler: Invocation -> HandlerResult)
    ensures var o := Process(client, config, message, handler);
      var res := Resolve(client, config, message);
      && (o.Ignored? <==> res.None?)
      && (o.Refused? <==> res.Some? && Decide(config, message, res.value).Denied?)
      && (o.Refused? ==> o.reply == DenialReply(client, Decide(config, message, res.value).reason))
      && (o.Completed? || o.Failed? <==> res.Some? && Decide(config, message, res.value).Allowed?)
      && (res.Some? && Decide(config, message, res.value).Allowed? ==> o == Dispatch(config, message, res.value, handler))
  {
  }

  /** Messages outside a guild, from a bot or without an author, with empty
      content, or where the bot cannot post, are ignored. */
  lemma IgnoredUnlessEligible(client: Client, config: ClientConfig, message: Message, handler: Invocation -> HandlerResult)
    requires !Eligible(message)
    ensures Process(client, config, message, handler) == Ignored
  {
  }

  /** A message that starts with neither the prefix nor the bot mention, once
      lower-cased, has no effect at all. */
  lemma IgnoredWithoutPrefix(client: Client, config: ClientConfig, message: Message, handler: Invocation -> HandlerResult)
    requires !StartsWith(ToLower(message.content), config.prefix)
    requires !StartsWith(ToLower(message.content), ClientMention(client))
    ensures Process(client, config, message, handler) == Ignored
  {
  }

  /** The configured prefix is compared as written with the lower-cased
      content, so a prefix holding an upper-case letter never matches. */
  lemma {:induction false} UpperCasePrefixNeverMatches(content: string, prefix: string, i: nat)
    requires i < |prefix| && IsUpper(prefix[i])
    ensures !StartsWith(ToLower(content), prefix)
  {
    if i < |content| {
      assert !IsUpper(ToLower(content)[i]);
    }
  }

  /** A configured prefix without upper-case letters is found in content that
      spells it with either case of each letter. */
  lemma PrefixMatchesUpToCase(content: string, configured: string, mention: string)
    requires |configured| <= |content|
    requires forall i :: 0 <= i < |configured| ==> !IsUpper(configured[i])
    requires forall i :: 0 <= i < |configured| ==>
      content[i] == configured[i] || (IsUpper(content[i]) && content[i] as int + 32 == configured[i] as int)
    ensures ResolvePrefix(content, configured, mention) == Some(configured)
  {
    assert configured <= ToLower(content);
  }

  /** Messages that differ only in the case of letters find the same prefix. */
  lemma PrefixMatchIgnoresCase(content: string, content': string, configured: string, mention: string)
    requires ToLower(content) == ToLower(content')
    ensures ResolvePrefix(content, configured, mention) == ResolvePrefix(content', configured, mention)
  {
  }

  /** When only the mention matches, the mention becomes the prefix, and its
      length is what is cut from the front of the content. */
  lemma MentionBecomesPrefix(client: Client, config: ClientConfig, message: Message, handler: Invocation -> HandlerResult)
    requires !StartsWith(ToLower(message.content), config.prefix)
    requires Process(client, config, message, handler).Completed? || Process(client, config, message, handler).Failed?
    ensures var o := Process(client, config, message, handler);
      && o.invocation.prefix == ClientMention(client)
      && Tokenise(message.content, ClientMention(client)) == Some(Tokens(o.invocation.commandName, o.invocation.cleanContent))
  {
    ProcessByStage(client, config, message, handler);
    var r := Resolve(client, config, message).value;
    assert ResolvePrefix(message.content, config.prefix, ClientMention(client)) == Some(r.prefix);
  }

  /** `ping` followed by spaces tokenises to the command `ping` and nothing else. */
  lemma TokenisePing(content: string, spaces: nat)
    requires content == "!ping" + seq(spaces, _ => ' ')
    ensures Tokenise(content, "!") == Some(Tokens("ping", ""))
  {
    var word := "ping";
    var rest := Substring(content, 1);
    assert rest == word + seq(spaces, _ => ' ');
    assert Trim(rest) == word by {
      TrimmedWordWithSpaces(word, spaces);
    }
    assert FirstSpaceToken(word) == word;
    assert word[|word|..] == [];
    TrimKeepsTrimmed([]);
  }

  lemma {:induction false} TrimmedWordWithSpaces(word: string, spaces: nat)
    requires word != [] && !IsTrimmable(word[0]) && !IsTrimmable(word[|word| - 1])
    ensures Trim(word + seq(spaces, _ => ' ')) == word
  {
    if spaces == 0 {
      assert word + seq(spaces, _ => ' ') == word;
      TrimKeepsTrimmed(word);
    } else {
      var shorter := word + seq(spaces - 1, _ => ' ');
      assert word + seq(spaces, _ => ' ') == shorter + [' '];
      TrimIgnoresTrailing(shorter, ' ');
      TrimmedWordWithSpaces(word, spaces - 1);
    }
  }

  /** `"!ping  "` with prefix `"!"` is the command `ping` with empty clean content. */
  lemma TrailingSpacesAreTrimmed()
    ensures Tokenise("!ping  ", "!") == Some(Tokens("ping", ""))
  {
    assert "!ping  " == "!ping" + seq(2, _ => ' ');
    TokenisePing("!ping  ", 2);
  }

  /** The registry lookup uses the original case: a command registered as
      `Ping` is not found through `!ping`. */
  lemma CommandLookupIsCaseSensitive(client: Client, config: ClientConfig, message: Message, handler: Invocation -> HandlerResult)
    requires config.prefix == "!"
    requires message.content == "!ping"
    requires client.prefixCommands.Keys == {"Ping"}
    ensures Process(client, config, message, handler) == Ignored
  {
    assert "!ping" == "!ping" + seq(0, _ => ' ');
    TokenisePing("!ping", 0);
    BangPrefixFound(message.content, ClientMention(client));
    UnknownCommandIsIgnored(client, config, message, handler, "!", Tokens("ping", ""));
  }

  /** `"!ping"` starts with the prefix `"!"` once lower-cased. */
  lemma BangPrefixFound(content: string, mention: string)
    requires content == "!ping"
    ensures ResolvePrefix(content, "!", mention) == Some("!")
  {
    assert ToLower(content)[0] == '!';
  }

  /** A command name missing from the registry, as typed, leaves the message
      without effect. */
  lemma UnknownCommandIsIgnored(client: Client, config: ClientConfig, message: Message, handler: Invocation -> HandlerResult, prefix: string, tokens: Tokens)
    requires ResolvePrefix(message.content, config.prefix, ClientMention(client)) == Some(prefix)
    requires Tokenise(message.content, prefix) == Some(tokens)
    requires tokens.commandName !in client.prefixCommands
    ensures Process(client, config, message, handler) == Ignored
  {
  }

  /** A command without options is dispatched without any check. */
  lemma NoOptionsNoChecks(client: Client, config: ClientConfig, message: Message, handler: Invocation -> HandlerResult)
    requires Resolve(client, config, message).Some?
    requires Resolve(client, config, message).value.command.options.None?
    ensures Process(client, config, message, handler).Completed? || Process(client, config, message, handler).Failed?
  {
    ProcessByStage(client, config, message, handler);
  }

  /** A staff-only command used by someone outside the staff list is refused
      with the "Staff Only" reply, before any other check. */
  lemma StaffOnlyRefusal(client: Client, config: ClientConfig, message: Message, handler: Invocation -> HandlerResult)
    requires Resolve(client, config, message).Some?
    requires var r := Resolve(client, config, message).value;
      && r.command.options.Some?
      && r.command.options.value.botStaffOnly
      && !UserIsStaffOrBypassable(config.staff, r.tokens.commandName, r.authorId)
    ensures Process(client, config, message, handler) == Refused(DenialReply(client, StaffOnly))
    ensures Process(client, config, message, handler).reply.title == Warning + "Staff Only"
  {
    ProcessByStage(client, config, message, handler);
    var r := Resolve(client, config, message).value;
    assert Decide(config, message, r) == Denied(StaffOnly);
  }

  /** A refused or ignored message never reaches the command's handler: the
      outcome is the same whatever the handler would do. */
  lemma HandlerNotCalledUnlessAllowed(client: Client, config: ClientConfig, message: Message, h: Invocation -> HandlerResult, h': Invocation -> HandlerResult)
    requires Process(client, config, message, h).Ignored? || Process(client, config, message, h).Refused?
    ensures Process(client, config, message, h') == Process(client, config, message, h)
  {
    ProcessByStage(client, config, message, h);
    ProcessByStage(client, config, message, h');
    var r := Resolve(client, config, message);
  }

  /** An allowed command is dispatched with the prefix in effect, the command
      name and the clean content, and its outcome is the handler's. */
  lemma AllowedIsDispatched(client: Client, config: ClientConfig, message: Message, handler: Invocation -> HandlerResult)
    requires Resolve(client, config, message).Some?
    requires Decide(config, message, Resolve(client, config, message).value) == Allowed
    ensures var r := Resolve(client, config, message).value;
      var invocation := Invocation(r.prefix, r.tokens.commandName, r.tokens.cleanContent);
      && (handler(invocation) == Returned ==> Process(client, config, message, handler) == Completed(invocation))
      && (handler(invocation).Threw? ==>
            && Process(client, config, message, handler).Failed?
            && Process(client, config, message, handler).invocation == invocation)
  {
    ProcessByStage(client, config, message, handler);
  }

  /** Line 80 already demands the bot's member record, so once the earlier
      checks pass, a command listing permissions the bot lacks is refused with
      the list of what it lacks. */
  lemma BotPermissionsAlwaysChecked(client: Client, config: ClientConfig, message: Message, handler: Invocation -> HandlerResult)
    requires Resolve(client, config, message).Some?
    requires var r := Resolve(client, config, message).value;
      && r.command.options.Some?
      && var options := r.command.options.value;
      && options.requiredClientPerms.Some?
      && (options.botStaffOnly ==> UserIsStaffOrBypassable(config.staff, r.tokens.commandName, r.authorId))
      && (options.guildAdminOnly ==> UserHasGuildAdminOrBypassable(config.staff, r.tokens.commandName, message.member, r.authorId))
      && UserMissing(options, message) == []
      && Missing(options.requiredClientPerms.value, message.botMember.value) != []
    ensures var options := Resolve(client, config, message).value.command.options.value;
      Process(client, config, message, handler)
        == Refused(DenialReply(client, MissingClientPerms(Missing(options.requiredClientPerms.value, message.botMember.value))))
  {
    ProcessByStage(client, config, message, handler);
    var r := Resolve(client, config, message).value;
    var options := r.command.options.value;
    assert ClientMissing(options, message) == Missing(options.requiredClientPerms.value, message.botMember.value);
    assert Decide(config, message, r) == Denied(MissingClientPerms(ClientMissing(options, message)));
  }

  /** A command that requires `A` and `B` from a caller who holds only `A` is
      refused, and the reply lists exactly `B`. */
  lemma MissingPermissionIsListed(staff: StaffConfig, client: Client, message: Message, authorId: string)
    requires message.member == Some(Member({"A"}))
    ensures var options := CommandOptions(false, false, Some(["A", "B"]), None);
      var d := Gate(staff, "cmd", options, message, authorId);
      && d == Denied(MissingUserPerms(["B"]))
      && DenialReply(client, d.reason).description == UserPermsHeading + "B"
  {
    var options := CommandOptions(false, false, Some(["A", "B"]), None);
    OnlyBIsMissing();
    assert UserMissing(options, message) == ["B"];
    var d := Gate(staff, "cmd", options, message, authorId);
    assert d == Denied(MissingUserPerms(["B"]));
    assert Join(["B"], ", ") == "B";
  }

  /** A member holding only `A` misses exactly `B` of `A` and `B`. */
  lemma OnlyBIsMissing()
    ensures Missing(["A", "B"], Member({"A"})) == ["B"]
  {
    var required: seq<Permission> := ["A", "B"];
    assert required[..1] == ["A"] && required[..1][..0] == [];
  }

  /** The support-server button is attached exactly when the feature is on, a
      URL is set and the guild is not the support server; the reply names the
      command as typed, and the log line has the documented shape. */
  lemma FailureIsReportedAndLogged(client: Client, config: ClientConfig, message: Message, handler: Invocation -> HandlerResult)
    requires Process(client, config, message, handler).Failed?
    ensures var o := Process(client, config, message, handler);
      var support := config.supportServer;
      && (o.reply.supportInvite.Some? <==>
            support.inviteOnCommandError && support.inviteUrl != "" && message.guildId != support.guildId)
      && o.reply.description == "An error occurred while using **`" + o.invocation.prefix + o.invocation.commandName + "`**."
      && o.log.message == "name: " + o.invocation.prefix + o.invocation.commandName
           + " | guild: '" + message.guildId + "' | user: '" + message.author.value.id + "'"
      && handler(o.invocation) == Threw(o.log.error)
  {
    ProcessByStage(client, config, message, handler);
    var r := Resolve(client, config, message).value;
    assert Decide(config, message, r) == Allowed;
    assert Process(client, config, message, handler) == Dispatch(config, message, r, handler);
    FailedDispatchIsReported(config, message, r, handler);
  }

  /** The report of a handler that threw, in terms of the resolved command. */
  lemma FailedDispatchIsReported(config: ClientConfig, message: Message, r: Resolution, handler: Invocation -> HandlerResult)
    requires Dispatch(config, message, r, handler).Failed?
    ensures var o := Dispatch(config, message, r, handler);
      var support := config.supportServer;
      && (o.reply.supportInvite.Some? <==>
            support.inviteOnCommandError && support.inviteUrl != "" && message.guildId != support.guildId)
      && o.reply.description == "An error occurred while using **`" + o.invocation.prefix + o.invocation.commandName + "`**."
      && o.log.message == "name: " + o.invocation.prefix + o.invocation.commandName
           + " | guild: '" + message.guildId + "' | user: '" + r.authorId + "'"
      && handler(o.invocation) == Threw(o.log.error)
  {
  }

  /** In the support server itself no invite is offered, whatever the rest of
      the configuration says. */
  lemma NoInviteInSupportServer(support: SupportServerConfig, invocation: Invocation)
    ensures FailureReply(support, support.guildId, invocation).supportInvite.None?
  {
  }
}
