# Prefix-command pipeline of a discord.js bot template, in Dafny

This project models the message handler `processPrefixCommand` of a discord.js
bot template, and the array helper `unique`.

The handler receives every chat message. It decides whether the message is a
prefix command. The message is either ignored, refused with a warning reply, or
handed to the registered command's `execute`. When that handler throws, it
sends an error reply and writes a log line.

The model is a function of the message, the client, the configuration and the
command handler. Its outcome is one of these tagged values:
- `Ignored`;
- `Refused(reply)`;
- `Completed(invocation)`;
- `Failed(invocation, reply, log)`.

The replies and the log call are recorded, not performed.

Modules:
- `JsString` holds the JavaScript string built-ins the handler uses: `toLowerCase`, `startsWith`, `substring`, `trim`, `split(" ")[0]` and `join`.
- `Permissions` holds guild members, their permissions and `hasRequiredPermissions`. That function is a loop proved against the order-preserving filters `Held` and `Missing`.
- `StaffPolicy` holds the staff configuration, the first-match lookup `BYPASSED.find`, the staff predicate, and the guild-admin bypass list. The list is built by successive pushes, as in the source.
- `OptionExtractor` models `getOptionFromMessageContent`. It is the first match of `${flagName} (.)` or `${flagName} (.[^${prefix}]*)` under the regular-expression semantics of ECMA-262, section 22.2. It is specified by `MatchedAt`: the leftmost match, and with spaces the greedy maximal run. `MatchIsUnique` shows that this description fixes the result.
- `ProcessPrefixCommand` holds the data model and the stages `Resolve`, `Gate`, `Dispatch`, combined in `Process`. The method `Execute` follows the source's early returns and its reassignment of `prefix`. It is proved equal to `Process`.
- `PrefixCommandProperties` holds end-to-end properties of `Process`.
- `ArrayTools` models `unique`: the loop with its `Map` of seen keys, proved against `Deduplicated`. The lemmas give the subsequence, first-carrier, distinct-keys, coverage, length and idempotence properties.

In these places the code behaves in ways one might not expect; the model follows the code:
- The configured prefix is not lower-cased. Only the content is. So a prefix with an upper-case letter never matches (`UpperCasePrefixNeverMatches`).
- The command name is cut at the first space character U+0020 only. `split(" ")` does not cut at other whitespace.
- The flag name and the prefix are interpolated into the pattern without escaping.
- With spaces allowed, the value is one character other than a line terminator, which may itself be a prefix character or a space. Then comes the greedy run of characters outside the prefix, which ends at the next prefix character or at the end.

## Model

| member | source | states |
|---|---|---|
| JsString.ToLowerChar | src/events/message/9_processPrefixCommand.ts:83 | each of `A`-`Z` becomes the same letter in `a`-`z`, and every other character is unchanged |
| JsString.ToLower | src/events/message/9_processPrefixCommand.ts:83 | lower-casing keeps the length, turns each `A`-`Z` into its `a`-`z` letter and leaves every other character as it is |
| JsString.Substring | src/events/message/9_processPrefixCommand.ts:103 | `substring(start)` drops exactly `start` characters, or gives "" past the end |
| JsString.Trim | src/events/message/9_processPrefixCommand.ts:103 | the result is a slice that neither starts nor ends with whitespace or a line terminator, and only such characters were cut on either side |
| JsString.FirstSpaceToken | src/events/message/9_processPrefixCommand.ts:105 | `split(" ")[0]` is the longest prefix without a space: it is followed by a space or the end |
| JsString.Join | src/events/message/9_processPrefixCommand.ts:150 | the joined text opens with the first string, closes with the last, and its length is the strings' total plus one separator between each pair |
| JsString.JoinAppend | src/events/message/9_processPrefixCommand.ts:150 | appending a string to a non-empty list appends the separator and that string to the joined text |
| Permissions.Held | src/events/message/9_processPrefixCommand.ts:50-51 | `has` holds only required permissions that the member has, and is never longer than `required` |
| Permissions.Missing | src/events/message/9_processPrefixCommand.ts:50-52 | `missing` holds only required permissions that the member lacks |
| Permissions.MissingAppend | src/events/message/9_processPrefixCommand.ts:49-53 | `has` and `missing` of a concatenation are those of its parts, in order, so both keep the order of `required` that the replies print |
| Permissions.PartitionSizes | src/events/message/9_processPrefixCommand.ts:46-56 | `has` and `missing` partition `required`: their lengths add up and their multisets join to it |
| Permissions.EveryRequiredIsClassified | src/events/message/9_processPrefixCommand.ts:50-53 | every required permission lands in `has` if held, else in `missing` |
| Permissions.PassedIffNothingMissing | src/events/message/9_processPrefixCommand.ts:55 | `has.length === required.length` iff `missing` is empty iff every required permission is held |
| Permissions.HasRequiredPermissions | src/events/message/9_processPrefixCommand.ts:46-56 | the loop builds exactly `Held` and `Missing`; `passed` iff every required permission is held, iff nothing is missing |
| StaffPolicy.FindBypass | src/events/message/9_processPrefixCommand.ts:24 | `find` gives the first entry whose command name matches, or none when no entry matches |
| StaffPolicy.GuildAdminBypass | src/events/message/9_processPrefixCommand.ts:20-31 | an id is on the guild-admin bypass list iff, with AllStaff, it is on the staff list, and otherwise it is the owner with Owner set, a member with Members set, or in the first bypass entry with Bypassed set |
| StaffPolicy.FindBypassIgnoresLaterEntries | src/events/message/9_processPrefixCommand.ts:24 | once an entry matches, entries appended later never change what `find` returns |
| StaffPolicy.GetStaffGuildAdminBypass | src/events/message/9_processPrefixCommand.ts:20-32 | the pushes build the guild-admin bypass list: with AllStaff the whole staff list, otherwise owner, members and bypass ids as flagged, in that order; every listed id is staff |
| StaffPolicy.UserIsStaffOrBypassable | src/events/message/9_processPrefixCommand.ts:34-38 | true iff the author is the owner, a member, or in the first bypass entry for the command |
| StaffPolicy.UserHasGuildAdminOrBypassable | src/events/message/9_processPrefixCommand.ts:40-44 | true iff the caller has a member record holding Administrator or is on the guild-admin bypass list; without a member record only the list counts; a non-staff caller passes only through Administrator |
| StaffPolicy.AllStaffOverridesFlags | src/events/message/9_processPrefixCommand.ts:26 | with AllStaff the other three flags make no difference and the list is `[owner] ++ members ++ bypass ids` |
| StaffPolicy.NoFlagsNoBypass | src/events/message/9_processPrefixCommand.ts:27-31 | with all four flags false the bypass list is empty |
| StaffPolicy.GuildAdminBypassIsStaff | src/events/message/9_processPrefixCommand.ts:20-37 | whatever the flags, everyone on the guild-admin bypass list passes the staff check |
| StaffPolicy.OnlyFirstEntryCounts | src/events/message/9_processPrefixCommand.ts:36-37 | a second bypass entry for the same command grants nothing |
| OptionExtractor.LeftmostFlag | src/events/message/9_processPrefixCommand.ts:66-69 | the search returns the first index where flag name, space and a non-line-terminator occur, and none when no index matches |
| OptionExtractor.RunEnd | src/events/message/9_processPrefixCommand.ts:63 | the greedy `[^prefix]*` run holds no prefix character and stops at one or at the end |
| OptionExtractor.RunEndIsUnique | src/events/message/9_processPrefixCommand.ts:63 | any end with those two properties is the greedy run's end |
| OptionExtractor.LeftmostIsFirstMatch | src/events/message/9_processPrefixCommand.ts:69 | a matching index with no match before it is the one the search finds |
| OptionExtractor.GetOption | src/events/message/9_processPrefixCommand.ts:58-70 | null iff the flag never matches; otherwise the text matched at the leftmost index: it starts with the flag name and a space, then a non-line-terminator; without spaces it is that one character, with spaces a maximal run follows |
| OptionExtractor.MatchIsUnique | src/events/message/9_processPrefixCommand.ts:58-70 | the description of the match fixes index and text, so it specifies the result completely |
| OptionExtractor.ValueRunsToNextFlag | src/events/message/9_processPrefixCommand.ts:61-69 | `-f` with spaces in `"-f hello world -g bye"` gives `"-f hello world "` |
| OptionExtractor.ValueIsOneCharacter | src/events/message/9_processPrefixCommand.ts:64-69 | `-g` without spaces in the same content gives `"-g b"` |
| ProcessPrefixCommand.ResolvePrefix | src/events/message/9_processPrefixCommand.ts:83-100 | a prefix is found iff the lower-cased content starts with the configured prefix or the mention; the configured prefix wins; the mention is used only when the prefix fails |
| ProcessPrefixCommand.ClientMention | src/events/message/9_processPrefixCommand.ts:93 | the fallback prefix is the client user's printed mention when there is one, and a `<@...>` mention in any case, exactly `<@>` without a client user |
| ProcessPrefixCommand.Tokenise | src/events/message/9_processPrefixCommand.ts:103-107 | none iff nothing is left after the prefix and trimming; otherwise the name is the first space-free token of that rest, and the clean content is the trimmed remainder |
| ProcessPrefixCommand.Gate | src/events/message/9_processPrefixCommand.ts:116-167 | staff-only is refused iff it fails; guild-admin iff staff passed and it fails; caller permissions, listing exactly what is missing, iff both passed and something is missing; bot permissions iff the three passed and the bot lacks something; allowed iff every applicable check passes |
| ProcessPrefixCommand.UserMissing | src/events/message/9_processPrefixCommand.ts:143-144 | the caller's missing permissions are those `Missing` lists when the command lists some and a member record exists, and none otherwise |
| ProcessPrefixCommand.ClientMissing | src/events/message/9_processPrefixCommand.ts:156-157 | the bot's missing permissions are those `Missing` lists when the command lists some and the bot's member record exists, and none otherwise |
| ProcessPrefixCommand.CheckGate | src/events/message/9_processPrefixCommand.ts:116-167 | the checks with early returns decide as `Gate` does |
| ProcessPrefixCommand.DenialReply | src/events/message/9_processPrefixCommand.ts:126-164 | every denial is an orange warning without a button; staff-only and server-admin denials carry their titles and fixed sentences; both permission denials carry the "Missing Permissions" title and their sentence followed by the missing names joined with ", " |
| ProcessPrefixCommand.FailureReply | src/events/message/9_processPrefixCommand.ts:187-215 | the error reply is red, titled "⛔ Error", and has the support-server link iff the invite feature is on, the URL is set and the guild is not the support guild |
| ProcessPrefixCommand.FailureLog | src/events/message/9_processPrefixCommand.ts:219-223 | the log entry has the category `$_TIMESTAMP $_COMMAND`, carries the thrown error, its message opens with `name: ` and the prefix and command name and ends with the quoted author id |
| ProcessPrefixCommand.GetCommandOption | src/events/message/9_processPrefixCommand.ts:175-176 | the option getter handed to commands searches only the clean content |
| ProcessPrefixCommand.Resolve | src/events/message/9_processPrefixCommand.ts:77-111 | a message gets past the early returns if and only if it is eligible, has a prefix, a non-empty command name and a registered command, and then carries that prefix, those tokens, that command and the author id |
| ProcessPrefixCommand.Decide | src/events/message/9_processPrefixCommand.ts:116 | only a command with options can be refused, and its options decide through `Gate` |
| ProcessPrefixCommand.Dispatch | src/events/message/9_processPrefixCommand.ts:169-223 | dispatch always ends completed or failed with `(prefix, commandName, cleanContent)`; completed iff the handler returned; on a throw the error reply and the log entry with the thrown error |
| ProcessPrefixCommand.Process | src/events/message/9_processPrefixCommand.ts:76-225 | the handler is silent iff the message does not resolve, acts only on eligible messages, refuses with an orange reply without a button, completes only when the command returned and fails only when it threw, with a red reply |
| ProcessPrefixCommand.Execute | src/events/message/9_processPrefixCommand.ts:76-225 | the step-by-step handler with its early returns decides exactly as `Process` |
| PrefixCommandProperties.IgnoredWithoutPrefix | src/events/message/9_processPrefixCommand.ts:88-99 | content starting with neither the prefix nor the mention, once lower-cased, is ignored |
| PrefixCommandProperties.IgnoredUnlessEligible | src/events/message/9_processPrefixCommand.ts:77-80 | messages outside a guild, without an author, from a bot, with empty content, or where the bot cannot post, are ignored |
| PrefixCommandProperties.UpperCasePrefixNeverMatches | src/events/message/9_processPrefixCommand.ts:83-89 | a configured prefix with an upper-case letter never matches the lower-cased content |
| PrefixCommandProperties.PrefixMatchesUpToCase | src/events/message/9_processPrefixCommand.ts:83-89 | a configured prefix without upper-case letters is found when the content spells it with either case of each letter |
| PrefixCommandProperties.PrefixMatchIgnoresCase | src/events/message/9_processPrefixCommand.ts:83-98 | contents equal up to letter case resolve to the same prefix, because only the lower-cased content is compared |
| PrefixCommandProperties.MentionBecomesPrefix | src/events/message/9_processPrefixCommand.ts:92-107 | when only the mention matches, a dispatched command, completed or failed, carries the mention as its prefix, and its name and clean content are what remains after cutting the mention's length |
| PrefixCommandProperties.TokenisePing | src/events/message/9_processPrefixCommand.ts:103-107 | `"!ping"` followed by any number of spaces gives the command `ping` and empty clean content |
| PrefixCommandProperties.TrimmedWordWithSpaces | src/events/message/9_processPrefixCommand.ts:103 | trailing spaces after any word that neither starts nor ends with whitespace are trimmed away |
| PrefixCommandProperties.TrailingSpacesAreTrimmed | src/events/message/9_processPrefixCommand.ts:103-107 | `"!ping  "` with prefix `"!"` gives `ping` and `""` |
| PrefixCommandProperties.UnknownCommandIsIgnored | src/events/message/9_processPrefixCommand.ts:110-111 | a command name not in the registry, as typed, leaves the message without effect |
| PrefixCommandProperties.CommandLookupIsCaseSensitive | src/events/message/9_processPrefixCommand.ts:105-111 | a command registered as `Ping` is not found through `!ping` |
| PrefixCommandProperties.NoOptionsNoChecks | src/events/message/9_processPrefixCommand.ts:116-179 | a command without options is always dispatched |
| PrefixCommandProperties.StaffOnlyRefusal | src/events/message/9_processPrefixCommand.ts:125-131 | a staff-only command used by a non-staff author yields the single "Staff Only" reply |
| PrefixCommandProperties.HandlerNotCalledUnlessAllowed | src/events/message/9_processPrefixCommand.ts:116-179 | an ignored or refused message does not depend on the handler, so `execute` is never called |
| PrefixCommandProperties.AllowedIsDispatched | src/events/message/9_processPrefixCommand.ts:169-181 | an allowed command gets `(prefix, commandName, cleanContent)`, and the outcome is the handler's |
| PrefixCommandProperties.ProcessByStage | src/events/message/9_processPrefixCommand.ts:76-225 | silent exactly when the message does not resolve; refused exactly when a check fails, with that check's reply; the handler's outcome exactly when every check passes |
| PrefixCommandProperties.BotPermissionsAlwaysChecked | src/events/message/9_processPrefixCommand.ts:80-164 | since line 80 demands the bot's member record, a command listing permissions the bot lacks, with the earlier checks passed, is refused with the list of what the bot lacks |
| PrefixCommandProperties.MissingPermissionIsListed | src/events/message/9_processPrefixCommand.ts:143-151 | requiring `A` and `B` from a caller holding only `A` is refused with the text listing exactly `B` |
| PrefixCommandProperties.FailureIsReportedAndLogged | src/events/message/9_processPrefixCommand.ts:182-223 | on a throw: the invite iff the three conditions hold, the reply names `prefix + commandName`, the log message is exactly `name: ` + prefix + command name, then the guild id and the author id in quotes, with the thrown error |
| PrefixCommandProperties.FailedDispatchIsReported | src/events/message/9_processPrefixCommand.ts:182-223 | a dispatch whose handler threw carries the invite iff the three conditions hold, the reply naming `prefix + commandName`, and the log line with the guild and author ids and the thrown error |
| PrefixCommandProperties.NoInviteInSupportServer | src/events/message/9_processPrefixCommand.ts:187-190 | no invite is offered inside the support server |
| ArrayTools.Unique | src/utils/jsTools/jT_array.ts:7-21 | the loop with its seen-key map returns exactly `Deduplicated(arr)` |
| ArrayTools.DeduplicatedIsSubsequence | src/utils/jsTools/jT_array.ts:11-18 | the output is the input at strictly increasing positions, each the first item with its key |
| ArrayTools.DeduplicatedKeepsEveryKey | src/utils/jsTools/jT_array.ts:11-18 | the output carries exactly the input's keys |
| ArrayTools.DeduplicatedHasDistinctKeys | src/utils/jsTools/jT_array.ts:12-17 | no two output items share a key |
| ArrayTools.DistinctInputUnchanged | src/utils/jsTools/jT_array.ts:11-18 | an input with distinct keys comes back unchanged |
| ArrayTools.DeduplicatedNoLonger | src/utils/jsTools/jT_array.ts:7-20 | the output is never longer than the input |
| ArrayTools.SameLengthIffDistinct | src/utils/jsTools/jT_array.ts:7-20 | the output is as long as the input iff the input keys are distinct |
| ArrayTools.UniqueIsIdempotent | src/utils/jsTools/jT_array.ts:3-20 | de-duplicating twice is de-duplicating once |

## Left out

- Sending the replies (`BetterEmbed.send`) and the `logger.error` call are I/O. They are recorded in the outcome. The embed templating, the timestamp, colours beyond their names, and the `allowedMentions`/`fetchReply` options are not modelled. Those options are the same on every reply.
- `await`, and the interleaving of concurrent messages, are not modelled. Each call of the model handles one message against one snapshot of the message and configuration.
- discord.js calls are inputs: `inGuild()`, the bot's `SendMessages` permission in the channel, `message.member`, `message.guild.members.me` and the bot's user id. A member is the set of permissions for which `permissions.has` answers true, so the Administrator override of discord.js is part of that set.
- The staff-only reply prints the client user as its mention `<@id>`, or `null` without a client user. This is how discord.js prints a `User`, which is not part of this model.
- JsString.ToLower: `toLowerCase` is modelled on the ASCII letters A-Z only. The full Unicode case mapping, including mappings that change the length, is not modelled.
- A Dafny `char` is a Unicode scalar value, while JavaScript strings count UTF-16 code units. Lengths differ for characters outside the Basic Multilingual Plane.
- OptionExtractor.GetOption: the flag name is read as literal text and the prefix as a set of excluded characters. This is faithful only when the flag name holds no regular-expression metacharacter and the prefix holds no `\`, no `]` and no `-` between two characters. For other inputs the source's pattern means something else or is invalid. An invalid pattern makes `new RegExp` throw inside the command handler, which leads to the failure path.
- Permissions are modelled as their names (`type Permission = string`), and the missing list prints each name as given. A `PermissionResolvable` may also be a bigint flag, whose `toString()` is its digits, or an array. Those forms are not modelled.
- discord.js `permissions.has` throws on an unknown permission name. That call (line 51) runs before the `try` of line 170, so the source then sends no reply at all. The model instead treats every name as one the member either has or lacks, and refuses with a reply that lists it.
- The command handler's own behaviour is a parameter `handler`. Its result after a successful return is discarded, as in the source. Its thrown value is modelled as a string.
- ArrayTools.Unique: the key is an abstract function. It stands for `typeof item === "object" ? getProp(item, prop) : item`, with JavaScript `Map` key equality. `getProp` is not part of this model. The `copy` flag calls `structuredClone`, which is the identity on values, so it is left out.
- The other files of the repository are I/O wrappers and are not part of this model: the embed builder, slash-command registration, the logger, event importing, the MongoDB connection, the cookie command and the type declarations.
