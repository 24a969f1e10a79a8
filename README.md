# Ticket claim-and-forward bot, modelled in Dafny

The bot watches Discord channels whose name starts with `ticket-`. The first
message in such a channel whose author holds one of the guild's logger roles
is copied, as a four-line text, into the guild's logger channel. After that
the channel counts as claimed and is never forwarded again for the life of
the process. The `!loggerrole` and `!loggerchannel` commands let one
hard-coded user set a guild's roles and channel. The settings are stored as
one row per guild: the role ids as comma-separated text, and the channel id.

A second, JavaScript front end reads prefixed text commands and slash
commands. It registers its command modules from a directory.

The model has these parts:

- `role_codec.dfy` (`RoleCodec`): how the role-id list is written and read
  back. Ids are written in decimal and joined with commas, and an empty list
  is stored as NULL. On reading, each piece goes through Python's `int()`.
- `guild_settings.dfy` (`GuildSettings`): the settings table as a map from
  guild to row. It holds `get_guild_settings` with its error path,
  `save_guild_settings` with its rule that a `None` argument keeps the stored
  field, and the guards of `!loggerrole` and `!loggerchannel`.
- `ticket_dispatch.dfy` (`TicketDispatch`): the decision `on_message` takes,
  as a transition `Step` on the per-guild claimed-channel sets. It also holds
  the role test, the exact forwarded text and a parser that reads it back.
  `Run` handles a sequence of messages and admin commands one after another.
  Over any such run a ticket channel is forwarded at most once.
- `ticket_bot.dfy` (`TicketBot`): the bot's in-memory state,
  `claimed_tickets`, as a class. `OnMessage` updates it in place and is
  proved equal to `Step`.
- `command_parser.dfy` (`CommandParser`): JavaScript's `trim()`, `split(/ +/)`
  and `toLowerCase()` as used to read a text command.
- `text.dfy` (`Text`): the first index of a character in a string. The comma
  splitter, the space splitter and the forwarded-text reader all use it.
- `command_handler.dfy` (`CommandHandler`): what a text command or a slash
  command leads to. That is the handler called, and the answers sent by
  `reply` or `followUp`. It also holds `loadCommands`, a loop that registers
  modules on a `Client` object.

Outside parties become plain values:

- Discord objects become ids and strings. A message carries the author's
  mention markup, and its member roles are `None` when `guild.get_member`
  finds no member.
- `bot.get_channel` becomes a set `visible` of the channel ids it can find.
- The database becomes a `map` from guild to row.
- For the command modules, the model only records which of
  `executeMessage` and `execute` exist and whether the call throws.

On these points the model follows what the code does:

- `!loggerchannel` accepts any channel the bot can see. It does not check
  that the channel belongs to the same guild.
- A row whose role text does not parse makes `get_guild_settings` report no
  roles and no channel. The stored channel is lost for that read too. A
  later `!loggerrole` on that guild merges with this empty read and so writes
  the channel back as NULL for good; `LoggerRole` captures this.
- The forward is sent first and the claim recorded afterwards. Both happen
  in one atomic step of the model.
- A target channel id of 0 counts as unset, because Python's `if
  target_channel_id` is false for it.

## Model

| member | source | states |
|---|---|---|
| `RoleCodec.Decimal` | main.py:77 | `str(rid)` is a non-empty run of digits, without a leading zero unless it is "0" |
| `RoleCodec.ParseInt` | main.py:56 | `int(rid)` succeeds exactly on non-empty all-digit text |
| `RoleCodec.DecimalRoundTrip` | main.py:56 | `int(str(n)) == n` for every id |
| `RoleCodec.SplitComma` | main.py:56 | `split(',')` gives at least one piece, and no piece contains a comma |
| `RoleCodec.SplitJoin` | main.py:77 | splitting at commas undoes `','.join` for a non-empty list of comma-free pieces |
| `RoleCodec.SerializeRoleIds` | main.py:77 | the stored text is NULL exactly for the empty list, and non-empty otherwise |
| `RoleCodec.ParseRoleIds` | main.py:56 | NULL or empty text reads as no roles |
| `RoleCodec.ParseInts` | main.py:56 | the list comprehension succeeds only when every piece parses, with one id per piece in order; otherwise some piece fails |
| `RoleCodec.DecimalValue` | main.py:56-77 | the digits of `str(n)` read back as `n` |
| `RoleCodec.ParseDecimals` | main.py:56-77 | parsing the decimal texts of a list of ids succeeds and gives back the list |
| `RoleCodec.RoleIdsRoundTrip` | main.py:56-77 | reading back the stored text of any id list gives exactly that list |
| `GuildSettings.GetGuildSettings` | main.py:45-62 | no row gives `([], None)`; an unparsable role text gives `([], None)`, so the channel is lost too; a row whose role text parses reports the parsed roles and its stored channel; a reported channel or role list is the stored one |
| `GuildSettings.SaveGuildSettings` | main.py:64-83 | a `None` argument keeps what the read reports for that field, a given argument replaces it; the guild then has a row; no other guild's row changes |
| `GuildSettings.LoggerRole` | main.py:187-204 | only the authorized user with at least one role changes anything; then the roles become exactly the given list and the channel is kept; other guilds are unaffected |
| `GuildSettings.LoggerChannel` | main.py:206-220 | only the authorized user with a channel the bot can see changes anything; then the channel is replaced and the role list is kept; other guilds are unaffected |
| `TicketDispatch.AnyListed` | main.py:122 | `any(role.id in role_ids for role in member.roles)` is true iff some role of the member is listed |
| `TicketDispatch.HasAnyRequiredRole` | main.py:117-126 | true iff the member exists and holds some listed role; false for a missing member or an empty list |
| `TicketDispatch.ForwardText` | main.py:133-138 | the text starts with the 30-dash line and the "Ticket Number : " label, ends with the verbatim content, and has the exact length of the four-line template |
| `TicketDispatch.ForwardTextRoundTrip` | main.py:133-138 | parsing the forwarded text gives back exactly the channel name, the mention and the content, whatever the content holds |
| `TicketDispatch.ForwardMessageToChannel` | main.py:128-143 | the text is sent iff the target is visible, and otherwise only logged; a sent text carries the message's channel name, mention and content unaltered |
| `TicketDispatch.EnsureGuild` | main.py:105-106 | a guild without a set gets an empty one; existing sets are untouched |
| `TicketDispatch.AddClaim` | main.py:113 | the channel joins its guild's set; no other set changes |
| `TicketDispatch.Step` | main.py:97-113 | bot authors and non-ticket channels change nothing and forward nothing; an already-claimed channel changes nothing and forwards nothing; a ticket message creates its guild's set; sets only grow, and only by this message's channel; a channel is newly claimed iff a forward is attempted, iff the target is truthy and the author holds a listed role; the claim stands even when the target is missing |
| `TicketDispatch.Apply` | main.py:97-113 | admin commands leave the claims alone, and messages leave the settings alone |
| `TicketDispatch.Run` | main.py:97-113 | one outcome per event |
| `TicketDispatch.RunKeepsClaims` | main.py:113 | once claimed, a channel stays claimed for the whole run |
| `TicketDispatch.AtMostOnceForward` | main.py:105-113 | over any run of messages and admin commands, a channel gets exactly one forward attempt if it became claimed during the run and none otherwise, so at most one, and none when it was already claimed |
| `TicketBot.TicketForwarder.constructor` | main.py:17 | a new process has no claims |
| `TicketBot.TicketForwarder.OnMessage` | main.py:97-115 | the new `claimed_tickets` and the effect are those of `Step`; sets only grow; a claimed channel forwards nothing |
| `CommandParser.Trim` | handlers/commandHandler.js:46 | `trim()` cuts off a whitespace-only head and tail, and the result neither starts nor ends with JavaScript whitespace |
| `CommandParser.SplitSpaces` | handlers/commandHandler.js:46 | `split(/ +/)` gives at least one piece, and no piece contains a space |
| `CommandParser.SplitAtRun` | handlers/commandHandler.js:46 | a run of one or more spaces is one separator: a space-free word, a run of spaces, then text not starting with a space splits into the word followed by the pieces of that text |
| `CommandParser.SplitTrimmedHasNoEmptyToken` | handlers/commandHandler.js:46 | on text that neither starts nor ends with a space, no piece is empty |
| `CommandParser.SplitJoinRoundTrip` | handlers/commandHandler.js:46 | splitting undoes joining with single spaces, for non-empty space-free pieces |
| `CommandParser.SplitKeepsContent` | handlers/commandHandler.js:46 | the pieces run together equal the text with its spaces removed |
| `CommandParser.ToLower` | handlers/commandHandler.js:47 | same length; A-Z mapped to a-z, other characters kept; no capital and no new space in the result |
| `CommandParser.TokensOfTrimmed` | handlers/commandHandler.js:46-47 | empty trimmed text splits to `[""]`, and non-empty trimmed text splits into non-empty pieces |
| `CommandParser.ParseCommand` | handlers/commandHandler.js:46-47 | the name is the lower-cased first piece of the trimmed, split text, and the arguments are the remaining pieces in order; the name is empty iff only whitespace follows the prefix; arguments are non-empty and contain no space |
| `CommandHandler.ErrorResponse` | handlers/commandHandler.js:67-73 | the error text goes by `followUp` iff the message was replied to or deferred, and by `reply` otherwise |
| `CommandHandler.DispatchTextCommand` | handlers/commandHandler.js:50-74 | an unknown name gets exactly the one "Unknown command" reply and nothing runs; `executeMessage` runs iff the command is known and has one, with exactly the parsed arguments; without it the "not available" reply is sent; a failure adds exactly one final error answer |
| `CommandHandler.HandleMessageCommand` | handlers/commandHandler.js:37-75 | bot-authored or unprefixed messages cause nothing; otherwise the text after the prefix is parsed and dispatched; arguments passed are non-empty and space-free |
| `CommandHandler.HandleSlashCommand` | handlers/commandHandler.js:78-104 | non-chat-input interactions cause nothing; an unknown name gets the ephemeral "not recognized" reply; a known command runs `execute`, and a failure or a missing `execute` gets one ephemeral error answer by `followUp` or `reply` as the flags say |
| `CommandHandler.JsFiles` | handlers/commandHandler.js:10 | only `.js` entries pass the filter |
| `CommandHandler.JsFilesKeepsJs` | handlers/commandHandler.js:10 | an entry is kept iff it is in the listing and ends in `.js` |
| `CommandHandler.JsFilesAppend` | handlers/commandHandler.js:10 | the filter keeps the listing's order: filtering a concatenation concatenates the filtered parts |
| `CommandHandler.FirstLoadFailure` | handlers/commandHandler.js:14-16 | the loop reaches exactly the files before the first `require` that throws |
| `CommandHandler.RegistryKeys` | handlers/commandHandler.js:19-27 | a name is registered iff some loaded file's module has it as `name` (text) or `data.name` (slash) |
| `CommandHandler.RegistryLastWins` | handlers/commandHandler.js:19-27 | a name maps to the module of the last file registering under it |
| `CommandHandler.LoadCommands` | handlers/commandHandler.js:7-34 | both collections gain exactly the registrations of the `.js` files before the first load failure; with no failure the count is the number of `.js` modules with a non-empty `name` |

## Left out

- The database layer (`init_database`, psycopg2 connections and SQL, main.py:25-43 and the I/O in 45-88) is replaced by a map from guild to row. Connection and query failures are not modelled. In the source, a failed read inside `save_guild_settings` would merge with `([], None)` and so erase the stored fields. The model does not capture this.
- `RoleCodec.ParseInt`: Python's `int()` also accepts surrounding whitespace, a sign, underscores and non-ASCII digits. The model treats all of these as malformed. Stored text only ever comes from `SerializeRoleIds`, so it is plain digits and commas.
- Concurrency: the source awaits between the claim check and the claim (main.py:109-113), so two messages handled at once can both be forwarded. The model runs each `on_message` as one atomic step and makes no claim about the asynchronous code.
- Discord library calls (`guild.get_member`, `bot.get_channel`, `target_channel.send`, `author.mention`) become inputs. A failed `send` is caught and only logged, so it changes no state. `Forwarded` therefore means a send was attempted.
- `bot.process_commands`, which runs after every message not authored by a bot (main.py:115), is not part of this model.
- The exact reply texts of `!loggerrole` and `!loggerchannel` (role and channel mentions, emoji) are not modelled. Only the kind of reply is.
- The `ping` and `send_to_channel` commands, the Flask keep-alive server and `on_ready` are left out. They are plain I/O.
- `CommandParser.ToLower`: `toLowerCase()` is modelled on ASCII letters only. Non-ASCII letters keep their case in the model, and the length is kept, whereas JavaScript lower-cases them too and may change the length (`'İ'` becomes two characters).
- `CommandParser.ParseCommand`: the command name is lower-cased through `ToLower`, so on ASCII letters only, as in the line above.
- `HandleMessageCommand` and `HandleSlashCommand`: whether the command's own code throws is an input (`fails`). So are the message's `replied` and `deferred` flags as read in the `catch`. Logging is not modelled, and neither are the answers a command's own code sends.
- `LoadCommands`: the directory listing and what `require` returns are inputs. A failing `readdirSync` is not modelled, and neither are the log lines.
- index.js, handlers/eventHandler.js, config/config.js, utils/logger.js and the command modules under commands/ are not part of this model. They are registration, environment, logging and reply plumbing.
