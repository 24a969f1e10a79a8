/**
 * The JavaScript command front end: the outcome of a prefixed text message,
 * the outcome of a slash-command interaction, and the loader that registers
 * command modules on the client.
 */
module CommandHandler {
  import opened Wrappers
  import opened CommandParser

  /**
   * What the handler reads from a command module: `name` (registered as a
   * text command when non-empty), `data.name` (present when the module has
   * slash-command `data`), and which of `executeMessage` and `execute` exist.
   */
  datatype CommandModule = CommandModule(
    name: Option<string>,
    dataName: Option<string>,
    hasExecuteMessage: bool,
    hasExecute: bool)

  /** `replied` and `deferred` are the message's flags as the error handler reads them. */
  datatype TextMessage = TextMessage(authorIsBot: bool, content: string, replied: bool, deferred: bool)

  datatype Interaction = Interaction(isChatInputCommand: bool, commandName: string, replied: bool, deferred: bool)

  datatype ReplyVia = ViaReply | ViaFollowUp

  /** One answer sent back: through `reply` or `followUp`, with its text and its `ephemeral` flag. */
  datatype Response = Response(via: ReplyVia, text: string, ephemeral: bool)

  /**
   * A call of a command's handler that the handler attempts: the command
   * name and the arguments passed to it. A slash command whose module has
   * no `execute` is still attempted; the call then throws.
   */
  datatype Invocation = Invocation(command: string, args: seq<string>)

  /** Everything one handler call does: the command handler it calls, if any, and the answers it sends, in order. */
  datatype Handling = Handling(invoked: Option<Invocation>, responses: seq<Response>)

  const ErrorText: string := "\U{274C} There was an error executing this command. Please try again later."
  const NotTextCommandText: string := "\U{274C} This command is not available as a text command. Please use the slash command version."
  const NotRecognizedText: string := "\U{274C} This command is not recognized."

  function UnknownCommandText(commandName: string, prefix: string): string {
    "\U{274C} Unknown command: `" + commandName + "`. Use `" + prefix + "help` to see available commands."
  }

  /** The error answer: `followUp` once the message or interaction was replied to or deferred, `reply` otherwise. */
  function ErrorResponse(replied: bool, deferred: bool, ephemeral: bool): (r: Response)
    ensures r.text == ErrorText && r.ephemeral == ephemeral
    ensures r.via == ViaFollowUp <==> replied || deferred
  {
    Response(if replied || deferred then ViaFollowUp else ViaReply, ErrorText, ephemeral)
  }

  /**
   * What happens to a parsed text command: the name is looked up in the
   * `commands` collection; a known command runs its `executeMessage` with
   * the parsed arguments or, lacking one, is answered "not available"; a
   * failure there is answered with the error text.
   */
  function DispatchTextCommand(parsed: ParsedCommand, prefix: string, commands: map<string, CommandModule>,
                               replied: bool, deferred: bool, fails: bool): (h: Handling)
    // an unknown name gets exactly the one "unknown command" answer, and nothing runs
    ensures parsed.name !in commands ==>
              h == Handling(None, [Response(ViaReply, UnknownCommandText(parsed.name, prefix), false)])
    // a command runs only when it is known and has a text handler, and then with exactly the parsed arguments
    ensures h.invoked.Some? <==> parsed.name in commands && commands[parsed.name].hasExecuteMessage
    ensures h.invoked.Some? ==> h.invoked.value == Invocation(parsed.name, parsed.args)
    // a known command without a text handler is answered "not available"
    ensures parsed.name in commands && !commands[parsed.name].hasExecuteMessage ==>
              |h.responses| >= 1 && h.responses[0] == Response(ViaReply, NotTextCommandText, false)
    // a failure inside the try is answered once, last, by reply or followUp as the flags say
    ensures parsed.name in commands ==>
              |h.responses| == (if commands[parsed.name].hasExecuteMessage then 0 else 1) + (if fails then 1 else 0)
    ensures parsed.name in commands ==>
              (fails <==> |h.responses| > 0 && h.responses[|h.responses| - 1] == ErrorResponse(replied, deferred, false))
    ensures forall i :: 0 <= i < |h.responses| ==> !h.responses[i].ephemeral
  {
    if parsed.name !in commands then
      Handling(None, [Response(ViaReply, UnknownCommandText(parsed.name, prefix), false)])
    else
      var command := commands[parsed.name];
      var invoked := if command.hasExecuteMessage then Some(Invocation(parsed.name, parsed.args)) else None;
      var tried := if command.hasExecuteMessage then [] else [Response(ViaReply, NotTextCommandText, false)];
      var onError := if fails then [ErrorResponse(replied, deferred, false)] else [];
      Handling(invoked, tried + onError)
  }

  /**
   * `handleMessageCommand`. `fails` says whether the awaited call inside the
   * `try` (the command's `executeMessage`, or the "not available" reply)
   * throws; the command's own answers are its business and not listed.
   */
  function HandleMessageCommand(msg: TextMessage, prefix: string, commands: map<string, CommandModule>, fails: bool): (h: Handling)
    // bots and unprefixed messages: nothing at all
    ensures msg.authorIsBot || !(prefix <= msg.content) ==> h == Handling(None, [])
    // otherwise the text after the prefix is parsed and dispatched
    ensures !msg.authorIsBot && prefix <= msg.content ==>
              h == DispatchTextCommand(ParseCommand(msg.content[|prefix|..]), prefix, commands, msg.replied, msg.deferred, fails)
    // the arguments handed to a command are non-empty and free of spaces, its name free of capitals
    ensures h.invoked.Some? ==>
              && (forall i :: 0 <= i < |h.invoked.value.args| ==> h.invoked.value.args[i] != "" && ' ' !in h.invoked.value.args[i])
              && (forall i :: 0 <= i < |h.invoked.value.command| ==> !('A' <= h.invoked.value.command[i] <= 'Z'))
  {
    if msg.authorIsBot || !(prefix <= msg.content) then Handling(None, [])
    else DispatchTextCommand(ParseCommand(msg.content[|prefix|..]), prefix, commands, msg.replied, msg.deferred, fails)
  }

  /**
   * `handleSlashCommand`. `fails` says whether the command's `execute`
   * throws; a module without `execute` throws when called, too.
   */
  function HandleSlashCommand(interaction: Interaction, slashCommands: map<string, CommandModule>, fails: bool): (h: Handling)
    ensures !interaction.isChatInputCommand ==> h == Handling(None, [])
    ensures interaction.isChatInputCommand && interaction.commandName !in slashCommands ==>
              h == Handling(None, [Response(ViaReply, NotRecognizedText, true)])
    ensures h.invoked.Some? <==> interaction.isChatInputCommand && interaction.commandName in slashCommands
    ensures h.invoked.Some? ==> h.invoked.value == Invocation(interaction.commandName, [])
    ensures h.invoked.Some? ==>
              h.responses == if fails || !slashCommands[interaction.commandName].hasExecute
                             then [ErrorResponse(interaction.replied, interaction.deferred, true)] else []
    ensures forall i :: 0 <= i < |h.responses| ==> h.responses[i].ephemeral
  {
    if !interaction.isChatInputCommand then Handling(None, [])
    else if interaction.commandName !in slashCommands then
      Handling(None, [Response(ViaReply, NotRecognizedText, true)])
    else
      var command := slashCommands[interaction.commandName];
      var throws := fails || !command.hasExecute;
      Handling(Some(Invocation(interaction.commandName, [])),
               if throws then [ErrorResponse(interaction.replied, interaction.deferred, true)] else [])
  }

  /** One entry of the commands directory: its file name and what `require` gives (None: `require` throws). */
  datatype CommandFile = CommandFile(fileName: string, required: Option<CommandModule>)

  predicate IsJsFile(fileName: string) {
    |fileName| >= 3 && fileName[|fileName| - 3..] == ".js"
  }

  /** `readdirSync(...).filter(file => file.endsWith('.js'))`. */
  function JsFiles(listing: seq<CommandFile>): (files: seq<CommandFile>)
    ensures |files| <= |listing|
    ensures forall i :: 0 <= i < |files| ==> IsJsFile(files[i].fileName)
  {
    if listing == [] then []
    else (if IsJsFile(listing[0].fileName) then [listing[0]] else []) + JsFiles(listing[1..])
  }

  /** The filter keeps exactly the `.js` entries of the listing. */
  lemma {:induction false} JsFilesKeepsJs(listing: seq<CommandFile>, f: CommandFile)
    ensures f in JsFiles(listing) <==> f in listing && IsJsFile(f.fileName)
    decreases |listing|
  {
    if listing != [] {
      JsFilesKeepsJs(listing[1..], f);
      assert listing == [listing[0]] + listing[1..];
    }
  }

  /** The filter keeps the listing's order: filtering a concatenation concatenates the filtered parts. */
  lemma {:induction false} JsFilesAppend(a: seq<CommandFile>, b: seq<CommandFile>)
    ensures JsFiles(a + b) == JsFiles(a) + JsFiles(b)
    decreases |a|
  {
    if a == [] {
      assert a + b == b;
    } else {
      assert (a + b)[0] == a[0];
      assert (a + b)[1..] == a[1..] + b;
      JsFilesAppend(a[1..], b);
    }
  }

  /** Under which key a module is registered: `name` when non-empty for text commands, `data.name` for slash commands. */
  function KeyOf(m: CommandModule, slash: bool): Option<string> {
    if slash then m.dataName
    else if m.name.Some? && m.name.value != "" then m.name
    else None
  }

  /** Does loading `f` register a module under `key`? */
  predicate Registers(f: CommandFile, key: string, slash: bool) {
    f.required.Some? && KeyOf(f.required.value, slash) == Some(key)
  }

  /**
   * The registrations the first `n` files make, one after another; a later
   * module replaces an earlier one with the same key.
   */
  function Registry(files: seq<CommandFile>, n: nat, slash: bool): map<string, CommandModule>
    requires n <= |files|
  {
    if n == 0 then map[]
    else
      var before := Registry(files, n - 1, slash);
      var f := files[n - 1];
      if f.required.Some? && KeyOf(f.required.value, slash).Some?
      then before[KeyOf(f.required.value, slash).value := f.required.value]
      else before
  }

  predicate IsNamed(f: CommandFile) {
    f.required.Some? && KeyOf(f.required.value, false).Some?
  }

  /** `loadedCommands` after the first `n` files: how many of them have a non-empty `name`. */
  function NamedCount(files: seq<CommandFile>, n: nat): nat
    requires n <= |files|
  {
    if n == 0 then 0 else NamedCount(files, n - 1) + if IsNamed(files[n - 1]) then 1 else 0
  }

  /** Where the loop stops: the first file whose `require` throws, or the end. */
  function FirstLoadFailure(files: seq<CommandFile>): (k: nat)
    ensures k <= |files|
    ensures forall i :: 0 <= i < k ==> files[i].required.Some?
    ensures k < |files| ==> files[k].required.None?
  {
    if files == [] || files[0].required.None? then 0 else 1 + FirstLoadFailure(files[1..])
  }

  /** A key is registered exactly when one of the files registers under it. */
  lemma {:induction false} RegistryKeys(files: seq<CommandFile>, n: nat, key: string, slash: bool)
    requires n <= |files|
    ensures key in Registry(files, n, slash) <==> exists i :: 0 <= i < n && Registers(files[i], key, slash)
  {
    if n > 0 {
      RegistryKeys(files, n - 1, key, slash);
    }
  }

  /** The module registered under a key is the one of the last file registering under it. */
  lemma {:induction false} RegistryLastWins(files: seq<CommandFile>, n: nat, key: string, slash: bool, i: nat)
    requires n <= |files|
    requires i < n && Registers(files[i], key, slash)
    requires forall j :: i < j < n ==> !Registers(files[j], key, slash)
    ensures key in Registry(files, n, slash) && Registry(files, n, slash)[key] == files[i].required.value
  {
    if i < n - 1 {
      RegistryLastWins(files, n - 1, key, slash, i);
    }
  }

  /** One more loaded file: its registration is laid over the collection built so far. */
  lemma RegisterNext(base: map<string, CommandModule>, files: seq<CommandFile>, i: nat, slash: bool)
    requires i < |files| && files[i].required.Some?
    ensures var m := files[i].required.value;
            base + Registry(files, i + 1, slash) ==
              if KeyOf(m, slash).Some? then (base + Registry(files, i, slash))[KeyOf(m, slash).value := m]
              else base + Registry(files, i, slash)
  {
  }

  /** The bot client's two command collections. */
  class Client {
    var commands: map<string, CommandModule>
    var slashCommands: map<string, CommandModule>

    constructor ()
      ensures commands == map[] && slashCommands == map[]
    {
      commands := map[];
      slashCommands := map[];
    }
  }

  /**
   * `loadCommands`: registers every loadable `.js` module by `name` and by
   * `data.name`, counting the named ones. A `require` that throws ends the
   * loop (the catch only logs), so the files before it stay registered and
   * no count is reported (None).
   */
  method LoadCommands(client: Client, listing: seq<CommandFile>) returns (loaded: Option<nat>)
    modifies client
    ensures var files := JsFiles(listing);
            client.commands == old(client.commands) + Registry(files, FirstLoadFailure(files), false)
    ensures var files := JsFiles(listing);
            client.slashCommands == old(client.slashCommands) + Registry(files, FirstLoadFailure(files), true)
    ensures var files := JsFiles(listing);
            loaded == if FirstLoadFailure(files) == |files| then Some(NamedCount(files, |files|)) else None
  {
    var commandFiles := JsFiles(listing);
    var loadedCommands := 0;
    var i := 0;
    while i < |commandFiles|
      invariant i <= FirstLoadFailure(commandFiles)
      invariant client.commands == old(client.commands) + Registry(commandFiles, i, false)
      invariant client.slashCommands == old(client.slashCommands) + Registry(commandFiles, i, true)
      invariant loadedCommands == NamedCount(commandFiles, i)
    {
      var file := commandFiles[i];
      if file.required.None? {
        return None;
      }
      var command := file.required.value;
      RegisterNext(old(client.commands), commandFiles, i, false);
      RegisterNext(old(client.slashCommands), commandFiles, i, true);
      if command.name.Some? && command.name.value != "" {
        client.commands := client.commands[command.name.value := command];
        loadedCommands := loadedCommands + 1;
      }
      if command.dataName.Some? {
        client.slashCommands := client.slashCommands[command.dataName.value := command];
      }
      i := i + 1;
    }
    loaded := Some(loadedCommands);
  }
}
