/** webhook_handler.py: the routing decision of `handle_webhook_update`.
    The handlers it routes to live in a commands module that is not part of
    this model; routing to one is the `Dispatched` result. */
module WebhookHandler {
  import opened Wrappers
  import opened PyStr
  import opened Effects
  import opened Updates
  import Config

  /** The command handlers `handle_webhook_update` can call. */
  datatype Handler = Start | Help | ListFiles | GetMovieLink | RenameFile | DeleteFile | Announce | HealthCheck

  datatype Routing =
    | Ignored(actions: seq<Action>)          // nothing called; `actions` are its log lines and replies
    | Dispatched(handler: Handler, message: Message)
    | Callback(query: CallbackQuery)

  const UNKNOWN_REPLY: string := "Unknown command. Use /help for available commands."

  /** The admin command table. */
  function AdminHandler(command: string): (h: Option<Handler>)
    ensures h == Some(Help) <==> command == "/help"
    ensures h == Some(ListFiles) <==> command == "/list_files"
    ensures h == Some(GetMovieLink) <==> command == "/get_movie_link"
    ensures h == Some(RenameFile) <==> command == "/rename_file"
    ensures h == Some(DeleteFile) <==> command == "/delete_file"
    ensures h == Some(Announce) <==> command == "/announce"
    ensures h == Some(HealthCheck) <==> command == "/health"
    ensures h != Some(Start)
  {
    if command == "/help" then Some(Help)
    else if command == "/list_files" then Some(ListFiles)
    else if command == "/get_movie_link" then Some(GetMovieLink)
    else if command == "/rename_file" then Some(RenameFile)
    else if command == "/delete_file" then Some(DeleteFile)
    else if command == "/announce" then Some(Announce)
    else if command == "/health" then Some(HealthCheck)
    else None
  }

  /** `text.split()[0].lower()` for a text that starts with `/`. */
  function CommandOf(text: string): (command: string)
    requires StartsWith(text, "/")
    ensures command == Lower(Word(text))
  {
    assert !IsSpace(text[0]) && !AllSpace(text);
    SplitFirst(text, -1);
    Lower(Split(text, -1)[0])
  }

  /** `handle_webhook_update`. */
  function Route(u: Update): (r: Routing)
    ensures u.message.None? ==> (u.callbackQuery.Some? <==> r.Callback?)
    ensures u.message.Some? ==> !r.Callback?
    ensures u.message.Some? && !StartsWith(u.message.value.text.GetOr(""), "/") ==> r == Ignored([])
    ensures r.Dispatched? ==> u.message == Some(r.message) && StartsWith(r.message.text.GetOr(""), "/")
    ensures r.Dispatched? && r.message.from.id != Config.ADMIN_ID ==> r.handler == Start
    ensures u.message.Some? && StartsWith(u.message.value.text.GetOr(""), "/") ==>
      (r == Dispatched(Start, u.message.value) <==> Lower(Word(u.message.value.text.value)) == "/start")
  {
    match u.message
    case Some(m) =>
      if m.text.Some? && StartsWith(m.text.value, "/") then
        var command := CommandOf(m.text.value);
        var user := m.from.id;
        if command == "/start" then Dispatched(Start, m)
        else if user != Config.ADMIN_ID then
          Ignored([Log(Config.DISCORD_WEBHOOK_STATUS, "[webhook_handler] Ignored non-admin command '" + command
                                                      + "' from user " + IntToString(user))])
        else match AdminHandler(command)
          case Some(h) => Dispatched(h, m)
          case None =>
            Ignored([SendMessage(m.chat, UNKNOWN_REPLY, false),
                     Log(Config.DISCORD_WEBHOOK_STATUS, "[webhook_handler] Unknown command '" + command
                                                        + "' from chat " + IntToString(m.chat))])
      else Ignored([])
    case None =>
      match u.callbackQuery
      case Some(q) => Callback(q)
      case None => Ignored([])
  }

  /** A non-admin command other than `/start` is only logged. */
  lemma NonAdminLogged(u: Update)
    requires u.message.Some? && u.message.value.from.id != Config.ADMIN_ID
    requires u.message.value.text.Some? && StartsWith(u.message.value.text.value, "/")
    requires Lower(Word(u.message.value.text.value)) != "/start"
    ensures Route(u).Ignored? && |Route(u).actions| == 1 && Route(u).actions[0].Log?
  {
  }

  /** An admin command routes by its lower-cased first word; an unknown one
      gets the "Unknown command" reply. */
  lemma AdminRouted(u: Update)
    requires u.message.Some? && u.message.value.from.id == Config.ADMIN_ID
    requires u.message.value.text.Some? && StartsWith(u.message.value.text.value, "/")
    ensures var command := Lower(Word(u.message.value.text.value));
      && (command == "/start" ==> Route(u) == Dispatched(Start, u.message.value))
      && (AdminHandler(command).Some? ==> Route(u) == Dispatched(AdminHandler(command).value, u.message.value))
      && (command != "/start" && AdminHandler(command).None? ==>
            Route(u).Ignored? && Route(u).actions[0] == SendMessage(u.message.value.chat, UNKNOWN_REPLY, false))
  {
  }

  /** The command token is lower-cased first: `/START` routes as `/start`. */
  lemma StartAnyCase(u: Update, rest: string)
    requires u.message.Some? && u.message.value.text == Some("/START" + rest)
    requires rest == [] || IsSpace(rest[0])
    ensures Route(u) == Dispatched(Start, u.message.value)
  {
    var text := "/START" + rest;
    VisibleNoSpace("/START");
    forall j | 0 <= j < 6 ensures !IsSpace(text[j]) {
      assert text[j] == "/START"[j];
    }
    assert 6 == |text| || IsSpace(text[6]);
    SkipWordRun(text, 0, 6);
    assert Word(text) == "/START";
  }
}
