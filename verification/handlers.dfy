/** handlers.py: `process_update`, one step of the bot on one Telegram
    update, over the movie store, the user store and the pending-upload map
    (`TEMP_FILE_IDS`). The branches are tried in the order of the source,
    and the first that applies ends the step. `failing` is the set of user
    ids whose announcement message raises. */
module Handlers {
  import opened Wrappers
  import opened KeyedDocs
  import opened PyStr
  import opened Effects
  import opened Updates
  import Config
  import Database
  import Commands
  import TelegramBot

  datatype State = State(movies: Database.Movies, users: Database.Users, pending: Commands.Pending)

  datatype Reaction = Reaction(state: State, actions: seq<Action>)

  predicate Valid(s: State) {
    Database.Valid(s.movies, s.users)
  }

  const STATS_HEADER: string := "\U{1F4CA} Bot Statistics:\nTotal Movies: "
  const ANNOUNCE_USAGE: string := "Usage: /announce Your announcement message"
  const NO_USERS: string := "No users to announce to."

  /** `get_user_display_name`. */
  function DisplayName(user: User): (name: string)
    ensures name != []
    ensures user.username != [] ==> name == "@" + user.username
    ensures user.username == [] && AllSpace(user.firstName + " " + user.lastName) ==> name == "Unknown User"
    ensures user.username == [] && !AllSpace(user.firstName + " " + user.lastName) ==>
      name == Strip(user.firstName + " " + user.lastName) && !IsSpace(name[0]) && !IsSpace(name[|name| - 1])
  {
    if user.username != [] then "@" + user.username
    else
      var full := Strip(user.firstName + " " + user.lastName);
      if full == [] then "Unknown User" else full
  }

  /** The user as the file-access log names them. */
  function Who(user: User): string {
    DisplayName(user) + " (ID: " + IntToString(user.id) + ")"
  }

  /** The first step of `process_update`: a non-admin sender is upserted into
      the user store. */
  function Register(users: Database.Users, from: User): (r: Database.Users)
    ensures from.id == Config.ADMIN_ID ==> r == users
    ensures from.id != Config.ADMIN_ID && UniqueKeys(users) ==>
      UniqueKeys(r) && Load(r) == Load(users)[from.id := Database.StoredName(DisplayName(from))]
  {
    if from.id != Config.ADMIN_ID then Database.AddUser(users, from.id, DisplayName(from)) else users
  }

  /** `[user['user_id'] for user in get_all_users()]`: one id per stored
      user, in stored order; on a valid store every registered user is
      announced to exactly once. */
  function UserIds(users: Database.Users): (ids: seq<int>)
    ensures |ids| == |users|
    ensures forall i :: 0 <= i < |users| ==> ids[i] == users[i].key
    ensures forall k :: k in ids <==> k in Load(users)
    ensures UniqueKeys(users) ==> forall i, j :: 0 <= i < j < |ids| ==> ids[i] != ids[j]
  {
    var ids := seq(|users|, i requires 0 <= i < |users| => users[i].key);
    forall k | k in Keys(users) ensures k in ids {
      var i := KeysWitness(users, k);
      assert ids[i] == k;
    }
    forall i | 0 <= i < |users| ensures users[i].key in Keys(users) {
      KeysHas(users, i);
    }
    ids
  }

  /** The reply and log line after an announcement. */
  function AnnounceReport(chat: int, a: TelegramBot.Announced): seq<Action> {
    [Commands.Reply(chat, "\U{1F4E2} Announcement sent!\nSuccess: " + NatToString(a.success)
                          + " users\nFailed: " + NatToString(a.failed) + " users"),
     Log(Config.DISCORD_WEBHOOK_LIST_LOGS, "Announcement sent to " + NatToString(a.success)
                                           + " users, failed for " + NatToString(a.failed) + " users")]
  }

  /** The `/announce` branch. */
  function HandleAnnounce(users: Database.Users, chat: int, text: string, failing: set<int>): (r: seq<Action>)
    ensures |Split(text, 1)| < 2 ==> r == [Commands.Reply(chat, ANNOUNCE_USAGE)]
    ensures |Split(text, 1)| == 2 && users == [] ==> r == [Commands.Reply(chat, NO_USERS)]
    ensures |Split(text, 1)| == 2 && users != [] ==>
      var a := TelegramBot.Announce(UserIds(users), Split(text, 1)[1], true, failing);
      && |r| == |users| + 2
      && (forall i :: 0 <= i < |users| ==> r[i] == SendMessage(users[i].key, Split(text, 1)[1], true))
      && a.success + a.failed == |users|
      && r[|users|..] == AnnounceReport(chat, a)
  {
    var parts := Split(text, 1);
    if |parts| < 2 then [Commands.Reply(chat, ANNOUNCE_USAGE)]
    else if users == [] then [Commands.Reply(chat, NO_USERS)]
    else
      var a := TelegramBot.Announce(UserIds(users), parts[1], true, failing);
      assert (a.actions + AnnounceReport(chat, a))[|users|..] == AnnounceReport(chat, a);
      a.actions + AnnounceReport(chat, a)
  }

  /** The branches of `process_update` after the sender is registered, in
      the order the source tries them. */
  function Dispatch(s: State, m: Message, failing: set<int>): (r: Reaction)
  {
    var chat, user, text := m.chat, m.from.id, m.text.GetOr("");
    var admin := user == Config.ADMIN_ID;
    if admin && (m.document.Some? || m.video.Some?) then
      var o := Commands.HandleAdminUpload(s.movies, s.pending, chat, user, m.document, m.video);
      Reaction(s.(pending := o.pending), o.actions)
    else if admin && chat in s.pending && text != [] then
      var o := Commands.HandleAdminNamingMovie(s.movies, s.pending, chat, user, text);
      Reaction(s.(movies := o.movies, pending := o.pending), o.actions)
    else if admin && text == "/list_files" then
      Reaction(s, Commands.HandleListFiles(s.movies, chat, user))
    else if admin && StartsWith(text, "/rename_file") then
      var o := Commands.HandleRenameFile(s.movies, chat, user, text);
      Reaction(s.(movies := o.movies), o.actions)
    else if admin && StartsWith(text, "/delete_file") then
      var o := Commands.HandleDeleteFile(s.movies, chat, user, text);
      Reaction(s.(movies := o.movies), o.actions)
    else if admin && StartsWith(text, "/get_movie_link") then
      Reaction(s, Commands.HandleGetMovieLink(s.movies, chat, user, text))
    else if admin && text == "/stats" then
      var stats := Database.GetStats(s.movies, s.users);
      Reaction(s, [Commands.Reply(chat, STATS_HEADER + NatToString(stats.movieCount)
                                        + "\nTotal Users: " + NatToString(stats.userCount))])
    else if admin && text == "/health" then
      Reaction(s, [HealthReport(chat)])
    else if admin && StartsWith(text, "/announce") then
      Reaction(s, HandleAnnounce(s.users, chat, text, failing))
    else if StartsWith(text, "/start ") then
      Reaction(s, Commands.HandleStart(s.movies, chat, Who(m.from), text))
    else
      Reaction(s, [])
  }

  /** `process_update`. */
  function Step(s: State, u: Update, failing: set<int>): (r: Reaction)
    ensures u.message.None? ==> r == Reaction(s, [])
    ensures u.message.Some? && u.message.value.from.id != Config.ADMIN_ID ==>
      && r.state.movies == s.movies && r.state.pending == s.pending
      && (UniqueKeys(s.users) ==>
            Load(r.state.users) == Load(s.users)[u.message.value.from.id := Database.StoredName(DisplayName(u.message.value.from))])
    ensures u.message.Some? && u.message.value.from.id == Config.ADMIN_ID ==> r.state.users == s.users
    ensures Valid(s) ==> Valid(r.state)
  {
    match u.message
    case None => Reaction(s, [])
    case Some(m) =>
      var s1 := s.(users := Register(s.users, m.from));
      var r := Dispatch(s1, m, failing);
      assert Valid(s) ==> Valid(r.state) by {
        if Valid(s) {
          assert UniqueKeys(s1.movies) && UniqueKeys(s1.users);
        }
      }
      r
  }

  /** A non-admin message other than `/start <name>` changes nothing but the
      user store and sends nothing. */
  lemma NonAdminIgnored(s: State, u: Update, failing: set<int>)
    requires u.message.Some? && u.message.value.from.id != Config.ADMIN_ID
    requires !StartsWith(u.message.value.text.GetOr(""), "/start ")
    ensures Step(s, u, failing).actions == []
  {
  }

  /** An admin upload, document before video, becomes the chat's pending
      file; nothing is stored and only the prompt is sent. */
  lemma AdminUpload(s: State, u: Update, failing: set<int>)
    requires u.message.Some? && u.message.value.from.id == Config.ADMIN_ID
    requires u.message.value.document.Some? || u.message.value.video.Some?
    ensures var m := u.message.value;
      var r := Step(s, u, failing);
      && r.state.movies == s.movies
      && r.state.pending == s.pending[m.chat := Commands.UploadedFile(m.document, m.video).value]
      && r.actions == [Commands.Reply(m.chat, Commands.UPLOAD_PROMPT)]
  {
  }

  /** While a chat has a pending upload, any non-empty admin text without a
      file, commands included, is stored as the movie's name. */
  lemma PendingNameFirst(s: State, u: Update, failing: set<int>)
    requires UniqueKeys(s.movies)
    requires u.message.Some? && u.message.value.from.id == Config.ADMIN_ID
    requires u.message.value.document.None? && u.message.value.video.None?
    requires u.message.value.chat in s.pending && u.message.value.text.GetOr("") != []
    ensures var m := u.message.value;
      var r := Step(s, u, failing);
      && Load(r.state.movies) == Load(s.movies)[m.text.value := s.pending[m.chat]]
      && r.state.pending == s.pending - {m.chat}
  {
  }

  /** `/rename_file` with fewer than three words answers with the usage and
      changes nothing. */
  lemma RenameUsage(s: State, u: Update, failing: set<int>)
    requires u.message.Some? && u.message.value.from.id == Config.ADMIN_ID
    requires u.message.value.document.None? && u.message.value.video.None?
    requires u.message.value.chat !in s.pending
    requires var text := u.message.value.text.GetOr("");
      StartsWith(text, "/rename_file") && |Split(text, 2)| < 3
    ensures Step(s, u, failing) == Reaction(s, [Commands.Reply(u.message.value.chat, Commands.RENAME_USAGE)])
  {
    var text := u.message.value.text.GetOr("");
    assert text != "/list_files" by {
      assert text[..12] == "/rename_file";
    }
  }
}
