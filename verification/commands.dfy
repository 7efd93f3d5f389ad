/** commands.py: the admin upload/naming two-step and the text commands,
    each a function from the movie store and the pending-upload map
    (`TEMP_FILE_IDS`, chat -> file_id) to the new store, the new map and the
    requests made. */
module Commands {
  import opened Wrappers
  import opened KeyedDocs
  import opened PyStr
  import opened Effects
  import Config
  import Database
  import DeepLink

  type Movies = Database.Movies
  type Pending = map<int, string>

  datatype Outcome = Outcome(movies: Movies, pending: Pending, actions: seq<Action>)

  /** The result of a command that touches only the movie store. */
  datatype Edited = Edited(movies: Movies, actions: seq<Action>)

  const UPLOAD_PROMPT: string := "Send the name of this movie to store it:"
  const NO_FILES: string := "No files stored."
  const LISTING_HEADER: string := "Stored Files:\n"
  const RENAME_USAGE: string := "Usage: /rename_file OldName NewName"
  const DELETE_USAGE: string := "Usage: /delete_file FileName"
  const LINK_USAGE: string := "Usage: /get_movie_link Movie Name"

  /** `send_message(chat_id, text)` without a parse mode. */
  function Reply(chat: int, text: string): Action {
    SendMessage(chat, text, false)
  }

  function NotFound(chat: int, name: string): Action {
    Reply(chat, "Movie '" + name + "' not found.")
  }

  function Added(chat: int, name: string): Action {
    Reply(chat, "Movie '" + name + "' has been added.")
  }

  /** The file id of an upload: the document's when there is one, else the video's. */
  function UploadedFile(document: Option<string>, video: Option<string>): (r: Option<string>)
    ensures r.None? <==> document.None? && video.None?
    ensures document.Some? ==> r == document
    ensures document.None? ==> r == video
  {
    if document.Some? then document else video
  }

  /** `handle_admin_upload`. */
  function HandleAdminUpload(movies: Movies, pending: Pending, chat: int, user: int,
                             document: Option<string>, video: Option<string>): (r: Outcome)
    ensures r.movies == movies
    ensures user != Config.ADMIN_ID || (document.None? && video.None?) ==> r == Outcome(movies, pending, [])
    ensures user == Config.ADMIN_ID && document.Some? ==>
      r.pending == pending[chat := document.value] && r.actions == [Reply(chat, UPLOAD_PROMPT)]
    ensures user == Config.ADMIN_ID && document.None? && video.Some? ==>
      r.pending == pending[chat := video.value] && r.actions == [Reply(chat, UPLOAD_PROMPT)]
  {
    match UploadedFile(document, video)
    case Some(fileId) =>
      if user == Config.ADMIN_ID then Outcome(movies, pending[chat := fileId], [Reply(chat, UPLOAD_PROMPT)])
      else Outcome(movies, pending, [])
    case None => Outcome(movies, pending, [])
  }

  /** `handle_admin_naming_movie`. */
  function HandleAdminNamingMovie(movies: Movies, pending: Pending, chat: int, user: int, text: string): (r: Outcome)
    ensures !(user == Config.ADMIN_ID && chat in pending && text != []) ==> r == Outcome(movies, pending, [])
    ensures user == Config.ADMIN_ID && chat in pending && text != [] ==>
      && r.pending == pending - {chat}
      && (UniqueKeys(movies) ==> UniqueKeys(r.movies) && Load(r.movies) == Load(movies)[text := pending[chat]])
      && r.actions == [Added(chat, text), Log(Config.DISCORD_WEBHOOK_LIST_LOGS, "Movie added: " + text)]
  {
    if user == Config.ADMIN_ID && chat in pending && text != [] then
      Outcome(Database.SaveMovie(movies, text, pending[chat]), pending - {chat},
              [Added(chat, text), Log(Config.DISCORD_WEBHOOK_LIST_LOGS, "Movie added: " + text)])
    else
      Outcome(movies, pending, [])
  }

  /** An admin upload followed by a non-empty name in the same chat stores
      the uploaded file under that name and clears the chat's pending entry. */
  lemma UploadThenName(movies: Movies, pending: Pending, chat: int,
                       document: Option<string>, video: Option<string>, name: string)
    requires UniqueKeys(movies)
    requires document.Some? || video.Some?
    requires name != []
    ensures var up := HandleAdminUpload(movies, pending, chat, Config.ADMIN_ID, document, video);
      var named := HandleAdminNamingMovie(up.movies, up.pending, chat, Config.ADMIN_ID, name);
      && Load(named.movies) == Load(movies)[name := UploadedFile(document, video).value]
      && named.pending == pending - {chat}
  {
  }

  /** The text `handle_list_files` sends: the stored names, one per line,
      in the order the dict built by `load_movies` iterates them. */
  function Listing(movies: Movies): (text: string)
    ensures text == NO_FILES <==> movies == []
    ensures movies != [] ==> LISTING_HEADER <= text
    ensures movies != [] ==> text == LISTING_HEADER + Join(KeyOrder(movies), "\n")
  {
    if movies == [] then NO_FILES
    else
      var text := LISTING_HEADER + Join(KeyOrder(movies), "\n");
      assert text[0] != NO_FILES[0];
      text
  }

  /** Every stored name appears in the listing. */
  lemma ListingNamesAll(movies: Movies, i: nat)
    requires i < |movies|
    ensures Contains(Listing(movies), movies[i].key)
  {
    var names := KeyOrder(movies);
    var p :| 0 <= p < |names| && names[p] == movies[i].key;
    JoinHas(names, "\n", p);
    var k :| OccursAt(Join(names, "\n"), names[p], k);
    OccursAfter(LISTING_HEADER, Join(names, "\n"), names[p], k);
  }

  /** Conversely, a non-empty listing is the header followed by the
      stored names joined by newlines: each name once, nothing else, in
      the order in which the names were first stored. */
  lemma ListingNamesOnly(movies: Movies)
    requires movies != []
    ensures exists names: seq<string> ::
      && Listing(movies) == LISTING_HEADER + Join(names, "\n")
      && (forall i, j :: 0 <= i < j < |names| ==> names[i] != names[j])
      && (forall i :: 0 <= i < |names| ==> names[i] in Load(movies))
      && (forall i, j :: 0 <= i < j < |names| ==> FirstIndex(movies, names[i]).value < FirstIndex(movies, names[j]).value)
  {
    var names := KeyOrder(movies);
    assert Listing(movies) == LISTING_HEADER + Join(names, "\n");
  }

  /** `handle_list_files`. */
  function HandleListFiles(movies: Movies, chat: int, user: int): (r: seq<Action>)
    ensures user != Config.ADMIN_ID ==> r == []
    ensures user == Config.ADMIN_ID ==> r == [Reply(chat, Listing(movies))]
  {
    if user == Config.ADMIN_ID then [Reply(chat, Listing(movies))] else []
  }

  /** `handle_rename_file`. */
  function HandleRenameFile(movies: Movies, chat: int, user: int, text: string): (r: Edited)
    ensures !(StartsWith(text, "/rename_file") && user == Config.ADMIN_ID) ==> r.movies == movies && r.actions == []
    ensures StartsWith(text, "/rename_file") && user == Config.ADMIN_ID && |Split(text, 2)| < 3 ==>
      r.movies == movies && r.actions == [Reply(chat, RENAME_USAGE)]
    ensures StartsWith(text, "/rename_file") && user == Config.ADMIN_ID && |Split(text, 2)| == 3 ==>
      var from, to := Split(text, 2)[1], Split(text, 2)[2];
      && (from !in Load(movies) ==> r.movies == movies && r.actions == [NotFound(chat, from)])
      && (from in Load(movies) ==> r.actions == [
            Reply(chat, "Renamed '" + from + "' to '" + to + "'."),
            Log(Config.DISCORD_WEBHOOK_LIST_LOGS, "Renamed '" + from + "' to '" + to + "'")])
      && (from in Load(movies) && UniqueKeys(movies) ==>
            UniqueKeys(r.movies) && Load(r.movies) == (Load(movies) - {from})[to := Load(movies)[from]])
  {
    if StartsWith(text, "/rename_file") && user == Config.ADMIN_ID then
      var parts := Split(text, 2);
      if |parts| < 3 then Edited(movies, [Reply(chat, RENAME_USAGE)])
      else
        var from, to := parts[1], parts[2];
        var (renamed, movies') := Database.RenameMovie(movies, from, to);
        if renamed then
          Edited(movies', [Reply(chat, "Renamed '" + from + "' to '" + to + "'."),
                                   Log(Config.DISCORD_WEBHOOK_LIST_LOGS, "Renamed '" + from + "' to '" + to + "'")])
        else Edited(movies, [NotFound(chat, from)])
    else Edited(movies, [])
  }

  /** `/rename_file Old New Name`: the old name is one word and the new name
      is all the rest of the text, spaces included. */
  lemma RenameCommand(movies: Movies, chat: int, from: string, to: string)
    requires UniqueKeys(movies) && from in Load(movies)
    requires from != [] && NoSpace(from) && to != [] && !IsSpace(to[0])
    ensures var r := HandleRenameFile(movies, chat, Config.ADMIN_ID, "/rename_file " + from + " " + to);
      Load(r.movies) == (Load(movies) - {from})[to := Load(movies)[from]]
  {
    RenameWords(from, to);
  }

  lemma RenameWords(from: string, to: string)
    requires from != [] && NoSpace(from) && to != [] && !IsSpace(to[0])
    ensures var text := "/rename_file " + from + " " + to;
      StartsWith(text, "/rename_file") && Split(text, 2) == ["/rename_file", from, to]
  {
    assert "/rename_file " + from + " " + to == "/rename_file" + " " + from + " " + to;
    VisibleNoSpace("/rename_file");
    SplitTwo("/rename_file", from, to);
  }

  /** `handle_delete_file`. */
  function HandleDeleteFile(movies: Movies, chat: int, user: int, text: string): (r: Edited)
    ensures !(StartsWith(text, "/delete_file") && user == Config.ADMIN_ID) ==> r.movies == movies && r.actions == []
    ensures StartsWith(text, "/delete_file") && user == Config.ADMIN_ID && |Split(text, 1)| < 2 ==>
      r.movies == movies && r.actions == [Reply(chat, DELETE_USAGE)]
    ensures StartsWith(text, "/delete_file") && user == Config.ADMIN_ID && |Split(text, 1)| == 2 ==>
      var name := Split(text, 1)[1];
      && (UniqueKeys(movies) ==> UniqueKeys(r.movies) && Load(r.movies) == Load(movies) - {name})
      && (name !in Load(movies) ==> r.movies == movies)
  {
    if StartsWith(text, "/delete_file") && user == Config.ADMIN_ID then
      var parts := Split(text, 1);
      if |parts| < 2 then Edited(movies, [Reply(chat, DELETE_USAGE)])
      else
        var name := parts[1];
        Edited(Database.DeleteMovie(movies, name),
                [Reply(chat, "Deleted '" + name + "'."), Log(Config.DISCORD_WEBHOOK_LIST_LOGS, "Deleted movie: " + name)])
    else Edited(movies, [])
  }

  /** The reply to `/delete_file` does not depend on whether the name was stored. */
  lemma DeleteReplyIgnoresStore(m1: Movies, m2: Movies, chat: int, user: int, text: string)
    ensures HandleDeleteFile(m1, chat, user, text).actions == HandleDeleteFile(m2, chat, user, text).actions
  {
  }

  /** `/delete_file Some Name` removes exactly `Some Name`. */
  lemma DeleteCommand(movies: Movies, chat: int, name: string)
    requires UniqueKeys(movies)
    requires name != [] && !IsSpace(name[0])
    ensures var r := HandleDeleteFile(movies, chat, Config.ADMIN_ID, "/delete_file " + name);
      && Load(r.movies) == Load(movies) - {name}
      && r.actions[0] == Reply(chat, "Deleted '" + name + "'.")
  {
    var text := "/delete_file " + name;
    assert text == "/delete_file" + " " + name;
    assert StartsWith(text, "/delete_file");
    VisibleNoSpace("/delete_file");
    SplitOne("/delete_file", name);
  }

  /** `handle_get_movie_link`. */
  function HandleGetMovieLink(movies: Movies, chat: int, user: int, text: string): (r: seq<Action>)
    ensures !(StartsWith(text, "/get_movie_link") && user == Config.ADMIN_ID) ==> r == []
    ensures StartsWith(text, "/get_movie_link") && user == Config.ADMIN_ID && |Split(text, 1)| < 2 ==>
      r == [Reply(chat, LINK_USAGE)]
    ensures StartsWith(text, "/get_movie_link") && user == Config.ADMIN_ID && |Split(text, 1)| == 2 ==>
      var name := Split(text, 1)[1];
      && (name in Load(movies) ==> r == [Reply(chat, "Click here to get the movie: " + DeepLink.Link(name)),
                                        Log(Config.DISCORD_WEBHOOK_LIST_LOGS, "Generated link for: " + name)])
      && (name !in Load(movies) ==> r == [NotFound(chat, name)])
  {
    if StartsWith(text, "/get_movie_link") && user == Config.ADMIN_ID then
      var parts := Split(text, 1);
      if |parts| < 2 then [Reply(chat, LINK_USAGE)]
      else
        var name := parts[1];
        if name in Load(movies) then
          [Reply(chat, "Click here to get the movie: " + DeepLink.Link(name)),
           Log(Config.DISCORD_WEBHOOK_LIST_LOGS, "Generated link for: " + name)]
        else [NotFound(chat, name)]
    else []
  }

  /** `handle_start`; `who` is the user as the access log names them
      (`str(user_id)` here). */
  function HandleStart(movies: Movies, chat: int, who: string, text: string): (r: seq<Action>)
    ensures !StartsWith(text, DeepLink.START) ==> r == []
    ensures StartsWith(text, DeepLink.START) ==>
      var name := DeepLink.Decode(text);
      && (name in Load(movies) ==> r == [SendFile(chat, Load(movies)[name]),
                                         Log(Config.DISCORD_WEBHOOK_FILE_ACCESS, who + " accessed movie: " + name)])
      && (name !in Load(movies) ==> r == [NotFound(chat, name)])
  {
    if StartsWith(text, DeepLink.START) then
      var name := DeepLink.Decode(text);
      if name in Load(movies) then
        [SendFile(chat, Load(movies)[name]), Log(Config.DISCORD_WEBHOOK_FILE_ACCESS, who + " accessed movie: " + name)]
      else [NotFound(chat, name)]
    else []
  }

  /** Following the link `/get_movie_link` gives for a stored name sends that
      movie's file, provided the name has no underscore. */
  lemma LinkThenStart(movies: Movies, chat: int, who: string, name: string)
    requires name in Load(movies)
    requires forall i :: 0 <= i < |name| ==> name[i] != '_'
    ensures HandleStart(movies, chat, who, DeepLink.START + DeepLink.Encode(name))[0] == SendFile(chat, Load(movies)[name])
  {
    DeepLink.RoundTrip(name);
  }
}
