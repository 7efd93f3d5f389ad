# Movie-sharing Telegram bot: a Dafny model of its stateful core

The bot stores movies that an admin uploads to Telegram under a name. It hands
each movie out through a deep link (`https://t.me/<bot>?start=<name>`). A file
delivered this way is deleted again after fifteen minutes. The bot logs what it
does to Discord webhooks.

This project models the logic under the HTTP glue as pure Dafny functions:

- **Stores.** The movie store, the user store and the sent-file records are
  modelled in two forms. The MongoDB-backed `database.py` keeps names unique
  and upserts. The alternative store `db.py` appends, so duplicate names are possible and
  the last one wins on load. Both act on an ordered sequence of documents
  (`KeyedDocs`), because listing and announcing follow the collection's
  order. `Load` builds the dictionary the Python code builds.
- **Update step.** `process_update` is a step function over the movie store,
  the user store and the per-chat pending-upload map (`TEMP_FILE_IDS`). It
  tries its branches in the source's order. The same logic appears as the
  separate handlers of `commands.py`.
- **Deep links.** Encoding replaces spaces by `_`, and `/start` turns `_` back
  into spaces. They round-trip exactly when the name has no `_`.
- **Routing.** `handle_webhook_update` picks the command token and routes it
  through the admin gate, the `/start` exception and the "Unknown command"
  reply.
- **Sent-file lifecycle.** `telegram_bot.py` and the alternative `telegram.py`
  differ in error handling. The model covers when a record is saved, which
  deletions are requested and in what order, and when a record goes.
- **Time-gated logic.** This covers the anti-spam cooldown, the two Discord
  log throttles, embed construction from `EMBED_CONFIG`, and the
  `send_to_discord` retry policy.

Every Telegram or Discord request is an `Effects.Action` value that a function
returns. Every reply the code branches on is a parameter:

- the `ok` flag and the `message_id`s (`Option<int>`);
- the set of `(chat, message id)` pairs whose `deleteMessage` request raises;
- a Discord status code;
- the `nat -> Response` oracle of successive webhook replies.

Time is an integer number of seconds, passed in as `now`. Python's `str.split`,
`str.strip`, `str.replace`, `str.lower` and `startswith` are modelled in
`PyStr`. `isspace` uses the full set of whitespace code points CPython
recognises.

Some behaviour of the code is easy to miss:

- A non-admin who sends an admin command gets no reply. In `handlers.py`
  nothing happens; in `webhook_handler.py` the attempt is only logged.
- `/delete_file` of an absent name replies "Deleted '<name>'." all the same.
- The deletion timer is started with a delay of 900 seconds.
- The stored record holds the time the file was sent.
- The start-up clean-up (`cleanup_pending_files`) deletes the records sent
  within the last fifteen minutes, whose timers have not fired yet. It
  leaves older records alone.

## Model

| member | source | states |
|---|---|---|
| Handlers.DisplayName | handlers.py:12-18 | `@username` when there is a username; else "first last" stripped of surrounding whitespace; "Unknown User" when that is blank; never empty |
| Handlers.Register | handlers.py:31-33 | a non-admin sender is upserted under their display name ("Unknown" if empty); the admin is never added |
| Handlers.UserIds | handlers.py:128-132 | one id per stored user, in store order; the ids are exactly the loaded user ids, and pairwise distinct when the store's keys are unique, so each user is announced to once |
| Handlers.HandleAnnounce | handlers.py:122-139 | usage reply without an argument; "No users" reply with no users; otherwise one Markdown message per user, in order, then the report, with success + failed equal to the number of users |
| Handlers.Step | handlers.py:20-150 | no message: no change and no action; a non-admin leaves movies and pending uploads unchanged and is upserted into the users; an admin never changes the users; unique keys in both stores are preserved |
| Handlers.NonAdminIgnored | handlers.py:48-139 | a non-admin message that is not `/start <name>` sends nothing |
| Handlers.AdminUpload | handlers.py:35-39 | an admin document or video (document first) becomes the chat's pending file; nothing is stored; only the prompt is sent |
| Handlers.PendingNameFirst | handlers.py:41-46 | with an upload pending, any non-empty admin text, a command included, is stored as the movie's name and the pending entry is cleared |
| Handlers.RenameUsage | handlers.py:54-57 | `/rename_file` with fewer than three tokens answers with the usage and changes nothing |
| Database.LoadMovies | database.py:31-36 | the loaded names are exactly the stored names, one per document, each mapped to its document's file id |
| Database.SaveMovie | database.py:41-43 | upsert: the name maps to the new file id and every other name is unchanged; keys stay unique |
| Database.DeleteMovie | database.py:48-50 | the name is gone and the rest unchanged; deleting an absent name changes nothing |
| Database.RenameMovie | database.py:55-62 | true exactly when the old name is stored; false leaves the store unchanged; true removes the old name and maps the new one to its file id, overwriting any previous entry |
| Database.StoredName | database.py:71 | an empty display name is stored as "Unknown"; any other is stored as given |
| Database.AddUser | database.py:67-73 | upsert keyed by user id; the store grows by one exactly when the id is new |
| Database.GetStats | database.py:85-89 | the counts are the numbers of movie and user documents |
| Database.StatsCountDistinct | database.py:85-89 | with unique keys the counts are the numbers of distinct movies and users |
| Database.SaveSentFile | database.py:94-101 | appends exactly the record given and keeps the earlier ones |
| Database.GetPendingFiles | database.py:106-109 | exactly the records whose timestamp is at or after now minus the expiry window, each as often as it is stored, in stored order (a subsequence of the records) |
| Database.DeleteSentFileRecord | database.py:114-116 | removes the first record matching chat and file-message id and no other; nothing changes when none matches |
| Database.DeleteSentFileRecordCount | database.py:114-116 | deletion lowers the count of the matching key by one, and of every other key by nothing |
| Database.FilterCount | database.py:109 | the time-window query never returns more copies of a record key than are stored |
| DocStore.LoadMovies | db.py:9-10 | each name maps to the file id of the last document with that name |
| DocStore.SaveMovie | db.py:12-17 | always appends a document, even for a name already present; the loaded map gains the new file id |
| DocStore.DeleteMovie | db.py:19-20 | removes the first document with the name and nothing else; an absent name changes nothing |
| DocStore.DeleteLeavesDuplicate | db.py:19-20 | after a delete the name is still loaded exactly when it had two or more documents |
| DocStore.RenameMovie | db.py:22-24 | renames the first matching document and only it, keeping its file id; true exactly when the old name is stored and differs from the new one |
| DocStore.RenameLoad | db.py:9-24 | after a rename the new name maps to the renamed file unless a later document carries the new name, which then still wins; the old name stays loaded only when a later document carries it |
| DocStore.RenameOntoLaterName | db.py:22-24 | renaming `A` onto a name `B` stored after it reports success while `B` still opens the other file and `A` is gone |
| DocStore.CheckIfAdmin | db.py:32-34 | true for every channel |
| DeepLink.Encode | handlers.py:86 | the link payload has no spaces; spaces become `_` and every other character stays |
| DeepLink.Decode | handlers.py:142 | the decoded name contains no `_` |
| DeepLink.RoundTrip | handlers.py:86-87 | `/start` decoding of the encoded name gives the name back exactly when it contains no `_` |
| Commands.UploadedFile | commands.py:13 | the document's file id when there is a document, else the video's |
| Commands.HandleAdminUpload | commands.py:10-15 | only the admin with a document or video sets the chat's pending file, document first; the store is untouched |
| Commands.HandleAdminNamingMovie | commands.py:17-23 | saves only when admin, pending and non-empty text all hold, then clears the chat's pending entry |
| Commands.UploadThenName | commands.py:10-23 | an upload then a name stores the uploaded file under that name and leaves no pending entry |
| Commands.Listing | commands.py:25-30 | "No files stored." exactly when the store is empty; otherwise the header followed by the names of `load_movies`, one per line, in dictionary order |
| Commands.ListingNamesAll | commands.py:29 | every stored name occurs in the listing |
| Commands.ListingNamesOnly | commands.py:25-30 | a non-empty listing is the header then distinct stored names joined by newlines, ordered by first storage |
| Commands.HandleListFiles | commands.py:25-30 | only the admin gets the listing |
| Commands.HandleRenameFile | commands.py:32-44 | usage with fewer than three tokens; not-found for an absent old name; otherwise renamed, replied and logged |
| Commands.RenameCommand | commands.py:35-40 | `/rename_file Old New Name` renames the one-word old name to all the rest, spaces included |
| Commands.HandleDeleteFile | commands.py:46-56 | usage without an argument; otherwise the rest of the text is deleted from the store |
| Commands.DeleteReplyIgnoresStore | commands.py:53-56 | the reply does not depend on whether the name was stored |
| Commands.DeleteCommand | commands.py:49-55 | `/delete_file Some Name` removes exactly `Some Name` and replies "Deleted" |
| Commands.HandleGetMovieLink | commands.py:58-73 | a link only for a stored name; not-found otherwise; usage without an argument |
| Commands.HandleStart | commands.py:75-84 | sends the file exactly when the decoded name is stored; not-found otherwise |
| Commands.LinkThenStart | commands.py:68-81 | following the link made for a stored name without `_` sends that movie's file |
| WebhookHandler.AdminHandler | webhook_handler.py:29-45 | each admin command token selects its handler and no other token does |
| WebhookHandler.CommandOf | webhook_handler.py:15 | the command is the first whitespace-separated token, lower-cased |
| WebhookHandler.Route | webhook_handler.py:9-47 | text not starting with `/` is ignored; `/start` is dispatched for every user; a non-admin is never dispatched elsewhere; a callback query only without a message |
| WebhookHandler.NonAdminLogged | webhook_handler.py:24-26 | a non-admin command other than `/start` only produces a log line |
| WebhookHandler.AdminRouted | webhook_handler.py:29-45 | admin commands route by token; an unknown one gets the "Unknown command" reply |
| WebhookHandler.StartAnyCase | webhook_handler.py:15-21 | `/START` routes like `/start` |
| Utils.LogToDiscord | utils.py:6-9 | no post exactly when the webhook is empty |
| Utils.IsSpamming | utils.py:15-21 | spamming exactly when fewer than 5 s passed since the recorded time; then nothing is recorded; otherwise `now` is recorded; no other user's entry changes |
| Utils.FirstMessageAccepted | utils.py:16-21 | a user's first call at `now >= 5` is accepted and records `now` |
| Utils.CooldownWindow | utils.py:18-19 | after an accepted call, any call within 5 s is refused |
| Utils.AcceptedSpaced | utils.py:18-20 | accepted calls of one user are at least 5 s apart |
| TelegramBot.SendFile | telegram_bot.py:18-39 | no record and no schedule without an `ok` reply; a record exactly when the warning's message id is truthy; otherwise a failure log |
| TelegramBot.RecordIffScheduled | telegram_bot.py:35-37 | a deletion is scheduled exactly when a record is saved |
| TelegramBot.SendThenDelete | telegram_bot.py:18-49 | a file sent, saved and later deleted by its timer leaves the records as they were before the send, whatever the deletions raise |
| TelegramBot.SavedIsPendingUntilDue | telegram_bot.py:35-37 | the saved record is among the pending files at time `t` exactly when `t` is at most 900 s after the send |
| TelegramBot.DeleteAttempt | telegram_bot.py:44-48 | one deletion request whatever it raises |
| TelegramBot.DeleteMessages | telegram_bot.py:41-49 | deletes the file message then the warning message; the records are those `delete_sent_file_record` leaves, whatever the requests raised |
| TelegramBot.CleanupAll | telegram_bot.py:53-58 | every pending record gets its two deletions, in order, whatever raises; the records left are the stored ones minus the first match of each pending record, in turn |
| TelegramBot.CleanupAllCount | telegram_bot.py:53-58 | the clean-up removes one stored record per pending one |
| TelegramBot.CleanupPendingFiles | telegram_bot.py:51-58 | deletions for exactly the records of the last 15 minutes, in order; the first match of each of them is removed from the records |
| TelegramBot.Announce | telegram_bot.py:60-70 | each user is attempted once, in order; success + failed equals the number of users; failed counts the raising ones |
| TelegramBot.SendAnnouncement | telegram_bot.py:60-70 | the loop attempts each user once, in order, with the same counts as `Announce` |
| Telegram.SendFile | telegram.py:17-38 | no record without an `ok` reply; a missing warning id raises; otherwise the record is saved and the deletion scheduled |
| Telegram.DeleteMessages | telegram.py:40-46 | file message then warning message; the record goes only when neither request raised |
| Telegram.SendThenDelete | telegram.py:17-46 | a file sent, saved and later deleted leaves the records as before the send exactly when neither deletion raises |
| Telegram.CleanPrefix | telegram.py:50-52 | the number of leading pending records whose two deletions do not raise |
| Telegram.CleanupAllPrefix | telegram.py:50-52 | the clean-up raises exactly when some record is not clean; it requests all deletions of the records before the first such record, then that record's file deletion and its warning deletion only when the file deletion returned; only the records before it are removed |
| Telegram.CleanupAll | telegram.py:50-52 | the deletions made are a prefix of the plan, all of it when nothing raised |
| Telegram.CleanupAllRaises | telegram.py:50-52 | the clean-up raises exactly when some pending record's deletion raises |
| Telegram.CleanupAllCount | telegram.py:50-52 | a clean-up that raises nothing removes one record per pending one |
| Telegram.CleanupPendingFiles | telegram.py:48-52 | the records of the last 15 minutes are handled in order up to the first whose deletion raises: its file deletion, and its warning deletion only when the file deletion returned; only the records handled before it are removed |
| Discord.LogToDiscord | discord.py:9-17 | no post for an empty webhook or within 10 s; otherwise one post truncated to 2000 characters; the last time becomes `now` exactly when that post did not raise |
| Discord.ThrottleSpacing | discord.py:12-15 | each change of the last time moves it forward by 10 s or more |
| Discord.NextCallThrottled | discord.py:12-17 | after a post that returned, the next call posts nothing exactly within 10 s; after a post that raised, the next call posts |
| Discord.ShortMessageIntact | discord.py:14 | a message of at most 2000 characters is posted unchanged |
| Webhook.Pick | webhook.py:21-23 | own value, else the default config's, else the literal |
| Webhook.BuildEmbed | webhook.py:16-27 | description truncated to 4096; a title exactly when the chosen config has one; color, author and footer fall back to default then literal |
| Webhook.UnknownTypeIsDefault | webhook.py:16 | an unknown log type builds the default embed |
| Webhook.StatusEmbed | webhook.py:16-27 | the status embed is red and titled "Bot Status Update" |
| Webhook.ErrorEmbed | webhook.py:36-40 | the error embed is red, truncated, and has no title, author or footer |
| Webhook.Report | webhook.py:34-41 | a failure is reported only when the webhook is not the status webhook |
| Webhook.LogToDiscord | webhook.py:10-55 | no post for an empty webhook or within 10 s; the last time changes only after the post returned; failure reports go only to the status webhook |
| Webhook.FailureReported | webhook.py:32-41 | a non-204 reply from another webhook is reported in red to the status webhook |
| Webhook.ThrottleSpacing | webhook.py:13-30 | the last time moves forward by 10 s or more, or not at all |
| DiscordWebhook.AttemptsShape | discord_webhook.py:21-41 | at most three POSTs, the first always made, and only waits between them |
| DiscordWebhook.StopsAfterNon429 | discord_webhook.py:24-38 | a reply other than 429 ends the attempts after one POST |
| DiscordWebhook.ThreeRateLimits | discord_webhook.py:28-32 | three 429 replies give exactly POST, wait, POST, wait, POST, wait, each wait the reply's `retry_after` (default 1000 ms) |
| DiscordWebhook.SendToDiscord | discord_webhook.py:15-41 | no post for an empty url; otherwise the retry plan, at most three POSTs |
| DiscordWebhook.WebhookVar | discord_webhook.py:44-48 | list_logs and file_access select their own webhook; every other type selects status |
| DiscordWebhook.Author | discord_webhook.py:61 | the username, else the full name, else the id |
| DiscordWebhook.LogEmbed | discord_webhook.py:50-62 | title from the config or "Bot Log"; the `[name]: ` prefix only with an update and a type other than status |
| DiscordWebhook.LogToDiscord | discord_webhook.py:43-64 | nothing without a webhook url; otherwise the retry plan for the log embed, at most three POSTs, each of that embed to the selected webhook, with only waits between them |
| DiscordWebhook.LogEmbedMessage | discord_webhook.py:50-62 | a status log names no user; every log's description ends with its message |
| PyStr.Strip | handlers.py:18 | a slice of the string with only whitespace cut off before and after it; empty exactly for an all-whitespace string; otherwise no whitespace at either end |
| PyStr.StripIdempotent | handlers.py:18 | stripping twice is stripping once |
| PyStr.Split | handlers.py:55 | non-empty tokens; all but the last free of whitespace; at most maxsplit + 1 parts; none for an all-whitespace string |
| PyStr.SplitCuts | handlers.py:55 | the parts are slices of the text, left to right, with only whitespace before, between and after them |
| PyStr.SplitTwo | handlers.py:55-59 | `cmd old rest` splits with maxsplit 2 into the command, the old name and the whole rest |
| PyStr.SplitJoin | webhook_handler.py:15 | splitting space-joined words gives the words back |
| PyStr.Replace | handlers.py:86 | a single-character replacement changes exactly the matching positions; no occurrence, no change |
| KeyedDocs.Upsert | database.py:43 | the loaded map gains the key with the new value; keys stay unique |
| KeyedDocs.DeleteOne | database.py:50 | removes the first document with the key and nothing else; nothing changes when the key is absent |
| KeyedDocs.RenameFirst | db.py:22-24 | only the first document with the old key gets the new key; every value stays in place; nothing changes when the old key is absent |
| KeyedDocs.KeyOrder | database.py:33-35 | the loaded names in dictionary order: distinct, covering every stored name, ordered by the position of each name's first document |

## Left out

- `/health` (handlers.py:100-120) is the opaque `HealthReport` action. It reads process memory, CPU and uptime through psutil, as floating-point numbers.
- `threading.Timer` is kept only as the `ScheduleDeletion` action. The model does not run the timer thread that later calls `delete_messages`.
- bot.py, main.py and gunicorn.conf.py are process wiring.
- config.py is carried as constants: the admin id, the webhook URLs and `EMBED_CONFIG`.
- The MongoDB connection and retry loop (database.py:9-29) is not modelled, and neither are storage exceptions or their `except`/log paths. The stores are sequences that cannot fail.
- MongoDB's natural order is taken to be the order of the stored sequence.
- `time.time()` is a float in the source and an integer number of seconds here. An embed's `timestamp` string is carried as that integer.
- The `ratelimit` decorator (discord_webhook.py:13-14), `time.sleep(0.1)` (telegram_bot.py:67) and the `print` calls have no effect on state. The retry wait is kept as a `Sleep` action.
- DiscordWebhook.SendToDiscord: `retry_after` is taken as an integer number of milliseconds. The `int()` conversion error and the JSON decode error are not modelled.
- Cross-file linking errors are not modelled; each file is taken on its own terms. This covers:
  - the names webhook_handler.py imports from commands.py;
  - `get_pending_files`, which telegram.py calls but never imports;
  - the `critical=` and `log_type=` keywords passed to functions that do not take them.
  - Handlers.HandleAnnounce uses the `send_announcement` of telegram_bot.py.
- The handlers that webhook_handler.py dispatches to are not part of this model. Routing to one is the `Dispatched` result.
- The top-level `except` of `handle_webhook_update` (webhook_handler.py:48-49) is left out, because nothing in the modelled routing raises.
- commands.py catches no exceptions, and the exceptions its callees could raise come from storage, which is not modelled.
- `register_channel` (db.py:26-30) is not modelled. It is an insert into a collection that nothing reads.
- `str.lower` is modelled for ASCII letters only.
- Movie documents always carry a `file_id` here, so the `'file_id' in movies[name]` test of `/start` always holds.
- Handlers.Step: a non-admin sender is upserted, so unique user ids need the store's unique index. Its ensures therefore speak of `Load` only when keys are unique.
