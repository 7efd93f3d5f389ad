/** telegram_bot.py: sending a movie file with its expiry warning, deleting
    both messages later, the start-up clean-up of sent files, and
    announcements. Telegram's replies are parameters: `docReply` is the
    `message_id` of the sent document (`None` when the reply is not `ok`),
    `warningReply` the `message_id` in the warning's reply, if any, and
    `raising` maps the `(chat, message id)` pairs whose `deleteMessage`
    request raises to the error text. */
module TelegramBot {
  import opened Wrappers
  import opened PyStr
  import opened Effects
  import Config
  import Database

  type SentFiles = seq<Database.SentFile>

  datatype Sent = Sent(sent: SentFiles, actions: seq<Action>)

  const WARNING_TEXT: string :=
    "\U{2757}\U{FE0F} *IMPORTANT* \U{2757}\U{FE0F}\n\n"
    + "This Video / File Will Be Deleted In *15 minutes* _(Due To Copyright Issues)_\n\n"
    + "\U{1F4CC} *Please Forward This Video / File To Somewhere Else And Start Downloading There.*"

  /** Seconds before the scheduled deletion. */
  const DELETE_DELAY: int := 900

  /** Python truthiness of the `message_id` read from the warning's reply. */
  predicate Truthy(id: Option<int>) {
    id.Some? && id.value != 0
  }

  /** `send_file` at time `now`. */
  function SendFile(sent: SentFiles, chat: int, fileId: string,
                    docReply: Option<int>, warningReply: Option<int>, now: int): (r: Sent)
    ensures |r.actions| >= 1 && r.actions[0] == SendDocument(chat, fileId)
    ensures docReply.None? ==> r == Sent(sent, [SendDocument(chat, fileId)])
    ensures docReply.Some? ==> |r.actions| == 3 && r.actions[1] == SendMessage(chat, WARNING_TEXT, true)
    ensures |r.sent| == |sent| + 1 <==> docReply.Some? && Truthy(warningReply)
    ensures |sent| <= |r.sent| && r.sent[..|sent|] == sent
    ensures |r.sent| == |sent| + 1 ==>
      r.sent[|sent|] == Database.SentFile(chat, docReply.value, warningReply.value, now)
      && r.actions[2] == ScheduleDeletion(DELETE_DELAY, chat, docReply.value, warningReply.value)
    ensures docReply.Some? && !Truthy(warningReply) ==>
      r.sent == sent && r.actions[2] == Log(Config.DISCORD_WEBHOOK_STATUS, "Failed to send warning message for chat_id: " + IntToString(chat))
  {
    match docReply
    case None => Sent(sent, [SendDocument(chat, fileId)])
    case Some(fileMessageId) =>
      var asked := [SendDocument(chat, fileId), SendMessage(chat, WARNING_TEXT, true)];
      if Truthy(warningReply) then
        Sent(Database.SaveSentFile(sent, chat, fileMessageId, warningReply.value, now),
             asked + [ScheduleDeletion(DELETE_DELAY, chat, fileMessageId, warningReply.value)])
      else
        Sent(sent, asked + [Log(Config.DISCORD_WEBHOOK_STATUS, "Failed to send warning message for chat_id: " + IntToString(chat))])
  }

  /** Every scheduled deletion has a stored record, and every stored record
      has its deletion scheduled. */
  lemma RecordIffScheduled(sent: SentFiles, chat: int, fileId: string,
                           docReply: Option<int>, warningReply: Option<int>, now: int)
    ensures var r := SendFile(sent, chat, fileId, docReply, warningReply, now);
      (exists i :: 0 <= i < |r.actions| && r.actions[i].ScheduleDeletion?) <==> |r.sent| == |sent| + 1
  {
  }

  /** One `deleteMessage` request inside the `try` of `delete_messages`. */
  function DeleteAttempt(chat: int, messageId: int, raising: map<(int, int), string>): (r: seq<Action>)
    ensures Deletions(r) == [DeleteMessage(chat, messageId)]
  {
    [DeleteMessage(chat, messageId)]
    + if (chat, messageId) in raising then
        [Log(Config.DISCORD_WEBHOOK_STATUS,
             "Failed to delete message " + IntToString(messageId) + " in chat " + IntToString(chat) + ": " + raising[(chat, messageId)])]
      else []
  }

  /** `delete_messages`: both deletions are attempted, file first, and the
      record is removed whatever they raised. */
  function DeleteMessages(sent: SentFiles, chat: int, fileMessageId: int, warningMessageId: int,
                          raising: map<(int, int), string>): (r: Sent)
    ensures Deletions(r.actions) == [DeleteMessage(chat, fileMessageId), DeleteMessage(chat, warningMessageId)]
    ensures Database.Count(r.sent, chat, fileMessageId) ==
      if Database.Count(sent, chat, fileMessageId) > 0 then Database.Count(sent, chat, fileMessageId) - 1 else 0
    ensures |r.sent| == if Database.Count(sent, chat, fileMessageId) > 0 then |sent| - 1 else |sent|
    ensures r.sent == Database.DeleteSentFileRecord(sent, chat, fileMessageId)
  {
    var first := DeleteAttempt(chat, fileMessageId, raising);
    var second := DeleteAttempt(chat, warningMessageId, raising);
    DeletionsAppend(first, second);
    Database.DeleteSentFileRecordCount(sent, chat, fileMessageId, chat, fileMessageId);
    Sent(Database.DeleteSentFileRecord(sent, chat, fileMessageId), first + second)
  }

  /** A file sent and saved, then deleted when its timer fires, leaves the
      records as they were before the send, whatever the deletions raise. */
  lemma SendThenDelete(sent: SentFiles, chat: int, fileId: string, fileMessageId: int, warningMessageId: int,
                       now: int, raising: map<(int, int), string>)
    requires Database.Count(sent, chat, fileMessageId) == 0 && warningMessageId != 0
    ensures var s := SendFile(sent, chat, fileId, Some(fileMessageId), Some(warningMessageId), now);
      DeleteMessages(s.sent, chat, fileMessageId, warningMessageId, raising).sent == sent
  {
    var s := SendFile(sent, chat, fileId, Some(fileMessageId), Some(warningMessageId), now);
    assert s.sent == sent + [Database.SentFile(chat, fileMessageId, warningMessageId, now)];
    assert Database.Matches(s.sent[|sent|], chat, fileMessageId);
    assert s.sent[..|sent|] == sent;
  }

  /** The record saved by a send is among the pending files that the
      start-up clean-up handles at time `t` exactly until its deletion is
      due, `DELETE_DELAY` seconds after the send. */
  lemma SavedIsPendingUntilDue(sent: SentFiles, chat: int, fileId: string, fileMessageId: int,
                               warningMessageId: int, now: int, t: int)
    requires warningMessageId != 0
    ensures var s := SendFile(sent, chat, fileId, Some(fileMessageId), Some(warningMessageId), now);
      Database.SentFile(chat, fileMessageId, warningMessageId, now) in Database.GetPendingFiles(s.sent, Database.EXPIRY_MINUTES, t)
      <==> t <= now + DELETE_DELAY
  {
    var s := SendFile(sent, chat, fileId, Some(fileMessageId), Some(warningMessageId), now);
    assert s.sent[|sent|] in s.sent;
  }

  /** The deletions the clean-up owes the records `pending`: file message,
      then warning message, record after record. */
  function DeletePlan(pending: SentFiles): seq<Action> {
    if pending == [] then []
    else [DeleteMessage(pending[0].chat, pending[0].fileMessageId),
          DeleteMessage(pending[0].chat, pending[0].warningMessageId)] + DeletePlan(pending[1..])
  }

  /** Every key of `a` is stored in `b` at least as often. */
  ghost predicate CountsWithin(a: SentFiles, b: SentFiles) {
    forall c, f :: Database.Count(a, c, f) <= Database.Count(b, c, f)
  }

  /** The records left after `delete_sent_file_record` for each of
      `pending`, in order. */
  function RemoveRecords(sent: SentFiles, pending: SentFiles): SentFiles
    decreases |pending|
  {
    if pending == [] then sent
    else RemoveRecords(Database.DeleteSentFileRecord(sent, pending[0].chat, pending[0].fileMessageId), pending[1..])
  }

  /** The loop of `cleanup_pending_files` over `pending`. */
  function CleanupAll(pending: SentFiles, sent: SentFiles, raising: map<(int, int), string>): (r: Sent)
    ensures Deletions(r.actions) == DeletePlan(pending)
    ensures r.sent == RemoveRecords(sent, pending)
    decreases |pending|
  {
    if pending == [] then Sent(sent, [])
    else
      var f := pending[0];
      var d := DeleteMessages(sent, f.chat, f.fileMessageId, f.warningMessageId, raising);
      var rest := CleanupAll(pending[1..], d.sent, raising);
      var logged := Log(Config.DISCORD_WEBHOOK_STATUS, "Cleaned up pending file in chat " + IntToString(f.chat) + " on startup");
      DeletionsAppend(d.actions + [logged], rest.actions);
      DeletionsAppend(d.actions, [logged]);
      assert Deletions([logged]) == [];
      assert DeletePlan(pending) == Deletions(d.actions) + DeletePlan(pending[1..]);
      Sent(rest.sent, d.actions + [logged] + rest.actions)
  }

  /** Removing the record of the first pending file keeps the rest of the
      pending files within what is stored. */
  lemma CountsStep(pending: SentFiles, sent: SentFiles)
    requires pending != [] && CountsWithin(pending, sent)
    ensures Database.Count(sent, pending[0].chat, pending[0].fileMessageId) > 0
    ensures CountsWithin(pending[1..],
      Database.DeleteSentFileRecord(sent, pending[0].chat, pending[0].fileMessageId))
  {
    var f := pending[0];
    var after := Database.DeleteSentFileRecord(sent, f.chat, f.fileMessageId);
    assert pending == [f] + pending[1..];
    assert Database.Count(pending, f.chat, f.fileMessageId) <= Database.Count(sent, f.chat, f.fileMessageId);
    Database.CountAppend([f], pending[1..], f.chat, f.fileMessageId);
    forall c, g ensures Database.Count(pending[1..], c, g) <= Database.Count(after, c, g) {
      Database.CountAppend([f], pending[1..], c, g);
      Database.DeleteSentFileRecordCount(sent, f.chat, f.fileMessageId, c, g);
      assert Database.Count(pending, c, g) <= Database.Count(sent, c, g);
    }
  }

  /** When every pending record is stored, the clean-up removes one stored
      record per pending record. */
  lemma {:induction false} CleanupAllCount(pending: SentFiles, sent: SentFiles, raising: map<(int, int), string>)
    requires CountsWithin(pending, sent)
    ensures |CleanupAll(pending, sent, raising).sent| == |sent| - |pending|
    decreases |pending|
  {
    if pending != [] {
      var f := pending[0];
      CountsStep(pending, sent);
      var d := DeleteMessages(sent, f.chat, f.fileMessageId, f.warningMessageId, raising);
      CleanupAllCount(pending[1..], d.sent, raising);
    }
  }

  /** `cleanup_pending_files` at time `now`: every record of the last
      fifteen minutes has both its messages deleted, in stored order, and
      one record per pending file is removed. */
  function CleanupPendingFiles(sent: SentFiles, now: int, raising: map<(int, int), string>): (r: Sent)
    ensures Deletions(r.actions) == DeletePlan(Database.GetPendingFiles(sent, Database.EXPIRY_MINUTES, now))
    ensures |r.sent| == |sent| - |Database.GetPendingFiles(sent, Database.EXPIRY_MINUTES, now)|
    ensures r.sent == RemoveRecords(sent, Database.GetPendingFiles(sent, Database.EXPIRY_MINUTES, now))
  {
    var pending := Database.GetPendingFiles(sent, Database.EXPIRY_MINUTES, now);
    forall c, f ensures Database.Count(pending, c, f) <= Database.Count(sent, c, f) {
      Database.FilterCount(sent, now - Database.EXPIRY_MINUTES * 60, c, f);
    }
    CleanupAllCount(pending, sent, raising);
    CleanupAll(pending, sent, raising)
  }

  datatype Announced = Announced(actions: seq<Action>, success: nat, failed: nat)

  /** How many of `ids` are in `failing`. */
  function CountIn(ids: seq<int>, failing: set<int>): (n: nat)
    ensures n <= |ids|
  {
    if ids == [] then 0 else (if ids[0] in failing then 1 else 0) + CountIn(ids[1..], failing)
  }

  /** The outcome of `send_announcement`, defined by recursion over the ids. */
  function Announce(ids: seq<int>, text: string, markdown: bool, failing: set<int>): (r: Announced)
    ensures |r.actions| == |ids|
    ensures forall i :: 0 <= i < |ids| ==> r.actions[i] == SendMessage(ids[i], text, markdown)
    ensures r.success + r.failed == |ids|
    ensures r.failed == CountIn(ids, failing)
  {
    if ids == [] then Announced([], 0, 0)
    else
      var rest := Announce(ids[1..], text, markdown, failing);
      var first := SendMessage(ids[0], text, markdown);
      if ids[0] in failing then Announced([first] + rest.actions, rest.success, rest.failed + 1)
      else Announced([first] + rest.actions, rest.success + 1, rest.failed)
  }

  /** `send_announcement`: one `sendMessage` per id, in order; the sends
      to ids in `failing` raise and are counted as failures. */
  method SendAnnouncement(ids: seq<int>, text: string, markdown: bool, failing: set<int>) returns (r: Announced)
    ensures |r.actions| == |ids|
    ensures forall i :: 0 <= i < |ids| ==> r.actions[i] == SendMessage(ids[i], text, markdown)
    ensures r.success + r.failed == |ids|
    ensures r.failed == CountIn(ids, failing)
    ensures r == Announce(ids, text, markdown, failing)
  {
    var actions: seq<Action> := [];
    var success, failed := 0, 0;
    var i := 0;
    while i < |ids|
      invariant 0 <= i <= |ids|
      invariant |actions| == i
      invariant forall j :: 0 <= j < i ==> actions[j] == SendMessage(ids[j], text, markdown)
      invariant success + failed == i
      invariant failed + CountIn(ids[i..], failing) == CountIn(ids, failing)
    {
      actions := actions + [SendMessage(ids[i], text, markdown)];
      assert ids[i..][1..] == ids[i + 1..];
      if ids[i] in failing {
        failed := failed + 1;
      } else {
        success := success + 1;
      }
      i := i + 1;
    }
    r := Announced(actions, success, failed);
  }
}
