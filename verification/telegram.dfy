/** telegram.py: the alternative version of the send/delete/clean-up logic,
    without its error handling. An exception raised by a request is not
    caught, so it ends the whole call; `raised` records that it did.
    Replies are parameters as in TelegramBot, and `raising` is the set of
    `(chat, message id)` pairs whose `deleteMessage` request raises. */
module Telegram {
  import opened Wrappers
  import opened Effects
  import Database
  import TelegramBot

  type SentFiles = seq<Database.SentFile>

  datatype Outcome = Outcome(sent: SentFiles, actions: seq<Action>, raised: bool)

  /** `send_file` at time `now`. A warning reply without a `message_id`
      raises `KeyError`, so nothing is saved or scheduled. */
  function SendFile(sent: SentFiles, chat: int, fileId: string,
                    docReply: Option<int>, warningReply: Option<int>, now: int): (r: Outcome)
    ensures |r.actions| >= 1 && r.actions[0] == SendDocument(chat, fileId)
    ensures docReply.None? ==> r == Outcome(sent, [SendDocument(chat, fileId)], false)
    ensures r.raised <==> docReply.Some? && warningReply.None?
    ensures |r.sent| == |sent| + 1 <==> docReply.Some? && warningReply.Some?
    ensures |sent| <= |r.sent| && r.sent[..|sent|] == sent
    ensures |r.sent| == |sent| + 1 ==>
      && r.sent[|sent|] == Database.SentFile(chat, docReply.value, warningReply.value, now)
      && r.actions == [SendDocument(chat, fileId), SendMessage(chat, TelegramBot.WARNING_TEXT, true),
                       ScheduleDeletion(TelegramBot.DELETE_DELAY, chat, docReply.value, warningReply.value)]
  {
    match docReply
    case None => Outcome(sent, [SendDocument(chat, fileId)], false)
    case Some(fileMessageId) =>
      var asked := [SendDocument(chat, fileId), SendMessage(chat, TelegramBot.WARNING_TEXT, true)];
      match warningReply
      case None => Outcome(sent, asked, true)
      case Some(warningMessageId) =>
        Outcome(Database.SaveSentFile(sent, chat, fileMessageId, warningMessageId, now),
                asked + [ScheduleDeletion(TelegramBot.DELETE_DELAY, chat, fileMessageId, warningMessageId)], false)
  }

  /** The deletions `delete_messages` requests for `f` before a request
      raises: the warning message is skipped when the file message raises. */
  function Attempted(f: Database.SentFile, raising: set<(int, int)>): seq<Action> {
    if (f.chat, f.fileMessageId) in raising then [DeleteMessage(f.chat, f.fileMessageId)]
    else [DeleteMessage(f.chat, f.fileMessageId), DeleteMessage(f.chat, f.warningMessageId)]
  }

  /** `delete_messages`: the file message, then the warning message; the
      record goes only once both requests have returned. */
  function DeleteMessages(sent: SentFiles, chat: int, fileMessageId: int, warningMessageId: int,
                          raising: set<(int, int)>): (r: Outcome)
    ensures r.raised <==> (chat, fileMessageId) in raising || (chat, warningMessageId) in raising
    ensures r.raised ==> r.sent == sent
    ensures !r.raised ==> r.sent == Database.DeleteSentFileRecord(sent, chat, fileMessageId)
    ensures (chat, fileMessageId) in raising ==> r.actions == [DeleteMessage(chat, fileMessageId)]
    ensures (chat, fileMessageId) !in raising ==>
      r.actions == [DeleteMessage(chat, fileMessageId), DeleteMessage(chat, warningMessageId)]
  {
    if (chat, fileMessageId) in raising then Outcome(sent, [DeleteMessage(chat, fileMessageId)], true)
    else
      var both := [DeleteMessage(chat, fileMessageId), DeleteMessage(chat, warningMessageId)];
      if (chat, warningMessageId) in raising then Outcome(sent, both, true)
      else Outcome(Database.DeleteSentFileRecord(sent, chat, fileMessageId), both, false)
  }

  /** A file sent and saved, then deleted when its timer fires, leaves the
      records as they were before the send exactly when neither deletion
      raises; otherwise its record stays behind. */
  lemma SendThenDelete(sent: SentFiles, chat: int, fileId: string, fileMessageId: int, warningMessageId: int,
                       now: int, raising: set<(int, int)>)
    requires Database.Count(sent, chat, fileMessageId) == 0
    ensures var s := SendFile(sent, chat, fileId, Some(fileMessageId), Some(warningMessageId), now);
      DeleteMessages(s.sent, chat, fileMessageId, warningMessageId, raising).sent == sent
      <==> (chat, fileMessageId) !in raising && (chat, warningMessageId) !in raising
  {
    var s := SendFile(sent, chat, fileId, Some(fileMessageId), Some(warningMessageId), now);
    assert s.sent == sent + [Database.SentFile(chat, fileMessageId, warningMessageId, now)];
    assert Database.Matches(s.sent[|sent|], chat, fileMessageId);
    assert s.sent[..|sent|] == sent;
  }

  /** Neither of the record's messages fails to delete. */
  predicate Clean(f: Database.SentFile, raising: set<(int, int)>) {
    (f.chat, f.fileMessageId) !in raising && (f.chat, f.warningMessageId) !in raising
  }

  /** The number of leading records of `pending` that are clean. */
  function CleanPrefix(pending: SentFiles, raising: set<(int, int)>): (k: nat)
    ensures k <= |pending|
    ensures forall i :: 0 <= i < k ==> Clean(pending[i], raising)
    ensures k < |pending| ==> !Clean(pending[k], raising)
  {
    if pending == [] || !Clean(pending[0], raising) then 0
    else 1 + CleanPrefix(pending[1..], raising)
  }

  /** The loop of `cleanup_pending_files`: it stops at the first record
      whose deletion raises. */
  function CleanupAll(pending: SentFiles, sent: SentFiles, raising: set<(int, int)>): (r: Outcome)
    ensures Deletions(r.actions) <= TelegramBot.DeletePlan(pending)
    ensures !r.raised ==> Deletions(r.actions) == TelegramBot.DeletePlan(pending)
    decreases |pending|
  {
    if pending == [] then Outcome(sent, [], false)
    else
      var f := pending[0];
      var d := DeleteMessages(sent, f.chat, f.fileMessageId, f.warningMessageId, raising);
      var plan := TelegramBot.DeletePlan(pending);
      assert plan == [DeleteMessage(f.chat, f.fileMessageId), DeleteMessage(f.chat, f.warningMessageId)]
        + TelegramBot.DeletePlan(pending[1..]);
      assert Deletions(d.actions) == d.actions;
      if d.raised then d
      else
        var rest := CleanupAll(pending[1..], d.sent, raising);
        DeletionsAppend(d.actions, rest.actions);
        Outcome(rest.sent, d.actions + rest.actions, rest.raised)
  }

  /** The clean-up handles the clean records before the first one whose
      deletion raises in full; of that record it requests the deletions
      made before the raise, and keeps its record and all later ones. */
  lemma CleanupAllPrefix(pending: SentFiles, sent: SentFiles, raising: set<(int, int)>)
    ensures var r := CleanupAll(pending, sent, raising);
      var k := CleanPrefix(pending, raising);
      && (r.raised <==> k < |pending|)
      && r.actions == TelegramBot.DeletePlan(pending[..k]) + (if k < |pending| then Attempted(pending[k], raising) else [])
      && r.sent == TelegramBot.RemoveRecords(sent, pending[..k])
  {
    CleanupAllRaises(pending, sent, raising);
    CleanupAllActions(pending, sent, raising);
    CleanupAllRecords(pending, sent, raising);
  }

  /** The deletions requested for `pending` up to the first raise, record
      by record. */
  function Requested(pending: SentFiles, raising: set<(int, int)>): seq<Action> {
    if pending == [] then []
    else if !Clean(pending[0], raising) then Attempted(pending[0], raising)
    else Attempted(pending[0], raising) + Requested(pending[1..], raising)
  }

  lemma {:induction false} CleanupAllRequested(pending: SentFiles, sent: SentFiles, raising: set<(int, int)>)
    ensures CleanupAll(pending, sent, raising).actions == Requested(pending, raising)
    decreases |pending|
  {
    if pending != [] && Clean(pending[0], raising) {
      var f := pending[0];
      CleanupAllRequested(pending[1..], DeleteMessages(sent, f.chat, f.fileMessageId, f.warningMessageId, raising).sent, raising);
    }
  }

  lemma {:induction false} RequestedPrefix(pending: SentFiles, raising: set<(int, int)>)
    ensures var k := CleanPrefix(pending, raising);
      Requested(pending, raising)
      == TelegramBot.DeletePlan(pending[..k]) + (if k < |pending| then Attempted(pending[k], raising) else [])
    decreases |pending|
  {
    if pending != [] {
      if !Clean(pending[0], raising) {
        assert pending[..0] == [];
      } else {
        RequestedPrefix(pending[1..], raising);
        CleanupAllStep(pending, [], raising);
      }
    }
  }

  lemma CleanupAllActions(pending: SentFiles, sent: SentFiles, raising: set<(int, int)>)
    ensures var k := CleanPrefix(pending, raising);
      CleanupAll(pending, sent, raising).actions
      == TelegramBot.DeletePlan(pending[..k]) + (if k < |pending| then Attempted(pending[k], raising) else [])
  {
    CleanupAllRequested(pending, sent, raising);
    RequestedPrefix(pending, raising);
  }

  lemma {:induction false} CleanupAllRecords(pending: SentFiles, sent: SentFiles, raising: set<(int, int)>)
    ensures CleanupAll(pending, sent, raising).sent == TelegramBot.RemoveRecords(sent, pending[..CleanPrefix(pending, raising)])
    decreases |pending|
  {
    if pending != [] {
      var f := pending[0];
      var d := DeleteMessages(sent, f.chat, f.fileMessageId, f.warningMessageId, raising);
      if !Clean(f, raising) {
        assert pending[..0] == [];
      } else {
        CleanupAllRecords(pending[1..], d.sent, raising);
        CleanupAllStep(pending, sent, raising);
      }
    }
  }

  /** Unfolds the plan and the removals over a clean first record. */
  lemma CleanupAllStep(pending: SentFiles, sent: SentFiles, raising: set<(int, int)>)
    requires pending != [] && Clean(pending[0], raising)
    ensures var k := CleanPrefix(pending, raising);
      var f := pending[0];
      && k == CleanPrefix(pending[1..], raising) + 1
      && (k < |pending| ==> pending[k] == pending[1..][k - 1])
      && TelegramBot.DeletePlan(pending[..k])
        == [DeleteMessage(f.chat, f.fileMessageId), DeleteMessage(f.chat, f.warningMessageId)]
           + TelegramBot.DeletePlan(pending[1..][..k - 1])
      && TelegramBot.RemoveRecords(sent, pending[..k])
        == TelegramBot.RemoveRecords(Database.DeleteSentFileRecord(sent, f.chat, f.fileMessageId), pending[1..][..k - 1])
  {
    var k := CleanPrefix(pending, raising);
    assert pending[..k][1..] == pending[1..][..k - 1];
  }

  /** The clean-up raises exactly when some pending record has a message
      whose deletion raises. */
  lemma {:induction false} CleanupAllRaises(pending: SentFiles, sent: SentFiles, raising: set<(int, int)>)
    ensures !CleanupAll(pending, sent, raising).raised <==> forall i :: 0 <= i < |pending| ==> Clean(pending[i], raising)
    decreases |pending|
  {
    if pending != [] {
      var f := pending[0];
      var d := DeleteMessages(sent, f.chat, f.fileMessageId, f.warningMessageId, raising);
      CleanupAllRaises(pending[1..], d.sent, raising);
      assert forall i :: 1 <= i < |pending| ==> pending[i] == pending[1..][i - 1];
      assert (forall i :: 0 <= i < |pending| ==> Clean(pending[i], raising)) <==>
        Clean(f, raising) && forall i :: 0 <= i < |pending[1..]| ==> Clean(pending[1..][i], raising);
    }
  }

  /** A clean-up that raises nothing removes one stored record per pending one. */
  lemma {:induction false} CleanupAllCount(pending: SentFiles, sent: SentFiles, raising: set<(int, int)>)
    requires TelegramBot.CountsWithin(pending, sent)
    requires forall i :: 0 <= i < |pending| ==> Clean(pending[i], raising)
    ensures |CleanupAll(pending, sent, raising).sent| == |sent| - |pending|
    decreases |pending|
  {
    if pending != [] {
      var f := pending[0];
      TelegramBot.CountsStep(pending, sent);
      Database.DeleteSentFileRecordCount(sent, f.chat, f.fileMessageId, f.chat, f.fileMessageId);
      var d := DeleteMessages(sent, f.chat, f.fileMessageId, f.warningMessageId, raising);
      assert forall i :: 0 <= i < |pending[1..]| ==> pending[1..][i] == pending[i + 1];
      CleanupAllCount(pending[1..], d.sent, raising);
    }
  }

  /** `cleanup_pending_files` at time `now`. */
  function CleanupPendingFiles(sent: SentFiles, now: int, raising: set<(int, int)>): (r: Outcome)
    ensures var pending := Database.GetPendingFiles(sent, Database.EXPIRY_MINUTES, now);
      && Deletions(r.actions) <= TelegramBot.DeletePlan(pending)
      && (!r.raised <==> forall i :: 0 <= i < |pending| ==> Clean(pending[i], raising))
      && (!r.raised ==> Deletions(r.actions) == TelegramBot.DeletePlan(pending) && |r.sent| == |sent| - |pending|)
    ensures var pending := Database.GetPendingFiles(sent, Database.EXPIRY_MINUTES, now);
      var k := CleanPrefix(pending, raising);
      && r.actions == TelegramBot.DeletePlan(pending[..k]) + (if k < |pending| then Attempted(pending[k], raising) else [])
      && r.sent == TelegramBot.RemoveRecords(sent, pending[..k])
  {
    var pending := Database.GetPendingFiles(sent, Database.EXPIRY_MINUTES, now);
    forall c, f ensures Database.Count(pending, c, f) <= Database.Count(sent, c, f) {
      Database.FilterCount(sent, now - Database.EXPIRY_MINUTES * 60, c, f);
    }
    var r := CleanupAll(pending, sent, raising);
    CleanupAllRaises(pending, sent, raising);
    CleanupAllPrefix(pending, sent, raising);
    assert !r.raised ==> |r.sent| == |sent| - |pending| by {
      if !r.raised { CleanupAllCount(pending, sent, raising); }
    }
    r
  }
}
