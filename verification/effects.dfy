/** The outside world as the bot sees it: every HTTP request it makes is an
    `Action` value, listed in the order the code issues it. */
module Effects {
  import opened Wrappers

  /** A Discord embed. `timestamp` is the integer second the code formats
      with `time.gmtime()`. */
  datatype Embed = Embed(
    title: Option<string>,
    description: string,
    color: int,
    author: Option<string>,
    footer: Option<string>,
    timestamp: Option<int>)

  /** The JSON body of a Discord webhook POST. */
  datatype Payload = Content(content: string) | Embeds(embed: Embed)

  datatype Action =
      /** Telegram `sendMessage` (`markdown`: `parse_mode="Markdown"`). */
    | SendMessage(chat: int, text: string, markdown: bool)
      /** A call of the `send_file` routine (see TelegramBot and Telegram). */
    | SendFile(chat: int, fileId: string)
      /** Telegram `sendDocument`. */
    | SendDocument(chat: int, fileId: string)
      /** Telegram `deleteMessage`. */
    | DeleteMessage(chat: int, messageId: int)
      /** `threading.Timer(delay, delete_messages, ...)` started. */
    | ScheduleDeletion(delay: int, chat: int, fileMessageId: int, warningMessageId: int)
      /** A call of a `log_to_discord` helper with this webhook and text. */
    | Log(webhook: string, text: string)
      /** The `/health` report (psutil figures are not modelled). */
    | HealthReport(chat: int)
      /** An HTTP POST to a Discord webhook. */
    | Post(url: string, payload: Payload)
      /** `time.sleep(millis / 1000)`. */
    | Sleep(millis: int)

  /** The `deleteMessage` requests among `actions`, in order. */
  function Deletions(actions: seq<Action>): (r: seq<Action>)
    ensures |r| <= |actions|
    ensures forall i :: 0 <= i < |r| ==> r[i].DeleteMessage? && r[i] in actions
  {
    if actions == [] then []
    else
      var rest := Deletions(actions[1..]);
      if actions[0].DeleteMessage? then [actions[0]] + rest else rest
  }

  lemma {:induction false} DeletionsAppend(a: seq<Action>, b: seq<Action>)
    ensures Deletions(a + b) == Deletions(a) + Deletions(b)
  {
    if a == [] {
      assert a + b == b;
    } else {
      assert (a + b)[1..] == a[1..] + b;
      DeletionsAppend(a[1..], b);
    }
  }
}
