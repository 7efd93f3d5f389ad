/** discord_webhook.py: the embed logger with retries. Webhook URLs come
    from the environment (`env`, name -> value; a missing variable reads as
    empty), and the reply to each POST attempt is `replies(attempt)`. */
module DiscordWebhook {
  import opened Wrappers
  import opened PyStr
  import opened Effects
  import opened Updates
  import opened Config

  const MAX_ATTEMPTS: nat := 3
  /** The wait, in milliseconds, when a 429 reply carries no usable `retry_after`. */
  const DEFAULT_RETRY_MILLIS: int := 1000

  /** The outcome of one POST: a response with its status code (and, for a
      429, the `retry_after` milliseconds its JSON body gives, `None` when
      absent or unreadable), or an exception other than an HTTP error. */
  datatype Response = Status(code: int, retryAfter: Option<int>) | Raised

  predicate RateLimited(r: Response) {
    r.Status? && r.code == 429
  }

  /** The requests `send_to_discord` makes from attempt `attempt` on. */
  function Attempts(url: string, embed: Embed, replies: nat -> Response, attempt: nat): (r: seq<Action>)
    decreases MAX_ATTEMPTS - attempt
  {
    if attempt >= MAX_ATTEMPTS then []
    else
      var post := Post(url, Embeds(embed));
      var reply := replies(attempt);
      if RateLimited(reply) then [post, Sleep(reply.retryAfter.GetOr(DEFAULT_RETRY_MILLIS))] + Attempts(url, embed, replies, attempt + 1)
      else [post]
  }

  /** The POSTs among `actions`. */
  function Posts(actions: seq<Action>): (n: nat)
    ensures n <= |actions|
  {
    if actions == [] then 0 else (if actions[0].Post? then 1 else 0) + Posts(actions[1..])
  }

  lemma {:induction false} PostsAppend(a: seq<Action>, b: seq<Action>)
    ensures Posts(a + b) == Posts(a) + Posts(b)
  {
    if a == [] {
      assert a + b == b;
    } else {
      assert (a + b)[1..] == a[1..] + b;
      PostsAppend(a[1..], b);
    }
  }

  /** At most three POSTs, each of the embed to the url, and a sleep only
      after a 429. */
  lemma {:induction false} AttemptsShape(url: string, embed: Embed, replies: nat -> Response, attempt: nat)
    ensures var r := Attempts(url, embed, replies, attempt);
      && (attempt >= MAX_ATTEMPTS ==> r == [])
      && (attempt < MAX_ATTEMPTS ==> Posts(r) <= MAX_ATTEMPTS - attempt)
      && (attempt < MAX_ATTEMPTS ==> Posts(r) >= 1 && r[0] == Post(url, Embeds(embed)))
      && (forall i :: 0 <= i < |r| ==> r[i] == Post(url, Embeds(embed)) || r[i].Sleep?)
    decreases MAX_ATTEMPTS - attempt
  {
    if attempt < MAX_ATTEMPTS {
      var post := Post(url, Embeds(embed));
      var reply := replies(attempt);
      if RateLimited(reply) {
        var head := [post, Sleep(reply.retryAfter.GetOr(DEFAULT_RETRY_MILLIS))];
        AttemptsShape(url, embed, replies, attempt + 1);
        PostsAppend(head, Attempts(url, embed, replies, attempt + 1));
        assert Posts(head) == 1;
      }
    }
  }

  /** The first attempt that is not rate limited is the last one: a success
      ends the loop, and so does any other error. */
  lemma StopsAfterNon429(url: string, embed: Embed, replies: nat -> Response)
    requires !RateLimited(replies(0))
    ensures Attempts(url, embed, replies, 0) == [Post(url, Embeds(embed))]
  {
  }

  /** Three 429 replies in a row make three POSTs, each followed by its wait. */
  lemma ThreeRateLimits(url: string, embed: Embed, replies: nat -> Response)
    requires RateLimited(replies(0)) && RateLimited(replies(1)) && RateLimited(replies(2))
    ensures var post := Post(url, Embeds(embed));
      var r := Attempts(url, embed, replies, 0);
      && r == [post, Sleep(replies(0).retryAfter.GetOr(DEFAULT_RETRY_MILLIS)),
               post, Sleep(replies(1).retryAfter.GetOr(DEFAULT_RETRY_MILLIS)),
               post, Sleep(replies(2).retryAfter.GetOr(DEFAULT_RETRY_MILLIS))]
      && Posts(r) == 3
  {
    var post := Post(url, Embeds(embed));
    assert Attempts(url, embed, replies, 3) == [];
    var r2 := Attempts(url, embed, replies, 2);
    assert r2 == [post, Sleep(replies(2).retryAfter.GetOr(DEFAULT_RETRY_MILLIS))];
    var r1 := Attempts(url, embed, replies, 1);
    assert r1 == [post, Sleep(replies(1).retryAfter.GetOr(DEFAULT_RETRY_MILLIS))] + r2;
    var r := Attempts(url, embed, replies, 0);
    assert r == [post, Sleep(replies(0).retryAfter.GetOr(DEFAULT_RETRY_MILLIS))] + r1;
    PostsAppend([post, Sleep(replies(0).retryAfter.GetOr(DEFAULT_RETRY_MILLIS))], r1);
    PostsAppend([post, Sleep(replies(1).retryAfter.GetOr(DEFAULT_RETRY_MILLIS))], r2);
  }

  /** `send_to_discord(webhook_url, embed)`: nothing for an empty url, else
      up to three attempts, retrying only after a 429. */
  method SendToDiscord(url: string, embed: Embed, replies: nat -> Response) returns (actions: seq<Action>)
    ensures url == [] ==> actions == []
    ensures url != [] ==> actions == Attempts(url, embed, replies, 0)
    ensures Posts(actions) <= MAX_ATTEMPTS
  {
    actions := [];
    if url == [] {
      return;
    }
    var attempt: nat := 0;
    var done := false;
    while attempt < MAX_ATTEMPTS && !done
      invariant attempt <= MAX_ATTEMPTS
      invariant done ==> Attempts(url, embed, replies, 0) == actions
      invariant !done ==> Attempts(url, embed, replies, 0) == actions + Attempts(url, embed, replies, attempt)
      decreases MAX_ATTEMPTS - attempt, !done
    {
      var post := Post(url, Embeds(embed));
      var reply := replies(attempt);
      actions := actions + [post];
      if RateLimited(reply) {
        actions := actions + [Sleep(reply.retryAfter.GetOr(DEFAULT_RETRY_MILLIS))];
        attempt := attempt + 1;
      } else {
        done := true;
      }
    }
    assert !done ==> Attempts(url, embed, replies, attempt) == [];
    AttemptsShape(url, embed, replies, 0);
  }

  /** The env variable behind each log type; any other type uses the status
      webhook. */
  function WebhookVar(logType: string): (name: string)
    ensures logType == "list_logs" ==> name == "DISCORD_WEBHOOK_LIST_LOGS"
    ensures logType == "file_access" ==> name == "DISCORD_WEBHOOK_FILE_ACCESS"
    ensures logType != "list_logs" && logType != "file_access" ==> name == "DISCORD_WEBHOOK_STATUS"
  {
    if logType == "list_logs" then "DISCORD_WEBHOOK_LIST_LOGS"
    else if logType == "file_access" then "DISCORD_WEBHOOK_FILE_ACCESS"
    else "DISCORD_WEBHOOK_STATUS"
  }

  /** `os.getenv(name)`, with a missing variable as the empty string. */
  function GetEnv(env: map<string, string>, name: string): string {
    if name in env then env[name] else ""
  }

  /** python-telegram-bot's `full_name`: the first name, then the last name
      when there is one. */
  function FullName(user: User): string {
    if user.lastName != [] then user.firstName + " " + user.lastName else user.firstName
  }

  /** `username or full_name or str(id)`. */
  function Author(user: User): (name: string)
    ensures user.username != [] ==> name == user.username
    ensures user.username == [] && FullName(user) != [] ==> name == FullName(user)
    ensures user.username == [] && FullName(user) == [] ==> name == IntToString(user.id)
  {
    if user.username != [] then user.username
    else if FullName(user) != [] then FullName(user)
    else IntToString(user.id)
  }

  /** The embed of `log_to_discord(update, message, log_type)` at second
      `now`; `update` is the update's effective user, if any. */
  function LogEmbed(update: Option<User>, message: string, logType: string, now: int): (e: Embed)
    ensures e.title == Some(ConfigFor(logType).title.GetOr("Bot Log"))
    ensures ConfigFor(logType).title.None? ==> e.title == Some("Bot Log")
    ensures e.color == ConfigFor(logType).color.GetOr(0x7289DA)
    ensures update.Some? && logType != "status" ==> e.description == "[" + Author(update.value) + "]: " + message
    ensures update.None? || logType == "status" ==> e.description == message
  {
    var config := ConfigFor(logType);
    var description := if update.Some? && logType != "status" then "[" + Author(update.value) + "]: " + message else message;
    Embed(Some(config.title.GetOr("Bot Log")), description, config.color.GetOr(0x7289DA),
          Some(config.author.GetOr("Telegram Bot")), Some(config.footer.GetOr("Powered by xAI")), Some(now))
  }

  /** `log_to_discord(update, message, log_type)`. */
  method LogToDiscord(env: map<string, string>, update: Option<User>, message: string, logType: string, now: int,
                      replies: nat -> Response) returns (actions: seq<Action>)
    ensures var url := GetEnv(env, WebhookVar(logType));
      && (url == [] ==> actions == [])
      && (url != [] ==> actions == Attempts(url, LogEmbed(update, message, logType, now), replies, 0))
    ensures Posts(actions) <= MAX_ATTEMPTS
    ensures forall i :: 0 <= i < |actions| ==>
      actions[i] == Post(GetEnv(env, WebhookVar(logType)), Embeds(LogEmbed(update, message, logType, now))) || actions[i].Sleep?
  {
    actions := SendToDiscord(GetEnv(env, WebhookVar(logType)), LogEmbed(update, message, logType, now), replies);
    AttemptsShape(GetEnv(env, WebhookVar(logType)), LogEmbed(update, message, logType, now), replies, 0);
  }

  /** A status log names no user, and every log ends with its message. */
  lemma LogEmbedMessage(user: User, message: string, logType: string, now: int)
    ensures LogEmbed(Some(user), message, "status", now) == LogEmbed(None, message, "status", now)
    ensures var d := LogEmbed(Some(user), message, logType, now).description;
      |message| <= |d| && d[|d| - |message|..] == message
  {
  }
}
