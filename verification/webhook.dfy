/** webhook.py: the throttled embed logger. `lastLogTime` is the module's
    `last_log_time` (0 at start-up); the reply of the POST is a parameter. */
module Webhook {
  import opened Wrappers
  import opened PyStr
  import opened Effects
  import opened Config

  /** Minimum seconds between two posted logs. */
  const LOG_INTERVAL: int := 10
  /** Discord's limit on an embed's description. */
  const DESCRIPTION_LIMIT: nat := 4096
  const ERROR_COLOR: int := 0xFF0000

  /** What `requests.post` did: a response with a status code and body, or
      an exception with its text. */
  datatype Reply = Response(status: int, body: string) | Raised(error: string)

  datatype Logged = Logged(lastLogTime: int, actions: seq<Action>)

  /** `config.get(key, default_config.get(key, literal))`. */
  function Pick<T>(own: Option<T>, fallback: Option<T>, literal: T): (v: T)
    ensures own.Some? ==> v == own.value
    ensures own.None? && fallback.Some? ==> v == fallback.value
    ensures own.None? && fallback.None? ==> v == literal
  {
    own.GetOr(fallback.GetOr(literal))
  }

  /** The embed logged for `message` of type `logType` at second `now`. */
  function BuildEmbed(message: string, logType: string, now: int): (e: Embed)
    ensures e.description == Truncate(message, DESCRIPTION_LIMIT)
    ensures e.title == ConfigFor(logType).title
    ensures e.title.Some? <==> logType in EMBED_CONFIG && EMBED_CONFIG[logType].title.Some?
    ensures e.color == Pick(ConfigFor(logType).color, EMBED_CONFIG["default"].color, 0x7289DA)
    ensures e.author == Some(Pick(ConfigFor(logType).author, EMBED_CONFIG["default"].author, "Telegram Bot"))
    ensures e.footer == Some(Pick(ConfigFor(logType).footer, EMBED_CONFIG["default"].footer, "Powered by xAI"))
    ensures e.timestamp == Some(now)
  {
    var config := ConfigFor(logType);
    var fallback := EMBED_CONFIG["default"];
    Embed(config.title, Truncate(message, DESCRIPTION_LIMIT),
          Pick(config.color, fallback.color, 0x7289DA),
          Some(Pick(config.author, fallback.author, "Telegram Bot")),
          Some(Pick(config.footer, fallback.footer, "Powered by xAI")),
          Some(now))
  }

  /** A log type with no entry of its own is styled as `default`. */
  lemma UnknownTypeIsDefault(message: string, logType: string, now: int)
    requires logType !in EMBED_CONFIG
    ensures BuildEmbed(message, logType, now) == BuildEmbed(message, "default", now)
  {
  }

  /** A status log is red and titled, and borrows the default author and
      footer. */
  lemma StatusEmbed(message: string, now: int)
    ensures var e := BuildEmbed(message, "status", now);
      && e.title == Some("Bot Status Update") && e.color == 0xFF0000
      && e.author == Some("Telegram Bot") && e.footer == Some("Powered by xAI")
  {
  }

  /** The red report embed sent to the status webhook. */
  function ErrorEmbed(text: string, now: int): (e: Embed)
    ensures e.description == Truncate(text, DESCRIPTION_LIMIT) && e.color == ERROR_COLOR
    ensures e.title.None? && e.author.None? && e.footer.None?
  {
    Embed(None, Truncate(text, DESCRIPTION_LIMIT), ERROR_COLOR, None, None, Some(now))
  }

  /** The report of a failed log, posted only when the failing webhook is
      not the status webhook itself. */
  function Report(webhook: string, text: string, now: int): (r: seq<Action>)
    ensures webhook == DISCORD_WEBHOOK_STATUS <==> r == []
    ensures r != [] ==> r == [Post(DISCORD_WEBHOOK_STATUS, Embeds(ErrorEmbed(text, now)))]
  {
    if webhook != DISCORD_WEBHOOK_STATUS then [Post(DISCORD_WEBHOOK_STATUS, Embeds(ErrorEmbed(text, now)))] else []
  }

  /** `log_to_discord(webhook, message, log_type)` at second `now`. `reply`
      is what the log POST did and `reportRaises` the exception text, if
      any, of the failure report's own POST. */
  function LogToDiscord(lastLogTime: int, webhook: string, message: string, logType: string, now: int,
                        reply: Reply, reportRaises: Option<string>): (r: Logged)
    ensures webhook == [] || now - lastLogTime < LOG_INTERVAL ==> r == Logged(lastLogTime, [])
    ensures webhook != [] && now - lastLogTime >= LOG_INTERVAL ==>
      |r.actions| >= 1 && r.actions[0] == Post(webhook, Embeds(BuildEmbed(message, logType, now)))
    ensures r.lastLogTime != lastLogTime ==> r.lastLogTime == now && reply.Response?
    ensures webhook != [] && now - lastLogTime >= LOG_INTERVAL && reply.Response? ==> r.lastLogTime == now
    ensures forall i :: 1 <= i < |r.actions| ==> r.actions[i].Post? && r.actions[i].url == DISCORD_WEBHOOK_STATUS
    ensures webhook == DISCORD_WEBHOOK_STATUS ==> |r.actions| <= 1
    ensures reply.Response? && reply.status == 204 ==> |r.actions| <= 1
  {
    if webhook != [] && now - lastLogTime >= LOG_INTERVAL then
      var post := Post(webhook, Embeds(BuildEmbed(message, logType, now)));
      match reply
      case Response(status, body) =>
        if status != 204 then
          var failed := Report(webhook, "Failed to send Discord log to " + webhook + ": Status "
                                        + IntToString(status) + ", Response: " + body, now);
          var caught := if failed != [] && reportRaises.Some? then
                          Report(webhook, "Error sending Discord log to " + webhook + ": " + reportRaises.value, now)
                        else [];
          Logged(now, [post] + failed + caught)
        else Logged(now, [post])
      case Raised(error) =>
        Logged(lastLogTime, [post] + Report(webhook, "Error sending Discord log to " + webhook + ": " + error, now))
    else Logged(lastLogTime, [])
  }

  /** A log of another webhook that fails is reported to the status webhook
      with the status code in red. */
  lemma FailureReported(lastLogTime: int, webhook: string, message: string, logType: string, now: int,
                        status: int, body: string)
    requires webhook != [] && webhook != DISCORD_WEBHOOK_STATUS && now - lastLogTime >= LOG_INTERVAL
    requires status != 204
    ensures var r := LogToDiscord(lastLogTime, webhook, message, logType, now, Response(status, body), None);
      |r.actions| == 2 && r.actions[1].payload.embed.color == ERROR_COLOR
  {
  }

  /** `last_log_time` only moves forward, by the interval or more. */
  lemma ThrottleSpacing(lastLogTime: int, webhook: string, message: string, logType: string, now: int,
                        reply: Reply, reportRaises: Option<string>)
    ensures var r := LogToDiscord(lastLogTime, webhook, message, logType, now, reply, reportRaises);
      r.lastLogTime == lastLogTime || r.lastLogTime >= lastLogTime + LOG_INTERVAL
  {
  }
}
