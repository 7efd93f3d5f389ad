/** discord.py: the throttled plain-text Discord logger. `lastLogTime` is
    the module's `last_log_time` (0 at start-up) and `raises` tells whether
    the POST raises, which the logger swallows. */
module Discord {
  import opened PyStr
  import opened Effects

  /** Minimum seconds between two posted logs. */
  const LOG_INTERVAL: int := 10
  /** Discord's limit on a message's `content`. */
  const CONTENT_LIMIT: nat := 2000

  datatype Logged = Logged(lastLogTime: int, actions: seq<Action>)

  /** `log_to_discord(webhook, message)` at second `now`. */
  function LogToDiscord(lastLogTime: int, webhook: string, message: string, now: int, raises: bool): (r: Logged)
    ensures webhook == [] || now - lastLogTime < LOG_INTERVAL ==> r == Logged(lastLogTime, [])
    ensures webhook != [] && now - lastLogTime >= LOG_INTERVAL ==>
      r.actions == [Post(webhook, Content(Truncate(message, CONTENT_LIMIT)))]
    ensures forall i :: 0 <= i < |r.actions| ==>
      r.actions[i].Post? && r.actions[i].payload.Content? && |r.actions[i].payload.content| <= CONTENT_LIMIT
    ensures r.lastLogTime != lastLogTime ==> r.lastLogTime == now && !raises && r.actions != []
    ensures webhook != [] && now - lastLogTime >= LOG_INTERVAL && !raises ==> r.lastLogTime == now
  {
    if webhook != [] && now - lastLogTime >= LOG_INTERVAL then
      Logged(if raises then lastLogTime else now, [Post(webhook, Content(Truncate(message, CONTENT_LIMIT)))])
    else Logged(lastLogTime, [])
  }

  /** Every change of `last_log_time` moves it forward by at least the
      interval, so two posts that both returned are ten or more seconds
      apart. */
  lemma ThrottleSpacing(lastLogTime: int, webhook: string, message: string, now: int, raises: bool)
    ensures var r := LogToDiscord(lastLogTime, webhook, message, now, raises);
      r.lastLogTime == lastLogTime || r.lastLogTime >= lastLogTime + LOG_INTERVAL
  {
  }

  /** After a post that returned, nothing more is posted for the next
      `LOG_INTERVAL` seconds; after a post that raised, the next call
      posts again at once. */
  lemma NextCallThrottled(lastLogTime: int, webhook: string, message: string, now: int, raises: bool,
                          message2: string, later: int, raises2: bool)
    requires webhook != [] && now - lastLogTime >= LOG_INTERVAL && now <= later
    ensures var r := LogToDiscord(lastLogTime, webhook, message, now, raises);
      var r2 := LogToDiscord(r.lastLogTime, webhook, message2, later, raises2);
      && (!raises ==> (r2.actions == [] <==> later < now + LOG_INTERVAL))
      && (raises ==> r2.actions != [])
  {
  }

  /** A message that fits is posted unchanged. */
  lemma ShortMessageIntact(lastLogTime: int, webhook: string, message: string, now: int, raises: bool)
    requires webhook != [] && now - lastLogTime >= LOG_INTERVAL && |message| <= CONTENT_LIMIT
    ensures LogToDiscord(lastLogTime, webhook, message, now, raises).actions == [Post(webhook, Content(message))]
  {
  }
}
