/** utils.py: the plain Discord logger and the per-user anti-spam cooldown.
    `cooldowns` is `USER_COOLDOWNS` (user id -> second of the last accepted
    message). */
module Utils {
  import opened Effects

  /** Seconds a user must wait between accepted messages. */
  const COOLDOWN: int := 5

  /** `log_to_discord`: one POST of the raw message, and none for an empty
      webhook. A raising POST is caught and only printed. */
  function LogToDiscord(webhook: string, message: string): (r: seq<Action>)
    ensures webhook == [] <==> r == []
    ensures webhook != [] ==> r == [Post(webhook, Content(message))]
  {
    if webhook != [] then [Post(webhook, Content(message))] else []
  }

  datatype Verdict = Verdict(spamming: bool, cooldowns: map<int, int>)

  /** The time of the user's last accepted message, 0 when there is none. */
  function LastTime(cooldowns: map<int, int>, user: int): int {
    if user in cooldowns then cooldowns[user] else 0
  }

  /** `is_spamming(user)` at second `now`. */
  function IsSpamming(cooldowns: map<int, int>, user: int, now: int): (v: Verdict)
    ensures v.spamming <==> now - LastTime(cooldowns, user) < COOLDOWN
    ensures v.spamming ==> v.cooldowns == cooldowns
    ensures !v.spamming ==> v.cooldowns == cooldowns[user := now]
    ensures forall u :: u in cooldowns && u != user ==> u in v.cooldowns && v.cooldowns[u] == cooldowns[u]
    ensures v.cooldowns.Keys <= cooldowns.Keys + {user}
  {
    if now - LastTime(cooldowns, user) < COOLDOWN then Verdict(true, cooldowns)
    else Verdict(false, cooldowns[user := now])
  }

  /** A user's first message at a time of at least five seconds is accepted
      and recorded. */
  lemma FirstMessageAccepted(cooldowns: map<int, int>, user: int, now: int)
    requires user !in cooldowns && now >= COOLDOWN
    ensures IsSpamming(cooldowns, user, now) == Verdict(false, cooldowns[user := now])
  {
  }

  /** After an accepted message, another within five seconds is refused and
      one five or more seconds later is accepted. */
  lemma CooldownWindow(cooldowns: map<int, int>, user: int, t: int, later: int)
    requires !IsSpamming(cooldowns, user, t).spamming
    requires t <= later
    ensures var c := IsSpamming(cooldowns, user, t).cooldowns;
      IsSpamming(c, user, later).spamming <==> later - t < COOLDOWN
  {
  }

  /** Accepted messages of one user are at least five seconds apart: the
      recorded time only moves forward by the cooldown or more. */
  lemma AcceptedSpaced(cooldowns: map<int, int>, user: int, now: int)
    requires user in cooldowns
    requires !IsSpamming(cooldowns, user, now).spamming
    ensures IsSpamming(cooldowns, user, now).cooldowns[user] >= cooldowns[user] + COOLDOWN
  {
  }
}
