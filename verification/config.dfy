/** The deployment constants of config.py that the modelled logic reads. */
module Config {
  import opened Wrappers

  const ADMIN_ID: int := 123456789
  const BOT_USERNAME: string := "your_bot_username"
  const DISCORD_WEBHOOK_STATUS: string := "https://discord.com/api/webhooks/1357644159888003237/..."
  const DISCORD_WEBHOOK_LIST_LOGS: string := "https://discord.com/api/webhooks/1357644530136125603/..."
  const DISCORD_WEBHOOK_FILE_ACCESS: string := "https://discord.com/api/webhooks/1357644928016191549/..."

  /** One entry of `EMBED_CONFIG`; a missing key is `None`. */
  datatype EmbedConfig = EmbedConfig(
    color: Option<int>,
    title: Option<string>,
    author: Option<string>,
    footer: Option<string>)

  const EMBED_CONFIG: map<string, EmbedConfig> := map[
    "default" := EmbedConfig(Some(0x7289DA), None, Some("Telegram Bot"), Some("Powered by xAI")),
    "status" := EmbedConfig(Some(0xFF0000), Some("Bot Status Update"), None, None),
    "list_logs" := EmbedConfig(Some(0x00FF00), Some("Admin Action Log"), None, None),
    "file_access" := EmbedConfig(Some(0x0000FF), Some("File Access Log"), None, None),
    "health" := EmbedConfig(Some(0xFFFF00), Some("Health Check"), Some("Bot Health Monitor"), Some("System Status"))
  ]

  /** `EMBED_CONFIG.get(log_type, EMBED_CONFIG['default'])`. */
  function ConfigFor(logType: string): EmbedConfig {
    if logType in EMBED_CONFIG then EMBED_CONFIG[logType] else EMBED_CONFIG["default"]
  }
}
