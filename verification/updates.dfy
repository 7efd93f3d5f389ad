/** The parts of a Telegram webhook `Update` that the bot reads. A missing
    optional field is `None`; a missing name field is the empty string, which
    Python treats as false just like a missing one. */
module Updates {
  import opened Wrappers

  datatype User = User(id: int, username: string, firstName: string, lastName: string)

  datatype Message = Message(
    chat: int,
    from: User,
    text: Option<string>,
    document: Option<string>,   // document['file_id']
    video: Option<string>)      // video['file_id']

  datatype CallbackQuery = CallbackQuery(data: string)

  datatype Update = Update(message: Option<Message>, callbackQuery: Option<CallbackQuery>)
}
