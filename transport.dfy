/** What the bot asks the messaging transport and the filesystem to do, as an
    ordered log. The transport itself is not modelled: a logged send is one
    the bot made. */
module Transport {

  datatype Button = Button(title: string, data: string)

  datatype Event =
    | Reply(text: string)                                 // message.reply_text
    | ReplyWithButtons(text: string, buttons: seq<Button>) // reply_text with an inline keyboard
    | ReplyPhoto(path: string)
    | ReplyVideo(path: string)
    | ReplyAudio(path: string)
    | ReplyDocument(path: string, caption: string)
    | ReplyTooBig(size: nat)          // the "ZIP is too big (<size> MB)" text
    | AnswerQuery                     // query.answer()
    | EditQueryText(text: string)     // query.edit_message_text
    | DeleteQueryMessage              // query.message.delete()
    | StartSpotifyTask(url: string)   // asyncio.create_task(process_spotify(url, ...))
    | Deleted(path: string)           // Path.unlink(missing_ok=True)
}
