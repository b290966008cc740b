/** The chat transport as an effect: every call is appended to a log, and
    `send_message` answers with an id never handed out before. */
module Telegram {
  import opened Wrappers
  import opened Lunch

  datatype Button = Button(text: string, data: string)

  type Keyboard = seq<seq<Button>>

  /** What a message shows: a rendered transaction or plain text. */
  datatype Body =
    | TxMessage(tx: Tx, credit: bool, shownAmount: nat, keyboard: Keyboard)
    | Text(text: string)

  datatype Outgoing =
    | Sent(id: int, chatId: int, body: Body, replyTo: Option<int>)
    | Edited(chatId: int, messageId: int, body: Body)
    | MarkupEdited(chatId: int, messageId: int, keyboard: Keyboard)
    | Deleted(chatId: int, messageId: int)

  /** True iff some message in the log was sent with id `id`. */
  ghost predicate IdUsed(log: seq<Outgoing>, id: int)
  {
    exists i :: 0 <= i < |log| && log[i].Sent? && log[i].id == id
  }

  /** The reply anchor of `Message.reply_text` with its default quoting: the
      reply quotes the message it answers in a group chat, and not in a
      private chat. */
  function ReplyAnchor(privateChat: bool, messageId: int): (a: Option<int>)
    ensures a.None? <==> privateChat
    ensures a.Some? ==> a.value == messageId
  {
    if privateChat then None else Some(messageId)
  }

  class Bot {
    var log: seq<Outgoing>
    var nextId: int
    /** False when every call raises (network down, bot blocked). */
    var reachable: bool
    /** `alreadyShows(chat, message, body)`: the message already shows the text
        and keyboard of `body`, so Telegram refuses the edit as not modified.
        What a message shows is Telegram's state, outside this model. */
    const alreadyShows: (int, int, Body) -> bool

    ghost predicate Valid()
      reads this
    {
      nextId >= 1 && forall i :: 0 <= i < |log| && log[i].Sent? ==> 1 <= log[i].id < nextId
    }

    constructor (reachable: bool, alreadyShows: (int, int, Body) -> bool)
      ensures Valid() && log == [] && nextId == 1 && this.reachable == reachable && this.alreadyShows == alreadyShows
    {
      log, nextId, this.reachable, this.alreadyShows := [], 1, reachable, alreadyShows;
    }

    /** `send_message`; the id it answers with is fresh. */
    method Send(chatId: int, body: Body, replyTo: Option<int>) returns (r: Result<int, Error>)
      requires Valid()
      modifies this
      ensures Valid() && reachable == old(reachable)
      ensures old(reachable) ==> r == Success(old(nextId)) && !IdUsed(old(log), old(nextId))
      ensures old(reachable) ==> log == old(log) + [Sent(old(nextId), chatId, body, replyTo)] && nextId == old(nextId) + 1
      ensures !old(reachable) ==> r == Failure(TransportError) && log == old(log) && nextId == old(nextId)
    {
      if reachable {
        r := Success(nextId);
        log := log + [Sent(nextId, chatId, body, replyTo)];
        nextId := nextId + 1;
      } else {
        r := Failure(TransportError);
      }
    }

    /** `edit_message_text`: refused when the message would not change. */
    method Edit(chatId: int, messageId: int, body: Body) returns (r: Result<int, Error>)
      requires Valid()
      modifies this
      ensures Valid() && reachable == old(reachable) && nextId == old(nextId)
      ensures old(reachable) && !alreadyShows(chatId, messageId, body) ==>
        r == Success(messageId) && log == old(log) + [Edited(chatId, messageId, body)]
      ensures old(reachable) && alreadyShows(chatId, messageId, body) ==> r == Failure(NotModified) && log == old(log)
      ensures !old(reachable) ==> r == Failure(TransportError) && log == old(log)
    {
      if reachable && alreadyShows(chatId, messageId, body) {
        r := Failure(NotModified);
      } else if reachable {
        r := Success(messageId);
        log := log + [Edited(chatId, messageId, body)];
      } else {
        r := Failure(TransportError);
      }
    }

    /** `edit_message_reply_markup`. */
    method EditMarkup(chatId: int, messageId: int, keyboard: Keyboard) returns (r: Result<int, Error>)
      requires Valid()
      modifies this
      ensures Valid() && reachable == old(reachable) && nextId == old(nextId)
      ensures old(reachable) ==> r == Success(messageId) && log == old(log) + [MarkupEdited(chatId, messageId, keyboard)]
      ensures !old(reachable) ==> r == Failure(TransportError) && log == old(log)
    {
      if reachable {
        r := Success(messageId);
        log := log + [MarkupEdited(chatId, messageId, keyboard)];
      } else {
        r := Failure(TransportError);
      }
    }

    /** `delete_message`. */
    method Delete(chatId: int, messageId: int) returns (r: Result<int, Error>)
      requires Valid()
      modifies this
      ensures Valid() && reachable == old(reachable) && nextId == old(nextId)
      ensures old(reachable) ==> r == Success(messageId) && log == old(log) + [Deleted(chatId, messageId)]
      ensures !old(reachable) ==> r == Failure(TransportError) && log == old(log)
    {
      if reachable {
        r := Success(messageId);
        log := log + [Deleted(chatId, messageId)];
      } else {
        r := Failure(TransportError);
      }
    }
  }
}
