/** Rendering a transaction as a chat message: which buttons it carries, how
    they are laid out, how the amount is shown, and whether the message is
    edited or sent anew. */
module TxMessaging {
  import opened Wrappers
  import opened Lunch
  import opened Telegram
  import Text
  import Lists

  /** The four transaction buttons, in the order they are appended. */
  datatype Action = Categorize | DumpPlaid | Skip | MarkReviewed

  function Rank(a: Action): nat
  {
    match a
    case Categorize => 0
    case DumpPlaid => 1
    case Skip => 2
    case MarkReviewed => 3
  }

  function Label(a: Action): string
  {
    match a
    case Categorize => "Categorize"
    case DumpPlaid => "Dump plaid details"
    case Skip => "Skip"
    case MarkReviewed => "Mark as reviewed"
  }

  function Prefix(a: Action): string
  {
    match a
    case Categorize => "categorize"
    case DumpPlaid => "plaid"
    case Skip => "skip"
    case MarkReviewed => "review"
  }

  /** The keyword arguments of `get_tx_buttons`, all True by default. */
  datatype Flags = Flags(plaid: bool, skip: bool, markReviewed: bool, categorize: bool)

  const DEFAULT_FLAGS: Flags := Flags(true, true, true, true)

  predicate Enabled(f: Flags, a: Action)
  {
    match a
    case Categorize => f.categorize
    case DumpPlaid => f.plaid
    case Skip => f.skip
    case MarkReviewed => f.markReviewed
  }

  /** The appended buttons: each action present iff its flag is set, in rank order. */
  function Actions(f: Flags): (r: seq<Action>)
    ensures forall a :: a in r <==> Enabled(f, a)
    ensures forall i, j :: 0 <= i < j < |r| ==> Rank(r[i]) < Rank(r[j])
    ensures |r| <= 4
  {
    (if f.categorize then [Categorize] else []) +
    (if f.plaid then [DumpPlaid] else []) +
    (if f.skip then [Skip] else []) +
    (if f.markReviewed then [MarkReviewed] else [])
  }

  /** A button's callback data: its prefix, "_", and the transaction id. */
  function ButtonFor(a: Action, txId: int): Button
  {
    Button(Label(a), Prefix(a) + "_" + Text.IntToString(txId))
  }

  /** The flat button list before it is cut into rows. */
  function ButtonList(txId: int, f: Flags): (r: seq<Button>)
    ensures |r| == |Actions(f)|
    ensures forall i :: 0 <= i < |r| ==> r[i] == ButtonFor(Actions(f)[i], txId)
  {
    var acts := Actions(f);
    seq(|acts|, i requires 0 <= i < |acts| => ButtonFor(acts[i], txId))
  }

  /** `get_tx_buttons`: the button list in rows of two. */
  function TxButtons(txId: int, f: Flags): (k: Keyboard)
    ensures |k| == (|Actions(f)| + 1) / 2
    ensures forall i :: 0 <= i < |k| ==> 1 <= |k[i]| <= 2
    ensures forall i :: 0 <= i < |k| - 1 ==> |k[i]| == 2
  {
    Lists.Chunk(ButtonList(txId, f), 2)
  }

  /** Reading the rows left to right, top to bottom, gives back the flat list in
      rank order, with a button for an action iff its flag is set. */
  lemma TxButtonsContents(txId: int, f: Flags)
    ensures Lists.Flatten(TxButtons(txId, f)) == ButtonList(txId, f)
    ensures forall a :: ButtonFor(a, txId) in Lists.Flatten(TxButtons(txId, f)) <==> Enabled(f, a)
  {
    Lists.FlattenChunk(ButtonList(txId, f), 2);
    var acts := Actions(f);
    var bs := ButtonList(txId, f);
    forall a | ButtonFor(a, txId) in bs ensures Enabled(f, a) {
      var i :| 0 <= i < |bs| && bs[i] == ButtonFor(a, txId);
      LabelInjective(acts[i], a);
    }
    forall a | Enabled(f, a) ensures ButtonFor(a, txId) in bs {
      var i :| 0 <= i < |acts| && acts[i] == a;
      assert bs[i] == ButtonFor(a, txId);
    }
  }

  lemma LabelInjective(a: Action, b: Action)
    requires Label(a) == Label(b)
    ensures a == b
  {
  }

  /** The handlers read a button back with `int(data.split("_")[1])`: that gives
      the prefix and the transaction id again. */
  lemma CallbackRoundTrip(a: Action, txId: int)
    ensures Text.Split(ButtonFor(a, txId).data, '_') == [Prefix(a), Text.IntToString(txId)]
    ensures Text.ParseInt(Text.Split(ButtonFor(a, txId).data, '_')[1]) == Some(txId)
  {
    assert '_' !in Prefix(a);
    Text.SplitIntSuffix(Prefix(a), '_', txId);
  }

  /** The flags `send_transaction_message` passes: a pending transaction gets no
      Skip and no Mark-as-reviewed, and a recurring one is not categorisable. */
  function FlagsFor(tx: Tx): (f: Flags)
    ensures f.plaid
    ensures f.categorize <==> tx.recurringType.None?
    ensures f.skip <==> !tx.isPending
    ensures f.markReviewed <==> !tx.isPending
  {
    if tx.isPending then Flags(true, false, false, tx.recurringType.None?)
    else DEFAULT_FLAGS.(categorize := tx.recurringType.None?)
  }

  function Abs(x: int): nat
  {
    if x < 0 then -x else x
  }

  /** The rendered message of a transaction. */
  function Render(tx: Tx): (b: Body)
    ensures b.TxMessage? && b.tx == tx
    ensures b.credit <==> tx.amount < 0
    ensures b.keyboard == TxButtons(tx.id, FlagsFor(tx))
  {
    TxMessage(tx, tx.amount < 0, Abs(tx.amount), TxButtons(tx.id, FlagsFor(tx)))
  }

  /** The credit mark and the shown magnitude together give back the amount. */
  lemma ShownAmountRoundTrip(tx: Tx)
    ensures (if Render(tx).credit then -(Render(tx).shownAmount as int) else Render(tx).shownAmount as int) == tx.amount
  {
  }

  /** `if message_id:` in Python: a present id of 0 counts as absent. */
  predicate EditsExisting(messageId: Option<int>)
  {
    messageId.Some? && messageId.value != 0
  }

  /** `send_transaction_message`: edit the given message and return its id, or
      send a new one (as a reply when asked) and return the new id. A transport
      failure, or an edit Telegram refuses because nothing would change, is
      returned as an error instead of raised. */
  method SendTransactionMessage(bot: Bot, tx: Tx, chatId: int, messageId: Option<int>, replyTo: Option<int>)
    returns (r: Result<int, Error>)
    requires bot.Valid()
    modifies bot
    ensures bot.Valid() && bot.reachable == old(bot.reachable)
    ensures !old(bot.reachable) ==> r == Failure(TransportError) && bot.log == old(bot.log) && bot.nextId == old(bot.nextId)
    ensures old(bot.reachable) && EditsExisting(messageId) && !bot.alreadyShows(chatId, messageId.value, Render(tx)) ==>
      r == Success(messageId.value) && bot.log == old(bot.log) + [Edited(chatId, messageId.value, Render(tx))] &&
      bot.nextId == old(bot.nextId)
    ensures old(bot.reachable) && EditsExisting(messageId) && bot.alreadyShows(chatId, messageId.value, Render(tx)) ==>
      r == Failure(NotModified) && bot.log == old(bot.log) && bot.nextId == old(bot.nextId)
    ensures old(bot.reachable) && !EditsExisting(messageId) ==>
      r == Success(old(bot.nextId)) && !IdUsed(old(bot.log), old(bot.nextId)) &&
      bot.log == old(bot.log) + [Sent(old(bot.nextId), chatId, Render(tx), replyTo)] &&
      bot.nextId == old(bot.nextId) + 1
  {
    var body := Render(tx);
    if EditsExisting(messageId) {
      r := bot.Edit(chatId, messageId.value, body);
    } else {
      r := bot.Send(chatId, body, replyTo);
    }
  }

  /** `send_plaid_details`: the details go out as a reply to the transaction
      message, whose buttons are then redrawn without the plaid button. A failed
      send stops before the redraw. */
  method SendPlaidDetails(bot: Bot, chatId: int, queryMessageId: int, txId: int, details: string)
    returns (r: Result<int, Error>)
    requires bot.Valid()
    modifies bot
    ensures bot.Valid() && bot.reachable == old(bot.reachable)
    ensures !old(bot.reachable) ==> r == Failure(TransportError) && bot.log == old(bot.log)
    ensures old(bot.reachable) ==> r == Success(queryMessageId) && bot.log == old(bot.log) + [
      Sent(old(bot.nextId), chatId, Text(details), Some(queryMessageId)),
      MarkupEdited(chatId, queryMessageId, TxButtons(txId, DEFAULT_FLAGS.(plaid := false)))]
  {
    var sent := bot.Send(chatId, Text(details), Some(queryMessageId));
    if sent.Failure? {
      return Failure(sent.error);
    }
    r := bot.EditMarkup(chatId, queryMessageId, TxButtons(txId, DEFAULT_FLAGS.(plaid := false)));
  }

  /** The redrawn keyboard keeps Categorize, Skip and Mark-as-reviewed and drops
      only the plaid button. */
  lemma PlaidRedrawDropsOnlyPlaid(txId: int)
    ensures Actions(DEFAULT_FLAGS.(plaid := false)) == [Categorize, Skip, MarkReviewed]
    ensures |TxButtons(txId, DEFAULT_FLAGS.(plaid := false))| == 2
  {
  }
}
