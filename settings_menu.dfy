/** The older single settings screen: registering a token from the `/register`
    command and confirming a logout. Its interval label and toggles are the
    ones in `Schedule`. */
module SettingsMenu {
  import opened Wrappers
  import Text
  import opened Persistence
  import opened Telegram
  import Expectations

  const PROVIDE_TOKEN: string := "Please provide a token to register"

  function Welcome(userName: string): string
  {
    "Hello " + userName + "!"
  }

  function TokenFailed(token: string): string
  {
    "Failed to register token `" + token + "`"
  }

  /** The command asks for a token when no override is given and its text has
      no second `" "`-separated word. */
  predicate AsksForToken(text: string, tokenOverride: Option<string>)
  {
    tokenOverride.None? && |Text.Split(text, ' ')| < 2
  }

  /** The token to register: the override when there is one, otherwise the
      second word of the command. */
  function ChosenToken(text: string, tokenOverride: Option<string>): (t: string)
    requires !AsksForToken(text, tokenOverride)
    ensures tokenOverride.Some? ==> t == tokenOverride.value
    ensures tokenOverride.None? ==> t == Text.Split(text, ' ')[1]
  {
    if tokenOverride.Some? then tokenOverride.value else Text.Split(text, ' ')[1]
  }

  /** `/register <token>` registers exactly the word after the command. */
  lemma {:induction false} CommandToken(command: string, token: string)
    requires ' ' !in command && ' ' !in token
    ensures !AsksForToken(command + " " + token, None)
    ensures ChosenToken(command + " " + token, None) == token
  {
    assert command + " " + token == command + ([' '] + token);
    Text.SplitPrefix(command, token, ' ');
    Text.SplitWord(token, ' ');
  }

  /** A bare command, or one whose text has no space, asks for a token. */
  lemma {:induction false} BareCommandAsks(command: string)
    requires ' ' !in command
    ensures AsksForToken(command, None)
  {
    Text.SplitWord(command, ' ');
  }

  /** `handle_register_token` of the settings screen. `user` is what
      `get_user` answers for the chosen token. Without a token the bot asks for
      one and records an EXPECTING_TOKEN expectation for the prompt; nothing is
      saved. Otherwise the command message is deleted and the token is saved
      only once `get_user` succeeded. A transport failure outside the `try`
      escapes as TransportError. */
  method HandleRegisterToken(store: Store, bot: Bot, exp: Expectations.Expectations, chatId: int, messageId: int,
                             text: string, tokenOverride: Option<string>, user: Result<string, Error>, now: int)
      returns (r: Result<(), Error>)
    requires bot.Valid()
    modifies store, bot, exp
    ensures bot.Valid() && bot.reachable == old(bot.reachable)
    ensures store.rows == old(store.rows)
    ensures r.Failure? <==> !old(bot.reachable)
    ensures r.Failure? ==> r.error == TransportError && bot.log == old(bot.log) && exp.entries == old(exp.entries)
    ensures AsksForToken(text, tokenOverride) ==> store.settings == old(store.settings)
    ensures AsksForToken(text, tokenOverride) && old(bot.reachable) ==>
      bot.log == old(bot.log) + [Sent(old(bot.nextId), chatId, Text(PROVIDE_TOKEN), None)] &&
      exp.entries == old(exp.entries)[chatId := Some(Expectations.Expectation(Expectations.ExpectingToken, old(bot.nextId), None))]
    ensures !AsksForToken(text, tokenOverride) ==>
      var token := ChosenToken(text, tokenOverride);
      var saved := old(bot.reachable) && user.Success?;
      exp.entries == old(exp.entries) &&
      (store.settings == if saved then WithToken(old(store.settings), chatId, token, now) else old(store.settings)) &&
      (saved ==> bot.log == old(bot.log) + [Deleted(chatId, messageId), Sent(old(bot.nextId), chatId, Text(Welcome(user.value)), None)]) &&
      (old(bot.reachable) && user.Failure? ==>
        bot.log == old(bot.log) + [Deleted(chatId, messageId), Sent(old(bot.nextId), chatId, Text(TokenFailed(token)), None)])
  {
    if AsksForToken(text, tokenOverride) {
      var msg := bot.Send(chatId, Text(PROVIDE_TOKEN), None);
      if msg.Failure? {
        return Failure(msg.error);
      }
      exp.Set(chatId, Some(Expectations.Expectation(Expectations.ExpectingToken, msg.value, None)));
      return Success(());
    }
    var token := ChosenToken(text, tokenOverride);
    var deleted := bot.Delete(chatId, messageId);
    if deleted.Failure? {
      return Failure(deleted.error);
    }
    if user.Success? {
      store.SaveToken(chatId, token, now);
      var _ := bot.Send(chatId, Text(Welcome(user.value)), None);
    } else {
      var _ := bot.Send(chatId, Text(TokenFailed(token)), None);
    }
    r := Success(());
  }

  /** `handle_logout_confirm` of the settings screen: `logout` removes the
      chat's settings row and its transaction rows, then the menu message is
      deleted. */
  method HandleLogoutConfirm(store: Store, bot: Bot, chatId: int, menuMessageId: int) returns (r: Result<int, Error>)
    requires bot.Valid() && store.Valid()
    modifies store, bot
    ensures bot.Valid() && bot.nextId == old(bot.nextId) && store.Valid()
    ensures store.settings == old(store.settings) - {chatId}
    ensures store.rows == RowsNotOfChat(old(store.rows), chatId)
    ensures old(bot.reachable) ==> r == Success(menuMessageId) && bot.log == old(bot.log) + [Deleted(chatId, menuMessageId)]
    ensures !old(bot.reachable) ==> r == Failure(TransportError) && bot.log == old(bot.log)
  {
    store.Logout(chatId);
    r := bot.Delete(chatId, menuMessageId);
  }
}
