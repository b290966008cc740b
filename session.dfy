/** The "Session" settings screen: pulling an API token out of a message,
    registering it, and logging out. */
module Session {
  import opened Wrappers
  import opened Persistence
  import opened Telegram
  import Expectations

  const TOKEN_LEN: nat := 50

  /** The regex class `[a-f0-9]`. */
  predicate IsHexLower(c: char)
  {
    ('0' <= c <= '9') || ('a' <= c <= 'f')
  }

  /** The regex word characters, taken as ASCII `[A-Za-z0-9_]`. */
  predicate IsWordChar(c: char)
  {
    ('a' <= c <= 'z') || ('A' <= c <= 'Z') || ('0' <= c <= '9') || c == '_'
  }

  /** `\b[a-f0-9]{50}\b` matches at `i`: fifty lowercase hex digits with a
      non-word character or the edge of the string on both sides. */
  predicate MatchAt(s: string, i: int)
  {
    0 <= i && i + TOKEN_LEN <= |s| &&
    (forall k :: i <= k < i + TOKEN_LEN ==> IsHexLower(s[k])) &&
    (i == 0 || !IsWordChar(s[i - 1])) &&
    (i + TOKEN_LEN == |s| || !IsWordChar(s[i + TOKEN_LEN]))
  }

  /** `j` is the first match at or after `i`. */
  predicate FirstMatchFrom(s: string, i: int, j: int)
  {
    i <= j && MatchAt(s, j) && forall k :: i <= k < j ==> !MatchAt(s, k)
  }

  /** `re.search` from position `i`: where the leftmost match starts, or None. */
  function SearchFrom(s: string, i: nat): (r: Option<nat>)
    requires i <= |s|
    ensures r.None? <==> forall j :: i <= j ==> !MatchAt(s, j)
    ensures r.Some? ==> FirstMatchFrom(s, i, r.value)
    decreases |s| - i
  {
    if i + TOKEN_LEN > |s| then None
    else if MatchAt(s, i) then Some(i)
    else SearchFrom(s, i + 1)
  }

  /** `extract_api_token`: the leftmost match of the token pattern, fifty
      lowercase hex digits, or None when the message holds none. */
  function ExtractApiToken(s: string): (r: Option<string>)
    ensures r.None? <==> forall j :: !MatchAt(s, j)
    ensures r.Some? ==> |r.value| == TOKEN_LEN && forall k :: 0 <= k < |r.value| ==> IsHexLower(r.value[k])
    ensures r.Some? ==> exists j :: FirstMatchFrom(s, 0, j) && r.value == s[j..j + TOKEN_LEN]
  {
    match SearchFrom(s, 0)
    case None => None
    case Some(j) =>
      Some(s[j..j + TOKEN_LEN])
  }

  /** A message that is exactly a token gives that token back. */
  lemma ExactTokenIsItself(s: string)
    requires |s| == TOKEN_LEN && forall k :: 0 <= k < |s| ==> IsHexLower(s[k])
    ensures ExtractApiToken(s) == Some(s)
  {
    assert MatchAt(s, 0);
    assert s[0..TOKEN_LEN] == s;
  }

  /** No token is taken from inside a run of more than fifty hex digits: every
      place such a run could supply one has a word character beside it. */
  lemma LongRunHasNoToken(s: string, a: int, b: int)
    requires 0 <= a && a + TOKEN_LEN < b <= |s|
    requires forall k :: a <= k < b ==> IsHexLower(s[k])
    ensures forall j :: a <= j && j + TOKEN_LEN <= b ==> !MatchAt(s, j)
  {
    forall j | a <= j && j + TOKEN_LEN <= b
      ensures !MatchAt(s, j)
    {
      if j > a {
        assert IsWordChar(s[j - 1]);
      } else {
        assert IsWordChar(s[j + TOKEN_LEN]);
      }
    }
  }

  /** A message of fifty-one or more hex digits holds no token at all. */
  lemma HexRunTooLong(s: string)
    requires |s| > TOKEN_LEN && forall k :: 0 <= k < |s| ==> IsHexLower(s[k])
    ensures ExtractApiToken(s) == None
  {
    LongRunHasNoToken(s, 0, |s|);
    forall j ensures !MatchAt(s, j) {
      if 0 <= j && j + TOKEN_LEN <= |s| {
      }
    }
  }

  /** Uppercase hex digits are not accepted: a fifty-character message with an
      `A`..`F` in it gives no token. */
  lemma UppercaseRejected(s: string, k: int)
    requires |s| == TOKEN_LEN && 0 <= k < |s| && 'A' <= s[k] <= 'F'
    ensures ExtractApiToken(s) == None
  {
    forall j ensures !MatchAt(s, j) {
      if 0 <= j && j + TOKEN_LEN <= |s| {
        assert j == 0 && !IsHexLower(s[k]);
      }
    }
  }

  /** The texts the handler sends; the exception text of the generic failure
      is not modelled. */
  const NO_TOKEN_FOUND: string := "I couldn't find a valid token in the message you sent me."

  function Welcome(userName: string): string
  {
    "Hello " + userName + "!"
  }

  function TokenRevoked(token: string): string
  {
    "Failed to register token `" + token + "`: the token provided is invalid or has been revoked."
  }

  function TokenFailed(token: string): string
  {
    "Failed to register token `" + token + "`"
  }

  /** The message for a failure inside the `try`: the revoked-token text for
      that API answer, the generic text otherwise. */
  function FailureText(token: string, e: Error): (t: string)
    ensures e == RevokedToken ==> t == TokenRevoked(token)
    ensures e != RevokedToken ==> t == TokenFailed(token)
  {
    if e == RevokedToken then TokenRevoked(token) else TokenFailed(token)
  }

  /** `handle_register_token` for a message that answers the token prompt.
      `user` is what `get_user` answers for the extracted token. A failure of
      the transport outside the `try` escapes as TransportError. The token is
      saved as soon as `get_user` succeeds; clearing the expectation keyed by
      the prompt's message id comes after the save, so its KeyError leaves the
      token stored and only replaces the welcome by the failure message. */
  method HandleRegisterToken(store: Store, bot: Bot, exp: Expectations.Expectations, chatId: int, messageId: int,
                             tokenMsg: string, helloMsgId: int, user: Result<string, Error>, now: int)
      returns (r: Result<(), Error>)
    requires bot.Valid()
    modifies store, bot, exp
    ensures bot.Valid() && bot.reachable == old(bot.reachable)
    ensures store.rows == old(store.rows)
    ensures r.Failure? <==> !old(bot.reachable)
    ensures r.Failure? ==> r.error == TransportError && bot.log == old(bot.log)
    ensures ExtractApiToken(tokenMsg).None? ==>
      store.settings == old(store.settings) && exp.entries == old(exp.entries) &&
      (old(bot.reachable) ==> bot.log == old(bot.log) + [Sent(old(bot.nextId), chatId, Text(NO_TOKEN_FOUND), None)])
    ensures ExtractApiToken(tokenMsg).Some? ==>
      var token := ExtractApiToken(tokenMsg).value;
      var saved := old(bot.reachable) && user.Success?;
      var cleared := Expectations.Cleared(old(exp.entries), helloMsgId);
      (store.settings == if saved then WithToken(old(store.settings), chatId, token, now) else old(store.settings)) &&
      (exp.entries == if saved then cleared.1 else old(exp.entries)) &&
      (old(bot.reachable) && user.Failure? ==>
        bot.log == old(bot.log) + [Deleted(chatId, messageId), Sent(old(bot.nextId), chatId, Text(FailureText(token, user.error)), None)]) &&
      (saved && cleared.0.Failure? ==>
        bot.log == old(bot.log) + [Deleted(chatId, messageId), Sent(old(bot.nextId), chatId, Text(FailureText(token, KeyError)), None)]) &&
      (saved && cleared.0.Success? ==>
        bot.log == old(bot.log) + [Deleted(chatId, messageId), Deleted(chatId, helloMsgId), Sent(old(bot.nextId), chatId, Text(Welcome(user.value)), None)])
  {
    var token := ExtractApiToken(tokenMsg);
    if token.None? {
      var sent := bot.Send(chatId, Text(NO_TOKEN_FOUND), None);
      if sent.Failure? {
        return Failure(sent.error);
      }
      return Success(());
    }
    var deleted := bot.Delete(chatId, messageId);
    if deleted.Failure? {
      return Failure(deleted.error);
    }
    var failure: Option<Error> := None;
    if user.Failure? {
      failure := Some(user.error);
    } else {
      store.SaveToken(chatId, token.value, now);
      var c := exp.Clear(helloMsgId);
      if c.Failure? {
        failure := Some(c.error);
      } else {
        var _ := bot.Delete(chatId, helloMsgId);
        var _ := bot.Send(chatId, Text(Welcome(user.value)), None);
      }
    }
    if failure.Some? {
      var _ := bot.Send(chatId, Text(FailureText(token.value, failure.value)), None);
    }
    r := Success(());
  }

  /** `handle_logout_confirm`: `logout` and then a second delete of the chat's
      transaction rows, then the menu message is deleted. */
  method HandleLogoutConfirm(store: Store, bot: Bot, chatId: int, menuMessageId: int) returns (r: Result<int, Error>)
    requires bot.Valid() && store.Valid()
    modifies store, bot
    ensures bot.Valid() && bot.nextId == old(bot.nextId) && store.Valid()
    ensures store.settings == old(store.settings) - {chatId}
    ensures store.rows == RowsNotOfChat(old(store.rows), chatId)
    ensures old(bot.reachable) ==> r == Success(menuMessageId) && bot.log == old(bot.log) + [Deleted(chatId, menuMessageId)]
    ensures !old(bot.reachable) ==> r == Failure(TransportError) && bot.log == old(bot.log)
  {
    store.Logout(chatId);
    store.DeleteTransactionsForChat(chatId);
    DeleteTwiceIsOnce(old(store.rows), chatId);
    r := bot.Delete(chatId, menuMessageId);
  }
}
