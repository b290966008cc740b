/** The SQLite state store: the append-only table of sent-transaction rows and
    the per-chat settings table. */
module Persistence {
  import opened Wrappers

  /** A row of the `transactions` table. `createdAt` is SQLite's `func.now()`
      in seconds, so two rows may carry the same stamp. */
  datatype Row = Row(
    messageId: int,
    txId: int,
    chatId: int,
    pending: bool,
    createdAt: int,
    reviewedAt: Option<int>,
    recurringType: Option<string>,
    plaidId: Option<string>)

  /** A row of the `settings` table, keyed by chat id. */
  datatype Settings = Settings(
    token: string,
    pollIntervalSecs: int,
    createdAt: int,
    lastPollAt: Option<int>,
    autoMarkReviewed: bool,
    pollPending: bool,
    showDatetime: bool,
    tagging: bool,
    markReviewedAfterCategorized: bool,
    timezone: string,
    autoCategorizeAfterNotes: bool)

  /** The boolean columns of `settings`, each with its own `update_*` method. */
  datatype Flag =
    | AutoMarkReviewed | PollPending | ShowDatetime | Tagging
    | MarkReviewedAfterCategorized | AutoCategorizeAfterNotes

  const DEFAULT_POLL_INTERVAL: int := 3600

  /** The column defaults of a freshly inserted settings row. */
  function DefaultSettings(token: string, now: int): (s: Settings)
    ensures s.token == token && s.pollIntervalSecs == DEFAULT_POLL_INTERVAL && s.lastPollAt == None
    ensures s.showDatetime && s.tagging && s.timezone == "UTC"
    ensures !s.autoMarkReviewed && !s.pollPending && !s.markReviewedAfterCategorized && !s.autoCategorizeAfterNotes
  {
    Settings(token, DEFAULT_POLL_INTERVAL, now, None, false, false, true, true, false, "UTC", false)
  }

  function FlagOf(s: Settings, f: Flag): bool
  {
    match f
    case AutoMarkReviewed => s.autoMarkReviewed
    case PollPending => s.pollPending
    case ShowDatetime => s.showDatetime
    case Tagging => s.tagging
    case MarkReviewedAfterCategorized => s.markReviewedAfterCategorized
    case AutoCategorizeAfterNotes => s.autoCategorizeAfterNotes
  }

  /** The settings row with one flag column set to `v` and every other column kept. */
  function WithFlag(s: Settings, f: Flag, v: bool): (r: Settings)
    ensures FlagOf(r, f) == v
    ensures forall g :: g != f ==> FlagOf(r, g) == FlagOf(s, g)
    ensures r.token == s.token && r.pollIntervalSecs == s.pollIntervalSecs && r.lastPollAt == s.lastPollAt
    ensures r.createdAt == s.createdAt && r.timezone == s.timezone
  {
    match f
    case AutoMarkReviewed => s.(autoMarkReviewed := v)
    case PollPending => s.(pollPending := v)
    case ShowDatetime => s.(showDatetime := v)
    case Tagging => s.(tagging := v)
    case MarkReviewedAfterCategorized => s.(markReviewedAfterCategorized := v)
    case AutoCategorizeAfterNotes => s.(autoCategorizeAfterNotes := v)
  }

  /** The settings table after `save_token`, an upsert: an existing row has only
      its token replaced, otherwise a row with the column defaults is added. */
  function WithToken(m: map<int, Settings>, chatId: int, token: string, now: int): (r: map<int, Settings>)
    ensures r.Keys == m.Keys + {chatId}
    ensures forall c :: c in m && c != chatId ==> r[c] == m[c]
    ensures chatId in m ==> r[chatId] == m[chatId].(token := token)
    ensures chatId !in m ==> r[chatId] == DefaultSettings(token, now)
  {
    if chatId in m then m[chatId := m[chatId].(token := token)] else m[chatId := DefaultSettings(token, now)]
  }

  /** Saving a second token for a chat keeps every other column of its row. */
  lemma SaveTokenTwice(m: map<int, Settings>, chatId: int, t1: string, t2: string, n1: int, n2: int)
    ensures WithToken(WithToken(m, chatId, t1, n1), chatId, t2, n2)[chatId] == WithToken(m, chatId, t2, n1)[chatId]
  {
  }

  /** The dedup key of `was_already_sent`: transaction id and pending flag, any chat. */
  predicate WasSent(rows: seq<Row>, txId: int, pending: bool)
  {
    exists i :: 0 <= i < |rows| && rows[i].txId == txId && rows[i].pending == pending
  }

  predicate ForTx(r: Row, txId: int, chatId: int)
  {
    r.txId == txId && r.chatId == chatId
  }

  /** Index of the row `get_message_id_associated_with` picks: the matching row
      with the greatest `createdAt`, the later row on a tie. */
  function Latest(rows: seq<Row>, txId: int, chatId: int): (r: Option<nat>)
    ensures r.Some? ==> r.value < |rows| && ForTx(rows[r.value], txId, chatId)
    ensures r.Some? ==> forall j :: 0 <= j < |rows| && ForTx(rows[j], txId, chatId) ==> rows[j].createdAt <= rows[r.value].createdAt
    ensures r.None? <==> forall j :: 0 <= j < |rows| ==> !ForTx(rows[j], txId, chatId)
  {
    if rows == [] then None
    else
      var prev := Latest(rows[..|rows| - 1], txId, chatId);
      var last := |rows| - 1;
      if ForTx(rows[last], txId, chatId) && (prev.None? || rows[prev.value].createdAt <= rows[last].createdAt)
      then Some(last)
      else prev
  }

  function MessageIdFor(rows: seq<Row>, txId: int, chatId: int): Option<int>
  {
    match Latest(rows, txId, chatId)
    case None => None
    case Some(i) => Some(rows[i].messageId)
  }

  /** Rows appended by a clock that never goes back. */
  predicate StampsOrdered(rows: seq<Row>)
  {
    forall i, j :: 0 <= i < j < |rows| ==> rows[i].createdAt <= rows[j].createdAt
  }

  /** A row stamped no later than `now` may follow every row of `rows`. */
  predicate StampsNotAfter(rows: seq<Row>, now: int)
  {
    forall i :: 0 <= i < |rows| ==> rows[i].createdAt <= now
  }

  /** With stamps that never decrease, the latest row is the last matching row inserted. */
  lemma {:induction false} LatestIsLastInserted(rows: seq<Row>, txId: int, chatId: int)
    requires StampsOrdered(rows)
    requires Latest(rows, txId, chatId).Some?
    ensures forall j :: Latest(rows, txId, chatId).value < j < |rows| ==> !ForTx(rows[j], txId, chatId)
  {
    if rows != [] {
      var init := rows[..|rows| - 1];
      var last := |rows| - 1;
      var prev := Latest(init, txId, chatId);
      assert StampsOrdered(init);
      if !ForTx(rows[last], txId, chatId) {
        assert Latest(rows, txId, chatId) == prev;
        LatestIsLastInserted(init, txId, chatId);
      } else if prev.Some? {
        assert rows[prev.value].createdAt <= rows[last].createdAt;
      }
    }
  }

  /** Python `[tx for tx in rows if tx.chat_id == chat_id]`; RowsOfChatMembers
      states which rows it holds. */
  function RowsOfChat(rows: seq<Row>, chatId: int): (r: seq<Row>)
    ensures |r| <= |rows|
  {
    if rows == [] then []
    else (if rows[0].chatId == chatId then [rows[0]] else []) + RowsOfChat(rows[1..], chatId)
  }

  /** The filter keeps exactly the rows of that chat. */
  lemma {:induction false} RowsOfChatMembers(rows: seq<Row>, chatId: int)
    ensures forall x :: x in RowsOfChat(rows, chatId) <==> x in rows && x.chatId == chatId
  {
    if rows != [] {
      RowsOfChatMembers(rows[1..], chatId);
      assert rows == [rows[0]] + rows[1..];
    }
  }

  /** What `DELETE ... WHERE chat_id = c` leaves. */
  function RowsNotOfChat(rows: seq<Row>, chatId: int): (r: seq<Row>)
    ensures |r| <= |rows|
    ensures forall x :: x in r <==> x in rows && x.chatId != chatId
  {
    if rows == [] then []
    else (if rows[0].chatId != chatId then [rows[0]] else []) + RowsNotOfChat(rows[1..], chatId)
  }

  /** A row no later than what follows it, above the bound, keeps the order. */
  lemma OrderedCons(h: Row, rest: seq<Row>, lo: int)
    requires StampsOrdered(rest) && lo <= h.createdAt
    requires forall i :: 0 <= i < |rest| ==> h.createdAt <= rest[i].createdAt
    ensures StampsOrdered([h] + rest)
    ensures forall i :: 0 <= i < |[h] + rest| ==> lo <= ([h] + rest)[i].createdAt
  {
    var r := [h] + rest;
    assert forall i :: 1 <= i < |r| ==> r[i] == rest[i - 1];
  }

  /** Deleting rows keeps the rest in insertion order, so their stamps stay
      ordered and no stamp falls below a bound every row was above. */
  lemma {:induction false} RowsNotOfChatKeepsOrder(rows: seq<Row>, chatId: int, lo: int)
    requires StampsOrdered(rows)
    requires forall i :: 0 <= i < |rows| ==> lo <= rows[i].createdAt
    ensures StampsOrdered(RowsNotOfChat(rows, chatId))
    ensures forall i :: 0 <= i < |RowsNotOfChat(rows, chatId)| ==> lo <= RowsNotOfChat(rows, chatId)[i].createdAt
  {
    if rows != [] {
      var tail := rows[1..];
      assert StampsOrdered(tail);
      assert forall i :: 0 <= i < |tail| ==> rows[0].createdAt <= tail[i].createdAt;
      RowsNotOfChatKeepsOrder(tail, chatId, rows[0].createdAt);
      var rest := RowsNotOfChat(tail, chatId);
      if rows[0].chatId != chatId {
        assert RowsNotOfChat(rows, chatId) == [rows[0]] + rest;
        OrderedCons(rows[0], rest, lo);
      } else {
        assert RowsNotOfChat(rows, chatId) == [] + rest;
        assert [] + rest == rest;
      }
    }
  }

  /** Deleting a chat's rows a second time changes nothing. */
  lemma {:induction false} DeleteTwiceIsOnce(rows: seq<Row>, c: int)
    ensures RowsNotOfChat(RowsNotOfChat(rows, c), c) == RowsNotOfChat(rows, c)
  {
    if rows != [] {
      DeleteTwiceIsOnce(rows[1..], c);
      var rest := RowsNotOfChat(rows[1..], c);
      if rows[0].chatId != c {
        var r := [rows[0]] + rest;
        assert RowsNotOfChat(rows, c) == r;
        assert r[0] == rows[0] && r[1..] == rest;
        assert RowsNotOfChat(r, c) == [rows[0]] + RowsNotOfChat(rest, c);
      } else {
        assert RowsNotOfChat(rows, c) == [] + rest;
        assert [] + rest == rest;
      }
    }
  }

  /** Deleting one chat's rows leaves every other chat's rows as they were, in order. */
  lemma {:induction false} DeleteKeepsOtherChats(rows: seq<Row>, c: int, d: int)
    requires c != d
    ensures RowsOfChat(RowsNotOfChat(rows, c), d) == RowsOfChat(rows, d)
    ensures RowsOfChat(RowsNotOfChat(rows, c), c) == []
  {
    if rows != [] {
      DeleteKeepsOtherChats(rows[1..], c, d);
      var head := if rows[0].chatId != c then [rows[0]] else [];
      RowsOfChatAppend(head, RowsNotOfChat(rows[1..], c), d);
      RowsOfChatAppend(head, RowsNotOfChat(rows[1..], c), c);
    }
  }

  lemma {:induction false} RowsOfChatAppend(a: seq<Row>, b: seq<Row>, c: int)
    ensures RowsOfChat(a + b, c) == RowsOfChat(a, c) + RowsOfChat(b, c)
  {
    if a == [] {
      assert a + b == b;
    } else {
      var ab := a + b;
      assert ab[0] == a[0];
      assert ab[1..] == a[1..] + b;
      RowsOfChatAppend(a[1..], b, c);
      var head := if a[0].chatId == c then [a[0]] else [];
      calc {
        RowsOfChat(ab, c);
        head + RowsOfChat(a[1..] + b, c);
        head + (RowsOfChat(a[1..], c) + RowsOfChat(b, c));
        (head + RowsOfChat(a[1..], c)) + RowsOfChat(b, c);
        RowsOfChat(a, c) + RowsOfChat(b, c);
      }
    }
  }

  predicate ForMessage(r: Row, messageId: int, chatId: int)
  {
    r.messageId == messageId && r.chatId == chatId
  }

  /** `UPDATE transactions SET reviewed_at = stamp WHERE message_id = m AND chat_id = c`. */
  function SetReviewed(rows: seq<Row>, messageId: int, chatId: int, stamp: Option<int>): (r: seq<Row>)
    ensures |r| == |rows|
    ensures forall i :: 0 <= i < |rows| && ForMessage(rows[i], messageId, chatId) ==> r[i] == rows[i].(reviewedAt := stamp)
    ensures forall i :: 0 <= i < |rows| && !ForMessage(rows[i], messageId, chatId) ==> r[i] == rows[i]
  {
    seq(|rows|, i requires 0 <= i < |rows| =>
      if ForMessage(rows[i], messageId, chatId) then rows[i].(reviewedAt := stamp) else rows[i])
  }

  /** Stamping rows reviewed keeps their creation stamps, so their order too. */
  lemma SetReviewedKeepsOrder(rows: seq<Row>, messageId: int, chatId: int, stamp: Option<int>)
    requires StampsOrdered(rows)
    ensures StampsOrdered(SetReviewed(rows, messageId, chatId, stamp))
  {
    var r := SetReviewed(rows, messageId, chatId, stamp);
    assert forall i :: 0 <= i < |rows| ==> r[i].createdAt == rows[i].createdAt;
  }

  /** Changing a reviewed stamp never changes what dedup or the reply lookup see. */
  lemma ReviewKeepsLookups(rows: seq<Row>, messageId: int, chatId: int, stamp: Option<int>, txId: int, c: int, p: bool)
    ensures WasSent(SetReviewed(rows, messageId, chatId, stamp), txId, p) == WasSent(rows, txId, p)
    ensures MessageIdFor(SetReviewed(rows, messageId, chatId, stamp), txId, c) == MessageIdFor(rows, txId, c)
  {
    var r := SetReviewed(rows, messageId, chatId, stamp);
    if WasSent(rows, txId, p) {
      var i :| 0 <= i < |rows| && rows[i].txId == txId && rows[i].pending == p;
      assert r[i].txId == txId && r[i].pending == p;
    }
    if WasSent(r, txId, p) {
      var i :| 0 <= i < |r| && r[i].txId == txId && r[i].pending == p;
      assert rows[i].txId == txId && rows[i].pending == p;
    }
    LatestSameKeys(rows, r, txId, c);
  }

  lemma {:induction false} LatestSameKeys(a: seq<Row>, b: seq<Row>, txId: int, c: int)
    requires |a| == |b|
    requires forall i :: 0 <= i < |a| ==>
      a[i].txId == b[i].txId && a[i].chatId == b[i].chatId && a[i].createdAt == b[i].createdAt && a[i].messageId == b[i].messageId
    ensures Latest(a, txId, c) == Latest(b, txId, c)
    ensures MessageIdFor(a, txId, c) == MessageIdFor(b, txId, c)
  {
    if a != [] {
      LatestSameKeys(a[..|a| - 1], b[..|b| - 1], txId, c);
    }
  }

  lemma HasElement(s: set<int>)
    requires s != {}
    ensures exists x :: x in s
  {
    if forall x :: x !in s {
      assert false;
    }
  }

  class Store {
    var rows: seq<Row>
    var settings: map<int, Settings>

    /** The rows were appended by a clock that never goes back. */
    ghost predicate Valid()
      reads this
    {
      StampsOrdered(rows)
    }

    /** No stored row was created after `now`. */
    ghost predicate NotAfter(now: int)
      reads this
    {
      StampsNotAfter(rows, now)
    }

    constructor ()
      ensures Valid() && rows == [] && settings == map[]
    {
      rows, settings := [], map[];
    }

    /** `was_already_sent`: the chat id plays no part. */
    method WasAlreadySent(txId: int, pending: bool) returns (b: bool)
      ensures b <==> exists i :: 0 <= i < |rows| && rows[i].txId == txId && rows[i].pending == pending
    {
      b := false;
      var i := 0;
      while i < |rows|
        invariant 0 <= i <= |rows|
        invariant !b
        invariant forall j :: 0 <= j < i ==> !(rows[j].txId == txId && rows[j].pending == pending)
      {
        if rows[i].txId == txId && rows[i].pending == pending {
          return true;
        }
        i := i + 1;
      }
    }

    /** `mark_as_sent`: appends exactly one row and touches nothing else. */
    method MarkAsSent(txId: int, chatId: int, messageId: int, recurringType: Option<string>,
                      pending: bool, reviewed: bool, plaidId: Option<string>, now: int)
      requires Valid() && NotAfter(now)
      modifies this
      ensures Valid() && NotAfter(now)
      ensures rows == old(rows) + [Row(messageId, txId, chatId, pending, now,
                                       if reviewed then Some(now) else None, recurringType, plaidId)]
      ensures settings == old(settings)
    {
      rows := rows + [Row(messageId, txId, chatId, pending, now,
                           if reviewed then Some(now) else None, recurringType, plaidId)];
    }

    /** `get_tx_associated_with`: the tx id of a row for that message in that chat.
        SQLite does not say which row `.first()` returns when several match. */
    method GetTxAssociatedWith(messageId: int, chatId: int) returns (r: Option<int>)
      ensures r.None? <==> forall i :: 0 <= i < |rows| ==> !ForMessage(rows[i], messageId, chatId)
      ensures r.Some? ==> exists i :: 0 <= i < |rows| && ForMessage(rows[i], messageId, chatId) && rows[i].txId == r.value
    {
      var i := 0;
      while i < |rows|
        invariant 0 <= i <= |rows|
        invariant forall j :: 0 <= j < i ==> !ForMessage(rows[j], messageId, chatId)
      {
        if ForMessage(rows[i], messageId, chatId) {
          return Some(rows[i].txId);
        }
        i := i + 1;
      }
      r := None;
    }

    /** `get_all_tx_by_chat_id`, in insertion order. */
    method GetAllTxByChatId(chatId: int) returns (r: seq<Row>)
      ensures r == RowsOfChat(rows, chatId)
    {
      r := [];
      var i := |rows|;
      while i > 0
        invariant 0 <= i <= |rows|
        invariant r == RowsOfChat(rows[i..], chatId)
      {
        i := i - 1;
        assert rows[i..][1..] == rows[i + 1..];
        if rows[i].chatId == chatId {
          r := [rows[i]] + r;
        }
      }
    }

    /** `get_message_id_associated_with`: the message of the most recently created
        row for that transaction in that chat, or None. */
    method GetMessageIdAssociatedWith(txId: int, chatId: int) returns (r: Option<int>)
      ensures r == MessageIdFor(rows, txId, chatId)
      ensures Valid() && r.Some? ==>
        exists i :: 0 <= i < |rows| && ForTx(rows[i], txId, chatId) && rows[i].messageId == r.value &&
                    forall j :: i < j < |rows| ==> !ForTx(rows[j], txId, chatId)
    {
      var best: Option<nat> := None;
      var i := 0;
      while i < |rows|
        invariant 0 <= i <= |rows|
        invariant best == Latest(rows[..i], txId, chatId)
      {
        assert rows[..i + 1][..i] == rows[..i];
        if ForTx(rows[i], txId, chatId) && (best.None? || rows[best.value].createdAt <= rows[i].createdAt) {
          best := Some(i);
        }
        i := i + 1;
      }
      assert rows[..i] == rows;
      r := if best.None? then None else Some(rows[best.value].messageId);
      if Valid() && r.Some? {
        LatestIsLastInserted(rows, txId, chatId);
      }
    }

    /** `delete_transactions_for_chat`. */
    method DeleteTransactionsForChat(chatId: int)
      requires Valid()
      modifies this
      ensures Valid()
      ensures rows == RowsNotOfChat(old(rows), chatId) && settings == old(settings)
    {
      RowsNotOfChatKeepsOrder(rows, chatId, if rows == [] then 0 else rows[0].createdAt);
      rows := RowsNotOfChat(rows, chatId);
    }

    /** `mark_as_reviewed`: stamps every row of that message in that chat; no match changes nothing. */
    method MarkAsReviewed(messageId: int, chatId: int, now: int)
      requires Valid()
      modifies this
      ensures Valid()
      ensures rows == SetReviewed(old(rows), messageId, chatId, Some(now)) && settings == old(settings)
    {
      SetReviewedKeepsOrder(rows, messageId, chatId, Some(now));
      rows := SetReviewed(rows, messageId, chatId, Some(now));
    }

    /** `mark_as_unreviewed`: clears the stamp on every row of that message in that chat. */
    method MarkAsUnreviewed(messageId: int, chatId: int)
      requires Valid()
      modifies this
      ensures Valid()
      ensures rows == SetReviewed(old(rows), messageId, chatId, None) && settings == old(settings)
    {
      SetReviewedKeepsOrder(rows, messageId, chatId, None);
      rows := SetReviewed(rows, messageId, chatId, None);
    }

    /** `save_token`. */
    method SaveToken(chatId: int, token: string, now: int)
      modifies this
      ensures settings == WithToken(old(settings), chatId, token, now)
      ensures rows == old(rows)
    {
      if chatId in settings {
        settings := settings[chatId := settings[chatId].(token := token)];
      } else {
        settings := settings[chatId := DefaultSettings(token, now)];
      }
    }

    /** `get_token`. */
    method GetToken(chatId: int) returns (r: Option<string>)
      ensures r.Some? <==> chatId in settings
      ensures r.Some? ==> r.value == settings[chatId].token
    {
      r := if chatId in settings then Some(settings[chatId].token) else None;
    }

    /** `get_all_registered_chats`: every chat with a settings row, once each. */
    method GetAllRegisteredChats() returns (chats: seq<int>)
      ensures forall c :: c in chats <==> c in settings
      ensures forall i, j :: 0 <= i < j < |chats| ==> chats[i] != chats[j]
    {
      chats := [];
      var left := settings.Keys;
      while left != {}
        invariant left <= settings.Keys
        invariant forall x :: x in chats <==> x in settings.Keys - left
        invariant forall i, j :: 0 <= i < j < |chats| ==> chats[i] != chats[j]
        decreases left
      {
        HasElement(left);
        var k: int :| k in left;
        chats := chats + [k];
        left := left - {k};
      }
    }

    /** `get_current_settings`: raises NoLunchToken for a chat without a row. */
    method GetCurrentSettings(chatId: int) returns (r: Result<Settings, Error>)
      ensures r.Failure? <==> chatId !in settings
      ensures r.Failure? ==> r.error == NoLunchToken
      ensures r.Success? ==> r.value == settings[chatId]
    {
      if chatId !in settings {
        return Failure(NoLunchToken);
      }
      r := Success(settings[chatId]);
    }

    /** `update_poll_interval`; an unknown chat is a silent no-op. */
    method UpdatePollInterval(chatId: int, interval: int)
      modifies this
      ensures chatId in old(settings) ==> settings == old(settings)[chatId := old(settings)[chatId].(pollIntervalSecs := interval)]
      ensures chatId !in old(settings) ==> settings == old(settings)
      ensures rows == old(rows)
    {
      if chatId in settings {
        settings := settings[chatId := settings[chatId].(pollIntervalSecs := interval)];
      }
    }

    /** `update_last_poll_at`. */
    method UpdateLastPollAt(chatId: int, stamp: int)
      modifies this
      ensures chatId in old(settings) ==> settings == old(settings)[chatId := old(settings)[chatId].(lastPollAt := Some(stamp))]
      ensures chatId !in old(settings) ==> settings == old(settings)
      ensures rows == old(rows)
    {
      if chatId in settings {
        settings := settings[chatId := settings[chatId].(lastPollAt := Some(stamp))];
      }
    }

    /** `update_auto_mark_reviewed`, `update_poll_pending`, `update_show_datetime`,
        `update_tagging`, `update_mark_reviewed_after_categorized` and
        `update_auto_categorize_after_notes`. */
    method UpdateFlag(chatId: int, f: Flag, v: bool)
      modifies this
      ensures chatId in old(settings) ==> settings == old(settings)[chatId := WithFlag(old(settings)[chatId], f, v)]
      ensures chatId !in old(settings) ==> settings == old(settings)
      ensures rows == old(rows)
    {
      if chatId in settings {
        settings := settings[chatId := WithFlag(settings[chatId], f, v)];
      }
    }

    /** `update_timezone`. */
    method UpdateTimezone(chatId: int, timezone: string)
      modifies this
      ensures chatId in old(settings) ==> settings == old(settings)[chatId := old(settings)[chatId].(timezone := timezone)]
      ensures chatId !in old(settings) ==> settings == old(settings)
      ensures rows == old(rows)
    {
      if chatId in settings {
        settings := settings[chatId := settings[chatId].(timezone := timezone)];
      }
    }

    /** `logout`: the chat's settings row and all its transaction rows go; other chats stay. */
    method Logout(chatId: int)
      requires Valid()
      modifies this
      ensures Valid()
      ensures settings == old(settings) - {chatId}
      ensures rows == RowsNotOfChat(old(rows), chatId)
    {
      settings := settings - {chatId};
      RowsNotOfChatKeepsOrder(rows, chatId, if rows == [] then 0 else rows[0].createdAt);
      rows := RowsNotOfChat(rows, chatId);
    }
  }

  /** Recording a send as pending never changes what the posted lookup sees, and back. */
  lemma PendingPostedIndependent(rows: seq<Row>, r: Row, txId: int, p: bool)
    requires r.pending == p
    ensures WasSent(rows + [r], txId, !p) == WasSent(rows, txId, !p)
    ensures WasSent(rows + [r], r.txId, p)
  {
    var s := rows + [r];
    assert s[|rows|] == r;
    if WasSent(s, txId, !p) {
      var i :| 0 <= i < |s| && s[i].txId == txId && s[i].pending == !p;
      assert i < |rows| && rows[i] == s[i];
    }
    if WasSent(rows, txId, !p) {
      var i :| 0 <= i < |rows| && rows[i].txId == txId && rows[i].pending == !p;
      assert s[i] == rows[i];
    }
  }
}
