/** The `/resync` command: redraw every stored message of a chat from the
    provider's current view of its transaction and re-derive its reviewed
    stamp. */
module Syncing {
  import opened Wrappers
  import opened Lunch
  import opened Telegram
  import opened Persistence
  import opened TxMessaging
  import Text

  const DEFAULT_DAYS: int := 15
  const SLACK_DAYS: int := 5

  /** The window length: 15 unless a second word is given, which must parse as
      an integer (`int(parts[1])`). */
  function ParseDays(text: string): (r: Result<int, Error>)
    ensures |Text.Split(text, ' ') | <= 1 ==> r == Success(DEFAULT_DAYS)
    ensures |Text.Split(text, ' ')| > 1 ==>
      (r.Success? <==> Text.ParseInt(Text.Split(text, ' ')[1]).Some?) &&
      (r.Failure? ==> r.error == ValueError) &&
      (r.Success? ==> r.value == Text.ParseInt(Text.Split(text, ' ')[1]).value)
  {
    var parts := Text.Split(text, ' ');
    if |parts| > 1 then
      match Text.ParseInt(parts[1])
      case Some(n) => Success(n)
      case None => Failure(ValueError)
    else Success(DEFAULT_DAYS)
  }

  /** The earliest and the latest `created_at` (`min`/`max` with a key). */
  function MinCreated(rows: seq<Row>): (m: int)
    requires rows != []
    ensures exists i :: 0 <= i < |rows| && rows[i].createdAt == m
    ensures forall i :: 0 <= i < |rows| ==> m <= rows[i].createdAt
  {
    if |rows| == 1 then rows[0].createdAt
    else
      var rest := MinCreated(rows[1..]);
      assert forall i :: 1 <= i < |rows| ==> rows[i] == rows[1..][i - 1];
      if rows[0].createdAt <= rest then rows[0].createdAt else rest
  }

  function MaxCreated(rows: seq<Row>): (m: int)
    requires rows != []
    ensures exists i :: 0 <= i < |rows| && rows[i].createdAt == m
    ensures forall i :: 0 <= i < |rows| ==> rows[i].createdAt <= m
  {
    if |rows| == 1 then rows[0].createdAt
    else
      var rest := MaxCreated(rows[1..]);
      assert forall i :: 1 <= i < |rows| ==> rows[i] == rows[1..][i - 1];
      if rows[0].createdAt >= rest then rows[0].createdAt else rest
  }

  /** The fetch window: from the midnight of the newest row back `days` days,
      or, when `days` is 0, from 5 days before the midnight of the oldest row;
      always up to the midnight of the newest row. */
  function Window(rows: seq<Row>, days: int): (w: (int, int))
    requires rows != []
    ensures w.1 == Midnight(MaxCreated(rows))
    ensures days != 0 ==> w.0 == w.1 - days * SECONDS_PER_DAY
    ensures days == 0 ==> w.0 == Midnight(MinCreated(rows)) - SLACK_DAYS * SECONDS_PER_DAY
  {
    var latest := Midnight(MaxCreated(rows));
    var earliest := Midnight(MinCreated(rows)) - SLACK_DAYS * SECONDS_PER_DAY;
    (if days != 0 then latest - days * SECONDS_PER_DAY else earliest, latest)
  }

  /** The rows created at or after `start`, order preserved. */
  function Since(rows: seq<Row>, start: int): (r: seq<Row>)
    ensures |r| <= |rows|
    ensures forall x :: x in r <==> x in rows && x.createdAt >= start
  {
    if rows == [] then []
    else (if rows[0].createdAt >= start then [rows[0]] else []) + Since(rows[1..], start)
  }

  /** The rows a resync walks: the window's rows when `days` is nonzero, all
      rows otherwise. */
  function Selected(rows: seq<Row>, days: int): (r: seq<Row>)
    requires rows != []
    ensures days == 0 ==> r == rows
    ensures days != 0 ==> forall x :: x in r <==> x in rows && x.createdAt >= Window(rows, days).0
  {
    if days != 0 then Since(rows, Window(rows, days).0) else rows
  }

  /** With a positive window the newest row is always walked. */
  lemma PositiveWindowKeepsNewest(rows: seq<Row>, days: int)
    requires rows != [] && days > 0
    ensures exists x :: x in Selected(rows, days) && x.createdAt == MaxCreated(rows)
  {
    var i :| 0 <= i < |rows| && rows[i].createdAt == MaxCreated(rows);
    assert rows[i] in rows;
  }

  predicate LastWithId(txs: seq<Tx>, id: int, i: int)
  {
    0 <= i < |txs| && txs[i].id == id && forall j :: i < j < |txs| ==> txs[j].id != id
  }

  /** `{tx.id: tx for tx in lunch_txs}[id]`: the last fetched entry with that id. */
  function ByTxId(txs: seq<Tx>, id: int): (r: Option<Tx>)
    ensures r.None? <==> forall i :: 0 <= i < |txs| ==> txs[i].id != id
    ensures r.Some? ==> r.value.id == id && exists i :: LastWithId(txs, id, i) && txs[i] == r.value
  {
    if txs == [] then None
    else
      var last := txs[|txs| - 1];
      if last.id == id then Some(last)
      else
        var r := ByTxId(txs[..|txs| - 1], id);
        assert forall i :: 0 <= i < |txs| - 1 ==> txs[..|txs| - 1][i] == txs[i];
        assert r.Some? ==> exists i :: LastWithId(txs, id, i) && txs[i] == r.value by {
          if r.Some? {
            var i :| LastWithId(txs[..|txs| - 1], id, i) && txs[..|txs| - 1][i] == r.value;
            assert LastWithId(txs, id, i);
          }
        }
        r
  }

  /** What the loop threads: the rows, the chat log, the next fresh id and the
      two counters. */
  datatype RState = RState(rows: seq<Row>, log: seq<Outgoing>, nextId: int, errors: nat, missing: nat)

  /** `send_transaction_message` with a message id: an edit, except that an id
      of 0 sends a new message. */
  function Redraw(st: RState, chatId: int, messageId: int, tx: Tx): RState
  {
    if EditsExisting(Some(messageId)) then st.(log := st.log + [Edited(chatId, messageId, Render(tx))])
    else st.(log := st.log + [Sent(st.nextId, chatId, Render(tx), None)], nextId := st.nextId + 1)
  }

  /** Telegram refuses the redraw of message `messageId` from `tx`: it is an
      edit, and the message already shows that text and keyboard. The message
      text does not show the status, so a transaction cleared upstream with
      nothing else changed is the usual case. */
  predicate Refused(alreadyShows: (int, int, Body) -> bool, chatId: int, messageId: int, tx: Tx)
  {
    EditsExisting(Some(messageId)) && alreadyShows(chatId, messageId, Render(tx))
  }

  /** One row of the resync loop. `single` is the provider's answer to
      `get_transaction`, None when the call raises; `reachable` says whether
      chat calls succeed, and `alreadyShows` which edits Telegram refuses. A failed
      or refused redraw of a listed transaction is an error and leaves its
      reviewed stamp alone; for a transaction looked up singly it counts as
      missing. The single lookup is a plain function of the id, not
      a call on `Lunch.Client`, so the resync pass is a function the lemmas
      below can reason about; it is therefore not logged in the client's
      `lookups`. */
  function ResyncStep(st: RState, row: Row, txs: seq<Tx>, single: int -> Option<Tx>, chatId: int, now: int,
                      reachable: bool, alreadyShows: (int, int, Body) -> bool): RState
  {
    match ByTxId(txs, row.txId)
    case Some(t) =>
      if !reachable || Refused(alreadyShows, chatId, row.messageId, t) then st.(errors := st.errors + 1)
      else
        var st1 := Redraw(st, chatId, row.messageId, t);
        st1.(rows := SetReviewed(st1.rows, row.messageId, chatId, if t.status == CLEARED then Some(now) else None))
    case None =>
      match single(row.txId)
      case None => st.(missing := st.missing + 1)
      case Some(t) =>
        if reachable && !Refused(alreadyShows, chatId, row.messageId, t) then Redraw(st, chatId, row.messageId, t)
        else st.(missing := st.missing + 1)
  }

  function Resync(st: RState, sel: seq<Row>, i: nat, txs: seq<Tx>, single: int -> Option<Tx>, chatId: int, now: int,
                  reachable: bool, alreadyShows: (int, int, Body) -> bool): RState
    requires i <= |sel|
    decreases |sel| - i
  {
    if i == |sel| then st else Resync(ResyncStep(st, sel[i], txs, single, chatId, now, reachable, alreadyShows), sel, i + 1, txs, single, chatId, now, reachable, alreadyShows)
  }

  /** A listed transaction whose redraw Telegram refuses counts as an error,
      and its row keeps its reviewed stamp. */
  lemma RefusedRedrawIsError(st: RState, row: Row, txs: seq<Tx>, single: int -> Option<Tx>, chatId: int, now: int,
                             alreadyShows: (int, int, Body) -> bool)
    requires ByTxId(txs, row.txId).Some? && Refused(alreadyShows, chatId, row.messageId, ByTxId(txs, row.txId).value)
    ensures ResyncStep(st, row, txs, single, chatId, now, true, alreadyShows) == st.(errors := st.errors + 1)
  {
  }

  /** The rows from `i` on whose listed transaction Telegram refuses to redraw. */
  function RefusedRows(sel: seq<Row>, i: nat, txs: seq<Tx>, chatId: int, alreadyShows: (int, int, Body) -> bool): nat
    requires i <= |sel|
    decreases |sel| - i
  {
    if i == |sel| then 0
    else
      var hit := ByTxId(txs, sel[i].txId);
      (if hit.Some? && Refused(alreadyShows, chatId, sel[i].messageId, hit.value) then 1 else 0) +
      RefusedRows(sel, i + 1, txs, chatId, alreadyShows)
  }

  /** Each row adds at most one to one counter, and on an unfailing transport
      the errors are exactly the refused redraws of listed transactions. */
  lemma {:induction false} ResyncCounts(st: RState, sel: seq<Row>, i: nat, txs: seq<Tx>, single: int -> Option<Tx>,
                                        chatId: int, now: int, reachable: bool, alreadyShows: (int, int, Body) -> bool)
    requires i <= |sel|
    ensures var st' := Resync(st, sel, i, txs, single, chatId, now, reachable, alreadyShows);
            st.errors <= st'.errors && st.missing <= st'.missing &&
            (st'.errors - st.errors) + (st'.missing - st.missing) <= |sel| - i &&
            (reachable ==> st'.errors - st.errors == RefusedRows(sel, i, txs, chatId, alreadyShows))
    decreases |sel| - i
  {
    if i < |sel| {
      ResyncCounts(ResyncStep(st, sel[i], txs, single, chatId, now, reachable, alreadyShows), sel, i + 1, txs, single, chatId, now, reachable, alreadyShows);
    }
  }

  /** A resync never records a send: the rows keep their number, order and every
      field but the reviewed stamp, so every dedup and message lookup answers as
      before. */
  lemma {:induction false} ResyncKeepsRows(st: RState, sel: seq<Row>, i: nat, txs: seq<Tx>, single: int -> Option<Tx>,
                                           chatId: int, now: int, reachable: bool, alreadyShows: (int, int, Body) -> bool, txId: int, c: int, p: bool)
    requires i <= |sel|
    ensures var st' := Resync(st, sel, i, txs, single, chatId, now, reachable, alreadyShows);
            |st'.rows| == |st.rows| &&
            (forall k :: 0 <= k < |st.rows| ==> st'.rows[k] == st.rows[k].(reviewedAt := st'.rows[k].reviewedAt)) &&
            WasSent(st'.rows, txId, p) == WasSent(st.rows, txId, p) &&
            MessageIdFor(st'.rows, txId, c) == MessageIdFor(st.rows, txId, c)
    decreases |sel| - i
  {
    if i < |sel| {
      var st1 := ResyncStep(st, sel[i], txs, single, chatId, now, reachable, alreadyShows);
      ResyncKeepsRows(st1, sel, i + 1, txs, single, chatId, now, reachable, alreadyShows, txId, c, p);
      if st1.rows != st.rows {
        var stamp := if ByTxId(txs, sel[i].txId).value.status == CLEARED then Some(now) else None;
        assert st1.rows == SetReviewed(st.rows, sel[i].messageId, chatId, stamp);
        ReviewKeepsLookups(st.rows, sel[i].messageId, chatId, stamp, txId, c, p);
      }
    }
  }

  /** Every message a resync puts in the log redraws a walked row's own message:
      an edit of its id, or, for the id 0, a new message. */
  lemma {:induction false} ResyncOnlyRedraws(st: RState, sel: seq<Row>, i: nat, txs: seq<Tx>, single: int -> Option<Tx>,
                                             chatId: int, now: int, reachable: bool, alreadyShows: (int, int, Body) -> bool)
    requires i <= |sel|
    ensures var st' := Resync(st, sel, i, txs, single, chatId, now, reachable, alreadyShows);
            |st.log| <= |st'.log| && st'.log[..|st.log|] == st.log &&
            forall k :: |st.log| <= k < |st'.log| ==>
              (st'.log[k].Edited? && st'.log[k].chatId == chatId && exists j :: i <= j < |sel| && sel[j].messageId == st'.log[k].messageId) ||
              (st'.log[k].Sent? && st'.log[k].chatId == chatId && exists j :: i <= j < |sel| && sel[j].messageId == 0)
    decreases |sel| - i
  {
    var st' := Resync(st, sel, i, txs, single, chatId, now, reachable, alreadyShows);
    if i == |sel| {
      assert st.log[..|st.log|] == st.log;
    } else {
      var st1 := ResyncStep(st, sel[i], txs, single, chatId, now, reachable, alreadyShows);
      assert st' == Resync(st1, sel, i + 1, txs, single, chatId, now, reachable, alreadyShows);
      ResyncOnlyRedraws(st1, sel, i + 1, txs, single, chatId, now, reachable, alreadyShows);
      assert st1.log == st.log || (|st1.log| == |st.log| + 1 && st1.log[..|st.log|] == st.log &&
        ((st1.log[|st.log|].Edited? && st1.log[|st.log|].chatId == chatId && st1.log[|st.log|].messageId == sel[i].messageId) ||
         (st1.log[|st.log|].Sent? && st1.log[|st.log|].chatId == chatId && sel[i].messageId == 0)));
      assert st'.log[..|st1.log|] == st1.log;
      assert st'.log[..|st.log|] == st1.log[..|st.log|];
      forall k | |st.log| <= k < |st'.log|
        ensures (st'.log[k].Edited? && st'.log[k].chatId == chatId && exists j :: i <= j < |sel| && sel[j].messageId == st'.log[k].messageId) ||
                (st'.log[k].Sent? && st'.log[k].chatId == chatId && exists j :: i <= j < |sel| && sel[j].messageId == 0)
      {
        if k < |st1.log| {
          assert st'.log[..|st1.log|][k] == st'.log[k];
        }
      }
    }
  }

  /** With a transport that fails, a resync redraws nothing and so records no
      reviewed stamp: every row counts as an error or as missing. */
  lemma {:induction false} ResyncUnreachable(st: RState, sel: seq<Row>, i: nat, txs: seq<Tx>, single: int -> Option<Tx>,
                                             chatId: int, now: int, alreadyShows: (int, int, Body) -> bool)
    requires i <= |sel|
    ensures var st' := Resync(st, sel, i, txs, single, chatId, now, false, alreadyShows);
            st'.rows == st.rows && st'.log == st.log && st'.nextId == st.nextId &&
            (st'.errors - st.errors) + (st'.missing - st.missing) == |sel| - i
    decreases |sel| - i
  {
    if i < |sel| {
      ResyncUnreachable(ResyncStep(st, sel[i], txs, single, chatId, now, false, alreadyShows), sel, i + 1, txs, single, chatId, now, alreadyShows);
    }
  }

  /** The loop body of `handle_resync` for one stored row. */
  method ResyncRow(store: Store, bot: Bot, row: Row, txs: seq<Tx>, single: int -> Option<Tx>, chatId: int, now: int,
                   errors: nat, missing: nat)
    returns (errors': nat, missing': nat)
    requires bot.Valid() && store.Valid()
    modifies store, bot
    ensures bot.Valid() && bot.reachable == old(bot.reachable) && store.settings == old(store.settings)
    ensures store.Valid()
    ensures RState(store.rows, bot.log, bot.nextId, errors', missing') ==
      ResyncStep(RState(old(store.rows), old(bot.log), old(bot.nextId), errors, missing), row, txs, single, chatId, now,
                 old(bot.reachable), bot.alreadyShows)
  {
    errors', missing' := errors, missing;
    var hit := ByTxId(txs, row.txId);
    if hit.Some? {
      var sent := SendTransactionMessage(bot, hit.value, chatId, Some(row.messageId), None);
      if sent.Failure? {
        errors' := errors' + 1;
      } else if hit.value.status == CLEARED {
        store.MarkAsReviewed(row.messageId, chatId, now);
      } else {
        store.MarkAsUnreviewed(row.messageId, chatId);
      }
    } else {
      var one := single(row.txId);
      if one.None? {
        missing' := missing' + 1;
      } else {
        var sent := SendTransactionMessage(bot, one.value, chatId, Some(row.messageId), None);
        if sent.Failure? {
          missing' := missing' + 1;
        }
      }
    }
  }

  /** The loop of `handle_resync` over the walked rows. */
  method ResyncAll(store: Store, bot: Bot, sel: seq<Row>, txs: seq<Tx>, single: int -> Option<Tx>, chatId: int, now: int)
    returns (errors: nat, missing: nat)
    requires bot.Valid() && store.Valid()
    modifies store, bot
    ensures bot.Valid() && bot.reachable == old(bot.reachable) && store.settings == old(store.settings)
    ensures store.Valid()
    ensures RState(store.rows, bot.log, bot.nextId, errors, missing) ==
      Resync(RState(old(store.rows), old(bot.log), old(bot.nextId), 0, 0), sel, 0, txs, single, chatId, now, old(bot.reachable), bot.alreadyShows)
  {
    ghost var st0 := RState(store.rows, bot.log, bot.nextId, 0, 0);
    errors, missing := 0, 0;
    var i := 0;
    while i < |sel|
      invariant 0 <= i <= |sel|
      invariant bot.Valid() && bot.reachable == old(bot.reachable) && store.settings == old(store.settings)
      invariant store.Valid()
      invariant Resync(st0, sel, 0, txs, single, chatId, now, old(bot.reachable), bot.alreadyShows) ==
        Resync(RState(store.rows, bot.log, bot.nextId, errors, missing), sel, i, txs, single, chatId, now, old(bot.reachable), bot.alreadyShows)
    {
      errors, missing := ResyncRow(store, bot, sel[i], txs, single, chatId, now, errors, missing);
      i := i + 1;
    }
  }

  /** The summary line sent at the end. */
  function ReportText(resynced: int, errors: nat, missing: nat): string
  {
    "Resynced " + Text.IntToString(resynced) + " transactions, " + Text.IntToString(errors) + " errors, " +
    Text.IntToString(missing) + " missing"
  }

  datatype Report = Report(resynced: int, errors: nat, missing: nat)

  /** The state a resync of the chat rows `rows` leaves behind, for a
      successful fetch and a transport that does not fail. */
  ghost predicate ResyncedAs(rows0: seq<Row>, log0: seq<Outgoing>, next0: int, rows: seq<Row>, days: int,
                             txs: seq<Tx>, single: int -> Option<Tx>, alreadyShows: (int, int, Body) -> bool,
                             chatId: int, now: int, rows': seq<Row>, log': seq<Outgoing>, r: Result<Report, Error>)
    requires rows != []
  {
    var sel := Selected(rows, days);
    var st := Resync(RState(rows0, log0, next0, 0, 0), sel, 0, txs, single, chatId, now, true, alreadyShows);
    var count := |sel| - st.errors - st.missing;
    rows' == st.rows && r == Success(Report(count, st.errors, st.missing)) &&
    log' == st.log + [Sent(st.nextId, chatId, Text(ReportText(count, st.errors, st.missing)), None)]
  }

  /** Fetch, redraw and report, for a chat that has rows. */
  method ResyncChat(store: Store, bot: Bot, lunch: Client, chatId: int, rows: seq<Row>, days: int, now: int,
                    fetched: Result<seq<Tx>, Error>, single: int -> Option<Tx>)
    returns (r: Result<Report, Error>)
    requires bot.Valid() && store.Valid() && rows != []
    modifies store, bot, lunch
    ensures bot.Valid() && bot.reachable == old(bot.reachable) && store.Valid()
    ensures store.settings == old(store.settings) && lunch.updates == old(lunch.updates)
    ensures lunch.queries == old(lunch.queries) + [Query(None, None, Window(rows, days).0, Window(rows, days).1)]
    ensures fetched.Failure? ==> r == Failure(fetched.error) && store.rows == old(store.rows)
    ensures fetched.Success? && old(bot.reachable) ==>
      ResyncedAs(old(store.rows), old(bot.log), old(bot.nextId), rows, days, fetched.value, single, bot.alreadyShows,
                 chatId, now, store.rows, bot.log, r)
    ensures fetched.Success? && !old(bot.reachable) ==>
      r == Failure(TransportError) && store.rows == old(store.rows) && bot.log == old(bot.log)
  {
    var w := Window(rows, days);
    var f := lunch.GetTransactions(Query(None, None, w.0, w.1), fetched);
    if f.Failure? {
      return Failure(f.error);
    }
    var sel := Selected(rows, days);
    ghost var st := Resync(RState(store.rows, bot.log, bot.nextId, 0, 0), sel, 0, f.value, single, chatId, now,
                           bot.reachable, bot.alreadyShows);
    if !bot.reachable {
      ResyncUnreachable(RState(store.rows, bot.log, bot.nextId, 0, 0), sel, 0, f.value, single, chatId, now, bot.alreadyShows);
    }
    var errors, missing := ResyncAll(store, bot, sel, f.value, single, chatId, now);
    assert RState(store.rows, bot.log, bot.nextId, errors, missing) == st;
    var count := |sel| - errors - missing;
    var sent := bot.Send(chatId, Text(ReportText(count, errors, missing)), None);
    if sent.Failure? {
      return Failure(sent.error);
    }
    r := Success(Report(count, errors, missing));
  }

  /** `handle_resync`. The fetched window and the single-transaction answers are
      inputs. An unparsable day count and a chat without rows raise before any
      fetch; a fetch error raises before any redraw. */
  method HandleResync(store: Store, bot: Bot, lunch: Client, chatId: int, text: string, now: int,
                      fetched: Result<seq<Tx>, Error>, single: int -> Option<Tx>)
    returns (r: Result<Report, Error>)
    requires bot.Valid() && store.Valid()
    modifies store, bot, lunch
    ensures bot.Valid() && bot.reachable == old(bot.reachable) && store.Valid()
    ensures store.settings == old(store.settings) && lunch.updates == old(lunch.updates)
    ensures ParseDays(text).Failure? || RowsOfChat(old(store.rows), chatId) == [] ==>
      r == Failure(ValueError) && lunch.queries == old(lunch.queries) && store.rows == old(store.rows)
    ensures ParseDays(text).Success? && RowsOfChat(old(store.rows), chatId) != [] ==>
      var rows := RowsOfChat(old(store.rows), chatId);
      var w := Window(rows, ParseDays(text).value);
      lunch.queries == old(lunch.queries) + [Query(None, None, w.0, w.1)] &&
      (fetched.Failure? ==> r == Failure(fetched.error) && store.rows == old(store.rows)) &&
      (fetched.Success? && old(bot.reachable) ==>
        ResyncedAs(old(store.rows), old(bot.log), old(bot.nextId), rows, ParseDays(text).value, fetched.value,
                   single, bot.alreadyShows, chatId, now, store.rows, bot.log, r)) &&
      (fetched.Success? && !old(bot.reachable) ==>
        r == Failure(TransportError) && store.rows == old(store.rows) && bot.log == old(bot.log))
  {
    var days := ParseDays(text);
    if days.Failure? {
      return Failure(days.error);
    }
    var rows := store.GetAllTxByChatId(chatId);
    if rows == [] {
      return Failure(ValueError);
    }
    r := ResyncChat(store, bot, lunch, chatId, rows, days.value, now, fetched, single);
  }

  /** The reported count lies between 0 and the number of walked rows. */
  lemma ReportedCountBounded(rows0: seq<Row>, log0: seq<Outgoing>, next0: int, rows: seq<Row>, days: int,
                             txs: seq<Tx>, single: int -> Option<Tx>, alreadyShows: (int, int, Body) -> bool,
                             chatId: int, now: int, rows': seq<Row>, log': seq<Outgoing>, r: Result<Report, Error>)
    requires rows != []
    requires ResyncedAs(rows0, log0, next0, rows, days, txs, single, alreadyShows, chatId, now, rows', log', r)
    ensures r.Success? && 0 <= r.value.resynced <= |Selected(rows, days)|
    ensures r.Success? && r.value.errors == RefusedRows(Selected(rows, days), 0, txs, chatId, alreadyShows)
  {
    ResyncCounts(RState(rows0, log0, next0, 0, 0), Selected(rows, days), 0, txs, single, chatId, now, true, alreadyShows);
  }
}
