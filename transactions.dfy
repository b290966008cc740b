/** The transaction handlers: the posted and pending checks for one chat, the
    manual check command, the once-a-minute scheduler, and the reply handler
    that sets notes or tags. */
module Transactions {
  import opened Wrappers
  import opened Lunch
  import opened Telegram
  import opened Persistence
  import opened TxMessaging
  import opened Reconcile
  import Text

  const NO_UNREVIEWED: string := "No unreviewed transactions found."
  const TX_NOT_FOUND: string := "Could not find the transaction associated with the message."
  const NOTES_LIMIT: nat := 350

  /** The outcome of one check as the pass functions define it, for a fetch that
      succeeded: the pending pass over the filtered list, or the posted pass
      over the whole list. */
  ghost predicate PassResult(w0: World, w: World, r: Result<seq<Tx>, Error>, txs: seq<Tx>, chatId: int,
                             pollPending: bool, autoMark: bool, now: int)
  {
    if pollPending then
      r == Success(KeepPending(txs)) && w == Pending(w0, KeepPending(txs), 0, chatId, now)
    else
      var p := Posted(w0, txs, 0, chatId, now, autoMark);
      r == Success(p.1) && w == p.0
  }

  /** Every transaction of `txs` has been sent before, in the given mode. */
  predicate AllSent(rows: seq<Row>, txs: seq<Tx>, pending: bool)
  {
    forall i :: 0 <= i < |txs| ==> WasSent(rows, txs[i].id, pending)
  }

  /** `check_posted_transactions_and_telegram_them`. The fetched answer is an
      input; a transport failure ends the loop and is returned. */
  method CheckPosted(store: Store, bot: Bot, lunch: Client, chatId: int, fetched: Result<seq<Tx>, Error>, now: int)
    returns (r: Result<seq<Tx>, Error>)
    requires bot.Valid() && store.Valid() && store.NotAfter(now)
    modifies store, bot, lunch
    ensures bot.Valid() && bot.reachable == old(bot.reachable)
    ensures store.Valid() && store.NotAfter(now)
    ensures store.settings == old(store.settings)
    ensures lunch.queries == old(lunch.queries) + [PostedQuery(now)]
    ensures fetched.Failure? || chatId !in old(store.settings) ==>
      r == (if fetched.Failure? then Failure(fetched.error) else Failure(NoLunchToken)) &&
      store.rows == old(store.rows) && bot.log == old(bot.log) && lunch.updates == old(lunch.updates)
    ensures fetched.Success? && chatId in old(store.settings) && old(bot.reachable) ==>
      PassResult(World(old(store.rows), old(bot.log), old(bot.nextId), old(lunch.updates)),
                 World(store.rows, bot.log, bot.nextId, lunch.updates), r,
                 fetched.value, chatId, false, old(store.settings)[chatId].autoMarkReviewed, now)
    ensures !old(bot.reachable) ==> store.rows == old(store.rows) && bot.log == old(bot.log)
    ensures fetched.Success? && chatId in old(store.settings) && !old(bot.reachable) ==>
      (r.Success? <==> AllSent(old(store.rows), fetched.value, false)) &&
      (r.Success? ==> |r.value| == |fetched.value|) && (r.Failure? ==> r.error == TransportError) &&
      lunch.updates == old(lunch.updates) + StoppedPatches(old(store.rows), fetched.value, 0, old(store.settings)[chatId].autoMarkReviewed)
  {
    var f := lunch.GetTransactions(PostedQuery(now), fetched);
    if f.Failure? {
      return Failure(f.error);
    }
    var s := store.GetCurrentSettings(chatId);
    if s.Failure? {
      return Failure(s.error);
    }
    r := PostedLoop(store, bot, lunch, f.value, chatId, now, s.value.autoMarkReviewed);
  }

  /** The loop of the posted check over the fetched transactions `txs`. */
  method PostedLoop(store: Store, bot: Bot, lunch: Client, txs: seq<Tx>, chatId: int, now: int, autoMark: bool)
    returns (r: Result<seq<Tx>, Error>)
    requires bot.Valid() && store.Valid() && store.NotAfter(now)
    modifies store, bot, lunch
    ensures bot.Valid() && bot.reachable == old(bot.reachable)
    ensures store.Valid() && store.NotAfter(now)
    ensures store.settings == old(store.settings) && lunch.queries == old(lunch.queries)
    ensures old(bot.reachable) ==>
      PassResult(World(old(store.rows), old(bot.log), old(bot.nextId), old(lunch.updates)),
                 World(store.rows, bot.log, bot.nextId, lunch.updates), r, txs, chatId, false, autoMark, now)
    ensures !old(bot.reachable) ==>
      store.rows == old(store.rows) && bot.log == old(bot.log) &&
      (r.Success? <==> AllSent(old(store.rows), txs, false)) &&
      (r.Success? ==> |r.value| == |txs|) && (r.Failure? ==> r.error == TransportError) &&
      lunch.updates == old(lunch.updates) + StoppedPatches(old(store.rows), txs, 0, autoMark)
  {
    ghost var w0 := World(old(store.rows), old(bot.log), old(bot.nextId), old(lunch.updates));
    ghost var rows0, log0, reach0 := store.rows, bot.log, bot.reachable;
    ghost var settings0, queries0 := store.settings, lunch.queries;
    ghost var total := lunch.updates + StoppedPatches(rows0, txs, 0, autoMark);
    var cur := txs;
    var i := 0;
    while i < |cur|
      invariant 0 <= i <= |cur| == |txs|
      invariant bot.Valid() && bot.reachable == reach0
      invariant store.Valid() && store.NotAfter(now)
      invariant store.settings == settings0
      invariant lunch.queries == queries0
      invariant reach0 ==>
        Posted(w0, txs, 0, chatId, now, autoMark) ==
        Posted(World(store.rows, bot.log, bot.nextId, lunch.updates), cur, i, chatId, now, autoMark)
      invariant !reach0 ==> store.rows == rows0 && bot.log == log0
      invariant forall k :: 0 <= k < |cur| ==> cur[k].id == txs[k].id
      invariant !reach0 ==> AllSent(rows0, txs[..i], false)
      invariant !reach0 ==> total == lunch.updates + StoppedPatches(rows0, txs, i, autoMark)
    {
      if !reach0 {
        StoppedStep(rows0, txs, i, autoMark, total, lunch.updates);
      }
      assert cur[i].id == txs[i].id;
      var ok;
      cur, ok := PostedIteration(store, bot, lunch, cur, i, chatId, now, autoMark);
      if !ok {
        return Failure(TransportError);
      }
      assert txs[..i + 1] == txs[..i] + [txs[i]];
      i := i + 1;
    }
    assert txs[..i] == txs;
    r := Success(cur);
  }

  /** One pass of the loop body of the posted check: auto-mark, dedup, find the
      anchor, send, record. `ok` is false when the send failed. */
  method PostedIteration(store: Store, bot: Bot, lunch: Client, cur: seq<Tx>, i: nat, chatId: int, now: int, autoMark: bool)
    returns (cur': seq<Tx>, ok: bool)
    requires i < |cur| && bot.Valid() && store.Valid() && store.NotAfter(now)
    modifies store, bot, lunch
    ensures bot.Valid() && bot.reachable == old(bot.reachable)
    ensures store.Valid() && store.NotAfter(now)
    ensures store.settings == old(store.settings) && lunch.queries == old(lunch.queries)
    ensures |cur'| == |cur| && forall k :: 0 <= k < |cur| ==> cur'[k].id == cur[k].id
    ensures lunch.updates == old(lunch.updates) + (if autoMark then [(cur[i].id, SetStatus(CLEARED))] else [])
    ensures old(bot.reachable) ==>
      ok && (World(store.rows, bot.log, bot.nextId, lunch.updates), cur') ==
      PostedStep(World(old(store.rows), old(bot.log), old(bot.nextId), old(lunch.updates)), cur, i, chatId, now, autoMark)
    ensures !old(bot.reachable) ==> store.rows == old(store.rows) && bot.log == old(bot.log)
    ensures !old(bot.reachable) ==> (ok <==> WasSent(old(store.rows), cur[i].id, false))
  {
    ghost var w := World(old(store.rows), old(bot.log), old(bot.nextId), old(lunch.updates));
    ghost var (wm, cm) := MarkStep(w, cur, i, autoMark);
    cur' := cur;
    if autoMark {
      lunch.UpdateTransaction(cur'[i].id, SetStatus(CLEARED));
      cur' := cur'[i := cur'[i].(status := CLEARED)];
    }
    assert cur' == cm && World(store.rows, bot.log, bot.nextId, lunch.updates) == wm;
    var tx := cur'[i];
    ok := true;
    var already := store.WasAlreadySent(tx.id, false);
    assert already == WasSent(wm.rows, tx.id, false);
    if !already {
      var related := Utils.FindRelated(tx, cur');
      var reply: Option<int> := None;
      if related.Some? {
        reply := store.GetMessageIdAssociatedWith(related.value.id, chatId);
      }
      assert reply == Anchor(wm.rows, tx, cm, chatId);
      var sent := SendTransactionMessage(bot, tx, chatId, None, reply);
      if sent.Failure? {
        ok := false;
        return;
      }
      store.MarkAsSent(tx.id, chatId, sent.value, tx.recurringType, false, false, tx.plaidId, now);
      assert World(store.rows, bot.log, bot.nextId, lunch.updates) == SendAndRecord(wm, tx, chatId, reply, false, now);
    }
  }

  /** `check_pending_transactions_and_telegram_them`: no settings are read, no
      patch is sent, no reply anchor is used. */
  method CheckPending(store: Store, bot: Bot, lunch: Client, chatId: int, fetched: Result<seq<Tx>, Error>, now: int)
    returns (r: Result<seq<Tx>, Error>)
    requires bot.Valid() && store.Valid() && store.NotAfter(now)
    modifies store, bot, lunch
    ensures bot.Valid() && bot.reachable == old(bot.reachable)
    ensures store.Valid() && store.NotAfter(now)
    ensures store.settings == old(store.settings) && lunch.updates == old(lunch.updates)
    ensures lunch.queries == old(lunch.queries) + [PendingQuery(now)]
    ensures fetched.Failure? ==> r == Failure(fetched.error) && store.rows == old(store.rows) && bot.log == old(bot.log)
    ensures fetched.Success? && old(bot.reachable) ==>
      PassResult(World(old(store.rows), old(bot.log), old(bot.nextId), old(lunch.updates)),
                 World(store.rows, bot.log, bot.nextId, lunch.updates), r,
                 fetched.value, chatId, true, false, now)
    ensures !old(bot.reachable) ==> store.rows == old(store.rows) && bot.log == old(bot.log)
    ensures fetched.Success? && !old(bot.reachable) ==>
      (r.Success? <==> AllSent(old(store.rows), KeepPending(fetched.value), true)) &&
      (r.Success? ==> r.value == KeepPending(fetched.value)) && (r.Failure? ==> r.error == TransportError)
  {
    var f := lunch.GetTransactions(PendingQuery(now), fetched);
    if f.Failure? {
      return Failure(f.error);
    }
    r := PendingLoop(store, bot, lunch, KeepPending(f.value), chatId, now);
  }

  /** The loop of the pending check over the kept transactions `txs`. The
      client is only read, for the patch log of the world. */
  method PendingLoop(store: Store, bot: Bot, lunch: Client, txs: seq<Tx>, chatId: int, now: int)
    returns (r: Result<seq<Tx>, Error>)
    requires bot.Valid() && store.Valid() && store.NotAfter(now)
    modifies store, bot
    ensures bot.Valid() && bot.reachable == old(bot.reachable)
    ensures store.Valid() && store.NotAfter(now)
    ensures store.settings == old(store.settings)
    ensures old(bot.reachable) ==>
      r == Success(txs) &&
      World(store.rows, bot.log, bot.nextId, lunch.updates) ==
      Pending(World(old(store.rows), old(bot.log), old(bot.nextId), lunch.updates), txs, 0, chatId, now)
    ensures !old(bot.reachable) ==>
      store.rows == old(store.rows) && bot.log == old(bot.log) &&
      (r.Success? <==> AllSent(old(store.rows), txs, true)) &&
      (r.Success? ==> r.value == txs) && (r.Failure? ==> r.error == TransportError)
  {
    ghost var w0 := World(old(store.rows), old(bot.log), old(bot.nextId), lunch.updates);
    ghost var rows0, log0, reach0 := store.rows, bot.log, bot.reachable;
    ghost var settings0 := store.settings;
    var i := 0;
    while i < |txs|
      invariant 0 <= i <= |txs|
      invariant bot.Valid() && bot.reachable == reach0
      invariant store.Valid() && store.NotAfter(now)
      invariant store.settings == settings0
      invariant reach0 ==>
        Pending(w0, txs, 0, chatId, now) == Pending(World(store.rows, bot.log, bot.nextId, lunch.updates), txs, i, chatId, now)
      invariant !reach0 ==> store.rows == rows0 && bot.log == log0
      invariant !reach0 ==> AllSent(rows0, txs[..i], true)
    {
      var tx := txs[i];
      var already := store.WasAlreadySent(tx.id, true);
      if !already {
        var sent := SendTransactionMessage(bot, tx, chatId, None, None);
        if sent.Failure? {
          return Failure(sent.error);
        }
        store.MarkAsSent(tx.id, chatId, sent.value, tx.recurringType, true, false, tx.plaidId, now);
      }
      assert txs[..i + 1] == txs[..i] + [tx];
      i := i + 1;
    }
    assert txs[..i] == txs;
    r := Success(txs);
  }

  /** The mode choice both callers make: pending mode iff `poll_pending`. */
  method CheckChat(store: Store, bot: Bot, lunch: Client, chatId: int, pollPending: bool,
                   fetched: Result<seq<Tx>, Error>, now: int)
    returns (r: Result<seq<Tx>, Error>)
    requires bot.Valid() && store.Valid() && store.NotAfter(now)
    modifies store, bot, lunch
    ensures bot.Valid() && bot.reachable == old(bot.reachable)
    ensures store.Valid() && store.NotAfter(now)
    ensures store.settings == old(store.settings)
    ensures lunch.queries == old(lunch.queries) + [if pollPending then PendingQuery(now) else PostedQuery(now)]
    ensures fetched.Failure? ==> r == Failure(fetched.error) && store.rows == old(store.rows)
    ensures fetched.Success? && chatId in old(store.settings) && old(bot.reachable) ==>
      PassResult(World(old(store.rows), old(bot.log), old(bot.nextId), old(lunch.updates)),
                 World(store.rows, bot.log, bot.nextId, lunch.updates), r,
                 fetched.value, chatId, pollPending, old(store.settings)[chatId].autoMarkReviewed, now)
    ensures !old(bot.reachable) ==> store.rows == old(store.rows) && bot.log == old(bot.log)
    ensures fetched.Success? && chatId in old(store.settings) && !old(bot.reachable) ==>
      var txs := if pollPending then KeepPending(fetched.value) else fetched.value;
      (r.Success? <==> AllSent(old(store.rows), txs, pollPending)) &&
      (r.Success? ==> |r.value| == |txs|) && (r.Failure? ==> r.error == TransportError) &&
      lunch.updates == old(lunch.updates) +
        (if pollPending then [] else StoppedPatches(old(store.rows), fetched.value, 0, old(store.settings)[chatId].autoMarkReviewed))
  {
    if pollPending {
      r := CheckPending(store, bot, lunch, chatId, fetched, now);
    } else {
      r := CheckPosted(store, bot, lunch, chatId, fetched, now);
    }
  }

  /** `handle_check_transactions`: check in the chat's mode, then record the
      poll time, then say so when nothing came back, quoting the command
      outside a private chat. A check that fails leaves
      `last_poll_at` as it was; a reply that fails raises after the poll time
      is recorded. */
  method HandleCheckTransactions(store: Store, bot: Bot, lunch: Client, chatId: int, commandMessageId: int,
                                 privateChat: bool, fetched: Result<seq<Tx>, Error>, now: int)
    returns (r: Result<seq<Tx>, Error>)
    requires bot.Valid() && store.Valid() && store.NotAfter(now)
    modifies store, bot, lunch
    ensures bot.Valid() && store.Valid() && store.NotAfter(now)
    ensures chatId !in old(store.settings) ==>
      r == Failure(NoLunchToken) && store.settings == old(store.settings) && store.rows == old(store.rows) &&
      lunch.queries == old(lunch.queries)
    ensures chatId in old(store.settings) && fetched.Failure? ==>
      r == Failure(fetched.error) && store.settings == old(store.settings)
    ensures chatId in old(store.settings) && fetched.Success? && old(bot.reachable) ==>
      var s := old(store.settings)[chatId];
      var quiet := r.Success? && r.value == [];
      r.Success? &&
      store.settings == old(store.settings)[chatId := s.(lastPollAt := Some(now))] &&
      lunch.queries == old(lunch.queries) + [if s.pollPending then PendingQuery(now) else PostedQuery(now)] &&
      (quiet ==> |bot.log| >= 1 && bot.log[|bot.log| - 1] == Sent(bot.nextId - 1, chatId, Text(NO_UNREVIEWED), ReplyAnchor(privateChat, commandMessageId))) &&
      PassResult(World(old(store.rows), old(bot.log), old(bot.nextId), old(lunch.updates)),
                 if quiet then World(store.rows, bot.log[..|bot.log| - 1], bot.nextId - 1, lunch.updates)
                 else World(store.rows, bot.log, bot.nextId, lunch.updates),
                 r, fetched.value, chatId, s.pollPending, s.autoMarkReviewed, now)
    ensures chatId in old(store.settings) && fetched.Success? && !old(bot.reachable) ==>
      var s := old(store.settings)[chatId];
      var txs := if s.pollPending then KeepPending(fetched.value) else fetched.value;
      var allSent := AllSent(old(store.rows), txs, s.pollPending);
      store.rows == old(store.rows) && bot.log == old(bot.log) &&
      (allSent ==> store.settings == old(store.settings)[chatId := s.(lastPollAt := Some(now))]) &&
      (!allSent ==> store.settings == old(store.settings)) &&
      (r.Success? <==> allSent && txs != []) &&
      (r.Success? ==> |r.value| == |txs|) && (r.Failure? ==> r.error == TransportError) &&
      lunch.updates == old(lunch.updates) +
        (if s.pollPending then [] else StoppedPatches(old(store.rows), fetched.value, 0, s.autoMarkReviewed))
  {
    var s := store.GetCurrentSettings(chatId);
    if s.Failure? {
      return Failure(s.error);
    }
    r := CheckChat(store, bot, lunch, chatId, s.value.pollPending, fetched, now);
    if r.Failure? {
      return;
    }
    store.UpdateLastPollAt(chatId, now);
    if r.value == [] {
      ghost var before := bot.log;
      var sent := bot.Send(chatId, Text(NO_UNREVIEWED), ReplyAnchor(privateChat, commandMessageId));
      if sent.Failure? {
        return Failure(sent.error);
      }
      assert bot.log[..|bot.log| - 1] == before;
    }
  }

  /** The scheduler's test: never polled, or the interval has elapsed. */
  predicate Due(s: Settings, now: int)
  {
    s.lastPollAt.None? || now >= s.lastPollAt.value + s.pollIntervalSecs
  }

  /** The settings row after a tick that polled the chat successfully. */
  function AfterTick(s: Settings, now: int): (t: Settings)
    ensures Due(s, now) ==> t == s.(lastPollAt := Some(now))
    ensures !Due(s, now) ==> t == s
  {
    if Due(s, now) then s.(lastPollAt := Some(now)) else s
  }

  /** An interval of 0 does not disable polling: such a chat is due on every
      tick that is not earlier than its last poll. */
  lemma ZeroIntervalAlwaysDue(s: Settings, now: int)
    requires s.pollIntervalSecs == 0
    requires s.lastPollAt.Some? ==> s.lastPollAt.value <= now
    ensures Due(s, now)
  {
  }

  /** A chat polled at `now` with a positive interval is not due again before the
      interval has passed, and is due once it has. */
  lemma DueAgainAfterInterval(s: Settings, now: int, later: int)
    requires Due(s, now) && s.pollIntervalSecs > 0
    ensures Due(AfterTick(s, now), later) <==> later >= now + s.pollIntervalSecs
  {
  }

  /** `poll_transactions_on_schedule`: every registered chat that is due is
      checked in its mode and then has its poll time recorded. The provider's
      answer for each chat is `feed(chat)`. An error ends the tick, as the
      exception does, and is reported with the chat it came from; that chat and
      the chats not reached keep their settings. */
  method Tick(store: Store, bot: Bot, lunch: Client, now: int, feed: int -> Result<seq<Tx>, Error>)
    returns (failed: Option<(int, Error)>)
    requires bot.Valid() && store.Valid() && store.NotAfter(now)
    modifies store, bot, lunch
    ensures bot.Valid() && bot.reachable == old(bot.reachable)
    ensures store.Valid() && store.NotAfter(now)
    ensures store.settings.Keys == old(store.settings).Keys
    ensures forall c :: c in old(store.settings) ==>
      store.settings[c] == old(store.settings)[c] || store.settings[c] == AfterTick(old(store.settings)[c], now)
    ensures failed.None? ==> forall c :: c in old(store.settings) ==> store.settings[c] == AfterTick(old(store.settings)[c], now)
    ensures failed.Some? ==>
      var c := failed.value.0;
      c in old(store.settings) && Due(old(store.settings)[c], now) && store.settings[c] == old(store.settings)[c] &&
      (feed(c).Failure? || !old(bot.reachable))
    ensures old(bot.reachable) && (forall c :: c in old(store.settings) && Due(old(store.settings)[c], now) ==> feed(c).Success?) ==>
      failed.None?
  {
    var chats := store.GetAllRegisteredChats();
    ghost var settings0, reach0 := store.settings, bot.reachable;
    var i := 0;
    while i < |chats|
      invariant 0 <= i <= |chats|
      invariant bot.Valid() && bot.reachable == reach0
      invariant store.Valid() && store.NotAfter(now)
      invariant store.settings.Keys == settings0.Keys
      invariant forall c :: c in settings0 ==>
        store.settings[c] == if c in chats[..i] then AfterTick(settings0[c], now) else settings0[c]
    {
      var c := chats[i];
      assert c !in chats[..i];
      var s := store.GetCurrentSettings(c);
      if s.Failure? {
        assert false;
      }
      var settings := s.value;
      if Due(settings, now) {
        var r := CheckChat(store, bot, lunch, c, settings.pollPending, feed(c), now);
        if r.Failure? {
          return Some((c, r.error));
        }
        store.UpdateLastPollAt(c, now);
      }
      assert chats[..i + 1] == chats[..i] + [c];
      i := i + 1;
    }
    assert chats[..|chats|] == chats;
    failed := None;
  }

  // ---------------------------------------------------------------------------
  // Notes and tags from a reply

  predicate IsTag(word: string)
  {
    Text.StartsWith(word, "#")
  }

  /** The loop at the top of the reply handler: tags iff every " "-separated word
      starts with "#"; it stops at the first word that does not. */
  method RepliesAreTags(text: string) returns (b: bool)
    ensures b <==> forall w :: w in Text.Split(text, ' ') ==> IsTag(w)
  {
    var words := Text.Split(text, ' ');
    b := true;
    var i := 0;
    while i < |words|
      invariant 0 <= i <= |words|
      invariant forall j :: 0 <= j < i ==> IsTag(words[j])
    {
      if !IsTag(words[i]) {
        b := false;
        break;
      }
      i := i + 1;
    }
  }

  /** The tags of a tag reply: each word that starts with "#", without it.
      HashedTagsOf states that putting the "#" back gives the words. */
  function TagsOf(words: seq<string>): (tags: seq<string>)
    ensures |tags| <= |words|
  {
    if words == [] then []
    else (if IsTag(words[0]) then [words[0][1..]] else []) + TagsOf(words[1..])
  }

  /** Each tag with its "#" back on; the inverse of TagsOf by HashedTagsOf. */
  function Hashed(tags: seq<string>): (r: seq<string>)
    ensures |r| == |tags|
  {
    if tags == [] then [] else ["#" + tags[0]] + Hashed(tags[1..])
  }

  /** What the reply sets: the tags, or the text cut to 350 characters as notes. */
  function ReplyPatch(text: string, areTags: bool): (p: Patch)
    ensures areTags ==> p == SetTags(TagsOf(Text.Split(text, ' ')))
    ensures !areTags ==> p.SetNotes? && p.notes <= text && |p.notes| == if |text| <= NOTES_LIMIT then |text| else NOTES_LIMIT
  {
    if areTags then SetTags(TagsOf(Text.Split(text, ' '))) else SetNotes(Text.Take(text, NOTES_LIMIT))
  }

  lemma {:induction false} HashedTagsOf(words: seq<string>)
    requires forall w :: w in words ==> IsTag(w)
    ensures Hashed(TagsOf(words)) == words
  {
    if words != [] {
      HashedTagsOf(words[1..]);
      assert IsTag(words[0]);
      assert "#" + words[0][1..] == words[0];
    }
  }

  /** A tag reply loses nothing: putting the "#" back on each tag and joining
      with spaces gives the reply text. */
  lemma TagReplyRoundTrip(text: string)
    requires forall w :: w in Text.Split(text, ' ') ==> IsTag(w)
    ensures Text.Join(Hashed(TagsOf(Text.Split(text, ' '))), " ") == text
  {
    HashedTagsOf(Text.Split(text, ' '));
    Text.JoinSplit(text, ' ');
  }

  /** Two spaces in a row give an empty word after the first, so such a reply
      is never taken as tags; nor is an empty reply. */
  lemma {:induction false} DoubleSpaceMeansNotes(text: string, k: nat)
    requires k + 1 < |text| && text[k] == ' ' && text[k + 1] == ' '
    ensures "" in Text.Split(text, ' ')[1..]
    ensures !(forall w :: w in Text.Split(text, ' ') ==> IsTag(w))
  {
    var words := Text.Split(text, ' ');
    if k == 0 {
      assert words == [""] + Text.Split(text[1..], ' ');
      assert Text.Split(text[1..], ' ')[0] == "";
      assert words[1] == "";
    } else {
      DoubleSpaceMeansNotes(text[1..], k - 1);
      var rest := Text.Split(text[1..], ' ');
      if text[0] == ' ' {
        assert words == [""] + rest;
        assert words[1..] == rest;
      } else {
        assert words[1..] == rest[1..];
      }
    }
    assert "" in words;
    assert !IsTag("");
  }

  lemma EmptyReplyIsNotes()
    ensures !(forall w :: w in Text.Split("", ' ') ==> IsTag(w))
    ensures ReplyPatch("", false) == SetNotes("")
  {
    assert Text.Split("", ' ') == [""];
    assert !IsTag("");
  }

  /** What a reply with text `text` leaves behind once the row of the replied-to
      message names transaction `id`: the patch is sent, the transaction is
      fetched again, and, when that answer comes back and the chat is
      reachable, the replied-to message is redrawn from it. A failed fetch or
      send, or an edit refused because the message would not change, ends the
      handler with that failure. */
  ghost predicate Patched(id: int, text: string, refetch: int -> Result<Tx, Error>, chatId: int, repliedTo: int,
                          reachable: bool, alreadyShows: (int, int, Body) -> bool, updates0: seq<(int, Patch)>, lookups0: seq<int>, log0: seq<Outgoing>,
                          next0: int, updates: seq<(int, Patch)>, lookups: seq<int>, log: seq<Outgoing>,
                          r: Result<Option<int>, Error>)
  {
    updates == updates0 + [(id, ReplyPatch(text, forall w :: w in Text.Split(text, ' ') ==> IsTag(w)))] &&
    lookups == lookups0 + [id] &&
    match refetch(id)
    case Failure(e) => r == Failure(e) && log == log0
    case Success(t) =>
      if !reachable then r == Failure(TransportError) && log == log0
      else if EditsExisting(Some(repliedTo)) && alreadyShows(chatId, repliedTo, Render(t)) then
        r == Failure(NotModified) && log == log0
      else r == Success(Some(id)) &&
           log == log0 + [if EditsExisting(Some(repliedTo)) then Edited(chatId, repliedTo, Render(t))
                          else Sent(next0, chatId, Render(t), None)]
  }

  /** `handle_set_tx_notes_or_tags`: find the transaction of the replied-to
      message, patch its notes or tags, fetch it again and redraw the message
      from the answer. `refetch(id)` is the provider's answer to
      `get_transaction(id)`. Without a stored row it only reports the problem
      and answers None; otherwise it answers the patched id. */
  method HandleSetTxNotesOrTags(store: Store, bot: Bot, lunch: Client, chatId: int, repliedTo: int,
                                text: string, refetch: int -> Result<Tx, Error>)
    returns (r: Result<Option<int>, Error>)
    requires bot.Valid()
    modifies bot, lunch
    ensures bot.Valid() && bot.reachable == old(bot.reachable) && lunch.queries == old(lunch.queries)
    ensures (forall i :: 0 <= i < |store.rows| ==> !ForMessage(store.rows[i], repliedTo, chatId)) ==>
      lunch.updates == old(lunch.updates) && lunch.lookups == old(lunch.lookups) &&
      (old(bot.reachable) ==>
        r == Success(None) && bot.log == old(bot.log) + [Sent(old(bot.nextId), chatId, Text(TX_NOT_FOUND), None)]) &&
      (!old(bot.reachable) ==> r == Failure(TransportError) && bot.log == old(bot.log))
    ensures (exists i :: 0 <= i < |store.rows| && ForMessage(store.rows[i], repliedTo, chatId)) ==>
      exists i :: 0 <= i < |store.rows| && ForMessage(store.rows[i], repliedTo, chatId) &&
        Patched(store.rows[i].txId, text, refetch, chatId, repliedTo, old(bot.reachable), bot.alreadyShows,
                old(lunch.updates), old(lunch.lookups), old(bot.log), old(bot.nextId),
                lunch.updates, lunch.lookups, bot.log, r)
  {
    var txId := store.GetTxAssociatedWith(repliedTo, chatId);
    if txId.None? {
      var sent := bot.Send(chatId, Text(TX_NOT_FOUND), None);
      if sent.Failure? {
        return Failure(sent.error);
      }
      return Success(None);
    }
    var areTags := RepliesAreTags(text);
    lunch.UpdateTransaction(txId.value, ReplyPatch(text, areTags));
    var updated := lunch.GetTransaction(txId.value, refetch(txId.value));
    if updated.Failure? {
      return Failure(updated.error);
    }
    var sent := SendTransactionMessage(bot, updated.value, chatId, Some(repliedTo), None);
    if sent.Failure? {
      return Failure(sent.error);
    }
    r := Success(txId);
  }
}
