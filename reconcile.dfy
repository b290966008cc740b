/** The reconciliation passes of the transaction handlers, stated as functions
    over the state they touch. The handler methods are proved to compute them;
    the lemmas below state what the passes promise. */
module Reconcile {
  import opened Wrappers
  import opened Lunch
  import opened Telegram
  import opened Persistence
  import opened Utils
  import opened TxMessaging

  const POSTED_WINDOW_DAYS: int := 30
  const PENDING_WINDOW_DAYS: int := 15

  /** The posted-mode query: uncleared, not pending, from the midnight 30 days
      back to today's midnight. */
  function PostedQuery(now: int): (q: Query)
    ensures q.status == Some(UNCLEARED) && q.pending == Some(false)
    ensures q.endDate == Midnight(now) && q.endDate - q.startDate == 30 * SECONDS_PER_DAY
  {
    Query(Some(UNCLEARED), Some(false), Midnight(now) - POSTED_WINDOW_DAYS * SECONDS_PER_DAY, Midnight(now))
  }

  /** The pending-mode query: pending only, no status, a 15-day window. */
  function PendingQuery(now: int): (q: Query)
    ensures q.status == None && q.pending == Some(true)
    ensures q.endDate == Midnight(now) && q.endDate - q.startDate == 15 * SECONDS_PER_DAY
  {
    Query(None, Some(true), Midnight(now) - PENDING_WINDOW_DAYS * SECONDS_PER_DAY, Midnight(now))
  }

  predicate KeptAsPending(tx: Tx)
  {
    tx.isPending && tx.notes.None?
  }

  /** The pending-mode filter, order preserved. */
  function KeepPending(txs: seq<Tx>): (r: seq<Tx>)
    ensures |r| <= |txs|
    ensures forall t :: t in r <==> t in txs && KeptAsPending(t)
  {
    if txs == [] then []
    else (if KeptAsPending(txs[0]) then [txs[0]] else []) + KeepPending(txs[1..])
  }

  /** What a pass changes: the store's rows, the chat log and the next fresh
      message id, and the patches sent upstream. */
  datatype World = World(rows: seq<Row>, log: seq<Outgoing>, nextId: int, updates: seq<(int, Patch)>)

  /** The row `mark_as_sent` appends for a transaction sent as message `id`. */
  function SentRow(tx: Tx, chatId: int, id: int, pending: bool, now: int): Row
  {
    Row(id, tx.id, chatId, pending, now, None, tx.recurringType, tx.plaidId)
  }

  /** Sending transaction `tx` as a new message with the given anchor and
      recording it. */
  function SendAndRecord(w: World, tx: Tx, chatId: int, reply: Option<int>, pending: bool, now: int): (w': World)
    ensures w'.updates == w.updates && w'.nextId == w.nextId + 1
  {
    World(w.rows + [SentRow(tx, chatId, w.nextId, pending, now)],
          w.log + [Sent(w.nextId, chatId, Render(tx), reply)],
          w.nextId + 1, w.updates)
  }

  /** The reply anchor: the latest message id, in this chat, of the transaction
      related to `tx` within the whole fetched list. */
  function Anchor(rows: seq<Row>, tx: Tx, cur: seq<Tx>, chatId: int): Option<int>
  {
    match FindRelated(tx, cur)
    case None => None
    case Some(rel) => MessageIdFor(rows, rel.id, chatId)
  }

  /** Clearing transaction `i` in place when auto-marking: the patch goes
      upstream and the in-memory status becomes "cleared". Its effect over a
      whole pass is stated by PostedPatches. */
  function MarkStep(w: World, cur: seq<Tx>, i: nat, autoMark: bool): (r: (World, seq<Tx>))
    requires i < |cur|
    ensures |r.1| == |cur|
  {
    if autoMark then (w.(updates := w.updates + [(cur[i].id, SetStatus(CLEARED))]), cur[i := cur[i].(status := CLEARED)])
    else (w, cur)
  }

  /** One iteration of the posted loop; what a pass of them adds is stated by
      PostedPaired and PostedSendsEachIdOnce. */
  function PostedStep(w: World, cur: seq<Tx>, i: nat, chatId: int, now: int, autoMark: bool): (r: (World, seq<Tx>))
    requires i < |cur|
    ensures |r.1| == |cur|
  {
    var (w1, cur1) := MarkStep(w, cur, i, autoMark);
    var tx := cur1[i];
    if WasSent(w1.rows, tx.id, false) then (w1, cur1)
    else (SendAndRecord(w1, tx, chatId, Anchor(w1.rows, tx, cur1, chatId), false, now), cur1)
  }

  /** The posted loop from index `i` on: the final state and the list returned.
      Its content is stated by PostedPaired, PostedIdempotent and PostedPatches. */
  function Posted(w: World, cur: seq<Tx>, i: nat, chatId: int, now: int, autoMark: bool): (r: (World, seq<Tx>))
    requires i <= |cur|
    ensures |r.1| == |cur|
    decreases |cur| - i
  {
    if i == |cur| then (w, cur)
    else
      var (w1, cur1) := PostedStep(w, cur, i, chatId, now, autoMark);
      Posted(w1, cur1, i + 1, chatId, now, autoMark)
  }

  /** One iteration of the pending loop: dedup on pending rows, no anchor. */
  function PendingStep(w: World, tx: Tx, chatId: int, now: int): World
  {
    if WasSent(w.rows, tx.id, true) then w else SendAndRecord(w, tx, chatId, None, true, now)
  }

  function Pending(w: World, txs: seq<Tx>, i: nat, chatId: int, now: int): World
    requires i <= |txs|
    decreases |txs| - i
  {
    if i == |txs| then w else Pending(PendingStep(w, txs[i], chatId, now), txs, i + 1, chatId, now)
  }

  // ---------------------------------------------------------------------------
  // What a pass does to rows and log

  /** A pass only appends: the sent messages and the recorded rows pair up one to
      one, in order, each row holding the id of the message sent for it, and the
      ids are the consecutive fresh ones. */
  ghost predicate Paired(w: World, w': World, chatId: int, pending: bool, now: int)
  {
    var k := |w'.rows| - |w.rows|;
    |w.rows| <= |w'.rows| && w'.rows[..|w.rows|] == w.rows &&
    |w.log| <= |w'.log| && w'.log[..|w.log|] == w.log &&
    |w'.log| - |w.log| == k && w'.nextId == w.nextId + k &&
    forall j :: 0 <= j < k ==> PairAt(w, w', j, chatId, pending, now)
  }

  /** The `j`-th message sent since `w` and the `j`-th row recorded since `w`
      belong together. */
  ghost predicate PairAt(w: World, w': World, j: int, chatId: int, pending: bool, now: int)
  {
    0 <= j && |w.rows| + j < |w'.rows| && |w.log| + j < |w'.log| &&
    var row := w'.rows[|w.rows| + j];
    var msg := w'.log[|w.log| + j];
    msg.Sent? && msg.id == w.nextId + j && row.messageId == msg.id && msg.chatId == chatId &&
    msg.body.TxMessage? && row.txId == msg.body.tx.id && row.chatId == chatId &&
    row.pending == pending && row.createdAt == now && row.reviewedAt.None?
  }

  lemma PairedRefl(w: World, chatId: int, pending: bool, now: int)
    ensures Paired(w, w, chatId, pending, now)
  {
    assert w.rows[..|w.rows|] == w.rows;
    assert w.log[..|w.log|] == w.log;
  }

  lemma {:induction false} PairedSend(w0: World, w: World, tx: Tx, chatId: int, reply: Option<int>, pending: bool, now: int)
    requires Paired(w0, w, chatId, pending, now)
    ensures Paired(w0, SendAndRecord(w, tx, chatId, reply, pending, now), chatId, pending, now)
  {
    var w' := SendAndRecord(w, tx, chatId, reply, pending, now);
    var k := |w.rows| - |w0.rows|;
    assert w'.rows[..|w0.rows|] == w.rows[..|w0.rows|];
    assert w'.log[..|w0.log|] == w.log[..|w0.log|];
    forall j | 0 <= j < k + 1
      ensures PairAt(w0, w', j, chatId, pending, now)
    {
      if j < k {
        assert PairAt(w0, w, j, chatId, pending, now);
        assert w'.rows[|w0.rows| + j] == w.rows[|w0.rows| + j];
        assert w'.log[|w0.log| + j] == w.log[|w0.log| + j];
      } else {
        assert w'.rows[|w0.rows| + j] == SentRow(tx, chatId, w.nextId, pending, now);
      }
    }
  }

  lemma {:induction false} PairedTrans(w0: World, w1: World, w2: World, chatId: int, pending: bool, now: int)
    requires Paired(w0, w1, chatId, pending, now)
    requires w2.rows == w1.rows && w2.log == w1.log && w2.nextId == w1.nextId
    ensures Paired(w0, w2, chatId, pending, now)
  {
    forall j | 0 <= j < |w1.rows| - |w0.rows| ensures PairAt(w0, w2, j, chatId, pending, now) {
      assert PairAt(w0, w1, j, chatId, pending, now);
    }
  }

  /** The posted loop sends and records in pairs. */
  lemma {:induction false} PostedPaired(w: World, cur: seq<Tx>, i: nat, chatId: int, now: int, autoMark: bool, w0: World)
    requires i <= |cur|
    requires Paired(w0, w, chatId, false, now)
    ensures Paired(w0, Posted(w, cur, i, chatId, now, autoMark).0, chatId, false, now)
    decreases |cur| - i
  {
    if i < |cur| {
      var (w1, cur1) := MarkStep(w, cur, i, autoMark);
      PairedTrans(w0, w, w1, chatId, false, now);
      var tx := cur1[i];
      if !WasSent(w1.rows, tx.id, false) {
        PairedSend(w0, w1, tx, chatId, Anchor(w1.rows, tx, cur1, chatId), false, now);
      }
      PostedPaired(PostedStep(w, cur, i, chatId, now, autoMark).0, PostedStep(w, cur, i, chatId, now, autoMark).1,
                   i + 1, chatId, now, autoMark, w0);
    }
  }

  /** The pending loop sends and records in pairs. */
  lemma {:induction false} PendingPaired(w: World, txs: seq<Tx>, i: nat, chatId: int, now: int, w0: World)
    requires i <= |txs|
    requires Paired(w0, w, chatId, true, now)
    ensures Paired(w0, Pending(w, txs, i, chatId, now), chatId, true, now)
    decreases |txs| - i
  {
    if i < |txs| {
      if !WasSent(w.rows, txs[i].id, true) {
        PairedSend(w0, w, txs[i], chatId, None, true, now);
      }
      PendingPaired(PendingStep(w, txs[i], chatId, now), txs, i + 1, chatId, now, w0);
    }
  }

  // ---------------------------------------------------------------------------
  // Dedup

  /** After a posted pass every transaction of the list is recorded as sent. */
  lemma {:induction false} PostedCoversAll(w: World, cur: seq<Tx>, i: nat, chatId: int, now: int, autoMark: bool)
    requires i <= |cur|
    ensures forall j :: i <= j < |cur| ==> WasSent(Posted(w, cur, i, chatId, now, autoMark).0.rows, cur[j].id, false)
    ensures forall id :: WasSent(w.rows, id, false) ==> WasSent(Posted(w, cur, i, chatId, now, autoMark).0.rows, id, false)
    decreases |cur| - i
  {
    if i < |cur| {
      var (w1, cur1) := PostedStep(w, cur, i, chatId, now, autoMark);
      assert forall j :: 0 <= j < |cur| ==> cur1[j].id == cur[j].id;
      assert WasSent(w1.rows, cur[i].id, false) by {
        var m := MarkStep(w, cur, i, autoMark).0;
        if !WasSent(m.rows, cur1[i].id, false) {
          assert w1.rows[|m.rows|].txId == cur1[i].id;
        }
      }
      assert forall id :: WasSent(w.rows, id, false) ==> WasSent(w1.rows, id, false) by {
        forall id | WasSent(w.rows, id, false) ensures WasSent(w1.rows, id, false) {
          var k :| 0 <= k < |w.rows| && w.rows[k].txId == id && !w.rows[k].pending;
          assert w1.rows[k] == w.rows[k];
        }
      }
      PostedCoversAll(w1, cur1, i + 1, chatId, now, autoMark);
    }
  }

  /** A posted pass over transactions all already recorded sends nothing and
      records nothing; it only patches when auto-marking. */
  lemma {:induction false} PostedAllSentIsQuiet(w: World, cur: seq<Tx>, i: nat, chatId: int, now: int, autoMark: bool)
    requires i <= |cur|
    requires forall j :: i <= j < |cur| ==> WasSent(w.rows, cur[j].id, false)
    ensures Posted(w, cur, i, chatId, now, autoMark).0.rows == w.rows
    ensures Posted(w, cur, i, chatId, now, autoMark).0.log == w.log
    ensures Posted(w, cur, i, chatId, now, autoMark).0.nextId == w.nextId
    decreases |cur| - i
  {
    if i < |cur| {
      var (w1, cur1) := PostedStep(w, cur, i, chatId, now, autoMark);
      assert forall j :: 0 <= j < |cur| ==> cur1[j].id == cur[j].id;
      PostedAllSentIsQuiet(w1, cur1, i + 1, chatId, now, autoMark);
    }
  }

  /** Running the posted pass a second time over the same fetched list sends
      nothing and adds no rows. */
  lemma PostedIdempotent(w: World, txs: seq<Tx>, chatId: int, now: int, autoMark: bool, later: int)
    ensures var w1 := Posted(w, txs, 0, chatId, now, autoMark).0;
            var w2 := Posted(w1, txs, 0, chatId, later, autoMark).0;
            w2.rows == w1.rows && w2.log == w1.log && w2.nextId == w1.nextId
  {
    PostedCoversAll(w, txs, 0, chatId, now, autoMark);
    PostedAllSentIsQuiet(Posted(w, txs, 0, chatId, now, autoMark).0, txs, 0, chatId, later, autoMark);
  }

  /** Rows of `w` stay in place, so whatever was recorded as sent stays so. */
  lemma PrefixKeepsSent(rows: seq<Row>, rows': seq<Row>, id: int, p: bool)
    requires |rows| <= |rows'| && rows'[..|rows|] == rows
    ensures WasSent(rows, id, p) ==> WasSent(rows', id, p)
  {
    if WasSent(rows, id, p) {
      var q :| 0 <= q < |rows| && rows[q].txId == id && rows[q].pending == p;
      assert rows'[..|rows|][q] == rows'[q];
    }
  }

  /** Within one posted pass a transaction id is sent at most once, and never
      when a posted row for it already existed. */
  lemma {:induction false} PostedSendsEachIdOnce(w: World, cur: seq<Tx>, i: nat, chatId: int, now: int, autoMark: bool)
    requires i <= |cur|
    ensures var w' := Posted(w, cur, i, chatId, now, autoMark).0;
            forall j :: |w.rows| <= j < |w'.rows| ==>
              !WasSent(w.rows, w'.rows[j].txId, false) &&
              forall k :: j < k < |w'.rows| ==> w'.rows[k].txId != w'.rows[j].txId
    decreases |cur| - i
  {
    if i < |cur| {
      var (w1, cur1) := PostedStep(w, cur, i, chatId, now, autoMark);
      var w' := Posted(w, cur, i, chatId, now, autoMark).0;
      assert w' == Posted(w1, cur1, i + 1, chatId, now, autoMark).0;
      PostedSendsEachIdOnce(w1, cur1, i + 1, chatId, now, autoMark);
      assert forall j :: |w1.rows| <= j < |w'.rows| ==>
        !WasSent(w1.rows, w'.rows[j].txId, false) &&
        forall k :: j < k < |w'.rows| ==> w'.rows[k].txId != w'.rows[j].txId;
      PairedRefl(w1, chatId, false, now);
      PostedPaired(w1, cur1, i + 1, chatId, now, autoMark, w1);
      assert |w1.rows| <= |w'.rows| && w'.rows[..|w1.rows|] == w1.rows;
      var m := MarkStep(w, cur, i, autoMark).0;
      assert m.rows == w.rows;
      var sent := |w1.rows| > |w.rows|;
      assert sent ==> w1.rows == w.rows + [SentRow(cur1[i], chatId, w.nextId, false, now)] &&
                      !WasSent(w.rows, cur1[i].id, false);
      assert !sent ==> w1.rows == w.rows;
      forall j | |w.rows| <= j < |w'.rows|
        ensures !WasSent(w.rows, w'.rows[j].txId, false)
        ensures forall k :: j < k < |w'.rows| ==> w'.rows[k].txId != w'.rows[j].txId
      {
        if j < |w1.rows| {
          assert w'.rows[..|w1.rows|][j] == w'.rows[j];
          assert w'.rows[j] == SentRow(cur1[i], chatId, w.nextId, false, now);
          assert WasSent(w1.rows, cur1[i].id, false) by {
            assert w1.rows[j].txId == cur1[i].id && !w1.rows[j].pending;
          }
          forall k | j < k < |w'.rows|
            ensures w'.rows[k].txId != w'.rows[j].txId
          {
            assert !WasSent(w1.rows, w'.rows[k].txId, false);
          }
        } else {
          assert !WasSent(w1.rows, w'.rows[j].txId, false);
          PrefixKeepsSent(w.rows, w1.rows, w'.rows[j].txId, false);
        }
      }
    }
  }

  // ---------------------------------------------------------------------------
  // Auto-marking

  /** The patches of a posted pass: with auto-marking, one "cleared" patch per
      fetched transaction from `i` on, in list order, whether sent or skipped;
      without it, none. */
  function ClearPatches(cur: seq<Tx>, i: nat): seq<(int, Patch)>
    requires i <= |cur|
    decreases |cur| - i
  {
    if i == |cur| then [] else [(cur[i].id, SetStatus(CLEARED))] + ClearPatches(cur, i + 1)
  }

  lemma {:induction false} ClearPatchesIds(a: seq<Tx>, b: seq<Tx>, i: nat)
    requires i <= |a| == |b|
    requires forall j :: i <= j < |a| ==> a[j].id == b[j].id
    ensures ClearPatches(a, i) == ClearPatches(b, i)
    decreases |a| - i
  {
    if i < |a| {
      ClearPatchesIds(a, b, i + 1);
    }
  }

  /** The patches of a posted pass whose every send fails: with auto-marking,
      the "cleared" patch of each transaction from `i` on up to and including
      the first one not sent before, where the pass stops; without it, none. */
  function StoppedPatches(rows: seq<Row>, cur: seq<Tx>, i: nat, autoMark: bool): seq<(int, Patch)>
    requires i <= |cur|
    decreases |cur| - i
  {
    if i == |cur| || !autoMark then []
    else [(cur[i].id, SetStatus(CLEARED))] + (if WasSent(rows, cur[i].id, false) then StoppedPatches(rows, cur, i + 1, autoMark) else [])
  }

  /** One unfolding of `StoppedPatches`, as the posted loop uses it. */
  lemma StoppedUnfold(rows: seq<Row>, cur: seq<Tx>, i: nat, autoMark: bool)
    requires i < |cur|
    ensures var rest := if WasSent(rows, cur[i].id, false) then StoppedPatches(rows, cur, i + 1, autoMark) else [];
      StoppedPatches(rows, cur, i, autoMark) == (if autoMark then [(cur[i].id, SetStatus(CLEARED))] + rest else [])
  {
  }

  /** The patches still to come, `total` less `updates`, after the step at `i`:
      the rest of the stopped pass if `cur[i]` was sent before, none if not. */
  lemma StoppedStep(rows: seq<Row>, cur: seq<Tx>, i: nat, autoMark: bool, total: seq<(int, Patch)>, updates: seq<(int, Patch)>)
    requires i < |cur| && total == updates + StoppedPatches(rows, cur, i, autoMark)
    ensures var mark := if autoMark then [(cur[i].id, SetStatus(CLEARED))] else [];
      if WasSent(rows, cur[i].id, false) then total == (updates + mark) + StoppedPatches(rows, cur, i + 1, autoMark)
      else total == updates + mark
  {
    StoppedUnfold(rows, cur, i, autoMark);
  }

  /** A stopped pass clears every transaction from `i` up to the first one not
      sent before, `k`, and no other. */
  lemma {:induction false} StoppedAtFirstUnsent(rows: seq<Row>, cur: seq<Tx>, i: nat, k: nat)
    requires i <= k < |cur| && !WasSent(rows, cur[k].id, false)
    requires forall j :: i <= j < k ==> WasSent(rows, cur[j].id, false)
    ensures |StoppedPatches(rows, cur, i, true)| == k + 1 - i
    ensures forall j :: i <= j <= k ==> StoppedPatches(rows, cur, i, true)[j - i] == (cur[j].id, SetStatus(CLEARED))
    decreases k - i
  {
    var p := (cur[i].id, SetStatus(CLEARED));
    if i < k {
      assert WasSent(rows, cur[i].id, false);
      StoppedAtFirstUnsent(rows, cur, i + 1, k);
      var rest := StoppedPatches(rows, cur, i + 1, true);
      assert StoppedPatches(rows, cur, i, true) == [p] + rest;
      forall j | i < j <= k
        ensures StoppedPatches(rows, cur, i, true)[j - i] == (cur[j].id, SetStatus(CLEARED))
      {
        assert ([p] + rest)[j - i] == rest[j - (i + 1)];
      }
    } else {
      assert StoppedPatches(rows, cur, i, true) == [p] + [];
    }
  }

  /** With a failing transport and auto-marking, the first transaction not sent
      before is cleared upstream and then not delivered. The posted query asks
      for uncleared transactions only, so no later pass fetches it again. */
  lemma ClearedButNeverDelivered(rows: seq<Row>, cur: seq<Tx>, k: nat, now: int)
    requires k < |cur| && !WasSent(rows, cur[k].id, false)
    requires forall j :: 0 <= j < k ==> WasSent(rows, cur[j].id, false)
    ensures (cur[k].id, SetStatus(CLEARED)) in StoppedPatches(rows, cur, 0, true)
    ensures PostedQuery(now).status == Some(UNCLEARED)
  {
    StoppedAtFirstUnsent(rows, cur, 0, k);
    assert StoppedPatches(rows, cur, 0, true)[k] == (cur[k].id, SetStatus(CLEARED));
  }

  lemma {:induction false} PostedPatches(w: World, cur: seq<Tx>, i: nat, chatId: int, now: int, autoMark: bool)
    requires i <= |cur|
    ensures var r := Posted(w, cur, i, chatId, now, autoMark);
            r.0.updates == w.updates + (if autoMark then ClearPatches(cur, i) else [])
    ensures var r := Posted(w, cur, i, chatId, now, autoMark);
            forall j :: 0 <= j < |cur| ==>
              r.1[j].id == cur[j].id &&
              r.1[j] == (if autoMark && i <= j then cur[j].(status := CLEARED) else cur[j])
    decreases |cur| - i
  {
    if i < |cur| {
      var (w1, cur1) := PostedStep(w, cur, i, chatId, now, autoMark);
      PostedPatches(w1, cur1, i + 1, chatId, now, autoMark);
      ClearPatchesIds(cur1, cur, i + 1);
      if autoMark {
        assert w1.updates == w.updates + [(cur[i].id, SetStatus(CLEARED))];
      }
    }
  }

  /** With auto-marking, every transaction the pass sends is rendered with the
      status "cleared". */
  lemma {:induction false} PostedRendersCleared(w: World, cur: seq<Tx>, i: nat, chatId: int, now: int)
    requires i <= |cur|
    ensures var w' := Posted(w, cur, i, chatId, now, true).0;
            forall j :: |w.log| <= j < |w'.log| && w'.log[j].Sent? && w'.log[j].body.TxMessage? ==>
              w'.log[j].body.tx.status == CLEARED
    decreases |cur| - i
  {
    if i < |cur| {
      var (w1, cur1) := PostedStep(w, cur, i, chatId, now, true);
      var w' := Posted(w, cur, i, chatId, now, true).0;
      assert w' == Posted(w1, cur1, i + 1, chatId, now, true).0;
      PostedRendersCleared(w1, cur1, i + 1, chatId, now);
      PairedRefl(w1, chatId, false, now);
      PostedPaired(w1, cur1, i + 1, chatId, now, true, w1);
      assert |w1.log| <= |w'.log| && w'.log[..|w1.log|] == w1.log;
      assert cur1[i].status == CLEARED;
      assert w1.log == w.log || w1.log == w.log + [Sent(w.nextId, chatId, Render(cur1[i]), Anchor(w.rows, cur1[i], cur1, chatId))];
      forall j | |w.log| <= j < |w1.log|
        ensures w'.log[j].body.tx.status == CLEARED
      {
        assert w'.log[..|w1.log|][j] == w'.log[j];
        assert w'.log[j] == w1.log[j];
        assert j == |w.log| && w1.log[j].body == Render(cur1[i]);
      }
    }
  }

  // ---------------------------------------------------------------------------
  // Pending mode

  /** The pending pass never anchors a reply, and leaves every posted dedup
      answer as it was. */
  lemma {:induction false} PendingShape(w: World, txs: seq<Tx>, i: nat, chatId: int, now: int)
    requires i <= |txs|
    ensures var w' := Pending(w, txs, i, chatId, now);
            w'.updates == w.updates &&
            (forall j :: |w.log| <= j < |w'.log| ==> w'.log[j].Sent? && w'.log[j].replyTo.None?) &&
            (forall id :: WasSent(w'.rows, id, false) == WasSent(w.rows, id, false))
    decreases |txs| - i
  {
    if i < |txs| {
      var w1 := PendingStep(w, txs[i], chatId, now);
      var w' := Pending(w, txs, i, chatId, now);
      assert w' == Pending(w1, txs, i + 1, chatId, now);
      PendingShape(w1, txs, i + 1, chatId, now);
      PairedRefl(w1, chatId, true, now);
      PendingPaired(w1, txs, i + 1, chatId, now, w1);
      assert |w1.log| <= |w'.log| && w'.log[..|w1.log|] == w1.log;
      if w1 != w {
        assert w1.log == w.log + [Sent(w.nextId, chatId, Render(txs[i]), None)];
        assert w1.rows == w.rows + [SentRow(txs[i], chatId, w.nextId, true, now)];
        forall id ensures WasSent(w1.rows, id, false) == WasSent(w.rows, id, false) {
          PendingPostedIndependent(w.rows, SentRow(txs[i], chatId, w.nextId, true, now), id, true);
        }
        forall j | |w.log| <= j < |w1.log| ensures w'.log[j].Sent? && w'.log[j].replyTo.None? {
          assert w'.log[..|w1.log|][j] == w'.log[j];
        }
      }
    }
  }

  /** After a pending pass every transaction of the list is recorded as a
      pending send, and a second pass sends nothing. */
  lemma {:induction false} PendingCoversAll(w: World, txs: seq<Tx>, i: nat, chatId: int, now: int)
    requires i <= |txs|
    ensures forall j :: i <= j < |txs| ==> WasSent(Pending(w, txs, i, chatId, now).rows, txs[j].id, true)
    ensures forall id :: WasSent(w.rows, id, true) ==> WasSent(Pending(w, txs, i, chatId, now).rows, id, true)
    decreases |txs| - i
  {
    if i < |txs| {
      var w1 := PendingStep(w, txs[i], chatId, now);
      if !WasSent(w.rows, txs[i].id, true) {
        assert w1.rows[|w.rows|].txId == txs[i].id;
      }
      assert forall id :: WasSent(w.rows, id, true) ==> WasSent(w1.rows, id, true) by {
        forall id | WasSent(w.rows, id, true) ensures WasSent(w1.rows, id, true) {
          var k :| 0 <= k < |w.rows| && w.rows[k].txId == id && w.rows[k].pending;
          assert w1.rows[k] == w.rows[k];
        }
      }
      PendingCoversAll(w1, txs, i + 1, chatId, now);
    }
  }

  lemma {:induction false} PendingAllSentIsQuiet(w: World, txs: seq<Tx>, i: nat, chatId: int, now: int)
    requires i <= |txs|
    requires forall j :: i <= j < |txs| ==> WasSent(w.rows, txs[j].id, true)
    ensures Pending(w, txs, i, chatId, now) == w
    decreases |txs| - i
  {
    if i < |txs| {
      PendingAllSentIsQuiet(w, txs, i + 1, chatId, now);
    }
  }

  lemma PendingIdempotent(w: World, txs: seq<Tx>, chatId: int, now: int, later: int)
    ensures var w1 := Pending(w, txs, 0, chatId, now);
            Pending(w1, txs, 0, chatId, later) == w1
  {
    PendingCoversAll(w, txs, 0, chatId, now);
    PendingAllSentIsQuiet(Pending(w, txs, 0, chatId, now), txs, 0, chatId, later);
  }
}
