# Lonchera core in Dafny

Lonchera is a Telegram bot for Lunch Money. It polls a chat's Lunch Money
account for new transactions and posts each one as a chat message with action
buttons. It records every message it sent in a small SQLite store, so that a
transaction is not sent twice and a reply can be traced back to its
transaction. Replies set notes or tags. Settings screens choose how often to
poll and which behaviours are on.

This project models that core and proves what it promises:

- `Persistence` is the store. It is a class with the sent-transaction rows
  (`seq<Row>`, append-only except for the reviewed stamp) and the per-chat
  settings rows (`map<int, Settings>`). There is one method per store
  operation.
- `Reconcile` defines the posted and pending reconciliation passes as
  functions over the rows, the chat log and the upstream patches. It proves:
  - dedup;
  - one row per message, paired in order;
  - each id sent at most once;
  - a repeated pass is quiet;
  - auto-mark clears everything fetched.
- `Transactions` holds the handlers as methods over the store, the chat and the
  Lunch Money client. Each handler is proved to compute those passes. It also
  holds the once-a-minute scheduler and the notes/tags reply parser.
- `TxMessaging` covers the transaction message: its buttons, their two-per-row
  layout, the sign of the amount, and edit versus send.
- `Utils` holds the relation finder and the tag maker.
- `Expectations` is the per-chat conversation map.
- `Syncing` is the `/resync` pass.
- `Schedule` and `SettingsMenu` hold the interval label, the interval menu,
  the toggles, token registration from a command, and logout.
- `Session` holds the 50-hex-digit token extractor and its registration flow.
- `Balances` holds the balances bitmask and its toggle buttons.
- `Budget` covers the budget month navigation, the category keyboard and the
  budget bar and totals.
- `RelativeTime` is the uptime text of the status page.

Outside effects are modelled as explicit state:

- `Telegram.Bot` is the chat transport. It keeps a log of outgoing messages
  and issues fresh message ids. A `reachable` flag stands for a transport that
  fails, and an `alreadyShows` input says which edits Telegram refuses as not
  modified, the message already showing that text and keyboard.
- `Lunch.Client` is the Lunch Money client. It keeps a log of queries and
  patches. The answers it returns are inputs to the handlers.
- Clock readings are parameters (`now`), in whole seconds. One reading per
  handler run or tick stands for every reading the source takes in it. The store keeps the
  invariant `Store.Valid()`: row creation stamps never decrease. Recording a
  send requires that no stored row is later than `now`, that is, the clock
  does not go back.

The model follows the code, including where it departs from its evident
intent:

- `was_already_sent` ignores the chat (persistence.py:135-142). A transaction
  sent in one chat counts as sent for every chat.
- The relation finder does not exclude the transaction itself. Its payee test
  compares a transaction's payee with itself (utils.py:14), so only the
  opposite amount matters.
- A poll interval of 0 does not disable polling. Such a chat is due on every
  tick (handlers/transactions.py:449-451).
- A poll that fails does not advance `last_poll_at`. The exception ends the
  tick (handlers/transactions.py:453-462).
- A failing message send is not caught per transaction. It ends the pass, after
  that transaction's auto-mark patch.

## Model

| member | source | states |
|---|---|---|
| Persistence.DefaultSettings | persistence.py:60-97 | a new settings row holds the token, interval 3600, no last poll, show-datetime and tagging on, every other flag off, timezone "UTC" |
| Persistence.WithFlag | persistence.py:261-309 | setting one flag gives it the new value and leaves every other flag, the token, interval, last poll, creation time and timezone as they were |
| Persistence.WithToken | persistence.py:115-124 | the token upsert: an existing chat keeps its row with only the token replaced, a new chat gets the default row, other chats are untouched |
| Persistence.SaveTokenTwice | persistence.py:115-124 | saving two tokens in a row leaves the second token on the row created by the first save |
| Persistence.Latest | persistence.py:185-193 | the chosen row matches the transaction and chat and has the greatest creation stamp among matches; there is none iff no row matches |
| Persistence.LatestIsLastInserted | persistence.py:185-193 | with non-decreasing stamps, no matching row comes after the latest one |
| Persistence.RowsOfChat | persistence.py:181-183 | the rows of one chat are never more than all rows |
| Persistence.RowsOfChatMembers | persistence.py:181-183 | a row is listed for a chat iff it is stored and belongs to that chat |
| Persistence.RowsNotOfChat | persistence.py:195-200 | after deleting a chat's rows, a row remains iff it was stored and belongs to another chat |
| Persistence.DeleteTwiceIsOnce | persistence.py:195-200 | deleting a chat's rows twice is the same as once |
| Persistence.DeleteKeepsOtherChats | persistence.py:195-200 | deleting one chat's rows leaves every other chat's rows, in order, and none of that chat's |
| Persistence.RowsNotOfChatKeepsOrder | persistence.py:195-200 | deleting a chat's rows keeps the remaining stamps in order and above any bound the rows were above |
| Persistence.SetReviewed | persistence.py:202-226 | the reviewed stamp is set on every row matching message and chat, and every other row is unchanged |
| Persistence.SetReviewedKeepsOrder | persistence.py:202-226 | setting or clearing reviewed stamps keeps the creation stamps in order |
| Persistence.ReviewKeepsLookups | persistence.py:202-226 | marking reviewed or unreviewed changes neither the dedup answer nor the message-id lookup |
| Persistence.PendingPostedIndependent | persistence.py:135-166 | recording a send with one pending flag leaves the dedup answer for the other flag unchanged and makes its own flag's answer true |
| Persistence.Store.constructor | persistence.py:110-113 | a new store has no rows and no settings, and its stamps are trivially ordered |
| Persistence.Store.WasAlreadySent | persistence.py:135-142 | true iff some row, of any chat, has the transaction id and the pending flag |
| Persistence.WasSent | persistence.py:135-142 | the dedup test over the rows: some row of any chat has the id and the pending flag; Store.WasAlreadySent answers it |
| Persistence.Store.MarkAsSent | persistence.py:144-166 | appends exactly one row with the given fields, reviewed stamp set iff reviewed, and changes nothing else; with a clock that does not go back the stamps stay ordered |
| Persistence.Store.GetTxAssociatedWith | persistence.py:168-175 | None iff no row matches message and chat; otherwise the transaction id of some matching row |
| Persistence.Store.GetAllTxByChatId | persistence.py:181-183 | the chat's rows |
| Persistence.Store.GetMessageIdAssociatedWith | persistence.py:185-193 | the message id of a matching row with the greatest creation stamp, or None iff no row matches; in a valid store that is the last matching row inserted |
| Persistence.MessageIdFor | persistence.py:185-193 | the message id of the row Latest picks, None iff no row matches; stated by LatestIsLastInserted and Store.GetMessageIdAssociatedWith |
| Persistence.Store.DeleteTransactionsForChat | persistence.py:195-200 | removes exactly the chat's rows and keeps the settings |
| Persistence.Store.MarkAsReviewed | persistence.py:202-213 | stamps every matching row with `now`; no match changes nothing |
| Persistence.Store.MarkAsUnreviewed | persistence.py:215-226 | clears the stamp of every matching row; no match changes nothing |
| Persistence.Store.SaveToken | persistence.py:115-124 | the settings become the token upsert and the rows are untouched |
| Persistence.Store.GetToken | persistence.py:126-129 | the chat's token iff it has a settings row |
| Persistence.Store.GetAllRegisteredChats | persistence.py:131-133 | every chat with a settings row, each once |
| Persistence.Store.GetCurrentSettings | persistence.py:228-233 | the chat's row, or NoLunchToken iff it has none |
| Persistence.Store.UpdatePollInterval | persistence.py:235-243 | replaces only the interval of an existing row; no row is a no-op |
| Persistence.Store.UpdateLastPollAt | persistence.py:245-253 | replaces only the last poll time of an existing row; no row is a no-op |
| Persistence.Store.UpdateFlag | persistence.py:261-309 | replaces only the named flag of an existing row; no row is a no-op |
| Persistence.Store.UpdateTimezone | persistence.py:311-319 | replaces only the timezone of an existing row; no row is a no-op |
| Persistence.Store.Logout | persistence.py:255-259 | removes the chat's settings row and all its transaction rows and nothing else |
| Utils.FindRelated | utils.py:10-16 | the first element with the negated amount, no earlier element having it; None iff no element has it |
| Utils.Related | utils.py:14 | the test inside `find_related_tx` as written, whose payee disjunct is always true; stated by RelatedIsOppositeAmount |
| Utils.RelatedIsOppositeAmount | utils.py:14 | the match condition holds iff the amounts cancel, whatever the dates and payees |
| Utils.ZeroAmountMatchesInBatch | utils.py:13-15 | a zero-amount transaction in the list always finds a zero-amount match, possibly itself |
| Utils.TitleFrom | utils.py:6 | ASCII title-casing keeps the length and which positions are ASCII letters, and keeps every other character |
| Utils.TitleIdempotent | utils.py:6 | ASCII title-casing twice is ASCII title-casing once |
| Utils.MakeTag | utils.py:5-7 | the tag starts with `#`, has no space and no dot after it, and keeps every other character of the ASCII-title-cased input |
| Utils.MakeTagOfWord | utils.py:5-7 | for a word with no space or dot the tag is `#` and the ASCII-title-cased word |
| Expectations.Lookup | handlers/expectations.py:14-15 | a chat never set has no expectation; otherwise its stored entry |
| Expectations.Cleared | handlers/expectations.py:22-25 | clearing an absent chat is a KeyError that changes nothing; otherwise it returns the previous entry and leaves the chat mapped to None |
| Expectations.GetAfterSet | handlers/expectations.py:18-19 | after a set the chat reads back the value, None included, and other chats are unchanged |
| Expectations.ClearTwice | handlers/expectations.py:22-25 | a second clear succeeds with None and changes nothing |
| Expectations.ClearNeedsPriorSet | handlers/expectations.py:22-25 | clearing succeeds after a set to None and fails for a chat never set |
| Expectations.Expectations.constructor | handlers/expectations.py:11 | the map starts empty |
| Expectations.Expectations.Get | handlers/expectations.py:14-15 | answers the lookup |
| Expectations.Expectations.Set | handlers/expectations.py:18-19 | stores the entry for that chat only |
| Expectations.Expectations.Clear | handlers/expectations.py:22-25 | answers and updates the map as the clearing function says |
| Lists.Chunk | tx_messaging.py:45 | consecutive groups of `n`: ceil(len/n) rows, each of 1 to n items, all but the last full |
| Lists.FlattenChunk | tx_messaging.py:45 | the rows concatenated give back the flat list, order preserved |
| TxMessaging.Actions | tx_messaging.py:21-43 | an action is present iff its flag is on, in the fixed order Categorize, Dump plaid details, Skip, Mark as reviewed |
| TxMessaging.ButtonList | tx_messaging.py:21-43 | one button per enabled action, in action order |
| TxMessaging.TxButtons | tx_messaging.py:45 | ceil(n/2) rows of one or two buttons, only the last possibly short |
| TxMessaging.TxButtonsContents | tx_messaging.py:21-46 | the rows concatenated are the flat button list, and an action's button appears iff its flag is on |
| TxMessaging.CallbackRoundTrip | tx_messaging.py:25-41 | a button's data splits on `_` into its prefix and the transaction id, which parses back to the id |
| TxMessaging.FlagsFor | tx_messaging.py:100-109 | plaid always; categorize iff not recurring; skip and mark-reviewed iff not pending |
| TxMessaging.Render | tx_messaging.py:79-109 | the rendered body shows the transaction, marks a credit iff the amount is negative, and carries its buttons |
| TxMessaging.ShownAmountRoundTrip | tx_messaging.py:79-88 | the shown absolute amount with the credit mark gives back the amount |
| TxMessaging.SendTransactionMessage | tx_messaging.py:111-131 | a truthy message id is edited and returned, unless Telegram refuses the edit as not modified, which fails with nothing logged; otherwise a new message, with its reply anchor, is sent and its fresh id returned; a transport failure changes nothing |
| TxMessaging.EditsExisting | tx_messaging.py:111 | the `if message_id:` test, under which SendTransactionMessage edits rather than sends; an id of 0 counts as absent |
| Telegram.ReplyAnchor | handlers/transactions.py:145 | the default quoting of `reply_text`: no anchor iff the chat is private, the answered message otherwise |
| TxMessaging.SendPlaidDetails | tx_messaging.py:134-151 | sends the details in reply to the pressed message, then redraws its buttons without the plaid button |
| TxMessaging.PlaidRedrawDropsOnlyPlaid | tx_messaging.py:149-151 | the redrawn keyboard holds Categorize, Skip and Mark as reviewed in two rows |
| Lunch.Midnight | handlers/transactions.py:32-35 | the start of the day: at most the time, less than a day before it, a whole number of days |
| Lunch.Client.constructor | lunch.py:9-10 | a new client has made no queries, no updates and no lookups |
| Lunch.Client.GetTransactions | handlers/transactions.py:39-44 | the query is logged and the given answer returned |
| Lunch.Client.UpdateTransaction | handlers/transactions.py:51-53 | the patch is logged and nothing else changes |
| Lunch.Client.GetTransaction | handlers/transactions.py:388 | the looked-up id is logged and the given answer, a transaction or a failure, returned |
| Reconcile.PostedQuery | handlers/transactions.py:32-44 | uncleared, not pending, from the midnight 30 days back to today's midnight |
| Reconcile.PendingQuery | handlers/transactions.py:93-102 | pending only, no status, from the midnight 15 days back to today's midnight |
| Reconcile.KeepPending | handlers/transactions.py:104 | keeps exactly the transactions that are pending and have no notes, never adding any |
| Reconcile.SendAndRecord | handlers/transactions.py:74-83 | a send and its record leave the patches alone and use one fresh message id |
| Reconcile.MarkStep | handlers/transactions.py:49-54 | the auto-mark step keeps the list length |
| Reconcile.PostedStep | handlers/transactions.py:49-83 | one iteration keeps the list length |
| Reconcile.Posted | handlers/transactions.py:49-85 | the posted loop returns a list of the fetched length |
| Reconcile.PostedPaired | handlers/transactions.py:74-83 | the posted pass only appends, one message per row, each row holding the fresh id of its message, not pending, with no reviewed stamp |
| Reconcile.Anchor | handlers/transactions.py:64-72 | the reply anchor: the latest message id in this chat of the first related transaction of the whole fetched list, None without one; PostedPaired carries it into every sent message |
| Reconcile.PendingPaired | handlers/transactions.py:108-120 | the pending pass pairs messages and rows the same way, with rows marked pending |
| Reconcile.PendingStep | handlers/transactions.py:109-120 | one pending iteration: skip an id already sent as pending, otherwise send with no anchor and record a pending row |
| Reconcile.Pending | handlers/transactions.py:108-120 | the pending loop as a fold, whose content PendingPaired, PendingShape, PendingCoversAll and PendingIdempotent state |
| Reconcile.PostedCoversAll | handlers/transactions.py:56-83 | after the posted pass every fetched id counts as sent, and everything sent before still does |
| Reconcile.PostedAllSentIsQuiet | handlers/transactions.py:56-60 | when every fetched id was already sent, the pass adds no row and no message |
| Reconcile.PostedIdempotent | handlers/transactions.py:56-83 | a second posted pass over the same list adds no row and no message |
| Reconcile.PostedSendsEachIdOnce | handlers/transactions.py:56-83 | every row the pass adds is for an id not sent before, and no id is added twice |
| Reconcile.StoppedAtFirstUnsent | handlers/transactions.py:49-83 | a posted pass stopped by a failing transport, with auto-mark, patches to cleared exactly the transactions up to and including the first one not sent before, in order |
| Reconcile.ClearedButNeverDelivered | handlers/transactions.py:32-83 | with a failing transport and auto-mark, the first transaction not sent before is patched to cleared upstream though its message is not delivered, and the posted query asks for uncleared transactions only, so no later pass fetches it again |
| Reconcile.PostedPatches | handlers/transactions.py:49-54 | with auto-mark every fetched transaction, sent or skipped, is patched to cleared in order and returned cleared; without it nothing is patched or changed |
| Reconcile.ClearPatches | handlers/transactions.py:49-54 | the cleared patch of each transaction from `i` on, in order; the patch log PostedPatches states |
| Reconcile.StoppedPatches | handlers/transactions.py:49-83 | the patches of a pass stopped by a failing send, whose content StoppedAtFirstUnsent states |
| Reconcile.PostedRendersCleared | handlers/transactions.py:49-76 | with auto-mark every message the pass sends shows a cleared transaction |
| Reconcile.PendingShape | handlers/transactions.py:108-120 | the pending pass patches nothing, sends without a reply anchor, and leaves the posted dedup answers unchanged |
| Reconcile.PendingCoversAll | handlers/transactions.py:108-120 | after the pending pass every kept id counts as sent with pending, and everything sent before still does |
| Reconcile.PendingAllSentIsQuiet | handlers/transactions.py:109-111 | when every kept id was already sent as pending, the pass changes nothing |
| Reconcile.PendingIdempotent | handlers/transactions.py:108-120 | a second pending pass over the same list changes nothing |
| Transactions.CheckPosted | handlers/transactions.py:28-85 | issues the posted query; a failed fetch or missing settings row changes nothing; otherwise rows, log, patches and the returned list are exactly the posted pass; with a failing transport it succeeds iff every fetched id was already sent, and fails with the transport error otherwise, and with auto-mark the fetched transactions up to and including the first unsent one are patched to cleared upstream |
| Transactions.PostedIteration | handlers/transactions.py:49-83 | one loop iteration computes exactly one step of the posted pass, and patches its transaction to cleared upstream iff auto-mark is on, before the send and whether or not the send succeeds |
| Transactions.PostedLoop | handlers/transactions.py:49-87 | on a reachable transport the loop yields exactly the posted pass and its list; on a failing one rows and log are unchanged, it succeeds iff every id was already sent, and the patches are exactly those of the pass stopped at the first unsent transaction |
| Transactions.PendingLoop | handlers/transactions.py:108-122 | on a reachable transport the loop yields exactly the pending pass and returns its whole list; on a failing one rows and log are unchanged and it succeeds iff every id was already sent as pending |
| Transactions.CheckPending | handlers/transactions.py:88-122 | issues the pending query; a failed fetch changes nothing; otherwise rows, log and the returned filtered list are exactly the pending pass; with a failing transport it succeeds iff every kept id was already sent as pending |
| Transactions.CheckChat | handlers/transactions.py:133-140 | the mode is chosen by poll-pending alone and the chosen pass is run, with the failing-transport outcome of that pass, including the cleared patches a stopped posted pass leaves upstream |
| Transactions.HandleCheckTransactions | handlers/transactions.py:125-146 | no settings row does nothing; otherwise the chosen pass runs, the last poll time becomes `now`, and an empty result adds the "No unreviewed" reply, quoting the command only outside a private chat; with a failing transport nothing is sent, the poll time is recorded iff every id was already sent, and the result succeeds iff that list is also nonempty, because the reply to an empty one raises; a stopped posted pass leaves the cleared patches of the fetched transactions up to and including the first unsent one |
| Transactions.AfterTick | handlers/transactions.py:453-462 | a due chat gets its last poll time set to `now`; a chat not due is unchanged |
| Transactions.ZeroIntervalAlwaysDue | handlers/transactions.py:444-451 | an interval of 0 makes a chat due on every tick from its last poll on |
| Transactions.DueAgainAfterInterval | handlers/transactions.py:449-451 | after a poll with a positive interval the chat is due again exactly once the interval has passed |
| Transactions.Due | handlers/transactions.py:444-451 | the due test of the tick, never polled or the interval elapsed; stated by DueAgainAfterInterval, ZeroIntervalAlwaysDue and NextPollAgreesWithDue |
| Transactions.Tick | handlers/transactions.py:424-462 | without an error every due chat is polled and stamped and no other chat changes; an error ends the tick at a due chat whose fetch or transport failed, leaving that chat unstamped |
| Transactions.RepliesAreTags | handlers/transactions.py:364-369 | the reply is tags iff every space-separated word starts with `#` |
| Transactions.TagsOf | handlers/transactions.py:373-375 | no more tags than words |
| Transactions.Hashed | handlers/transactions.py:373-375 | one hashed word per tag |
| Transactions.ReplyPatch | handlers/transactions.py:372-385 | tags are the words without `#`; notes are the first 350 characters of the reply |
| Transactions.HashedTagsOf | handlers/transactions.py:373-375 | putting `#` back before each tag gives back the words |
| Transactions.TagReplyRoundTrip | handlers/transactions.py:364-378 | a tag reply is recovered from its tags |
| Transactions.DoubleSpaceMeansNotes | handlers/transactions.py:366-369 | a double space makes an empty word, so the reply is notes |
| Transactions.EmptyReplyIsNotes | handlers/transactions.py:364-384 | an empty reply is notes, stored as empty notes |
| Transactions.HandleSetTxNotesOrTags | handlers/transactions.py:339-394 | an unknown replied-to message gets the not-found text and no patch, or the transport error; otherwise the transaction of a matching row gets the tags or notes patch, that same id is fetched again, and the answer is redrawn in place and the id returned; a failed fetch or send is returned as that failure with nothing drawn; an edit Telegram refuses as not modified fails with NotModified and nothing drawn |
| Syncing.ParseDays | handlers/syncing.py:15-18 | the default is 15 days; a second word must parse as an integer, else ValueError |
| Syncing.MinCreated | handlers/syncing.py:25 | the earliest creation stamp of the rows |
| Syncing.MaxCreated | handlers/syncing.py:29 | the latest creation stamp of the rows |
| Syncing.Window | handlers/syncing.py:25-34 | ends at the midnight of the latest row; starts `days` before it, or for 0 days at the midnight of the earliest row less 5 days |
| Syncing.Since | handlers/syncing.py:50 | keeps exactly the rows created at or after the start |
| Syncing.Selected | handlers/syncing.py:49-50 | 0 days keeps every row; otherwise exactly the rows inside the window |
| Syncing.PositiveWindowKeepsNewest | handlers/syncing.py:29-50 | a positive window never drops the newest row |
| Syncing.ByTxId | handlers/syncing.py:45 | the last fetched transaction with that id, as a dict built from the list keeps; None iff there is none |
| Syncing.ResyncCounts | handlers/syncing.py:52-82 | each row adds at most one to errors or missing, and on a working transport the errors are exactly the listed transactions whose edit Telegram refuses as not modified |
| Syncing.Refused | handlers/syncing.py:60-62 | a redraw is refused when it is an edit and the message already shows the rendered text and keyboard; its use is stated by RefusedRedrawIsError |
| Syncing.RefusedRedrawIsError | handlers/syncing.py:59-73 | a listed transaction whose edit Telegram refuses adds one error and changes nothing else: no stamp, no message |
| Syncing.RefusedRows | handlers/syncing.py:55-73 | the number of walked rows whose listed transaction gets a refused edit, the count ResyncCounts equates with the errors |
| Syncing.ResyncStep | handlers/syncing.py:55-82 | one row of the loop, in all its branches; its content is stated by ResyncCounts, ResyncKeepsRows, ResyncOnlyRedraws and RefusedRedrawIsError |
| Syncing.Resync | handlers/syncing.py:52-82 | the loop over the walked rows as a fold, whose content the Resync lemmas state and ResyncAll computes |
| Syncing.ResyncKeepsRows | handlers/syncing.py:64-68 | resync changes only reviewed stamps: no row added or removed, dedup and message lookups unchanged |
| Syncing.ResyncOnlyRedraws | handlers/syncing.py:60-79 | every message resync emits edits a selected row's message in this chat, or is a send for a row whose message id is 0 |
| Syncing.ResyncUnreachable | handlers/syncing.py:55-82 | with a failing transport the resync leaves rows, log and fresh ids alone and counts every walked row as an error or missing |
| Syncing.ResyncRow | handlers/syncing.py:55-82 | one row, exactly the resync step: edit with the fetched transaction and set or clear its reviewed stamp by status; a failed or refused edit counts an error and leaves the stamp; otherwise refetch and edit, a failure or refusal counting as missing |
| Syncing.ResyncAll | handlers/syncing.py:52-82 | the loop computes the resync fold over the selected rows from zero counters |
| Syncing.ResyncChat | handlers/syncing.py:21-91 | issues the window query; a failed fetch changes no row; otherwise rows, log and report are the resync of the selected rows, refused edits counted as errors; with a failing transport no row or message changes and the transport error is returned |
| Syncing.HandleResync | handlers/syncing.py:13-91 | a bad day count or a chat with no rows raises before any fetch; otherwise as ResyncChat, refused edits included, the failing-transport case included |
| Syncing.ReportedCountBounded | handlers/syncing.py:84-91 | the reported count lies between 0 and the number of selected rows, and on a working transport the reported errors are exactly the refused edits of listed transactions |
| Schedule.Label | handlers/settings/schedule_rendering.py:18-34 | 0 is Disabled; below an hour whole minutes, below a day whole hours, otherwise whole days, floor-divided, so the count times its unit is within one unit below the interval; handlers/settings.py:85-101 repeats the same branches |
| Schedule.LabelText | handlers/settings/schedule_rendering.py:20-34 | Disabled is plain; counts are in code font and drop the plural `s` only for 1 hour or 1 day, never for minutes |
| Schedule.LabelTextCount | handlers/settings/schedule_rendering.py:23-34 | the shown count reads back as the floor-divided interval |
| Schedule.ShortIntervals | handlers/settings/schedule_rendering.py:23-24 | under a minute shows "0 minutes" and under two minutes "1 minutes" |
| Schedule.NextPollAt | handlers/settings/schedule_rendering.py:36-44 | shown iff the interval is nonzero and a poll happened, at the last poll plus the interval; handlers/settings.py:103-108 repeats this |
| Schedule.NextPollAgreesWithDue | handlers/settings/schedule_rendering.py:36-44 | the time shown is exactly when the scheduler finds the chat due |
| Schedule.DisabledStillPolls | handlers/settings/schedule_rendering.py:20-21 | a chat shown as Disabled has no next-poll line but is still due on every tick |
| Schedule.MenuButtons | handlers/settings/schedule_rendering.py:119-126 | 300, 1800, 3600, 14400, 86400 and 0 with their captions, then Cancel |
| Schedule.IntervalChange | handlers/settings/schedule_rendering.py:105-130 | data without `_` shows the menu; a non-integer raises; otherwise only the chat's interval changes, and a chat without a row raises after the no-op write |
| Schedule.IntervalDataRoundTrip | handlers/settings/schedule_rendering.py:120-125 | a menu entry's data splits into the prefix and the interval, which parses back |
| Schedule.MenuChoiceStores | handlers/settings/schedule_rendering.py:109-125 | choosing a menu entry stores exactly the interval it names |
| Schedule.ChangePollInterval | handlers/settings/schedule_rendering.py:105-130 | the handler's answer and new settings are the interval change; handlers/settings.py:210-236 is the same handler |
| Schedule.Toggled | handlers/settings/schedule_rendering.py:145-180 | negates exactly the chosen flag of the chat and answers the settings read before; a chat without a row raises and changes nothing |
| Schedule.ToggleTwiceRestores | handlers/settings/schedule_rendering.py:145-180 | toggling the same flag twice restores the table |
| Schedule.Toggle | handlers/settings/schedule_rendering.py:145-180 | the handler's answer and new settings are the toggle; the handlers at handlers/settings.py:194-208 and 297-332 are the same |
| SettingsMenu.ChosenToken | handlers/settings.py:33-36 | the override when given, otherwise the second space-separated word |
| SettingsMenu.CommandToken | handlers/settings.py:19-36 | `/register <token>` does not ask and registers exactly that word |
| SettingsMenu.BareCommandAsks | handlers/settings.py:19 | a command without a space asks for a token |
| SettingsMenu.HandleRegisterToken | handlers/settings.py:15-77 | without a token it asks and records the token expectation; otherwise the command is deleted and the token saved only after the user lookup succeeded, with the welcome or failure text |
| SettingsMenu.HandleLogoutConfirm | handlers/settings.py:263-269 | removes the chat's settings and rows, then deletes the menu message |
| Session.SearchFrom | handlers/settings/session.py:120 | the leftmost match at or after the position, or None iff there is none |
| Session.ExtractApiToken | handlers/settings/session.py:113-123 | None iff nothing matches; otherwise the leftmost 50 lowercase hex digits bounded by non-word characters or the ends |
| Session.ExactTokenIsItself | handlers/settings/session.py:115-123 | a message that is exactly a token gives that token |
| Session.LongRunHasNoToken | handlers/settings/session.py:115 | no match starts inside a run of more than 50 hex digits |
| Session.HexRunTooLong | handlers/settings/session.py:115 | a message of more than 50 hex digits alone has no token |
| Session.UppercaseRejected | handlers/settings/session.py:115 | an uppercase hex digit makes a 50-character message no token |
| Session.FailureText | handlers/settings/session.py:193-228 | the revoked-token text for a revoked token, the generic failure otherwise |
| Session.HandleRegisterToken | handlers/settings/session.py:126-228 | no token sends the hint and saves nothing; otherwise the message is deleted, the token saved before the expectation is cleared, so a KeyError still leaves it saved, then the hello message is deleted and the welcome sent |
| Session.HandleLogoutConfirm | handlers/settings/session.py:78-85 | removes the chat's settings and rows, then deletes the menu message |
| Balances.Pow2 | handlers/balances.py:18-21 | `1 << k` is positive |
| Balances.FlagValues | handlers/balances.py:18-21 | the four flags are the bits 1, 2, 4 and 8 |
| Balances.IsShow | handlers/balances.py:25-38 | `bool(mask & (1 << k))` for any Python integer, negative masks included; stated by FlipOneBit |
| Balances.Flip | handlers/balances.py:48-66 | `mask ^ (1 << k)`; FlipOneBit states that it toggles bit `k` and keeps every other bit |
| Balances.FlipOneBit | handlers/balances.py:48-66 | XOR with a flag toggles that bit and keeps every other bit, negative masks included |
| Balances.FlipTwice | handlers/balances.py:48-66 | pressing a toggle twice gives the mask back |
| Balances.AccountsButtons | handlers/balances.py:41-72 | four buttons: balances, assets, crypto, details, each carrying the mask with its bit flipped |
| Balances.ButtonFlipsItsBit | handlers/balances.py:44-70 | a button's data parses to the mask with exactly its bit flipped, and its box is ticked iff the bit is set now |
| Balances.Sections | handlers/balances.py:173-183 | a section is shown iff its bit is set, in the order balances, assets, crypto |
| Balances.ShowBalances | handlers/balances.py:163-199 | the sections, details iff the bit is set, the buttons of the mask, edited in place iff a truthy message id is given |
| Balances.DefaultScreen | handlers/balances.py:163-167 | the default mask shows the Plaid accounts only, without details, in a new message |
| Balances.AccountsBalancesPress | handlers/balances.py:202-217 | data without `_` or a non-integer raises; a mask with no section is only answered; otherwise the screen is redrawn for that mask |
| Balances.RefusalIgnoresDetails | handlers/balances.py:207-213 | whether a press is refused does not depend on the details bit |
| Balances.LastSectionCannotBeHidden | handlers/balances.py:206-213 | pressing the button of the only section shown is refused |
| Budget.Replace | budget_messaging.py:18-39 | `replace` succeeds iff the new date is valid, keeping the day, else ValueError |
| Budget.PreviousMonth | budget_messaging.py:17-24 | one month back, December of the year before for January, same day; always defined for days up to 28 |
| Budget.NextMonth | budget_messaging.py:32-39 | one month on, January of the next year for December, same day; always defined for days up to 28 |
| Budget.MonthRoundTrip | budget_messaging.py:17-39 | the next month of the previous month is the date itself |
| Budget.BudgetButtons | budget_messaging.py:16-66 | a previous button, a next button iff the date is before this month, and a Details row; fails iff a needed `replace` fails |
| Budget.NextOnlyForPastMonths | budget_messaging.py:26-39 | a budget of this or a later month has no next button; an earlier one does |
| Budget.TopLevel | budget_messaging.py:96-99 | keeps exactly the items with no group and a category id |
| Budget.CategoryButtons | budget_messaging.py:69-88 | one button per item in order, in rows of 3, only the last short, then the Exit row |
| Budget.Rep | budget_messaging.py:112 | `c * n` has length n, or 0 for negative n |
| Budget.Bar | budget_messaging.py:109-116 | 0 to 10 blocks give 10 cells with the first `blocks` filled; above 10 ten filled cells and `blocks - 10` extra |
| Budget.TruncDiv | budget_messaging.py:110 | `int()` truncation toward zero: the quotient's size is the floor of the sizes' quotient |
| Budget.WithinBudgetFitsBar | budget_messaging.py:107-112 | spending within budget draws 0 to 10 blocks and no extra |
| Budget.OverspentOverflows | budget_messaging.py:107-116 | spending twice the budget draws at least 20 blocks, the surplus as extra |
| Budget.SplitFirst | budget_messaging.py:119 | `split(" ", 1)` fails iff there is no space; otherwise the first word and the rest around the first space |
| Budget.BuildBudgetMessage | budget_messaging.py:91-129 | the loop computes the budget summary function |
| Budget.Built | budget_messaging.py:96-129 | the loop as a recursion, with its three raising exits, whose content RenderedTotals, OnlyTopLevelCounts and NoTopLevelIsUnbound state |
| Budget.Finish | budget_messaging.py:126-129 | after the loop: unbound with no top-level item, a zero division for a zero total, the summary otherwise |
| Budget.OnlyTopLevelCounts | budget_messaging.py:95-99 | the result depends only on the top-level items |
| Budget.Lines | budget_messaging.py:119-124 | one line per rendered item |
| Budget.RenderedTotals | budget_messaging.py:93-128 | when every top-level item renders, the totals are the sums over the top-level items |
| Budget.NoTopLevelIsUnbound | budget_messaging.py:126-128 | with no top-level item the total line fails with an unbound `budget_data` |
| RelativeTime.RStrip | web_server.py:34 | `rstrip` removes exactly the trailing run of the character |
| RelativeTime.FormatRelativeTime | web_server.py:18-40 | the loop computes the uptime text |
| RelativeTime.RelativeTimeText | web_server.py:18-40 | the text of `format_relative_time`, whose content Decomposition, PartsEmpty, ZeroJustStarted and JustStartedOnlyForZero state |
| RelativeTime.Decomposition | web_server.py:29-32 | the values times their units add to the input; days < 7, hours < 24, minutes < 60, seconds < 60; weeks are negative iff the input is |
| RelativeTime.SingularOnlyForOne | web_server.py:33-34 | the unit name loses its plural `s` exactly for the value 1 |
| RelativeTime.PartsEmpty | web_server.py:29-37 | no part is listed iff every value is zero |
| RelativeTime.ZeroJustStarted | web_server.py:37-40 | zero seconds reads "just started ago" |
| RelativeTime.JustStartedOnlyForZero | web_server.py:37-40 | "just started ago" comes back for zero seconds only |

## Left out

- Message texts are abbreviated to their distinguishing lines. Markdown escaping, `dedent`, `strftime` dates, pytz conversion and the "-02:00" substitution are not modelled.
- Transaction message body: only the transaction, the credit mark, the shown amount and the keyboard are kept; the payee, category, account, notes and tags lines are not modelled.
- `Keyboard.build` is not part of this model. Menus built with it are flat button lists.
- Floats: amounts are integer cents. The budget percentage is exact integer arithmetic over `spent * 10 / budgeted`, without float rounding. Uptime is whole seconds. The `.1f`/`.2f` formatting is not modelled.
- Budget dates are calendar days at midnight; times of day are not modelled.
- The budget item's `next(iter(data.items()))` is modelled as the item's single month of data.
- Regex word characters are taken as ASCII `[A-Za-z0-9_]`, not Unicode.
- `int()` accepts an optional sign and ASCII digits only; whitespace and underscores are not modelled.
- amazon.py, handlers/amz.py, deepinfra.py, manual_tx.py, handlers/analytics.py and `get_db_size`: file I/O, HTTP calls and float sums, outside this model.
- web_server.py's HTTP handler and status page: only `format_relative_time` is modelled.
- Concurrency: handlers and ticks run one at a time; the job queue and the absence of a per-chat lock are not modelled.
- The Lunch Money client cache in lunch.py is not modelled. A client is a parameter, and the model follows the path on which `get_lunch_client_for_chat_id` (lunch.py:13-22) answers with a client, as a cached one does. Lost with it: for a chat with no token and no cached client the source raises "No token registered for this chat" before any query (handlers/transactions.py:38 and :99), while the model's CheckPosted logs the query, returns a failed fetch's error first and fails with NoLunchToken only at the settings read, and CheckPending fetches, sends and records without any registration check. The cache is never invalidated by `save_token` or `logout`, so a replaced or removed token keeps being used; the model does not capture that either.
- Upstream patches (`update_transaction`) never fail in the model, so a failing auto-mark patch or notes/tags patch is not modelled.
- Telegram.Bot has one `reachable` flag per run. A transport that fails part-way through a pass is not modelled.
- Telegram.Bot.Edit: Telegram's "message is not modified" refusal is the bot's `alreadyShows` input, not computed from what a message shows, since that is Telegram's state. `edit_message_reply_markup` is never refused in the model; its one use, the plaid redraw, always drops a button the message shows.
- Callback answers and `set_message_reaction` are not modelled. They change no state the model keeps.
- handle_generic_message in handlers/general.py is not modelled. Its early return in `handle_set_tx_notes_or_tags` is treated as not taken.
- handlers/general.py, handlers/budget.py, handlers/categorization.py, handlers/settings/general.py and handlers/settings/transactions_handling.py are menu glue and are not modelled. So are `handle_btn_set_token_from_button`, `handle_settings`, `handle_logout`, `handle_logout_cancel`, `handle_btn_done_settings` and `handle_btn_trigger_plaid_refresh`.
- main.py, messaging.py, buttons.py and handlers.py: older versions of the modelled code, not modelled.
- The summary text builders of handlers/balances.py are not modelled: `get_accounts_summary_text`, `get_assets_summary_text` and `get_crypto_summary_text`. Sections are named, not rendered.
- Transactions.Tick: states the effect on settings and the failure. What each polled chat's pass sends is stated by CheckChat, not composed across chats in Tick's contract.
- Persistence.Store.GetTxAssociatedWith: states only that some matching row's id is returned, because SQLite's `first()` without an order leaves the row unspecified.
- Utils.TitleFrom: title-casing is ASCII-only. Python's `str.title()` also cases every other Unicode letter, and can change the length (`"ß".title()` is `"Ss"`). So `make_tag("élan")` is `#Élan` in the source and `#éLan` in the model; the Unicode case tables are not modelled.
- Utils.TitleIdempotent: proved for the ASCII title-casing only, not for `str.title()` over all of Unicode.
- Utils.MakeTag: the `#` prefix and the removal of spaces and dots are as the source does them; the title-casing inside is ASCII-only, as for TitleFrom.
- Utils.MakeTagOfWord: rests on the ASCII-only title-casing; a word with non-ASCII letters gets a different tag in the source.
- Persistence.Store.GetMessageIdAssociatedWith: settles a tie of creation stamps on the later-inserted row. `order_by(created_at.desc()).first()` leaves the order of equal stamps to SQLite, and stamps have one-second resolution. This choice also decides the reply anchor of the posted pass.
- TxMessaging.SendTransactionMessage: the `AttributeError` raised when a transaction's `plaid_metadata` is None (tx_messaging.py:59, handlers/transactions.py:82 and :119; amazon.py:154 sets it to None) is dropped: the model reads no metadata and its sends fail only through the transport. So it does not capture that such a transaction ends the posted or pending pass after its auto-mark patch and before its send; that in a tick the later transactions and chats are not reached and `last_poll_at` is not advanced; or that in resync the row counts as an error (or as missing) and its reviewed stamp is untouched.
- Clock: one `now` per handler run or tick stands for every separate reading the source takes in it. These are the query window (handlers/transactions.py:32-35 and :93-96), the due test (:444-451), each row's `created_at` from `func.now()` (persistence.py:47), `reviewed_at` (persistence.py:160) and `last_poll_at`, read after the pass (handlers/transactions.py:142 and :462). Time passing during a pass is not modelled.
- Syncing.ResyncStep: the `get_transaction` lookup of a row missing from the listing is the function parameter `single`, not a call on `Lunch.Client`, so it is not logged in the client's `lookups`.
- Persistence.Store.MarkAsSent: requires that no stored row is later than `now`. A clock that goes back between two sends is not modelled.
