/** The "Schedule & Rendering" settings screen: the poll-interval label, the
    next-poll time, the change-interval callback and the flag toggles. The same
    label and toggles appear in the older single settings screen. */
module Schedule {
  import opened Wrappers
  import Text
  import opened Persistence
  import Telegram
  import Transactions

  datatype Unit = Minutes | Hours | Days

  function UnitSecs(u: Unit): nat
  {
    match u
    case Minutes => 60
    case Hours => 3600
    case Days => 86400
  }

  /** How an interval is shown: disabled, or a whole count of one unit. */
  datatype IntervalLabel = Disabled | Every(count: int, unit: Unit)

  /** The label's branches: 0 is disabled; below an hour the interval counts
      whole minutes, below a day whole hours, otherwise whole days, each count
      floor-divided, so the label never overstates the interval. */
  function Label(i: int): (l: IntervalLabel)
    ensures l.Disabled? <==> i == 0
    ensures l.Every? ==> (l.unit == Minutes <==> i < 3600)
    ensures l.Every? ==> (l.unit == Days <==> i >= 86400)
    ensures l.Every? ==> l.count * UnitSecs(l.unit) <= i < (l.count + 1) * UnitSecs(l.unit)
  {
    if i == 0 then Disabled
    else if i < 3600 then Every(i / 60, Minutes)
    else if i < 86400 then Every(i / 3600, Hours)
    else Every(i / 86400, Days)
  }

  /** The label as shown in code font. Hours and days drop the plural "s" for a
      count of exactly 1; minutes never do. */
  function LabelText(l: IntervalLabel): (s: string)
    ensures l.Disabled? ==> s == "Disabled"
    ensures l.Every? ==> |s| >= 3 && s[0] == '`' && s[|s| - 1] == '`'
    ensures l.Every? ==> (s[|s| - 2] == 's' <==> l.unit == Minutes || l.count != 1)
  {
    match l
    case Disabled => "Disabled"
    case Every(n, Minutes) => "`" + Text.IntToString(n) + " minutes`"
    case Every(n, Hours) => if n == 1 then "`1 hour`" else "`" + Text.IntToString(n) + " hours`"
    case Every(n, Days) => if n == 1 then "`1 day`" else "`" + Text.IntToString(n) + " days`"
  }

  /** A count written out and followed by a space reads back as that count. */
  lemma CountWordParses(n: int, tail: string)
    ensures Text.ParseInt(Text.Split(Text.IntToString(n) + ([' '] + tail), ' ')[0]) == Some(n)
  {
    var w := Text.IntToString(n);
    assert ' ' !in w by {
      forall k | 0 <= k < |w| ensures w[k] != ' ' {
        assert Text.IsDigit(w[k]) || w[k] == '-';
      }
    }
    Text.SplitPrefix(w, tail, ' ');
    Text.ParseIntToString(n);
  }

  /** The word after the opening backquote reads back as the label's count. */
  lemma LabelTextCount(l: IntervalLabel)
    requires l.Every?
    ensures Text.ParseInt(Text.Split(LabelText(l)[1..], ' ')[0]) == Some(l.count)
  {
    var n := Text.IntToString(l.count);
    assert Text.IntToString(1) == "1";
    match l.unit
    case Minutes =>
      assert LabelText(l)[1..] == n + ([' '] + "minutes`");
      CountWordParses(l.count, "minutes`");
    case Hours =>
      if l.count == 1 {
        assert LabelText(l)[1..] == n + ([' '] + "hour`");
        CountWordParses(l.count, "hour`");
      } else {
        assert LabelText(l)[1..] == n + ([' '] + "hours`");
        CountWordParses(l.count, "hours`");
      }
    case Days =>
      if l.count == 1 {
        assert LabelText(l)[1..] == n + ([' '] + "day`");
        CountWordParses(l.count, "day`");
      } else {
        assert LabelText(l)[1..] == n + ([' '] + "days`");
        CountWordParses(l.count, "days`");
      }
  }

  /** An interval under a minute shows as "0 minutes", and one of one to two
      minutes as "1 minutes". */
  lemma ShortIntervals(i: int)
    ensures 0 < i < 60 ==> LabelText(Label(i)) == "`0 minutes`"
    ensures 60 <= i < 120 ==> LabelText(Label(i)) == "`1 minutes`"
  {
    assert Text.IntToString(0) == "0";
    assert Text.IntToString(1) == "1";
  }

  /** The next-poll line: shown only for a nonzero interval after a first poll,
      at the last poll plus the interval. */
  function NextPollAt(s: Settings): (r: Option<int>)
    ensures r.Some? <==> s.pollIntervalSecs != 0 && s.lastPollAt.Some?
    ensures r.Some? ==> r.value - s.pollIntervalSecs == s.lastPollAt.value
  {
    if s.pollIntervalSecs == 0 || s.lastPollAt.None? then None
    else Some(s.lastPollAt.value + s.pollIntervalSecs)
  }

  /** The time shown is exactly when the scheduler next finds the chat due. */
  lemma NextPollAgreesWithDue(s: Settings, now: int)
    requires NextPollAt(s).Some?
    ensures Transactions.Due(s, now) <==> now >= NextPollAt(s).value
  {
  }

  /** A chat whose interval shows as "Disabled" has no next-poll line and is
      still due on every tick after its last poll. */
  lemma DisabledStillPolls(s: Settings, now: int)
    requires s.pollIntervalSecs == 0
    requires s.lastPollAt.Some? ==> s.lastPollAt.value <= now
    ensures Label(s.pollIntervalSecs) == Disabled && NextPollAt(s) == None
    ensures Transactions.Due(s, now)
  {
    Transactions.ZeroIntervalAlwaysDue(s, now);
  }

  const INTERVAL_PREFIX: string := "changePollInterval"

  /** The intervals the menu offers, in order; 0 is "Disable". */
  const MENU_INTERVALS: seq<int> := [300, 1800, 3600, 14400, 86400, 0]
  const MENU_TEXTS: seq<string> := ["5 minutes", "30 minutes", "1 hour", "4 hours", "24 hours", "Disable"]

  function IntervalData(v: int): string
  {
    INTERVAL_PREFIX + "_" + Text.IntToString(v)
  }

  /** The interval menu: one button per offered interval, then Cancel. */
  function MenuButtons(): (b: seq<Telegram.Button>)
    ensures |b| == |MENU_INTERVALS| + 1
    ensures forall k :: 0 <= k < |MENU_INTERVALS| ==> b[k] == Telegram.Button(MENU_TEXTS[k], IntervalData(MENU_INTERVALS[k]))
    ensures b[|MENU_INTERVALS|] == Telegram.Button("Cancel", "cancelPollIntervalChange")
  {
    seq(|MENU_INTERVALS|, k requires 0 <= k < |MENU_INTERVALS| => Telegram.Button(MENU_TEXTS[k], IntervalData(MENU_INTERVALS[k])))
      + [Telegram.Button("Cancel", "cancelPollIntervalChange")]
  }

  datatype IntervalScreen = Updated(settings: Settings) | Menu(buttons: seq<Telegram.Button>)

  /** What the change-interval callback answers and leaves in the settings
      table. Data with an `_` stores the integer after it (a non-integer is a
      ValueError and stores nothing); the store is a no-op for a chat without a
      settings row, which then fails reading the settings back. Data without an
      `_` only shows the menu. */
  function IntervalChange(m: map<int, Settings>, chatId: int, data: string): (r: (Result<IntervalScreen, Error>, map<int, Settings>))
    ensures '_' !in data ==> r == (Success(Menu(MenuButtons())), m)
    ensures r.1.Keys == m.Keys
    ensures forall c :: c in m && c != chatId ==> r.1[c] == m[c]
    ensures r.0.Failure? ==> r.1 == m
    ensures r.0.Failure? ==> r.0.error == ValueError || (r.0.error == NoLunchToken && chatId !in m)
    ensures '_' in data && chatId in m && r.0.Success? ==>
      r.0.value == Updated(r.1[chatId]) &&
      r.1[chatId] == m[chatId].(pollIntervalSecs := r.1[chatId].pollIntervalSecs)
  {
    if '_' !in data then (Success(Menu(MenuButtons())), m)
    else
      var parts := Text.Split(data, '_');
      match Text.ParseInt(parts[1])
      case None => (Failure(ValueError), m)
      case Some(v) =>
        if chatId in m then
          var m' := m[chatId := m[chatId].(pollIntervalSecs := v)];
          (Success(Updated(m'[chatId])), m')
        else (Failure(NoLunchToken), m)
  }

  /** The callback data of an interval reads back as that interval. */
  lemma IntervalDataRoundTrip(v: int)
    ensures '_' in IntervalData(v)
    ensures Text.Split(IntervalData(v), '_') == [INTERVAL_PREFIX, Text.IntToString(v)]
    ensures Text.ParseInt(Text.Split(IntervalData(v), '_')[1]) == Some(v)
  {
    assert '_' !in INTERVAL_PREFIX;
    Text.SplitIntSuffix(INTERVAL_PREFIX, '_', v);
  }

  /** Choosing a menu entry stores exactly the interval it names, for a
      registered chat, and touches no other setting. */
  lemma MenuChoiceStores(m: map<int, Settings>, chatId: int, k: int)
    requires 0 <= k < |MENU_INTERVALS| && chatId in m
    ensures IntervalChange(m, chatId, MenuButtons()[k].data).1 == m[chatId := m[chatId].(pollIntervalSecs := MENU_INTERVALS[k])]
    ensures IntervalChange(m, chatId, MenuButtons()[k].data).0.Success?
  {
    IntervalDataRoundTrip(MENU_INTERVALS[k]);
  }

  /** `handle_btn_change_poll_interval`. */
  method ChangePollInterval(store: Store, chatId: int, data: string) returns (r: Result<IntervalScreen, Error>)
    modifies store
    ensures (r, store.settings) == IntervalChange(old(store.settings), chatId, data)
    ensures store.rows == old(store.rows)
  {
    if '_' !in data {
      return Success(Menu(MenuButtons()));
    }
    var parts := Text.Split(data, '_');
    var v := Text.ParseInt(parts[1]);
    if v.None? {
      return Failure(ValueError);
    }
    store.UpdatePollInterval(chatId, v.value);
    var s := store.GetCurrentSettings(chatId);
    if s.Failure? {
      return Failure(s.error);
    }
    r := Success(Updated(s.value));
  }

  /** A toggle read from the settings table: the settings read before the write
      (which the handler renders its buttons from) and the table with that one
      flag negated; a chat without a row raises NoLunchToken and changes nothing. */
  function Toggled(m: map<int, Settings>, chatId: int, f: Flag): (r: (Result<Settings, Error>, map<int, Settings>))
    ensures chatId !in m <==> r.0 == Failure(NoLunchToken)
    ensures chatId !in m ==> r.1 == m
    ensures r.1.Keys == m.Keys
    ensures forall c :: c in m && c != chatId ==> r.1[c] == m[c]
    ensures chatId in m ==> r.0 == Success(m[chatId])
    ensures chatId in m ==> FlagOf(r.1[chatId], f) == !FlagOf(m[chatId], f)
    ensures chatId in m ==> forall g :: g != f ==> FlagOf(r.1[chatId], g) == FlagOf(m[chatId], g)
  {
    if chatId in m then (Success(m[chatId]), m[chatId := WithFlag(m[chatId], f, !FlagOf(m[chatId], f))])
    else (Failure(NoLunchToken), m)
  }

  /** Toggling the same flag twice gives the table back. */
  lemma ToggleTwiceRestores(m: map<int, Settings>, chatId: int, f: Flag)
    ensures Toggled(Toggled(m, chatId, f).1, chatId, f).1 == m
  {
    if chatId in m {
      var s := m[chatId];
      var t := WithFlag(s, f, !FlagOf(s, f));
      assert WithFlag(t, f, !FlagOf(t, f)) == s;
      assert m[chatId := t][chatId := s] == m;
    }
  }

  /** `handle_btn_toggle_poll_pending`, `handle_btn_toggle_show_datetime`,
      `handle_btn_toggle_tagging` and `handle_btn_toggle_auto_mark_reviewed`:
      each stores the negation of the flag's current value. */
  method Toggle(store: Store, chatId: int, f: Flag) returns (r: Result<Settings, Error>)
    modifies store
    ensures (r, store.settings) == Toggled(old(store.settings), chatId, f)
    ensures store.rows == old(store.rows)
  {
    var s := store.GetCurrentSettings(chatId);
    if s.Failure? {
      return Failure(s.error);
    }
    store.UpdateFlag(chatId, f, !FlagOf(s.value, f));
    r := s;
  }
}
