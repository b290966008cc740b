/** The budget screen: month navigation, the category keyboard, which budget
    items count toward the totals, and the progress bar drawn for each. */
module Budget {
  import opened Wrappers
  import Lists
  import Utils

  /** A budget date: the calendar day of a `datetime` at midnight. */
  datatype Date = Date(year: int, month: int, day: int)

  predicate IsLeap(y: int)
  {
    y % 4 == 0 && (y % 100 != 0 || y % 400 == 0)
  }

  function DaysIn(y: int, m: int): int
    requires 1 <= m <= 12
  {
    if m == 2 then (if IsLeap(y) then 29 else 28)
    else if m == 4 || m == 6 || m == 9 || m == 11 then 30
    else 31
  }

  /** A date `datetime` accepts: years 1 to 9999 and a day that exists. */
  predicate Valid(d: Date)
  {
    1 <= d.year <= 9999 && 1 <= d.month <= 12 && 1 <= d.day <= DaysIn(d.year, d.month)
  }

  /** Months counted from year 0, so that consecutive months differ by one. */
  function MonthIndex(d: Date): int
  {
    d.year * 12 + (d.month - 1)
  }

  /** `d.replace(year=y, month=m)`: the same day in another month, or
      ValueError when that day or year does not exist. */
  function Replace(d: Date, y: int, m: int): (r: Result<Date, Error>)
    ensures r.Success? <==> Valid(Date(y, m, d.day))
    ensures r.Success? ==> r.value == Date(y, m, d.day)
    ensures r.Failure? ==> r.error == ValueError
  {
    if Valid(Date(y, m, d.day)) then Success(Date(y, m, d.day)) else Failure(ValueError)
  }

  /** The previous month's button date: December of the year before for
      January, otherwise the month before; the day is kept. */
  function PreviousMonth(d: Date): (r: Result<Date, Error>)
    requires Valid(d)
    ensures r.Success? ==> Valid(r.value) && MonthIndex(r.value) == MonthIndex(d) - 1 && r.value.day == d.day
    ensures r.Failure? ==> r.error == ValueError
    ensures d.day <= 28 && (d.year > 1 || d.month > 1) ==> r.Success?
  {
    if d.month == 1 then Replace(d, d.year - 1, 12) else Replace(d, d.year, d.month - 1)
  }

  /** The next month's button date: January of the year after for December,
      otherwise the month after; the day is kept. */
  function NextMonth(d: Date): (r: Result<Date, Error>)
    requires Valid(d)
    ensures r.Success? ==> Valid(r.value) && MonthIndex(r.value) == MonthIndex(d) + 1 && r.value.day == d.day
    ensures r.Failure? ==> r.error == ValueError
    ensures d.day <= 28 && (d.year < 9999 || d.month < 12) ==> r.Success?
  {
    if d.month == 12 then Replace(d, d.year + 1, 1) else Replace(d, d.year, d.month + 1)
  }

  /** Stepping back a month and forward again returns to the same date. */
  lemma MonthRoundTrip(d: Date)
    requires Valid(d) && d.day <= 28 && (d.year > 1 || d.month > 1)
    ensures PreviousMonth(d).Success?
    ensures NextMonth(PreviousMonth(d).value) == Success(d)
  {
  }

  /** Datetime order on dates at midnight. */
  predicate Before(a: Date, b: Date)
  {
    a.year < b.year || (a.year == b.year && (a.month < b.month || (a.month == b.month && a.day < b.day)))
  }

  /** `datetime.now().replace(day=1, hour=0, ...)`. */
  function FirstOfMonth(today: Date): Date
  {
    Date(today.year, today.month, 1)
  }

  /** The budget keyboards' buttons, each carrying the date (and category) its
      callback names; the month names and ISO text are not modelled. */
  datatype BudgetButton =
    | PreviousButton(date: Date)
    | NextButton(date: Date)
    | DetailsButton(date: Date)
    | CategoryButton(name: string, date: Date, categoryId: Option<int>)
    | ExitButton(date: Date)

  /** `get_bugdet_buttons`: a first row with the previous month and, only for a
      budget before the current month, the next month; a second row with a
      single Details button. `replace` raising ValueError escapes. */
  function BudgetButtons(d: Date, today: Date): (r: Result<seq<seq<BudgetButton>>, Error>)
    requires Valid(d)
    ensures r.Failure? <==> PreviousMonth(d).Failure? || (Before(d, FirstOfMonth(today)) && NextMonth(d).Failure?)
    ensures r.Success? ==> |r.value| == 2 && r.value[1] == [DetailsButton(d)]
    ensures r.Success? ==> PreviousMonth(d).Success? && 1 <= |r.value[0]| <= 2 && r.value[0][0] == PreviousButton(PreviousMonth(d).value)
    ensures r.Success? ==> (|r.value[0]| == 2 <==> Before(d, FirstOfMonth(today)))
    ensures r.Success? && |r.value[0]| == 2 ==> NextMonth(d).Success? && r.value[0][1] == NextButton(NextMonth(d).value)
  {
    match PreviousMonth(d)
    case Failure(e) => Failure(e)
    case Success(prev) =>
      if Before(d, FirstOfMonth(today)) then
        match NextMonth(d)
        case Failure(e) => Failure(e)
        case Success(next) => Success([[PreviousButton(prev), NextButton(next)], [DetailsButton(d)]])
      else Success([[PreviousButton(prev)], [DetailsButton(d)]])
  }

  /** The current month's budget has no next-month button; a past month's
      budget on day 1 has one, for the month after it. */
  lemma NextOnlyForPastMonths(d: Date, today: Date)
    requires Valid(d) && Valid(today) && d.day == 1 && (d.year > 1 || d.month > 1)
    ensures MonthIndex(d) >= MonthIndex(today) ==> BudgetButtons(d, today) == Success([[PreviousButton(PreviousMonth(d).value)], [DetailsButton(d)]])
    ensures MonthIndex(d) < MonthIndex(today) ==>
      BudgetButtons(d, today).Success? && BudgetButtons(d, today).value[0][1] == NextButton(NextMonth(d).value)
  {
    assert Before(d, FirstOfMonth(today)) <==> MonthIndex(d) < MonthIndex(today);
  }

  /** A budget item: its first month's spending and budget, in cents. */
  datatype Item = Item(categoryName: string, groupName: Option<string>, categoryId: Option<int>, spent: int, budgeted: Option<int>)

  /** A top-level category: no group and a category id. Only these count. */
  predicate IsTopLevel(x: Item)
  {
    x.groupName.None? && x.categoryId.Some?
  }

  /** The loop filter of `show_budget_categories` and `build_budget_message`. */
  function TopLevel(items: seq<Item>): (r: seq<Item>)
    ensures |r| <= |items|
    ensures forall x :: x in r <==> x in items && IsTopLevel(x)
  {
    if items == [] then []
    else (if IsTopLevel(items[0]) then [items[0]] else []) + TopLevel(items[1..])
  }

  /** `get_budget_category_buttons`: one button per item in input order, in
      rows of three, then an Exit row. */
  function CategoryButtons(items: seq<Item>, d: Date): (rows: seq<seq<BudgetButton>>)
    ensures |rows| == (|items| + 2) / 3 + 1
    ensures rows[|rows| - 1] == [ExitButton(d)]
    ensures forall i :: 0 <= i < |rows| - 1 ==> 1 <= |rows[i]| <= 3
    ensures forall i :: 0 <= i < |rows| - 2 ==> |rows[i]| == 3
    ensures Lists.Flatten(rows[..|rows| - 1]) == seq(|items|, i requires 0 <= i < |items| => CategoryButton(items[i].categoryName, d, items[i].categoryId))
  {
    var flat := seq(|items|, i requires 0 <= i < |items| => CategoryButton(items[i].categoryName, d, items[i].categoryId));
    var rows := Lists.Chunk(flat, 3);
    Lists.FlattenChunk(flat, 3);
    assert (rows + [[ExitButton(d)]])[..|rows|] == rows;
    rows + [[ExitButton(d)]]
  }

  const FULL: char := '\U{2588}'
  const EMPTY: char := '\U{2591}'
  const OVER: char := '\U{2593}'

  /** Python `c * n`, empty for a negative `n`. */
  function Rep(c: char, n: int): (s: string)
    ensures |s| == if n > 0 then n else 0
    ensures forall i :: 0 <= i < |s| ==> s[i] == c
    decreases if n > 0 then n else 0
  {
    if n <= 0 then "" else [c] + Rep(c, n - 1)
  }

  /** The bar and its overflow for a whole number of blocks. */
  function Bar(blocks: int): (r: (string, string))
    ensures 0 <= blocks <= 10 ==> |r.0| == 10 && r.1 == "" && forall i :: 0 <= i < 10 ==> (r.0[i] == FULL <==> i < blocks)
    ensures blocks > 10 ==> r.0 == Rep(FULL, 10) && |r.1| == blocks - 10 && forall i :: 0 <= i < |r.1| ==> r.1[i] == OVER
    ensures blocks < 0 ==> |r.0| == 10 - blocks && r.1 == "" && forall i :: 0 <= i < |r.0| ==> r.0[i] == EMPTY
  {
    if blocks > 10 then (Rep(FULL, 10), Rep(OVER, blocks - 10))
    else
      var bar := Rep(FULL, blocks) + Rep(EMPTY, 10 - blocks);
      assert forall i :: 0 <= i < |bar| ==> bar[i] == if i < (if blocks > 0 then blocks else 0) then FULL else EMPTY;
      (bar, "")
  }

  /** Python `int(a / b)`: division truncated toward zero. */
  function TruncDiv(a: int, b: int): (q: int)
    requires b != 0
    ensures (a >= 0) == (b > 0) || a == 0 ==> q >= 0
    ensures Abs(q) == Abs(a) / Abs(b)
  {
    var q := Abs(a) / Abs(b);
    if (a >= 0) == (b > 0) then q else -q
  }

  lemma DivBounds(a: nat, b: nat)
    requires b > 0
    ensures (a / b) * b <= a < (a / b + 1) * b
  {
    var q, r := a / b, a % b;
    assert a == q * b + r && 0 <= r < b;
    assert (q + 1) * b == q * b + b;
  }

  /** A positive factor can be cancelled from both sides of an inequality. */
  lemma MulCancel(x: int, y: int, b: int)
    requires b > 0 && x * b <= y * b
    ensures x <= y
  {
    if x > y {
      Lists.MulLe(y + 1, x, b);
      assert false;
    }
  }

  function Abs(x: int): nat
  {
    if x < 0 then -x else x
  }

  /** `int(pct / 10)` with `pct = spent * 100 / budgeted`, in exact arithmetic. */
  function Blocks(spent: int, budgeted: int): int
    requires budgeted != 0
  {
    TruncDiv(spent * 10, budgeted)
  }

  /** Spending within a positive budget fills at most the ten cells, one per
      tenth spent, and the bar has no overflow. */
  lemma WithinBudgetFitsBar(spent: int, budgeted: int)
    requires 0 <= spent <= budgeted && budgeted > 0
    ensures 0 <= Blocks(spent, budgeted) <= 10
    ensures |Bar(Blocks(spent, budgeted)).0| == 10 && Bar(Blocks(spent, budgeted)).1 == ""
  {
    var q := Blocks(spent, budgeted);
    DivBounds(spent * 10, budgeted);
    assert q * budgeted <= spent * 10 <= 10 * budgeted;
    MulCancel(q, 10, budgeted);
  }

  /** Spending twice the budget or more shows overflow cells. */
  lemma OverspentOverflows(spent: int, budgeted: int)
    requires budgeted > 0 && spent >= 2 * budgeted
    ensures Blocks(spent, budgeted) >= 20
    ensures |Bar(Blocks(spent, budgeted)).1| == Blocks(spent, budgeted) - 10
  {
    var q := Blocks(spent, budgeted);
    DivBounds(spent * 10, budgeted);
    assert 20 * budgeted <= spent * 10 < (q + 1) * budgeted;
    MulCancel(20, q + 1, budgeted);
  }

  /** `category_name.split(" ", 1)` unpacked into two names: None (the
      ValueError of the unpacking) when the name has no space. */
  function SplitFirst(s: string): (r: Option<(string, string)>)
    ensures r.None? <==> ' ' !in s
    ensures r.Some? ==> s == r.value.0 + " " + r.value.1 && ' ' !in r.value.0
  {
    if s == [] then None
    else if s[0] == ' ' then Some(("", s[1..]))
    else
      match SplitFirst(s[1..])
      case None => None
      case Some(p) =>
        assert s == [s[0]] + s[1..];
        Some(([s[0]] + p.0, p.1))
  }

  /** One rendered budget line: the emoji, the tag of the rest of the name,
      the blocks and the amounts. */
  datatype Line = Line(emoji: string, tag: string, blocks: int, spent: int, budgeted: int)

  /** What `build_budget_message` returns: the "no budget data" text for a
      month without a budget, or the summary. */
  datatype Message = NoBudgetData(date: Date) | Summary(date: Date, lines: seq<Line>, spent: int, budgeted: int)

  datatype Acc = Acc(lines: seq<Line>, spent: int, budgeted: int)

  /** An item the loop renders without stopping: a nonzero budget and a name
      with a space between emoji and category. */
  predicate Renders(x: Item)
  {
    x.budgeted.Some? && x.budgeted.value != 0 && ' ' in x.categoryName
  }

  function LineOf(x: Item): Line
    requires Renders(x)
  {
    var p := SplitFirst(x.categoryName).value;
    Line(p.0, Utils.MakeTag(p.1), Blocks(x.spent, x.budgeted.value), x.spent, x.budgeted.value)
  }

  function Add(acc: Acc, x: Item): Acc
    requires Renders(x)
  {
    Acc(acc.lines + [LineOf(x)], acc.spent + x.spent, acc.budgeted + x.budgeted.value)
  }

  /** After the loop: no top-level item leaves `budget_data` unbound, and a
      zero total budget divides by zero. */
  function Finish(d: Date, acc: Acc): Result<Message, Error>
  {
    if acc.lines == [] then Failure(UnboundLocalError)
    else if acc.budgeted == 0 then Failure(ZeroDivisionError)
    else Success(Summary(d, acc.lines, acc.spent, acc.budgeted))
  }

  /** The loop of `build_budget_message` over the items still to see. */
  function Built(items: seq<Item>, d: Date, acc: Acc): Result<Message, Error>
  {
    if items == [] then Finish(d, acc)
    else
      var x := items[0];
      if !IsTopLevel(x) then Built(items[1..], d, acc)
      else if x.budgeted.None? then Success(NoBudgetData(d))
      else if x.budgeted.value == 0 then Failure(ZeroDivisionError)
      else if ' ' !in x.categoryName then Failure(ValueError)
      else Built(items[1..], d, Add(acc, x))
  }

  /** `build_budget_message`, floats aside. */
  method BuildBudgetMessage(items: seq<Item>, d: Date) returns (r: Result<Message, Error>)
    ensures r == Built(items, d, Acc([], 0, 0))
  {
    var acc := Acc([], 0, 0);
    var i := 0;
    while i < |items|
      invariant 0 <= i <= |items|
      invariant Built(items, d, Acc([], 0, 0)) == Built(items[i..], d, acc)
    {
      var x := items[i];
      assert items[i..][0] == x && items[i..][1..] == items[i + 1..];
      if IsTopLevel(x) {
        if x.budgeted.None? {
          return Success(NoBudgetData(d));
        }
        if x.budgeted.value == 0 {
          return Failure(ZeroDivisionError);
        }
        if ' ' !in x.categoryName {
          return Failure(ValueError);
        }
        acc := Add(acc, x);
      }
      i := i + 1;
    }
    assert items[i..] == [];
    r := Finish(d, acc);
  }

  /** Items that are not top-level categories play no part in the message. */
  lemma {:induction false} OnlyTopLevelCounts(items: seq<Item>, d: Date, acc: Acc)
    ensures Built(items, d, acc) == Built(TopLevel(items), d, acc)
  {
    if items != [] {
      OnlyTopLevelCounts(items[1..], d, acc);
      var x := items[0];
      var t := TopLevel(items[1..]);
      if IsTopLevel(x) {
        assert TopLevel(items) == [x] + t;
        assert ([x] + t)[0] == x && ([x] + t)[1..] == t;
        if Renders(x) {
          OnlyTopLevelCounts(items[1..], d, Add(acc, x));
        }
      } else {
        assert TopLevel(items) == [] + t;
        assert [] + t == t;
      }
    }
  }

  function SumSpent(items: seq<Item>): int
  {
    if items == [] then 0 else items[0].spent + SumSpent(items[1..])
  }

  function SumBudgeted(items: seq<Item>): int
    requires forall x :: x in items ==> x.budgeted.Some?
  {
    if items == [] then 0 else items[0].budgeted.value + SumBudgeted(items[1..])
  }

  function Lines(items: seq<Item>): (ls: seq<Line>)
    requires forall x :: x in items ==> Renders(x)
    ensures |ls| == |items|
  {
    if items == [] then [] else [LineOf(items[0])] + Lines(items[1..])
  }

  /** The accumulator after adding every item of `t`, which all render. */
  function Totals(acc: Acc, t: seq<Item>): Acc
    requires forall y :: y in t ==> Renders(y)
  {
    Acc(acc.lines + Lines(t), acc.spent + SumSpent(t), acc.budgeted + SumBudgeted(t))
  }

  /** Adding one more item in front is adding it to the accumulator first. */
  lemma TotalsCons(acc: Acc, x: Item, t: seq<Item>)
    requires Renders(x) && forall y :: y in t ==> Renders(y)
    ensures forall y :: y in [x] + t ==> Renders(y)
    ensures Totals(acc, [x] + t) == Totals(Add(acc, x), t)
  {
    assert ([x] + t)[0] == x && ([x] + t)[1..] == t;
    assert Lines([x] + t) == [LineOf(x)] + Lines(t);
    assert acc.lines + ([LineOf(x)] + Lines(t)) == (acc.lines + [LineOf(x)]) + Lines(t);
  }

  /** The filter on a list with one more item in front. */
  lemma TopLevelCons(items: seq<Item>)
    requires items != []
    ensures TopLevel(items) == (if IsTopLevel(items[0]) then [items[0]] else []) + TopLevel(items[1..])
  {
  }

  /** When every top-level item renders, the message has one line per
      top-level item in order, and the totals are the sums over them. */
  lemma {:induction false} RenderedTotals(items: seq<Item>, d: Date, acc: Acc)
    requires forall x :: x in items && IsTopLevel(x) ==> Renders(x)
    ensures forall x :: x in TopLevel(items) ==> Renders(x)
    ensures Built(items, d, acc) == Finish(d, Totals(acc, TopLevel(items)))
  {
    if items == [] {
      assert acc.lines + [] == acc.lines;
    } else {
      var x := items[0];
      var t := TopLevel(items[1..]);
      TopLevelCons(items);
      if IsTopLevel(x) {
        RenderedTotals(items[1..], d, Add(acc, x));
        TotalsCons(acc, x, t);
        assert TopLevel(items) == [x] + t;
      } else {
        RenderedTotals(items[1..], d, acc);
        assert TopLevel(items) == t;
      }
    }
  }

  /** Without top-level items the filter is empty. */
  lemma {:induction false} NoTopLevelFiltersToEmpty(items: seq<Item>)
    requires forall x :: x in items ==> !IsTopLevel(x)
    ensures TopLevel(items) == []
  {
    if items != [] {
      assert items[0] in items;
      NoTopLevelFiltersToEmpty(items[1..]);
      TopLevelCons(items);
    }
  }

  /** A budget with no top-level category fails on the unbound `budget_data`. */
  lemma NoTopLevelIsUnbound(items: seq<Item>, d: Date)
    requires forall x :: x in items ==> !IsTopLevel(x)
    ensures Built(items, d, Acc([], 0, 0)) == Failure(UnboundLocalError)
  {
    OnlyTopLevelCounts(items, d, Acc([], 0, 0));
    NoTopLevelFiltersToEmpty(items);
  }
}
