/** The status page's uptime text: seconds split greedily into weeks, days,
    hours, minutes and seconds, the nonzero amounts listed largest first. */
module RelativeTime {
  import Text

  /** The units of `format_relative_time`, largest first, with their length
      in seconds. */
  const UNITS: seq<(string, nat)> := [("weeks", 604800), ("days", 86400), ("hours", 3600), ("minutes", 60), ("seconds", 1)]

  function Count(i: nat): (c: nat)
    requires i < |UNITS|
    ensures c > 0
  {
    UNITS[i].1
  }

  /** Python `s.rstrip(c)`: every trailing `c` removed. */
  function RStrip(s: string, c: char): (r: string)
    ensures |r| <= |s| && r == s[..|r|]
    ensures r == [] || r[|r| - 1] != c
    ensures forall k :: |r| <= k < |s| ==> s[k] == c
  {
    if s == [] || s[|s| - 1] != c then s else RStrip(s[..|s| - 1], c)
  }

  /** The unit's name as printed next to `value`: without its plural `s` for
      a value of one. */
  function UnitName(i: nat, value: int): string
    requires i < |UNITS|
  {
    if value == 1 then RStrip(UNITS[i].0, 's') else UNITS[i].0
  }

  /** The seconds left when unit `i` is reached: each unit takes away as many
      whole units as fit, under floor division. */
  function Rem(seconds: int, i: nat): int
    requires i <= |UNITS|
  {
    if i == 0 then seconds else Rem(seconds, i - 1) % Count(i - 1)
  }

  /** How many of unit `i` the text shows (`seconds // count`). */
  function Value(seconds: int, i: nat): int
    requires i < |UNITS|
  {
    Rem(seconds, i) / Count(i)
  }

  function PartText(seconds: int, i: nat): string
    requires i < |UNITS|
  {
    Text.IntToString(Value(seconds, i)) + " " + UnitName(i, Value(seconds, i))
  }

  /** The parts for the units from `i` on: one per nonzero value, in unit order. */
  function Parts(seconds: int, i: nat): (ps: seq<string>)
    requires i <= |UNITS|
    decreases |UNITS| - i
  {
    if i == |UNITS| then []
    else (if Value(seconds, i) != 0 then [PartText(seconds, i)] else []) + Parts(seconds, i + 1)
  }

  /** The text `format_relative_time` returns for a whole number of seconds. */
  function RelativeTimeText(seconds: int): string
  {
    var parts := Parts(seconds, 0);
    Text.Join(if parts == [] then ["just started"] else parts, ", ") + " ago"
  }

  /** `format_relative_time`: the loop over the units, subtracting what each
      unit takes and collecting the parts. */
  method FormatRelativeTime(seconds: int) returns (text: string)
    ensures text == RelativeTimeText(seconds)
  {
    var result: seq<string> := [];
    var left := seconds;
    var i := 0;
    while i < |UNITS|
      invariant 0 <= i <= |UNITS|
      invariant left == Rem(seconds, i)
      invariant result + Parts(seconds, i) == Parts(seconds, 0)
      decreases |UNITS| - i
    {
      var name, count := UNITS[i].0, UNITS[i].1;
      var value := left / count;
      TakeUnit(seconds, i);
      AppendPart(seconds, i, result);
      if value != 0 {
        left := left - value * count;
        if value == 1 {
          name := RStrip(name, 's');
        }
        assert Text.IntToString(value) + " " + name == PartText(seconds, i);
        result := result + [Text.IntToString(value) + " " + name];
      }
      i := i + 1;
    }
    assert result == Parts(seconds, 0);
    if result == [] {
      result := ["just started"];
    }
    text := Text.Join(result, ", ") + " ago";
  }

  /** One unit step: taking the unit's whole count away leaves the remainder
      for the next unit, and the parts from `i` start with this unit's part
      when its value is nonzero. */
  lemma TakeUnit(seconds: int, i: nat)
    requires i < |UNITS|
    ensures Rem(seconds, i) - Value(seconds, i) * Count(i) == Rem(seconds, i + 1)
    ensures Parts(seconds, i) == (if Value(seconds, i) != 0 then [PartText(seconds, i)] else []) + Parts(seconds, i + 1)
  {
    var r, c := Rem(seconds, i), Count(i);
    assert r == (r / c) * c + r % c;
  }

  /** The collected parts followed by the parts still to come stay the whole
      list when unit `i`'s part is collected. */
  lemma AppendPart(seconds: int, i: nat, result: seq<string>)
    requires i < |UNITS|
    requires result + Parts(seconds, i) == Parts(seconds, 0)
    ensures (if Value(seconds, i) != 0 then result + [PartText(seconds, i)] else result) + Parts(seconds, i + 1) == Parts(seconds, 0)
  {
    TakeUnit(seconds, i);
    if Value(seconds, i) != 0 {
      assert result + [PartText(seconds, i)] + Parts(seconds, i + 1) == result + ([PartText(seconds, i)] + Parts(seconds, i + 1));
    } else {
      assert [] + Parts(seconds, i + 1) == Parts(seconds, i + 1);
    }
  }

  /** The amounts of the five units add back up to the input, and every unit
      below weeks stays under the size of the next larger one; this holds for
      negative inputs too, whose weeks are negative. */
  lemma Decomposition(seconds: int)
    ensures Value(seconds, 0) * 604800 + Value(seconds, 1) * 86400 + Value(seconds, 2) * 3600
            + Value(seconds, 3) * 60 + Value(seconds, 4) == seconds
    ensures 0 <= Value(seconds, 1) < 7 && 0 <= Value(seconds, 2) < 24
    ensures 0 <= Value(seconds, 3) < 60 && 0 <= Value(seconds, 4) < 60
    ensures Value(seconds, 0) >= 0 <==> seconds >= 0
  {
    var r1 := seconds % 604800;
    var r2 := r1 % 86400;
    var r3 := r2 % 3600;
    var r4 := r3 % 60;
    assert Rem(seconds, 1) == r1 && Rem(seconds, 2) == r2 && Rem(seconds, 3) == r3 && Rem(seconds, 4) == r4;
    assert seconds == (seconds / 604800) * 604800 + r1;
    assert r1 == (r1 / 86400) * 86400 + r2;
    assert r2 == (r2 / 3600) * 3600 + r3;
    assert r3 == (r3 / 60) * 60 + r4;
  }

  /** The plural `s` is dropped exactly for a value of one. */
  lemma SingularOnlyForOne(i: nat, value: int)
    requires i < |UNITS|
    ensures UnitName(i, value) != []
    ensures (UnitName(i, value)[|UnitName(i, value)| - 1] == 's') <==> value != 1
    ensures value == 1 ==> UnitName(i, value) + "s" == UNITS[i].0
  {
    var n := UNITS[i].0;
    assert n[|n| - 1] == 's' && n[|n| - 2] != 's';
    if value == 1 {
      var r := RStrip(n, 's');
      assert |r| == |n| - 1;
      assert r + "s" == n;
    }
  }

  /** The parts from unit `i` on are empty exactly when every value from `i`
      on is zero. */
  lemma {:induction false} PartsEmpty(seconds: int, i: nat)
    requires i <= |UNITS|
    ensures Parts(seconds, i) == [] <==> forall j :: i <= j < |UNITS| ==> Value(seconds, j) == 0
    decreases |UNITS| - i
  {
    if i < |UNITS| {
      PartsEmpty(seconds, i + 1);
    }
  }

  /** An uptime of zero seconds reads "just started ago". */
  lemma ZeroJustStarted()
    ensures RelativeTimeText(0) == "just started ago"
  {
    PartsEmpty(0, 0);
    assert forall j :: 0 <= j < |UNITS| ==> Rem(0, j) == 0 && Value(0, j) == 0;
  }

  /** Every nonzero uptime lists its amounts instead: the "just started" text
      comes back for zero seconds only. */
  lemma JustStartedOnlyForZero(seconds: int)
    ensures (RelativeTimeText(seconds) == "just started ago") <==> seconds == 0
  {
    if seconds == 0 {
      ZeroJustStarted();
    } else {
      Decomposition(seconds);
      PartsEmpty(seconds, 0);
      var parts := Parts(seconds, 0);
      assert parts != [];
      var j :| 0 <= j < |UNITS| && Value(seconds, j) != 0;
      FirstPart(seconds, 0, j);
      var t := RelativeTimeText(seconds);
      JoinStartsWith(parts, ", ");
      assert t[0] == parts[0][0];
      assert t[0] != 'j';
    }
  }

  /** The first part shows a number, which starts with a digit or a minus. */
  lemma {:induction false} FirstPart(seconds: int, i: nat, j: nat)
    requires i <= j < |UNITS| && Value(seconds, j) != 0
    ensures Parts(seconds, i) != []
    ensures Parts(seconds, i)[0] != [] && (Text.IsDigit(Parts(seconds, i)[0][0]) || Parts(seconds, i)[0][0] == '-')
    decreases |UNITS| - i
  {
    if Value(seconds, i) != 0 {
      var v := Value(seconds, i);
      var s := Text.IntToString(v);
      assert PartText(seconds, i)[0] == s[0];
    } else {
      FirstPart(seconds, i + 1, j);
    }
  }

  /** A join starts with its first part. */
  lemma JoinStartsWith(parts: seq<string>, sep: string)
    requires parts != [] && parts[0] != []
    ensures Text.Join(parts, sep) != [] && Text.Join(parts, sep)[0] == parts[0][0]
  {
  }
}
