/** String helpers with the semantics of the Python built-ins the handlers use. */
module Text {
  import opened Wrappers

  /** Python `s.split(sep)` for a one-character separator: never empty, and
      consecutive separators give empty words. */
  function Split(s: string, sep: char): (r: seq<string>)
    ensures |r| >= 1
    ensures forall i :: 0 <= i < |r| ==> sep !in r[i]
    ensures |r| == 1 ==> r[0] == s
    ensures sep in s ==> |r| >= 2
    ensures sep !in s ==> r == [s]
  {
    if s == [] then [""]
    else if s[0] == sep then [""] + Split(s[1..], sep)
    else
      var rest := Split(s[1..], sep);
      [[s[0]] + rest[0]] + rest[1..]
  }

  /** Python `sep.join(parts)`. */
  function Join(parts: seq<string>, sep: string): string
  {
    if parts == [] then ""
    else if |parts| == 1 then parts[0]
    else parts[0] + sep + Join(parts[1..], sep)
  }

  /** Joining the words of a split with the separator gives the text back. */
  lemma {:induction false} JoinSplit(s: string, sep: char)
    ensures Join(Split(s, sep), [sep]) == s
  {
    if s == [] {
    } else if s[0] == sep {
      JoinSplit(s[1..], sep);
      var rest := Split(s[1..], sep);
      assert Split(s, sep) == [""] + rest;
      assert ([""] + rest)[1..] == rest;
    } else {
      JoinSplit(s[1..], sep);
      var rest := Split(s[1..], sep);
      assert Split(s, sep) == [[s[0]] + rest[0]] + rest[1..];
      if |rest| == 1 {
        assert Join(rest, [sep]) == rest[0];
      } else {
        assert Join(rest, [sep]) == rest[0] + [sep] + Join(rest[1..], [sep]);
        assert ([[s[0]] + rest[0]] + rest[1..])[1..] == rest[1..];
      }
    }
  }

  /** Splitting a join of separator-free words gives the words back. */
  lemma {:induction false} SplitJoin(parts: seq<string>, sep: char)
    requires |parts| >= 1
    requires forall i :: 0 <= i < |parts| ==> sep !in parts[i]
    ensures Split(Join(parts, [sep]), sep) == parts
  {
    if |parts| == 1 {
      SplitWord(parts[0], sep);
    } else {
      SplitJoin(parts[1..], sep);
      SplitPrefix(parts[0], Join(parts[1..], [sep]), sep);
      assert Join(parts, [sep]) == parts[0] + ([sep] + Join(parts[1..], [sep]));
      assert [parts[0]] + parts[1..] == parts;
    }
  }

  lemma {:induction false} SplitWord(w: string, sep: char)
    requires sep !in w
    ensures Split(w, sep) == [w]
  {
    if w != [] {
      SplitWord(w[1..], sep);
    }
  }

  lemma {:induction false} SplitPrefix(w: string, rest: string, sep: char)
    requires sep !in w
    ensures Split(w + ([sep] + rest), sep) == [w] + Split(rest, sep)
  {
    if w == [] {
      assert w + ([sep] + rest) == [sep] + rest;
      assert ([sep] + rest)[1..] == rest;
    } else {
      var s := w + ([sep] + rest);
      SplitPrefix(w[1..], rest, sep);
      assert s[0] == w[0] && w[0] != sep;
      assert s[1..] == w[1..] + ([sep] + rest);
      var tail := Split(s[1..], sep);
      assert tail == [w[1..]] + Split(rest, sep);
      assert tail[0] == w[1..] && tail[1..] == Split(rest, sep);
      assert [w[0]] + w[1..] == w;
    }
  }

  predicate StartsWith(s: string, prefix: string)
  {
    |prefix| <= |s| && s[..|prefix|] == prefix
  }

  predicate IsDigit(c: char)
  {
    '0' <= c <= '9'
  }

  function DigitChar(d: nat): (c: char)
    requires d < 10
    ensures IsDigit(c) && c as int - '0' as int == d
  {
    ('0' as int + d) as char
  }

  /** The decimal value of a string of ASCII digits. */
  function DigitsValue(ds: string): (v: nat)
    requires forall i :: 0 <= i < |ds| ==> IsDigit(ds[i])
  {
    if ds == [] then 0
    else
      assert IsDigit(ds[|ds| - 1]);
      DigitsValue(ds[..|ds| - 1]) * 10 + (ds[|ds| - 1] as int - '0' as int)
  }

  /** Python `str(n)` for a natural number. */
  function NatToString(n: nat): (s: string)
    ensures |s| >= 1
    ensures forall i :: 0 <= i < |s| ==> IsDigit(s[i])
  {
    if n < 10 then [DigitChar(n)] else NatToString(n / 10) + [DigitChar(n % 10)]
  }

  /** Python `str(n)` for an integer. */
  function IntToString(n: int): (s: string)
    ensures |s| >= 1
    ensures forall i :: 0 <= i < |s| ==> IsDigit(s[i]) || (i == 0 && s[i] == '-')
  {
    if n < 0 then "-" + NatToString(-n) else NatToString(n)
  }

  /** Python `int(s)` restricted to ASCII: an optional sign and at least one digit.
      Anything else raises ValueError, modelled as None. */
  function ParseInt(s: string): (r: Option<int>)
    ensures r.Some? ==> |s| >= 1
  {
    if s == [] then None
    else if s[0] == '-' || s[0] == '+' then
      var ds := s[1..];
      if ds != [] && forall i :: 0 <= i < |ds| ==> IsDigit(ds[i]) then
        var v: int := DigitsValue(ds);
        Some(if s[0] == '-' then -v else v)
      else None
    else if forall i :: 0 <= i < |s| ==> IsDigit(s[i]) then Some(DigitsValue(s))
    else None
  }

  lemma {:induction false} DigitsValueOfNatToString(n: nat)
    ensures DigitsValue(NatToString(n)) == n
  {
    if n >= 10 {
      DigitsValueOfNatToString(n / 10);
      var s := NatToString(n / 10) + [DigitChar(n % 10)];
      assert s[..|s| - 1] == NatToString(n / 10);
    }
  }

  /** Parsing the decimal rendering of an integer gives the integer back. */
  lemma ParseIntToString(n: int)
    ensures ParseInt(IntToString(n)) == Some(n)
  {
    if n < 0 {
      DigitsValueOfNatToString(-n);
      assert ("-" + NatToString(-n))[1..] == NatToString(-n);
    } else {
      DigitsValueOfNatToString(n);
    }
  }

  /** A prefix free of the separator, the separator and a rendered integer
      split back into the prefix and the rendering, which parses as the integer:
      how the handlers read callback data with `int(data.split(sep)[1])`. */
  lemma {:induction false} SplitIntSuffix(p: string, sep: char, v: int)
    requires sep !in p && !IsDigit(sep) && sep != '-'
    ensures sep in p + [sep] + IntToString(v)
    ensures Split(p + [sep] + IntToString(v), sep) == [p, IntToString(v)]
    ensures ParseInt(Split(p + [sep] + IntToString(v), sep)[1]) == Some(v)
  {
    var n := IntToString(v);
    assert sep !in n by {
      forall i | 0 <= i < |n| ensures n[i] != sep {
        assert IsDigit(n[i]) || n[i] == '-';
      }
    }
    assert p + [sep] + n == p + ([sep] + n);
    assert (p + [sep] + n)[|p|] == sep;
    SplitWord(n, sep);
    SplitPrefix(p, n, sep);
    ParseIntToString(v);
  }

  /** `s.replace(c, "")`. */
  function Remove(s: string, c: char): (r: string)
    ensures c !in r
    ensures |r| <= |s|
    ensures forall x :: x != c ==> (x in r <==> x in s)
  {
    if s == [] then "" else (if s[0] == c then "" else [s[0]]) + Remove(s[1..], c)
  }

  /** The first n characters (Python `s[:n]`). */
  function Take(s: string, n: nat): (r: string)
    ensures |r| == if |s| <= n then |s| else n
    ensures r <= s
  {
    if |s| <= n then s else s[..n]
  }
}
