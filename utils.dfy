/** The relation finder and the tag maker. */
module Utils {
  import opened Wrappers
  import opened Lunch
  import Text

  /** The test inside `find_related_tx`, as written: the payee disjunct compares
      `t.payee` with itself. */
  predicate Related(t: Tx, tx: Tx)
  {
    t.amount == -tx.amount && (t.date == tx.date || t.payee == t.payee)
  }

  /** Index `i` holds the first transaction of `txs` with the opposite amount. */
  predicate FirstMatchAt(tx: Tx, txs: seq<Tx>, i: int)
  {
    0 <= i < |txs| && txs[i].amount == -tx.amount &&
    forall j :: 0 <= j < i ==> txs[j].amount != -tx.amount
  }

  /** `find_related_tx`: the first element of `txs`, in list order, that passes the test. */
  function FindRelated(tx: Tx, txs: seq<Tx>): (r: Option<Tx>)
    ensures r.None? <==> forall i :: 0 <= i < |txs| ==> txs[i].amount != -tx.amount
    ensures r.Some? ==> r.value.amount == -tx.amount
    ensures r.Some? ==> exists i :: FirstMatchAt(tx, txs, i) && txs[i] == r.value
  {
    if txs == [] then None
    else if Related(txs[0], tx) then
      assert FirstMatchAt(tx, txs, 0);
      Some(txs[0])
    else
      var r := FindRelated(tx, txs[1..]);
      assert forall i :: 1 <= i < |txs| ==> txs[i] == txs[1..][i - 1];
      assert r.Some? ==> exists i :: FirstMatchAt(tx, txs, i) && txs[i] == r.value by {
        if r.Some? {
          var k :| FirstMatchAt(tx, txs[1..], k) && txs[1..][k] == r.value;
          assert FirstMatchAt(tx, txs, k + 1);
        }
      }
      r
  }

  /** Neither the date nor the payee ever restricts a match. */
  lemma RelatedIsOppositeAmount(t: Tx, tx: Tx)
    ensures Related(t, tx) <==> t.amount == -tx.amount
  {
  }

  /** The finder does not leave out the transaction it is asked about: a
      zero-amount transaction inside the batch always finds a zero-amount match. */
  lemma {:induction false} ZeroAmountMatchesInBatch(tx: Tx, txs: seq<Tx>)
    requires tx.amount == 0 && tx in txs
    ensures FindRelated(tx, txs).Some? && FindRelated(tx, txs).value.amount == 0
  {
    var i :| 0 <= i < |txs| && txs[i] == tx;
    assert txs[i].amount == -tx.amount;
  }

  predicate IsLetter(c: char)
  {
    'a' <= c <= 'z' || 'A' <= c <= 'Z'
  }

  function Upper(c: char): char
  {
    if 'a' <= c <= 'z' then (c as int - 32) as char else c
  }

  function Lower(c: char): char
  {
    if 'A' <= c <= 'Z' then (c as int + 32) as char else c
  }

  /** Python `str.title()` over ASCII: a letter is upper-cased when the character
      before it is not a letter and lower-cased otherwise. */
  function TitleFrom(s: string, afterLetter: bool): (r: string)
    ensures |r| == |s|
    ensures forall i :: 0 <= i < |s| ==> (IsLetter(r[i]) <==> IsLetter(s[i]))
    ensures forall i :: 0 <= i < |s| ==> (!IsLetter(s[i]) ==> r[i] == s[i])
  {
    if s == [] then []
    else
      var c := if !IsLetter(s[0]) then s[0] else if afterLetter then Lower(s[0]) else Upper(s[0]);
      var rest := TitleFrom(s[1..], IsLetter(s[0]));
      assert forall i :: 1 <= i < |s| ==> s[i] == s[1..][i - 1];
      [c] + rest
  }

  function Title(s: string): string
  {
    TitleFrom(s, false)
  }

  /** Title-casing twice is title-casing once. */
  lemma {:induction false} TitleIdempotent(s: string, afterLetter: bool)
    ensures TitleFrom(TitleFrom(s, afterLetter), afterLetter) == TitleFrom(s, afterLetter)
  {
    if s != [] {
      TitleIdempotent(s[1..], IsLetter(s[0]));
      var t := TitleFrom(s, afterLetter);
      assert t[1..] == TitleFrom(s[1..], IsLetter(s[0]));
      assert IsLetter(t[0]) == IsLetter(s[0]);
    }
  }

  /** `make_tag`: "#" and the title-cased text with every space and dot removed. */
  function MakeTag(t: string): (r: string)
    ensures |r| >= 1 && r[0] == '#' && |r| <= |t| + 1
    ensures ' ' !in r && '.' !in r[1..]
    ensures forall c :: c != ' ' && c != '.' ==> (c in r[1..] <==> c in Title(t))
  {
    "#" + Text.Remove(Text.Remove(Title(t), ' '), '.')
  }

  /** For text that holds no space and no dot, the tag is "#" and the title-cased text. */
  lemma {:induction false} MakeTagOfWord(t: string)
    requires ' ' !in t && '.' !in t
    ensures MakeTag(t) == "#" + Title(t)
  {
    var u := Title(t);
    assert ' ' !in u && '.' !in u by {
      forall i | 0 <= i < |u| ensures u[i] != ' ' && u[i] != '.' {
        assert !IsLetter(u[i]) ==> u[i] == t[i];
      }
    }
    RemoveAbsent(u, ' ');
    RemoveAbsent(u, '.');
  }

  lemma {:induction false} RemoveAbsent(s: string, c: char)
    requires c !in s
    ensures Text.Remove(s, c) == s
  {
    if s != [] {
      RemoveAbsent(s[1..], c);
      assert [s[0]] + s[1..] == s;
    }
  }
}
