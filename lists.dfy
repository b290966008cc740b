/** Grouping a flat list of buttons into keyboard rows. */
module Lists {

  /** Python `[xs[i:i + n] for i in range(0, len(xs), n)]`. */
  function Chunk<T>(xs: seq<T>, n: nat): (rows: seq<seq<T>>)
    requires n > 0
    ensures |rows| == (|xs| + n - 1) / n
    ensures forall i :: 0 <= i < |rows| ==> 1 <= |rows[i]| <= n
    ensures forall i :: 0 <= i < |rows| - 1 ==> |rows[i]| == n
    decreases |xs|
  {
    if xs == [] then []
    else if |xs| <= n then
      DivIs(|xs| + n - 1, n, 1);
      [xs]
    else
      DivIs(|xs| + n - 1, n, (|xs| - 1) / n + 1);
      DivIs(|xs| - 1, n, (|xs| - 1) / n);
      [xs[..n]] + Chunk(xs[n..], n)
  }

  /** Euclidean division is determined by the bounds on the quotient. */
  lemma DivIs(a: int, n: int, q: int)
    requires n > 0 && q * n <= a < q * n + n
    ensures a / n == q
  {
    var q', r := a / n, a % n;
    assert a == q' * n + r && 0 <= r < n;
    if q' < q {
      MulLe(q', q - 1, n);
      assert false;
    } else if q' > q {
      MulLe(q + 1, q', n);
      assert false;
    }
  }

  lemma MulLe(x: int, y: int, n: int)
    requires x <= y && n >= 0
    ensures x * n <= y * n
  {
    assert y * n - x * n == (y - x) * n;
  }

  function Flatten<T>(rows: seq<seq<T>>): seq<T>
  {
    if rows == [] then [] else rows[0] + Flatten(rows[1..])
  }

  /** Reading the rows left to right gives the flat list back, order preserved. */
  lemma {:induction false} FlattenChunk<T>(xs: seq<T>, n: nat)
    requires n > 0
    ensures Flatten(Chunk(xs, n)) == xs
    decreases |xs|
  {
    if xs == [] {
    } else if |xs| <= n {
      assert Flatten([xs]) == xs + Flatten<T>([]);
    } else {
      FlattenChunk(xs[n..], n);
      var rows := [xs[..n]] + Chunk(xs[n..], n);
      assert rows[1..] == Chunk(xs[n..], n);
      assert xs[..n] + xs[n..] == xs;
    }
  }
}
