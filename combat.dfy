/** The combat outcome model: win probabilities and expected troop losses
    looked up by (attackers, defenders). */
module Combat {
  import opened Results

  /** The table dimension `n` that every caller leaves at its default. */
  const TableBound: int := 100

  /** The weight of the expected troop loss in an attack's value. */
  const PREF: real := 1.0

  /** The two tables loaded once at start-up, keyed by (attackers, defenders). */
  datatype Tables = Tables(probs: map<(int, int), real>, troopLoss: map<(int, int), real>)

  /** Indexing both tables with one key; a key missing from either raises KeyError. */
  function Lookup(t: Tables, a: int, d: int): (r: Result<(real, real)>)
    ensures r.Ok? <==> (a, d) in t.probs && (a, d) in t.troopLoss
    ensures r.Ok? ==> r.value == (t.probs[(a, d)], t.troopLoss[(a, d)])
    ensures r.Err? ==> r.error == KeyError
  {
    if (a, d) !in t.probs || (a, d) !in t.troopLoss then Err(KeyError)
    else Ok((t.probs[(a, d)], t.troopLoss[(a, d)]))
  }

  /** Python 2 `round`: to the nearest integer, halves away from zero. */
  function RoundHalfAway(x: real): (r: int)
    ensures r as real - 0.5 <= x <= r as real + 0.5
    ensures x == r as real + 0.5 ==> x < 0.0
    ensures x == r as real - 0.5 ==> x > 0.0
  {
    if x >= 0.0 then (x + 0.5).Floor else -((-x + 0.5).Floor)
  }

  /** Rounding keeps order. */
  lemma RoundHalfAwayMonotone(x: real, y: real)
    requires x <= y
    ensures RoundHalfAway(x) <= RoundHalfAway(y)
  {
    if x >= 0.0 {
      FloorMonotone(x + 0.5, y + 0.5);
    } else if y < 0.0 {
      FloorMonotone(-y + 0.5, -x + 0.5);
    }
  }

  lemma FloorMonotone(x: real, y: real)
    requires x <= y
    ensures x.Floor <= y.Floor
  {
  }

  /** A whole number rounds to itself. */
  lemma RoundHalfAwayWhole(n: int)
    ensures RoundHalfAway(n as real) == n
  {
  }

  /** Rescaling one troop count so that the larger of the pair, `m`, becomes `n`. */
  function Scale(x: int, m: int, n: int): int
    requires m > 0
  {
    RoundHalfAway((n * x) as real / m as real)
  }

  function Max(a: int, d: int): (m: int)
    ensures m >= a && m >= d && (m == a || m == d)
  {
    if a >= d then a else d
  }

  /** The lookup with out-of-range counts rescaled to the table dimension
      first, keeping their ratio. This is the evidently intended behaviour of
      the rescaling branch; the branch as written always raises (see
      GetProbsAndTroopsAsWritten). */
  function GetProbsAndTroops(t: Tables, a: int, d: int, n: int): (r: Result<(real, real)>)
    requires n > 0
    ensures a <= n && d <= n ==>
              && (r.Ok? <==> (a, d) in t.probs && (a, d) in t.troopLoss)
              && (r.Ok? ==> r.value == (t.probs[(a, d)], t.troopLoss[(a, d)]))
    ensures (a > n || d > n) ==> r == Lookup(t, Scale(a, Max(a, d), n), Scale(d, Max(a, d), n))
    ensures r.Err? ==> r.error == KeyError
  {
    if a > n || d > n then
      var m := Max(a, d);
      Lookup(t, Scale(a, m, n), Scale(d, m, n))
    else
      Lookup(t, a, d)
  }

  /** A rescaled count of 0..m lands in 0..n, and the larger count becomes n:
      a rescaled key never fails the range test again. */
  lemma ScaleInRange(x: int, m: int, n: int)
    requires 0 <= x <= m && m > 0 && n >= 0
    ensures 0 <= Scale(x, m, n) <= n
    ensures Scale(m, m, n) == n
  {
    var q := (n * x) as real / m as real;
    assert (n * x) as real <= (n * m) as real by {
      assert n * x <= n * m by { assert n * (m - x) >= 0; }
    }
    assert 0.0 <= q <= n as real by {
      assert (n * m) as real / m as real == n as real;
    }
    assert (n * m) as real / m as real == n as real;
  }

  /** Rescaling keeps the ratio up to rounding: Scale(x)/n and x/m differ by at
      most half a table step. */
  lemma ScaleKeepsRatio(x: int, m: int, n: int)
    requires m > 0
    ensures -(m as real) / 2.0 <= (Scale(x, m, n) * m - n * x) as real <= m as real / 2.0
  {
    var q := (n * x) as real / m as real;
    var s := Scale(x, m, n);
    var e := s as real - q;
    var mr := m as real;
    assert -0.5 <= e <= 0.5;
    assert q * mr == (n * x) as real;
    assert (s * m - n * x) as real == e * mr;
    MulNonNegative(0.5 - e, mr);
    MulNonNegative(e + 0.5, mr);
  }

  lemma MulNonNegative(a: real, b: real)
    requires a >= 0.0 && b >= 0.0
    ensures a * b >= 0.0
  {
  }

  /** The out-of-range branch as written: the right-hand side at the
      rescaling step is a single integer (an integer division), so unpacking
      it into two names raises TypeError for every out-of-range pair. */
  function GetProbsAndTroopsAsWritten(t: Tables, a: int, d: int, n: int): (r: Result<(real, real)>)
    ensures (a > n || d > n) ==> r == Err(TypeError)
    ensures a <= n && d <= n ==> r == Lookup(t, a, d)
  {
    if a > n || d > n then Err(TypeError) else Lookup(t, a, d)
  }

  /** 150 attackers against 3 defenders: the code as written raises, whereas
      the rescaled lookup asks the tables for (100, 2). */
  lemma LargeArmyLookupRaisesAsWritten(t: Tables)
    ensures GetProbsAndTroopsAsWritten(t, 150, 3, TableBound) == Err(TypeError)
    ensures GetProbsAndTroops(t, 150, 3, TableBound) == Lookup(t, 100, 2)
  {
    assert Scale(150, 150, 100) == 100 by {
      assert (100 * 150) as real / 150 as real == 100.0;
    }
    assert Scale(3, 150, 100) == 2 by {
      assert (100 * 3) as real / 150 as real == 2.0;
    }
  }
}
