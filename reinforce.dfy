/** The reinforcement policy: the pair of neighbouring territories of the
    player whose troop-to-risk ratios are most unbalanced, and how many
    troops to move from the first to the second. */
module Reinforcement {
  import opened Results
  import opened Snapshot
  import opened Combat
  import opened Exposure
  import opened Selection
  import opened Policies

  /** `reinforce_countries`: from a territory of the player with more than
      one troop to a bordering territory the player also owns. */
  function ReinforcePairs(b: Board, p: Player): seq<(string, string)>
    requires ValidBoard(b) && ValidPlayer(b, p)
  {
    Pairs(b, p, p.countries, true)
  }

  /** The handler's candidates are exactly the pairs of neighbouring
      territories of the player whose first one has more than one troop. */
  lemma ReinforcePairsMembers(b: Board, p: Player)
    requires ValidBoard(b) && ValidPlayer(b, p)
    ensures forall x {:trigger x in ReinforcePairs(b, p)} :: x in ReinforcePairs(b, p) <==>
              x.0 in p.countries && Troops(b, x.0) > 1 && x.1 in Borders(b, x.0) && x.1 in p.countries
  {
    forall x ensures x in ReinforcePairs(b, p) <==>
              x.0 in p.countries && Troops(b, x.0) > 1 && x.1 in Borders(b, x.0) && x.1 in p.countries
    {
      PairsMembers(b, p, p.countries, true, x);
    }
  }

  /** The key of `max`: `(c1.troops / risk[c1]) / (c2.troops / risk[c2])`,
      evaluated left to right; a missing entry raises KeyError and a zero
      divisor ZeroDivisionError. */
  function RatioKey(risk: map<string, real>, b: Board, x: string, y: string): (r: Result<real>)
    requires x in b.countries && y in b.countries
    ensures r.Ok? <==> x in risk && y in risk && risk[x] != 0.0 && risk[y] != 0.0 && Troops(b, y) != 0
    ensures r == Err(KeyError) <==> x !in risk || (risk[x] != 0.0 && y !in risk)
    ensures r.Err? ==> r.error == KeyError || r.error == ZeroDivisionError
    ensures r.Ok? ==> r.value * (Troops(b, y) as real / risk[y]) == Troops(b, x) as real / risk[x]
  {
    if x !in risk then Err(KeyError)
    else if risk[x] == 0.0 then Err(ZeroDivisionError)
    else if y !in risk then Err(KeyError)
    else if risk[y] == 0.0 then Err(ZeroDivisionError)
    else if Troops(b, y) == 0 then Err(ZeroDivisionError)
    else Ok((Troops(b, x) as real / risk[x]) / (Troops(b, y) as real / risk[y]))
  }

  function RatioKeys(risk: map<string, real>, b: Board, cands: seq<(string, string)>): (rs: seq<Result<real>>)
    requires forall i :: 0 <= i < |cands| ==> cands[i].0 in b.countries && cands[i].1 in b.countries
    ensures |rs| == |cands|
    ensures forall i :: 0 <= i < |cands| ==> rs[i] == RatioKey(risk, b, cands[i].0, cands[i].1)
  {
    seq(|cands|, i requires 0 <= i < |cands| => RatioKey(risk, b, cands[i].0, cands[i].1))
  }

  /** The loop condition `a.troops - move / risk[a] > b.troops + move / risk[b]`
      (division binds tighter than the subtraction and the addition). */
  predicate Continues(risk: map<string, real>, b: Board, x: string, y: string, move: int)
    requires x in b.countries && y in b.countries && x in risk && y in risk
    requires risk[x] != 0.0 && risk[y] != 0.0
  {
    Troops(b, x) as real - move as real / risk[x] > Troops(b, y) as real + move as real / risk[y]
  }

  /** `move` is the first of 1 .. x.troops - 1 for which the condition fails. */
  predicate FirstStop(risk: map<string, real>, b: Board, x: string, y: string, move: int)
    requires x in b.countries && y in b.countries && x in risk && y in risk
    requires risk[x] != 0.0 && risk[y] != 0.0
  {
    && 1 <= move < Troops(b, x)
    && !Continues(risk, b, x, y, move)
    && forall k :: 1 <= k < move ==> Continues(risk, b, x, y, k)
  }

  /** The loop `for move in range(1, a.troops)`: the first move for which
      the condition fails, or None when it holds for every move. */
  method SmallestMove(risk: map<string, real>, b: Board, x: string, y: string) returns (move: Option<int>)
    requires x in b.countries && y in b.countries && x in risk && y in risk
    requires risk[x] != 0.0 && risk[y] != 0.0
    ensures move.Some? ==> FirstStop(risk, b, x, y, move.value)
    ensures move.None? <==> forall k :: 1 <= k < Troops(b, x) ==> Continues(risk, b, x, y, k)
  {
    var m := 1;
    while m < Troops(b, x)
      invariant 1 <= m
      invariant m <= Troops(b, x) || Troops(b, x) == 0
      invariant forall k :: 1 <= k < m ==> Continues(risk, b, x, y, k)
    {
      if !Continues(risk, b, x, y, m) {
        return Some(m);
      }
      m := m + 1;
    }
    return None;
  }

  /** With positive risks, the condition holds for a prefix of the moves:
      once it fails it fails for every larger move, so the first stop is
      where moving more stops paying off. */
  lemma ContinuesMonotone(risk: map<string, real>, b: Board, x: string, y: string, j: int, k: int)
    requires x in b.countries && y in b.countries && x in risk && y in risk
    requires risk[x] > 0.0 && risk[y] > 0.0 && j <= k
    requires Continues(risk, b, x, y, k)
    ensures Continues(risk, b, x, y, j)
  {
    DivLe(j as real, k as real, risk[x]);
    DivLe(j as real, k as real, risk[y]);
  }

  lemma DivLe(u: real, v: real, d: real)
    requires u <= v && d > 0.0
    ensures u / d <= v / d
  {
  }

  /** With positive risks, a move continues exactly when it is below the
      threshold (x.troops - y.troops) / (1/risk[x] + 1/risk[y]). */
  lemma ContinuesThreshold(risk: map<string, real>, b: Board, x: string, y: string, move: int)
    requires x in b.countries && y in b.countries && x in risk && y in risk
    requires risk[x] > 0.0 && risk[y] > 0.0
    ensures Continues(risk, b, x, y, move) <==>
              move as real * (1.0 / risk[x] + 1.0 / risk[y]) < (Troops(b, x) - Troops(b, y)) as real
  {
    var mv := move as real;
    assert mv / risk[x] == mv * (1.0 / risk[x]);
    assert mv / risk[y] == mv * (1.0 / risk[y]);
  }

  /** The choice of pair: the first pair of largest ratio key, or the first
      key that raises. */
  function BestPair(risk: map<string, real>, b: Board, cands: seq<(string, string)>): (r: Result<nat>)
    requires |cands| > 0
    requires forall i :: 0 <= i < |cands| ==> cands[i].0 in b.countries && cands[i].1 in b.countries
    ensures r.Ok? <==> forall i :: 0 <= i < |cands| ==> RatioKey(risk, b, cands[i].0, cands[i].1).Ok?
    ensures r.Ok? ==>
              && r.value < |cands|
              && forall i :: 0 <= i < |cands| ==>
                   RatioKey(risk, b, cands[i].0, cands[i].1).value <= RatioKey(risk, b, cands[r.value].0, cands[r.value].1).value
    ensures r.Ok? ==>
              forall i :: 0 <= i < r.value ==>
                RatioKey(risk, b, cands[i].0, cands[i].1).value < RatioKey(risk, b, cands[r.value].0, cands[r.value].1).value
    ensures r.Err? ==>
              exists i :: 0 <= i < |cands| && RatioKey(risk, b, cands[i].0, cands[i].1) == Err(r.error)
                && forall j :: 0 <= j < i ==> RatioKey(risk, b, cands[j].0, cands[j].1).Ok?
  {
    var rs := RatioKeys(risk, b, cands);
    var r := MaxIndex(rs);
    if r.Err? then
      var i :| 0 <= i < |rs| && rs[i] == Err(r.error) && forall j :: 0 <= j < i ==> rs[j].Ok?;
      assert RatioKey(risk, b, cands[i].0, cands[i].1) == Err(r.error);
      r
    else
      assert rs[r.value] == RatioKey(risk, b, cands[r.value].0, cands[r.value].1);
      r
  }

  /** `reinforce`: the pair whose ratio key is largest (the first on a
      tie) and the smallest move for which the loop condition fails, or None
      when it holds for every move. The handler only calls it with at least
      one candidate. */
  method Reinforce(t: Tables, b: Board, p: Player, cands: seq<(string, string)>)
    returns (r: Result<Option<(string, string, int)>>)
    requires ValidBoard(b) && ValidPlayer(b, p) && |cands| > 0
    requires forall i :: 0 <= i < |cands| ==> cands[i].0 in b.countries && cands[i].1 in b.countries
    ensures Risk(t, b, p).Err? ==> r == Err(Risk(t, b, p).error)
    ensures Risk(t, b, p).Ok? ==> (r.Ok? <==> BestPair(Risk(t, b, p).value, b, cands).Ok?)
    ensures Risk(t, b, p).Ok? && r.Err? ==> r.error == BestPair(Risk(t, b, p).value, b, cands).error
    ensures r.Ok? ==>
              && Risk(t, b, p).Ok?
              && BestPair(Risk(t, b, p).value, b, cands).Ok?
              && var risk := Risk(t, b, p).value;
                 var k := BestPair(risk, b, cands).value;
                 var (x, y) := cands[k];
                 && (r.value.None? <==> forall m :: 1 <= m < Troops(b, x) ==> Continues(risk, b, x, y, m))
                 && (r.value.Some? ==> r.value.value == (x, y, r.value.value.2) && FirstStop(risk, b, x, y, r.value.value.2))
  {
    var risk := CountryRisk(t, b, p);
    if risk.Err? {
      return Err(risk.error);
    }
    var pick := BestPair(risk.value, b, cands);
    if pick.Err? {
      return Err(pick.error);
    }
    var (x, y) := cands[pick.value];
    assert RatioKey(risk.value, b, x, y).Ok?;
    var move := SmallestMove(risk.value, b, x, y);
    if move.None? {
      return Ok(None);
    }
    return Ok(Some((x, y, move.value)));
  }
}
