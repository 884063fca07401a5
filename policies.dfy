/** The decision policies built on the valuations: which territory to claim,
    how to split the deployment troops, and which attack to make. */
module Policies {
  import opened Results
  import opened Snapshot
  import opened Combat
  import opened Valuation
  import opened Exposure
  import opened Selection

  // ---------------------------------------------------------------- best_country

  /** `not c.owner`: the owner is a player object, which is always true, or
      None. */
  predicate Unclaimed(b: Board, n: string)
    requires n in b.countries
  {
    b.countries[n].owner.None?
  }

  /** The unclaimed territories among `names`, in order. */
  function UnclaimedIn(b: Board, names: seq<string>): (r: seq<string>)
    requires forall n :: n in names ==> n in b.countries
    ensures forall n :: n in r <==> n in names && Unclaimed(b, n)
  {
    if names == [] then []
    else
      var rest := UnclaimedIn(b, names[1..]);
      if Unclaimed(b, names[0]) then [names[0]] + rest else rest
  }

  /** The keys `max` evaluates: the position value of each territory. */
  function PositionValues(b: Board, names: seq<string>, p: Player): (rs: seq<Result<real>>)
    requires ValidBoard(b) && forall n :: n in names ==> n in b.countries
    ensures |rs| == |names| && forall i :: 0 <= i < |names| ==> rs[i] == PositionValue(b, names[i], p)
  {
    seq(|names|, i requires 0 <= i < |names| => PositionValue(b, names[i], p))
  }

  /** `best_country`: the unclaimed territory of largest position value
      (the first one in board order on a tie), or None when none is left. */
  function BestCountry(b: Board, p: Player): (r: Result<Option<string>>)
    requires ValidBoard(b)
    ensures r.Ok? && r.value.Some? ==> r.value.value in b.countries && Unclaimed(b, r.value.value)
  {
    var u := UnclaimedIn(b, b.order);
    if u == [] then Ok(None)
    else
      match MaxIndex(PositionValues(b, u, p))
      case Err(e) => Err(e)
      case Ok(k) =>
        assert u[k] in u;
        Ok(Some(u[k]))
  }

  /** None exactly when every territory is claimed. */
  lemma BestCountryNone(b: Board, p: Player)
    requires ValidBoard(b)
    ensures BestCountry(b, p) == Ok(None) <==> forall n :: n in b.countries ==> !Unclaimed(b, n)
  {
    var u := UnclaimedIn(b, b.order);
    if u != [] {
      assert u[0] in u;
    } else {
      forall n | n in b.countries ensures !Unclaimed(b, n) {
        assert n !in u;
      }
    }
  }

  /** A chosen territory is unclaimed and no unclaimed territory has a
      larger position value. */
  lemma BestCountryMaximal(b: Board, p: Player)
    requires ValidBoard(b)
    ensures BestCountry(b, p).Ok? && BestCountry(b, p).value.Some? ==>
              var c := BestCountry(b, p).value.value;
              && c in b.countries && Unclaimed(b, c) && PositionValue(b, c, p).Ok?
              && forall n :: n in b.countries && Unclaimed(b, n) ==>
                   PositionValue(b, n, p).Ok? && PositionValue(b, n, p).value <= PositionValue(b, c, p).value
  {
    if BestCountry(b, p).Ok? && BestCountry(b, p).value.Some? {
      var u := UnclaimedIn(b, b.order);
      var rs := PositionValues(b, u, p);
      var k := MaxIndex(rs).value;
      assert rs[k] == PositionValue(b, u[k], p);
      forall n | n in b.countries && Unclaimed(b, n)
        ensures PositionValue(b, n, p).Ok? && PositionValue(b, n, p).value <= rs[k].value
      {
        var i :| 0 <= i < |u| && u[i] == n;
        assert rs[i] == PositionValue(b, n, p);
      }
    }
  }

  /** A failed choice fails with KeyError, because some unclaimed territory
      has no position value (it has no border, so it is not in the border
      graph). */
  lemma BestCountryFails(b: Board, p: Player)
    requires ValidBoard(b)
    ensures BestCountry(b, p).Err? ==>
              && BestCountry(b, p).error == KeyError
              && exists n :: n in b.countries && Unclaimed(b, n) && PositionValue(b, n, p).Err?
  {
    var u := UnclaimedIn(b, b.order);
    if u != [] {
      var rs := PositionValues(b, u, p);
      var r := MaxIndex(rs);
      if r.Err? {
        var i :| 0 <= i < |rs| && rs[i] == Err(r.error) && forall j :: 0 <= j < i ==> rs[j].Ok?;
        var n := u[i];
        assert n in u;
        assert n in b.countries && Unclaimed(b, n);
        assert PositionValue(b, n, p) == Err(r.error);
      }
    }
  }

  /** Conversely, one unclaimed territory without a position value makes the
      choice fail. */
  lemma BestCountryNeedsEveryValue(b: Board, p: Player, n: string)
    requires ValidBoard(b) && n in b.countries && Unclaimed(b, n) && PositionValue(b, n, p).Err?
    ensures BestCountry(b, p).Err?
  {
    var u := UnclaimedIn(b, b.order);
    assert n in u;
    var i :| 0 <= i < |u| && u[i] == n;
    assert PositionValues(b, u, p)[i].Err?;
  }

  // ---------------------------------------------------------------- deploy_troops

  /** `sum(risk.values())`, adding the entries in the player's territory
      order; with exact reals any order gives the same sum. */
  function TotalRisk(m: map<string, real>, cs: seq<string>): real {
    if cs == [] then 0.0
    else (if cs[0] in m then m[cs[0]] else 0.0) + TotalRisk(m, cs[1..])
  }

  /** With no negative entry, the total is at least any one entry listed once. */
  lemma {:induction false} TotalRiskBounds(m: map<string, real>, cs: seq<string>)
    requires Distinct(cs)
    requires forall c :: c in m ==> m[c] >= 0.0
    ensures TotalRisk(m, cs) >= 0.0
    ensures forall c :: c in cs && c in m ==> m[c] <= TotalRisk(m, cs)
  {
    if cs != [] {
      assert Distinct(cs[1..]) by {
        forall i, j | 0 <= i < j < |cs| - 1 ensures cs[1..][i] != cs[1..][j] {
          assert cs[i + 1] != cs[j + 1];
        }
      }
      TotalRiskBounds(m, cs[1..]);
      forall c | c in cs && c in m ensures m[c] <= TotalRisk(m, cs) {
        if c != cs[0] {
          var i :| 0 <= i < |cs| && cs[i] == c;
          assert cs[1..][i - 1] == c;
        }
      }
    }
  }

  /** `num_troops * val / tv`: the part of `num` that risk `v` of total `tv` claims. */
  function Share(num: nat, v: real, tv: real): real
    requires tv != 0.0
  {
    num as real * v / tv
  }

  /** `int(round(num_troops * val / tv))` for every entry: each territory's
      share rounded to the nearest whole number. */
  function Allocate(num: nat, m: map<string, real>, tv: real): (r: map<string, int>)
    requires tv != 0.0
    ensures r.Keys == m.Keys
    ensures forall c :: c in r ==> r[c] as real - 0.5 <= Share(num, m[c], tv) <= r[c] as real + 0.5
  {
    map c | c in m :: RoundHalfAway(Share(num, m[c], tv))
  }

  /** `deploy_troops`: the player's deployment troops split in proportion to
      the risk of each territory. An empty risk map gives an empty split;
      otherwise a zero total divides by zero. */
  function DeployTroops(t: Tables, b: Board, p: Player): (r: Result<map<string, int>>)
    requires ValidBoard(b) && ValidPlayer(b, p)
    ensures Risk(t, b, p).Err? ==> r == Err(Risk(t, b, p).error)
    ensures Risk(t, b, p).Ok? ==>
              (r.Err? <==> Risk(t, b, p).value != map[] && TotalRisk(Risk(t, b, p).value, p.countries) == 0.0)
    ensures r.Err? && Risk(t, b, p).Ok? ==> r.error == ZeroDivisionError
    ensures r.Ok? ==> Risk(t, b, p).Ok? && r.value.Keys == Risk(t, b, p).value.Keys
    ensures r.Ok? && r.value != map[] ==>
              TotalRisk(Risk(t, b, p).value, p.countries) != 0.0 &&
              forall c :: c in r.value ==>
                var share := Share(p.troopsToDeploy, Risk(t, b, p).value[c], TotalRisk(Risk(t, b, p).value, p.countries));
                r.value[c] as real - 0.5 <= share <= r.value[c] as real + 0.5
  {
    match Risk(t, b, p)
    case Err(e) => Err(e)
    case Ok(m) =>
      var tv := TotalRisk(m, p.countries);
      if m == map[] then Ok(map[])
      else if tv == 0.0 then Err(ZeroDivisionError)
      else Ok(Allocate(p.troopsToDeploy, m, tv))
  }

  /** A riskier territory never receives fewer troops. */
  lemma AllocateMonotone(num: nat, m: map<string, real>, tv: real, c: string, d: string)
    requires tv > 0.0 && c in m && d in m && m[c] <= m[d]
    ensures Allocate(num, m, tv)[c] <= Allocate(num, m, tv)[d]
  {
    ShareMonotone(num, m[c], m[d], tv);
    RoundHalfAwayMonotone(Share(num, m[c], tv), Share(num, m[d], tv));
  }

  lemma ShareMonotone(num: nat, v: real, w: real, tv: real)
    requires v <= w && tv > 0.0
    ensures Share(num, v, tv) <= Share(num, w, tv)
  {
    MulMonotone(num as real, v, w);
  }

  lemma MulMonotone(k: real, x: real, y: real)
    requires k >= 0.0 && x <= y
    ensures k * x <= k * y
  {
    MulNonNegative(k, y - x);
  }

  /** A share of at most the whole total is between 0 and `num`. */
  lemma ShareBounds(num: nat, v: real, tv: real)
    requires 0.0 <= v <= tv && tv > 0.0
    ensures 0.0 <= Share(num, v, tv) <= num as real
  {
    var k := num as real;
    MulMonotone(k, v, tv);
    MulNonNegative(k, v);
    DivBetween(k * v, k, tv);
    assert Share(num, v, tv) == (k * v) / tv;
  }

  /** 0 <= x <= k * d with d > 0 gives 0 <= x / d <= k. */
  lemma DivBetween(x: real, k: real, d: real)
    requires 0.0 <= x <= k * d && d > 0.0
    ensures 0.0 <= x / d <= k
  {
    DivCancel(x, d);
    CancelLe(x / d, k, d);
  }

  lemma CancelLe(a: real, b: real, d: real)
    requires a * d <= b * d && d > 0.0
    ensures a <= b
  {
  }

  lemma DivCancel(x: real, d: real)
    requires d > 0.0
    ensures (x / d) * d == x
  {
  }

  /** A territory's troops lie between 0 and `num` when its risk is between
      0 and the total. */
  lemma AllocationBounds(num: nat, v: real, tv: real)
    requires 0.0 <= v <= tv && tv > 0.0
    ensures 0 <= RoundHalfAway(Share(num, v, tv)) <= num
  {
    ShareBounds(num, v, tv);
    RoundHalfAwayMonotone(0.0, Share(num, v, tv));
    RoundHalfAwayMonotone(Share(num, v, tv), num as real);
    RoundHalfAwayWhole(0);
    RoundHalfAwayWhole(num);
  }

  /** The risk map's keys are territories of the player. */
  lemma RiskKeysOwned(t: Tables, b: Board, p: Player)
    requires ValidBoard(b) && ValidPlayer(b, p) && Risk(t, b, p).Ok?
    ensures forall c :: c in Risk(t, b, p).value ==> c in p.countries
  {
    RiskKeysAndValues(t, b, p);
  }

  /** With no negative risk, every territory receives between 0 and all of
      the deployment troops. */
  lemma DeployWithinBudget(t: Tables, b: Board, p: Player)
    requires ValidBoard(b) && ValidPlayer(b, p)
    requires Risk(t, b, p).Ok? && forall c :: c in Risk(t, b, p).value ==> Risk(t, b, p).value[c] >= 0.0
    ensures DeployTroops(t, b, p).Ok? ==>
              forall c :: c in DeployTroops(t, b, p).value ==> 0 <= DeployTroops(t, b, p).value[c] <= p.troopsToDeploy
  {
    var m := Risk(t, b, p).value;
    RiskKeysOwned(t, b, p);
    if m != map[] && TotalRisk(m, p.countries) != 0.0 {
      AllocateWithinBudget(p.troopsToDeploy, m, p.countries);
    }
  }

  /** Over a map whose keys are listed once in `cs` and whose values are not
      negative, each allocation lies between 0 and `num`. */
  lemma AllocateWithinBudget(num: nat, m: map<string, real>, cs: seq<string>)
    requires Distinct(cs) && forall c :: c in m ==> c in cs && m[c] >= 0.0
    requires TotalRisk(m, cs) != 0.0
    ensures forall c :: c in Allocate(num, m, TotalRisk(m, cs)) ==> 0 <= Allocate(num, m, TotalRisk(m, cs))[c] <= num
  {
    var tv := TotalRisk(m, cs);
    TotalRiskBounds(m, cs);
    forall c | c in m ensures 0 <= Allocate(num, m, tv)[c] <= num {
      AllocationBounds(num, m[c], tv);
    }
  }

  /** The split need not add up to the troops deployed: 10 troops over
      risks 3 and 1 give 8 and 3. */
  lemma AllocationMayExceedBudget()
    ensures Allocate(10, map["a" := 3.0, "b" := 1.0], 4.0) == map["a" := 8, "b" := 3]
  {
    var r := Allocate(10, map["a" := 3.0, "b" := 1.0], 4.0);
    assert r["a"] == RoundHalfAway(7.5);
    assert r["b"] == RoundHalfAway(2.5);
  }

  // ---------------------------------------------------------------- best_attack

  /** The pairs (c1, c2) with c2 a border of c1 and c1 in `cs`, in order,
      kept when c1 has more than one troop and c2's ownership by the player
      is `owned` (which pairs they are: PairsMembers). */
  function Pairs(b: Board, p: Player, cs: seq<string>, owned: bool): (r: seq<(string, string)>)
    requires ValidBoard(b) && forall c :: c in cs ==> c in b.countries
    ensures forall x :: x in r ==> x.0 in cs && x.0 in b.countries && x.1 in b.countries
  {
    if cs == [] then []
    else PairsAt(b, p, cs[0], Borders(b, cs[0]), owned) + Pairs(b, p, cs[1..], owned)
  }

  function PairsAt(b: Board, p: Player, c1: string, bs: seq<string>, owned: bool): (r: seq<(string, string)>)
    requires c1 in b.countries
    ensures forall x :: x in r <==>
              x.0 == c1 && Troops(b, c1) > 1 && x.1 in bs && (x.1 in p.countries <==> owned)
  {
    if bs == [] then []
    else
      var rest := PairsAt(b, p, c1, bs[1..], owned);
      if Troops(b, c1) > 1 && (bs[0] in p.countries <==> owned) then [(c1, bs[0])] + rest else rest
  }

  /** A pair is listed exactly when its first territory is in `cs` with more
      than one troop and its second is a border of the first whose ownership
      by the player is `owned`. */
  lemma {:induction false} PairsMembers(b: Board, p: Player, cs: seq<string>, owned: bool, x: (string, string))
    requires ValidBoard(b) && forall c :: c in cs ==> c in b.countries
    ensures x in Pairs(b, p, cs, owned) <==>
              x.0 in cs && Troops(b, x.0) > 1 && x.1 in Borders(b, x.0) && (x.1 in p.countries <==> owned)
  {
    if cs != [] {
      assert forall c :: c in cs[1..] ==> c in cs;
      PairsMembers(b, p, cs[1..], owned, x);
      assert x.0 in cs <==> x.0 == cs[0] || x.0 in cs[1..];
    }
  }

  /** `possible_attacks`: from a territory of the player with more than one
      troop to a bordering territory the player does not own. */
  function AttackPairs(b: Board, p: Player): seq<(string, string)>
    requires ValidBoard(b) && ValidPlayer(b, p)
  {
    Pairs(b, p, p.countries, false)
  }

  function AttackValues(t: Tables, b: Board, p: Player, ps: seq<(string, string)>): (rs: seq<Result<real>>)
    requires ValidBoard(b) && forall x :: x in ps ==> x.0 in b.countries && x.1 in b.countries
    ensures |rs| == |ps| && forall i :: 0 <= i < |ps| ==> rs[i] == EvAttack(t, b, ps[i].0, ps[i].1, p)
  {
    seq(|ps|, i requires 0 <= i < |ps| => EvAttack(t, b, ps[i].0, ps[i].1, p))
  }

  /** `best_attack`: the candidate of largest attack value (the first on a
      tie), kept only when that value is positive; `max` over no candidate
      raises ValueError. */
  function BestAttack(t: Tables, b: Board, p: Player): (r: Result<Option<(string, string)>>)
    requires ValidBoard(b) && ValidPlayer(b, p)
    ensures r.Ok? && r.value.Some? ==> r.value.value in AttackPairs(b, p)
  {
    var cands := AttackPairs(b, p);
    if cands == [] then Err(ValueError)
    else
      var rs := AttackValues(t, b, p, cands);
      match MaxIndex(rs)
      case Err(e) => Err(e)
      case Ok(k) =>
        assert cands[k] in cands;
        if rs[k].value > 0.0 then Ok(Some(cands[k])) else Ok(None)
  }

  /** A failure other than ValueError is the KeyError of some candidate's
      attack value. */
  lemma BestAttackFails(t: Tables, b: Board, p: Player)
    requires ValidBoard(b) && ValidPlayer(b, p)
    ensures BestAttack(t, b, p).Err? && AttackPairs(b, p) != [] ==>
              && BestAttack(t, b, p).error == KeyError
              && exists x :: x in AttackPairs(b, p) && EvAttack(t, b, x.0, x.1, p).Err?
  {
    var cands := AttackPairs(b, p);
    if cands != [] {
      var rs := AttackValues(t, b, p, cands);
      var r := MaxIndex(rs);
      if r.Err? {
        var i :| 0 <= i < |rs| && rs[i] == Err(r.error) && forall j :: 0 <= j < i ==> rs[j].Ok?;
        assert cands[i] in cands && EvAttack(t, b, cands[i].0, cands[i].1, p) == Err(r.error);
      }
    }
  }

  /** ValueError exactly when there is no candidate. */
  lemma BestAttackNoCandidate(t: Tables, b: Board, p: Player)
    requires ValidBoard(b) && ValidPlayer(b, p)
    ensures BestAttack(t, b, p) == Err(ValueError) <==> AttackPairs(b, p) == []
  {
    BestAttackFails(t, b, p);
  }

  /** One candidate whose attack value raises makes the choice fail. */
  lemma BestAttackNeedsEveryValue(t: Tables, b: Board, p: Player, x: (string, string))
    requires ValidBoard(b) && ValidPlayer(b, p)
    requires x in AttackPairs(b, p) && EvAttack(t, b, x.0, x.1, p).Err?
    ensures BestAttack(t, b, p).Err?
  {
    var cands := AttackPairs(b, p);
    var i :| 0 <= i < |cands| && cands[i] == x;
    assert AttackValues(t, b, p, cands)[i].Err?;
  }

  /** A chosen attack starts from a territory of the player with more than
      one troop and targets a bordering territory the player does not own. */
  lemma BestAttackLegal(t: Tables, b: Board, p: Player)
    requires ValidBoard(b) && ValidPlayer(b, p)
    ensures BestAttack(t, b, p).Ok? && BestAttack(t, b, p).value.Some? ==>
              var x := BestAttack(t, b, p).value.value;
              x.0 in p.countries && Troops(b, x.0) > 1 && x.1 in Borders(b, x.0) && x.1 !in p.countries
  {
    if BestAttack(t, b, p).Ok? && BestAttack(t, b, p).value.Some? {
      var cands := AttackPairs(b, p);
      var k := MaxIndex(AttackValues(t, b, p, cands)).value;
      assert cands[k] in cands;
      PairsMembers(b, p, p.countries, false, cands[k]);
    }
  }

  /** A chosen attack has a positive value and no candidate has a larger one. */
  lemma BestAttackMaximal(t: Tables, b: Board, p: Player)
    requires ValidBoard(b) && ValidPlayer(b, p)
    ensures BestAttack(t, b, p).Ok? && BestAttack(t, b, p).value.Some? ==>
              var x := BestAttack(t, b, p).value.value;
              && x in AttackPairs(b, p)
              && EvAttack(t, b, x.0, x.1, p).Ok? && EvAttack(t, b, x.0, x.1, p).value > 0.0
              && forall y :: y in AttackPairs(b, p) ==>
                   EvAttack(t, b, y.0, y.1, p).Ok? && EvAttack(t, b, y.0, y.1, p).value <= EvAttack(t, b, x.0, x.1, p).value
  {
    if BestAttack(t, b, p).Ok? && BestAttack(t, b, p).value.Some? {
      var cands := AttackPairs(b, p);
      var rs := AttackValues(t, b, p, cands);
      var k := MaxIndex(rs).value;
      assert cands[k] in cands;
      assert rs[k] == EvAttack(t, b, cands[k].0, cands[k].1, p);
      forall y | y in cands
        ensures EvAttack(t, b, y.0, y.1, p).Ok? && EvAttack(t, b, y.0, y.1, p).value <= rs[k].value
      {
        var i :| 0 <= i < |cands| && cands[i] == y;
        assert rs[i] == EvAttack(t, b, y.0, y.1, p);
      }
    }
  }

  /** `possible_attacks` lists exactly the pairs from a territory of the
      player with more than one troop to a bordering territory it does not
      own. */
  lemma AttackPairsMembers(b: Board, p: Player)
    requires ValidBoard(b) && ValidPlayer(b, p)
    ensures forall x {:trigger x in AttackPairs(b, p)} :: x in AttackPairs(b, p) <==>
              x.0 in p.countries && Troops(b, x.0) > 1 && x.1 in Borders(b, x.0) && x.1 !in p.countries
  {
    forall x ensures x in AttackPairs(b, p) <==>
              x.0 in p.countries && Troops(b, x.0) > 1 && x.1 in Borders(b, x.0) && x.1 !in p.countries
    {
      PairsMembers(b, p, p.countries, false, x);
    }
  }

  /** No attack exactly when there are candidates and none has a positive
      value. */
  lemma BestAttackNone(t: Tables, b: Board, p: Player)
    requires ValidBoard(b) && ValidPlayer(b, p)
    ensures BestAttack(t, b, p) == Ok(None) <==>
              AttackPairs(b, p) != [] &&
              forall y :: y in AttackPairs(b, p) ==> EvAttack(t, b, y.0, y.1, p).Ok? && EvAttack(t, b, y.0, y.1, p).value <= 0.0
  {
    var cands := AttackPairs(b, p);
    if cands != [] {
      var rs := AttackValues(t, b, p, cands);
      MaxIndexNonPositive(rs);
      if forall y :: y in cands ==> EvAttack(t, b, y.0, y.1, p).Ok? && EvAttack(t, b, y.0, y.1, p).value <= 0.0 {
        forall i | 0 <= i < |rs| ensures rs[i].Ok? && rs[i].value <= 0.0 {
          assert cands[i] in cands;
        }
      }
      if forall i :: 0 <= i < |rs| ==> rs[i].Ok? && rs[i].value <= 0.0 {
        forall y | y in cands ensures EvAttack(t, b, y.0, y.1, p).Ok? && EvAttack(t, b, y.0, y.1, p).value <= 0.0 {
          var i :| 0 <= i < |cands| && cands[i] == y;
          assert rs[i] == EvAttack(t, b, y.0, y.1, p);
        }
      }
    }
  }

  // ---------------------------------------------------------------- the attack order

  /** The attacking force the handler sends: `min(3, troops - 1)`. From a
      territory that may attack (more than one troop), between 1 and 3
      troops attack and at least one stays behind. */
  function AttackingTroops(troops: nat): (r: int)
    ensures r <= 3 && r <= troops - 1 && (r == 3 || r == troops - 1)
    ensures troops > 1 ==> 1 <= r <= 3 && r < troops
  {
    if 3 <= troops - 1 then 3 else troops - 1
  }
}
