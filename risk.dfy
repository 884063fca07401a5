/** Risk accumulation: for each of the player's territories, the summed
    attack value of every bordering territory the player does not own. */
module Exposure {
  import opened Results
  import opened Snapshot
  import opened Valuation

  /** The value of enemy territory `bc` attacking `c`, seen by `bc`'s owner.
      An unclaimed neighbour has no owner object, so reading its name raises
      AttributeError. */
  function Threat(t: Combat.Tables, b: Board, bc: string, c: string): (r: Result<real>)
    requires ValidBoard(b) && bc in b.countries && c in b.countries
    ensures b.countries[bc].owner.None? ==> r == Err(AttributeError)
    ensures b.countries[bc].owner.Some? && r.Err? ==> r.error == KeyError
    ensures b.countries[bc].owner.Some? && b.countries[c].owner == b.countries[bc].owner ==> r == Ok(0.0)
  {
    match b.countries[bc].owner
    case None => Err(AttributeError)
    case Some(o) => EvAttack(t, b, bc, c, OwnerView(b, o))
  }

  /** One entry per border of `c`, in order: None for a border the player
      owns (never evaluated), otherwise the threat that border poses. */
  function BorderThreats(t: Combat.Tables, b: Board, p: Player, c: string): (xs: seq<Option<Result<real>>>)
    requires ValidBoard(b) && c in b.countries
    ensures |xs| == |Borders(b, c)|
    ensures forall k :: 0 <= k < |xs| ==> (xs[k].None? <==> Borders(b, c)[k] in p.countries)
    ensures forall k :: 0 <= k < |xs| && Borders(b, c)[k] !in p.countries ==>
              xs[k] == Some(Threat(t, b, Borders(b, c)[k], c))
  {
    var bs := Borders(b, c);
    seq(|bs|, k requires 0 <= k < |bs| =>
      if bs[k] in p.countries then None else Some(Threat(t, b, bs[k], c)))
  }

  /** Adding up the evaluated threats in order; the first error raised
      stops the sum. */
  function SumThreats(xs: seq<Option<Result<real>>>): Result<real> {
    if xs == [] then Ok(0.0)
    else
      match SumThreats(xs[..|xs| - 1])
      case Err(e) => Err(e)
      case Ok(s) =>
        match xs[|xs| - 1]
        case None => Ok(s)
        case Some(Err(e)) => Err(e)
        case Some(Ok(ev)) => Ok(s + ev)
  }

  predicate AnyEvaluated(xs: seq<Option<Result<real>>>) {
    exists k :: 0 <= k < |xs| && xs[k].Some?
  }

  /** Some border of `c` is not the player's. */
  predicate HasEnemy(b: Board, p: Player, c: string)
    requires c in b.countries
  {
    exists k :: 0 <= k < |Borders(b, c)| && Borders(b, c)[k] !in p.countries
  }

  /** `risk[country] += ev`, or `risk[country] = ev` for the first one. */
  function AddTo(m: map<string, real>, c: string, v: real): (r: map<string, real>)
    ensures r.Keys == m.Keys + {c}
    ensures r[c] == (if c in m then m[c] else 0.0) + v
    ensures forall k :: k in m && k != c ==> r[k] == m[k]
  {
    if c in m then m[c := m[c] + v] else m[c := v]
  }

  /** The risk map after the borders whose entries are `xs` have been
      visited for territory `c`, starting from `m`. */
  function AddAll(m: map<string, real>, c: string, xs: seq<Option<Result<real>>>): Result<map<string, real>> {
    if xs == [] then Ok(m)
    else
      match AddAll(m, c, xs[..|xs| - 1])
      case Err(e) => Err(e)
      case Ok(m') =>
        match xs[|xs| - 1]
        case None => Ok(m')
        case Some(Err(e)) => Err(e)
        case Some(Ok(ev)) => Ok(AddTo(m', c, ev))
  }

  /** The risk map after the territories `cs` have been processed. */
  function RiskOf(t: Combat.Tables, b: Board, p: Player, cs: seq<string>): Result<map<string, real>>
    requires ValidBoard(b) && forall c :: c in cs ==> c in b.countries
  {
    if cs == [] then Ok(map[])
    else
      match RiskOf(t, b, p, cs[..|cs| - 1])
      case Err(e) => Err(e)
      case Ok(m) => AddAll(m, cs[|cs| - 1], BorderThreats(t, b, p, cs[|cs| - 1]))
  }

  /** The value `country_risk` returns, or the exception it raises. */
  function Risk(t: Combat.Tables, b: Board, p: Player): Result<map<string, real>>
    requires ValidBoard(b) && ValidPlayer(b, p)
  {
    RiskOf(t, b, p, p.countries)
  }

  /** `country_risk`: fills the risk dictionary in place, territory by
      territory. */
  method CountryRisk(t: Combat.Tables, b: Board, p: Player) returns (r: Result<map<string, real>>)
    requires ValidBoard(b) && ValidPlayer(b, p)
    ensures r == Risk(t, b, p)
  {
    var risk: map<string, real> := map[];
    var i := 0;
    while i < |p.countries|
      invariant 0 <= i <= |p.countries|
      invariant RiskOf(t, b, p, p.countries[..i]) == Ok(risk)
    {
      var country := p.countries[i];
      RiskOfStep(t, b, p, p.countries, i);
      var next := AddBorderThreats(t, b, p, country, risk);
      if next.Err? {
        RiskOfErrPersists(t, b, p, p.countries, i + 1, next.error);
        return next;
      }
      risk := next.value;
      i := i + 1;
    }
    assert p.countries[..i] == p.countries;
    return Ok(risk);
  }

  /** The inner loop of `country_risk`: adds the threat of every enemy
      border of `country` to its entry in `risk`. */
  method AddBorderThreats(t: Combat.Tables, b: Board, p: Player, country: string, risk: map<string, real>)
    returns (r: Result<map<string, real>>)
    requires ValidBoard(b) && country in b.countries
    ensures r == AddAll(risk, country, BorderThreats(t, b, p, country))
  {
    var bs := Borders(b, country);
    ghost var xs := BorderThreats(t, b, p, country);
    var acc := risk;
    var j := 0;
    while j < |bs|
      invariant 0 <= j <= |bs|
      invariant AddAll(risk, country, xs[..j]) == Ok(acc)
    {
      var bc := bs[j];
      AddAllStep(risk, country, xs, j);
      if bc !in p.countries {
        var ev := Threat(t, b, bc, country);
        assert xs[j] == Some(ev);
        if ev.Err? {
          AddAllErrPersists(risk, country, xs, j + 1);
          return Err(ev.error);
        }
        acc := AddTo(acc, country, ev.value);
      }
      j := j + 1;
    }
    assert xs[..j] == xs;
    return Ok(acc);
  }

  /** Processing one more territory. */
  lemma RiskOfStep(t: Combat.Tables, b: Board, p: Player, cs: seq<string>, i: nat)
    requires ValidBoard(b) && forall c :: c in cs ==> c in b.countries
    requires i < |cs|
    ensures RiskOf(t, b, p, cs[..i]).Err? ==> RiskOf(t, b, p, cs[..i + 1]) == RiskOf(t, b, p, cs[..i])
    ensures RiskOf(t, b, p, cs[..i]).Ok? ==>
              RiskOf(t, b, p, cs[..i + 1]) == AddAll(RiskOf(t, b, p, cs[..i]).value, cs[i], BorderThreats(t, b, p, cs[i]))
  {
    assert cs[..i + 1][..i] == cs[..i];
    assert cs[..i + 1][i] == cs[i];
  }

  /** Visiting one more border. */
  lemma AddAllStep(m: map<string, real>, c: string, xs: seq<Option<Result<real>>>, j: nat)
    requires j < |xs|
    ensures AddAll(m, c, xs[..j]).Err? ==> AddAll(m, c, xs[..j + 1]) == AddAll(m, c, xs[..j])
    ensures xs[j].None? ==> AddAll(m, c, xs[..j + 1]) == AddAll(m, c, xs[..j])
    ensures xs[j].Some? && xs[j].value.Err? && AddAll(m, c, xs[..j]).Ok? ==>
              AddAll(m, c, xs[..j + 1]) == Err(xs[j].value.error)
    ensures xs[j].Some? && xs[j].value.Ok? && AddAll(m, c, xs[..j]).Ok? ==>
              AddAll(m, c, xs[..j + 1]) == Ok(AddTo(AddAll(m, c, xs[..j]).value, c, xs[j].value.value))
  {
    assert xs[..j + 1][..j] == xs[..j];
    assert xs[..j + 1][j] == xs[j];
  }

  lemma {:induction false} AddAllErrPersists(m: map<string, real>, c: string, xs: seq<Option<Result<real>>>, j: nat)
    requires j <= |xs|
    requires AddAll(m, c, xs[..j]).Err?
    ensures AddAll(m, c, xs) == AddAll(m, c, xs[..j])
    decreases |xs| - j
  {
    if j < |xs| {
      AddAllStep(m, c, xs, j);
      AddAllErrPersists(m, c, xs, j + 1);
    } else {
      assert xs[..j] == xs;
    }
  }

  /** One more entry: skipped, added, or the error it raises. */
  lemma SumThreatsStep(xs: seq<Option<Result<real>>>, j: nat)
    requires j < |xs|
    ensures AnyEvaluated(xs[..j + 1]) <==> AnyEvaluated(xs[..j]) || xs[j].Some?
    ensures SumThreats(xs[..j]).Err? ==> SumThreats(xs[..j + 1]) == SumThreats(xs[..j])
    ensures xs[j].None? ==> SumThreats(xs[..j + 1]) == SumThreats(xs[..j])
    ensures xs[j].Some? && xs[j].value.Err? && SumThreats(xs[..j]).Ok? ==>
              SumThreats(xs[..j + 1]) == xs[j].value
    ensures xs[j].Some? && xs[j].value.Ok? && SumThreats(xs[..j]).Ok? ==>
              SumThreats(xs[..j + 1]) == Ok(SumThreats(xs[..j]).value + xs[j].value.value)
  {
    assert xs[..j + 1][..j] == xs[..j];
    assert xs[..j + 1][j] == xs[j];
    if xs[j].Some? {
      assert xs[..j + 1][j].Some?;
    }
    if AnyEvaluated(xs[..j]) {
      var k :| 0 <= k < j && xs[..j][k].Some?;
      assert xs[..j + 1][k].Some?;
    }
    if AnyEvaluated(xs[..j + 1]) && !xs[j].Some? {
      var k :| 0 <= k < j + 1 && xs[..j + 1][k].Some?;
      assert k < j && xs[..j][k].Some?;
    }
  }

  lemma {:induction false} RiskOfErrPersists(t: Combat.Tables, b: Board, p: Player, cs: seq<string>, i: nat, e: Error)
    requires ValidBoard(b) && forall c :: c in cs ==> c in b.countries
    requires i <= |cs|
    requires RiskOf(t, b, p, cs[..i]) == Err(e)
    ensures RiskOf(t, b, p, cs) == Err(e)
    decreases |cs| - i
  {
    if i < |cs| {
      RiskOfStep(t, b, p, cs, i);
      RiskOfErrPersists(t, b, p, cs, i + 1, e);
    } else {
      assert cs[..i] == cs;
    }
  }

  /** The sum raises exactly when one of the evaluated threats raises. */
  lemma {:induction false} SumThreatsOk(xs: seq<Option<Result<real>>>)
    ensures SumThreats(xs).Ok? <==> forall k :: 0 <= k < |xs| && xs[k].Some? ==> xs[k].value.Ok?
  {
    if xs != [] {
      var n := |xs| - 1;
      SumThreatsOk(xs[..n]);
      SumThreatsStep(xs, n);
      assert xs[..n + 1] == xs;
      forall k | 0 <= k < n ensures xs[..n][k] == xs[k] { }
    }
  }

  /** Borders the player owns add nothing: with no evaluated entry the sum is 0. */
  lemma {:induction false} SumThreatsNoneEvaluated(xs: seq<Option<Result<real>>>)
    requires !AnyEvaluated(xs)
    ensures SumThreats(xs) == Ok(0.0)
  {
    if xs != [] {
      var n := |xs| - 1;
      SumThreatsStep(xs, n);
      assert xs[..n + 1] == xs;
      SumThreatsNoneEvaluated(xs[..n]);
    }
  }

  /** The inner loop's map is the old map with `c` set to the sum of its
      evaluated threats, if any was evaluated; it raises when the sum does. */
  lemma {:induction false} AddAllMeaning(m: map<string, real>, c: string, xs: seq<Option<Result<real>>>)
    requires c !in m
    ensures AddAll(m, c, xs).Ok? <==> SumThreats(xs).Ok?
    ensures AddAll(m, c, xs).Err? ==> AddAll(m, c, xs).error == SumThreats(xs).error
    ensures AddAll(m, c, xs).Ok? ==>
              AddAll(m, c, xs).value == if AnyEvaluated(xs) then m[c := SumThreats(xs).value] else m
  {
    if xs != [] {
      var n := |xs| - 1;
      AddAllMeaning(m, c, xs[..n]);
      AddAllStep(m, c, xs, n);
      SumThreatsStep(xs, n);
      assert xs[..n + 1] == xs;
      if !AnyEvaluated(xs[..n]) {
        SumThreatsNoneEvaluated(xs[..n]);
      }
      if AddAll(m, c, xs).Ok? && xs[n].Some? {
        var s := SumThreats(xs).value;
        assert AddAll(m, c, xs).value == m[c := s];
      }
    }
  }

  /** Some entry is evaluated exactly when some border is an enemy's. */
  lemma EvaluatedIffEnemy(t: Combat.Tables, b: Board, p: Player, c: string)
    requires ValidBoard(b) && c in b.countries
    ensures AnyEvaluated(BorderThreats(t, b, p, c)) <==> HasEnemy(b, p, c)
  {
    var xs := BorderThreats(t, b, p, c);
    if HasEnemy(b, p, c) {
      var k :| 0 <= k < |Borders(b, c)| && Borders(b, c)[k] !in p.countries;
      assert xs[k].Some?;
    }
  }

  /** Over distinct territories: the map has a key for exactly those with
      an evaluated border, holding the sum of their threats; it raises
      exactly when one of the sums raises. */
  lemma {:induction false} RiskOfMeaning(t: Combat.Tables, b: Board, p: Player, cs: seq<string>)
    requires ValidBoard(b) && Distinct(cs) && forall c :: c in cs ==> c in b.countries
    ensures RiskOf(t, b, p, cs).Ok? <==> forall c :: c in cs ==> SumThreats(BorderThreats(t, b, p, c)).Ok?
    ensures RiskOf(t, b, p, cs).Ok? ==>
              forall c :: c in RiskOf(t, b, p, cs).value <==> c in cs && AnyEvaluated(BorderThreats(t, b, p, c))
    ensures RiskOf(t, b, p, cs).Ok? ==>
              forall c :: c in RiskOf(t, b, p, cs).value ==>
                c in b.countries && SumThreats(BorderThreats(t, b, p, c)) == Ok(RiskOf(t, b, p, cs).value[c])
  {
    if cs != [] {
      var n := |cs| - 1;
      var c := cs[n];
      assert Distinct(cs[..n]) by {
        forall i, j | 0 <= i < j < n ensures cs[..n][i] != cs[..n][j] {
          assert cs[i] != cs[j];
        }
      }
      assert forall x :: x in cs[..n] ==> x in cs;
      RiskOfMeaning(t, b, p, cs[..n]);
      RiskOfStep(t, b, p, cs, n);
      assert cs[..n + 1] == cs;
      assert c !in cs[..n] by {
        forall i | 0 <= i < n ensures cs[..n][i] != c {
          assert cs[i] != cs[n];
        }
      }
      assert forall x :: x in cs <==> x in cs[..n] || x == c;
      var prev := RiskOf(t, b, p, cs[..n]);
      if prev.Ok? {
        AddAllMeaning(prev.value, c, BorderThreats(t, b, p, c));
      }
    }
  }

  /** `country_risk`'s result: its keys are exactly the player's
      territories that border a territory the player does not own, each
      holding the sum of the threats of those enemy borders; it raises
      exactly when one of those threats raises. */
  lemma RiskKeysAndValues(t: Combat.Tables, b: Board, p: Player)
    requires ValidBoard(b) && ValidPlayer(b, p)
    ensures Risk(t, b, p).Ok? <==>
              forall c, k :: c in p.countries && 0 <= k < |Borders(b, c)| && Borders(b, c)[k] !in p.countries ==>
                Threat(t, b, Borders(b, c)[k], c).Ok?
    ensures Risk(t, b, p).Ok? ==>
              forall c :: c in Risk(t, b, p).value <==> c in p.countries && HasEnemy(b, p, c)
    ensures Risk(t, b, p).Ok? ==>
              forall c :: c in Risk(t, b, p).value ==>
                c in b.countries && SumThreats(BorderThreats(t, b, p, c)) == Ok(Risk(t, b, p).value[c])
  {
    RiskOfMeaning(t, b, p, p.countries);
    forall c | c in p.countries
      ensures AnyEvaluated(BorderThreats(t, b, p, c)) <==> HasEnemy(b, p, c)
      ensures SumThreats(BorderThreats(t, b, p, c)).Ok? <==>
                forall k :: 0 <= k < |Borders(b, c)| && Borders(b, c)[k] !in p.countries ==>
                  Threat(t, b, Borders(b, c)[k], c).Ok?
    {
      EvaluatedIffEnemy(t, b, p, c);
      var xs := BorderThreats(t, b, p, c);
      SumThreatsOk(xs);
      forall k | 0 <= k < |xs| && Borders(b, c)[k] !in p.countries
        ensures xs[k] == Some(Threat(t, b, Borders(b, c)[k], c)) { }
    }
  }

  /** A territory all of whose borders the player owns adds nothing. */
  lemma NoEnemyNoThreat(t: Combat.Tables, b: Board, p: Player, c: string)
    requires ValidBoard(b) && c in b.countries && !HasEnemy(b, p, c)
    ensures SumThreats(BorderThreats(t, b, p, c)) == Ok(0.0)
  {
    EvaluatedIffEnemy(t, b, p, c);
    SumThreatsNoneEvaluated(BorderThreats(t, b, p, c));
  }
}
