/** Positional valuation (continent bonus plus fortification) and the
    expected value of an attack. */
module Valuation {
  import opened Results
  import opened Snapshot
  import opened Combat
  import opened BorderGraph

  /** How many entries of `s` lie in `members`, duplicates counted. */
  function CountIn(s: seq<string>, members: set<string>): nat {
    if s == [] then 0
    else (if s[0] in members then 1 else 0) + CountIn(s[1..], members)
  }

  lemma {:induction false} CountInIgnores(s: seq<string>, members: set<string>, x: string)
    requires x !in s
    ensures CountIn(s, members - {x}) == CountIn(s, members)
  {
    if s != [] {
      assert s[0] != x;
      CountInIgnores(s[1..], members, x);
    }
  }

  /** A list without repetitions has no more entries in a set than the set
      has elements. */
  lemma {:induction false} CountInBound(s: seq<string>, members: set<string>)
    requires Distinct(s)
    ensures CountIn(s, members) <= |members|
  {
    if s != [] {
      var x := s[0];
      assert x !in s[1..] by {
        forall k | 0 <= k < |s| - 1 ensures s[1..][k] != x {
          assert s[k + 1] != s[0];
        }
      }
      assert Distinct(s[1..]) by {
        forall i, j | 0 <= i < j < |s| - 1 ensures s[1..][i] != s[1..][j] {
          assert s[i + 1] != s[j + 1];
        }
      }
      if x in members {
        CountInIgnores(s[1..], members, x);
        CountInBound(s[1..], members - {x});
      } else {
        CountInBound(s[1..], members);
      }
    }
  }

  /** The continent's territories the player does not hold. */
  function Unconquered(b: Board, name: string, p: Player): int
    requires ValidBoard(b) && name in b.countries
  {
    |b.continentOf[name].members| - CountIn(p.countries, b.continentOf[name].members)
  }

  /** The continent bonus shared out over the territories still to conquer,
      or 0 when none are left. */
  function BonusValue(b: Board, name: string, p: Player): (r: real)
    requires ValidBoard(b) && name in b.countries
    ensures Unconquered(b, name, p) > 0 ==> r * Unconquered(b, name, p) as real == b.continentOf[name].bonus
    ensures Unconquered(b, name, p) <= 0 ==> r == 0.0
  {
    var u := Unconquered(b, name, p);
    if u > 0 then b.continentOf[name].bonus / u as real else 0.0
  }

  /** The unconquered count lies between 0 and the continent's size, and
      with a non-negative bonus each remaining territory is worth at least an
      even share of it. */
  lemma BonusValueBounds(b: Board, name: string, p: Player)
    requires ValidBoard(b) && name in b.countries && Distinct(p.countries)
    ensures 0 <= Unconquered(b, name, p) <= |b.continentOf[name].members|
    ensures b.continentOf[name].bonus >= 0.0 ==>
              && BonusValue(b, name, p) >= 0.0
              && (Unconquered(b, name, p) > 0 ==>
                    BonusValue(b, name, p) >= b.continentOf[name].bonus / |b.continentOf[name].members| as real)
  {
    var c := b.continentOf[name];
    CountInBound(p.countries, c.members);
    var u := Unconquered(b, name, p);
    if c.bonus >= 0.0 && u > 0 {
      assert name in c.members;
      ShareAtLeast(c.bonus, u, |c.members|);
    }
  }

  lemma ShareAtLeast(x: real, u: int, n: int)
    requires x >= 0.0 && 0 < u <= n
    ensures x / u as real >= x / n as real && x / u as real >= 0.0
  {
    assert x / n as real == (x / u as real) * (u as real / n as real);
    assert u as real / n as real <= 1.0;
  }

  /** `position_value`: bonus value plus fortification value. */
  function PositionValue(b: Board, name: string, p: Player): (r: Result<real>)
    requires ValidBoard(b) && name in b.countries
    ensures r.Ok? <==> name in BorderGraphOf(b).nodes
    ensures r.Err? ==> r.error == KeyError
    ensures r.Ok? ==> r.value > BonusValue(b, name, p)
  {
    var bonus := BonusValue(b, name, p);
    match FortifyValue(b, name)
    case Err(e) => Err(e)
    case Ok(f) => Ok(bonus + f)
  }

  /** A territory with a border, a player without repeated territories and a
      non-negative bonus give a strictly positive position value. */
  lemma PositionValuePositive(b: Board, name: string, p: Player)
    requires ValidBoard(b) && name in b.countries && Distinct(p.countries)
    requires b.continentOf[name].bonus >= 0.0
    requires |b.countries[name].borders| > 0
    ensures PositionValue(b, name, p).Ok? && PositionValue(b, name, p).value > 0.0
  {
    InBorderGraph(b, name);
    BonusValueBounds(b, name, p);
  }

  /** The position value weighted by the win probability, plus the weighted
      expected troop loss. */
  function AttackScore(positionValue: real, prob: real, troopLoss: real): real {
    positionValue * prob + PREF * troopLoss
  }

  /** `ev_attack`: 0 for a target the player already owns; otherwise the
      target's position value weighted by the win probability, plus the
      weighted expected troop loss, both looked up for (base troops - 1,
      target troops). */
  function EvAttack(t: Tables, b: Board, base: string, target: string, p: Player): (r: Result<real>)
    requires ValidBoard(b) && base in b.countries && target in b.countries
    ensures b.countries[target].owner == Some(p.name) ==> r == Ok(0.0)
    ensures b.countries[target].owner != Some(p.name) ==>
              (r.Ok? <==> GetProbsAndTroops(t, Troops(b, base) - 1, Troops(b, target), TableBound).Ok?
                          && PositionValue(b, target, p).Ok?)
    ensures r.Err? ==> r.error == KeyError
  {
    if b.countries[target].owner == Some(p.name) then Ok(0.0)
    else
      var defenders := Troops(b, target);
      var attackers := Troops(b, base) - 1;
      var look := GetProbsAndTroops(t, attackers, defenders, TableBound);
      if look.Err? then Err(look.error)
      else
        var (probs, troops) := look.value;
        var pv := PositionValue(b, target, p);
        if pv.Err? then Err(pv.error)
        else Ok(AttackScore(pv.value, probs, troops))
  }

  /** For counts within the table, an attack on a territory the player does
      not own is valued with the table entries at (base troops - 1, target
      troops), unchanged. */
  lemma EvAttackInRange(t: Tables, b: Board, base: string, target: string, p: Player)
    requires ValidBoard(b) && base in b.countries && target in b.countries
    requires b.countries[target].owner != Some(p.name)
    requires Troops(b, base) - 1 <= TableBound && Troops(b, target) <= TableBound
    ensures var key := (Troops(b, base) - 1, Troops(b, target));
            && (EvAttack(t, b, base, target, p).Ok? <==>
                  key in t.probs && key in t.troopLoss && PositionValue(b, target, p).Ok?)
            && (EvAttack(t, b, base, target, p).Ok? ==>
                  EvAttack(t, b, base, target, p).value
                    == AttackScore(PositionValue(b, target, p).value, t.probs[key], t.troopLoss[key]))
  {
    var key := (Troops(b, base) - 1, Troops(b, target));
    var look := GetProbsAndTroops(t, key.0, key.1, TableBound);
    var pv := PositionValue(b, target, p);
    assert look.Ok? <==> key in t.probs && key in t.troopLoss;
    assert look.Ok? ==> look.value == (t.probs[key], t.troopLoss[key]);
  }
}
