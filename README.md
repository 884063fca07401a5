# Risk bot decision layer, in Dafny

This project models the heuristic decision layer of a bot that plays a
territory-conquest board game (`ai.py`), together with the two facts the
Flask handler in `app.py` feeds into it. The model reads one board snapshot:
territories with owner, troops and borders, continents with a bonus, and the
acting player. It never changes that snapshot. On it, the model defines:

- the continent-bonus value of a territory (`bonus_value`);
- the directed border graph (`make_graph`) and the fortification value, the
  inverse of degree centrality (`fortify_value`);
- the position value, their sum (`position_value`);
- the combat-table lookup (`get_probs_and_troops`) and the expected value of
  an attack (`ev_attack`);
- the risk map (`country_risk`): for each territory of the player, the
  summed attack value of the enemy territories bordering it;
- the four policies: `best_country`, `deploy_troops`, `best_attack` and
  `reinforce`.

Scores are `real`. A Python exception becomes an `Err` value of a `Result`
that names the exception, so each error path the model keeps is part of a
contract. The board itself is taken to be well formed (`Snapshot.ValidBoard`),
so the errors of a malformed board are not modelled; "## Left out" lists them,
together with what the model assumes about the players. Python's `max` with a
key is `Selection.MaxIndex`. It evaluates the keys in order, stops at the first one that raises, and otherwise picks the
first element whose key is largest.

The definitions in `ai.py` do not agree with their call sites, so the model
uses one consistent reading:

- `position_value(country, board, player)` and
  `bonus_value(country, board, player)`;
- `ev_attack(base, target, player, board)`, where the enemy player of
  `country_risk` is the owner of the bordering territory, as seen from the
  board (`Snapshot.OwnerView`);
- `target.owner == player.name` means the target belongs to the player.

Three behaviours of the code are worth stating plainly:

- `deploy_troops` rounds each proportional share and does not allocate
  greedily, so the shares need not add up to the budget
  (`Policies.AllocationMayExceedBudget`).
- `reinforce` returns the first move for which the loop condition fails, not
  that move minus one.
- "No choice" comes back as `None` only where the code returns `None`.
  Elsewhere the code raises, for example `max` over no candidate.

The modules follow the source:

| file | module | contents |
|---|---|---|
| results.dfy | `Results` | Option, Result and the exceptions |
| snapshot.dfy | `Snapshot` | board, territory, continent, player and their validity |
| combat.dfy | `Combat` | the tables, Python 2 `round`, `get_probs_and_troops` |
| graph.dfy | `BorderGraph` | `make_graph`, degree centrality, `fortify_value` |
| valuation.dfy | `Valuation` | `bonus_value`, `position_value`, `ev_attack` |
| risk.dfy | `Exposure` | `country_risk` |
| selection.dfy | `Selection` | `max` with a key |
| policies.dfy | `Policies` | `best_country`, `deploy_troops`, `best_attack`, attacking force |
| reinforce.dfy | `Reinforcement` | reinforcement candidates and `reinforce` |

`make_graph`, `country_risk` and the move search of `reinforce` update
variables in loops, so they are methods whose loops carry invariants:
`BorderGraph.MakeGraph`, `Exposure.CountryRisk` with its inner loop
`Exposure.AddBorderThreats`, and `Reinforcement.SmallestMove`. Each is proved
against a function that specifies it: `BorderGraphOf`, `Risk`, `AddAll` and
`FirstStop`. `reinforce` itself is the method `Reinforcement.Reinforce`,
because it calls `country_risk` and the move search. Everything else is a
function.

## Model

| member | source | states |
|---|---|---|
| Combat.Lookup | ai.py:68 | `PROBS[(a, d)], TROOP_LOSS[(a, d)]`: Ok exactly when the key is in both tables, with the two entries; otherwise KeyError |
| Combat.RoundHalfAwayMonotone | ai.py:25 | Python 2 `round` (halves away from zero, within 1/2 of its argument) keeps order |
| Combat.GetProbsAndTroops | ai.py:64-68 | corrected behaviour (see Findings): counts within the table dimension (default 100) are looked up unchanged, as written; larger counts are rescaled so the larger one becomes 100 first, where the code as written raises TypeError; the only error is then KeyError |
| Combat.ScaleInRange | ai.py:65-67 | a rescaled count of 0..m lands in 0..n and the larger count becomes exactly n, so a rescaled key is within the table |
| Combat.ScaleKeepsRatio | ai.py:66-67 | the rescaled count times m is within m/2 of n times the count: the ratio of the two counts is kept up to rounding |
| Combat.GetProbsAndTroopsAsWritten | ai.py:64-68 | the branch as written: out-of-range counts raise TypeError, in-range counts are looked up |
| Combat.LargeArmyLookupRaisesAsWritten | ai.py:65-67 | 150 attackers against 3 defenders raise TypeError as written, where the rescaled lookup reads the entry (100, 2) |
| BorderGraph.AddEdge | ai.py:42 | `G.add_edge` adds the edge and both endpoints |
| BorderGraph.MakeGraph | ai.py:38-43 | the graph has an edge (a, c) exactly when c is a border of a; its nodes are exactly the edges' endpoints; it equals `BorderGraphOf(b)` |
| BorderGraph.BorderGraphWellFormed | ai.py:38-43 | the border graph has no isolated node and no loop |
| BorderGraph.InBorderGraph | ai.py:38-43 | a territory is a node exactly when it has a border or is a border of some territory |
| BorderGraph.NodeHasEdge | ai.py:48 | a node has degree at least 1 and the graph at least 2 nodes, so its degree centrality is positive |
| BorderGraph.InverseCentrality | ai.py:48 | `1 / degree_centrality` is positive and its product with the centrality is 1 |
| BorderGraph.Fortify | ai.py:48 | Ok exactly for a node of the graph, with value 1 / centrality; KeyError for a name outside the graph |
| BorderGraph.FortifyValue | ai.py:46-48 | Ok exactly when the territory is a node of the board's border graph, with a positive value; otherwise KeyError |
| BorderGraph.FortifyAntitone | ai.py:48 | a node of larger degree never has a larger fortification value |
| Valuation.CountInBound | ai.py:52 | a list without repetitions has at most as many entries in a continent as the continent has territories |
| Valuation.BonusValue | ai.py:50-54 | with unconquered territories u > 0, the value times u is the continent bonus; with none left the value is exactly 0 |
| Valuation.BonusValueBounds | ai.py:50-54 | the unconquered count lies in [0, continent size]; for a non-negative bonus the value is non-negative and at least bonus / continent size |
| Valuation.PositionValue | ai.py:70-71 | Ok exactly when the territory is in the border graph, and then larger than its bonus value; otherwise KeyError |
| Valuation.PositionValuePositive | ai.py:70-71 | a territory with a border and a non-negative continent bonus has a positive position value |
| Valuation.EvAttack | ai.py:56-62 | over the corrected lookup: 0 for a target the player owns; otherwise Ok exactly when the table lookup and the target's position value are both Ok; any error is KeyError (the code as written also raises TypeError for a base above 101 troops or a target above 100) |
| Valuation.EvAttackInRange | ai.py:56-62 | within the table, the value is `position_value * prob + PREF * troop_loss` with the entries at (base troops - 1, target troops) and `PREF = 1` |
| Exposure.Threat | ai.py:79 | `bc.owner` of an unclaimed neighbour has no `name`, so AttributeError; for an owned neighbour the only error is KeyError, and a territory of the neighbour's own owner is worth 0 |
| Exposure.BorderThreats | ai.py:77-79 | one entry per border: skipped exactly when the player owns that border, otherwise the threat of that border |
| Exposure.AddTo | ai.py:80-81 | adds the value to the territory's entry, or creates the entry; the other entries are unchanged |
| Exposure.CountryRisk | ai.py:74-82 | the loops compute exactly `Risk(t, b, p)`, the error included |
| Exposure.AddBorderThreats | ai.py:77-81 | the inner loop computes exactly `AddAll` over the territory's border entries |
| Exposure.SumThreatsOk | ai.py:77-81 | the sum of a territory's threats raises exactly when one evaluated threat raises |
| Exposure.SumThreatsNoneEvaluated | ai.py:78 | with every border skipped the sum is 0 |
| Exposure.AddAllMeaning | ai.py:77-81 | the inner loop sets the territory's entry to the sum of its threats when some border was evaluated, and leaves the map unchanged otherwise; it raises exactly when the sum does |
| Exposure.EvaluatedIffEnemy | ai.py:78 | some border is evaluated exactly when some border is not the player's |
| Exposure.RiskOfMeaning | ai.py:74-82 | over distinct territories: keys are exactly those with an evaluated border, each holding the sum of its threats; raises exactly when one of the sums raises |
| Exposure.RiskKeysAndValues | ai.py:74-82 | the keys are exactly the player's territories with an enemy border; each value is the sum of `ev_attack` over those borders; the map is Ok exactly when every such threat is Ok |
| Exposure.NoEnemyNoThreat | ai.py:78 | a territory whose borders are all the player's has threat sum 0 |
| Selection.FirstMax | ai.py:18 | the index `max` picks: its value is at least every other, and every earlier value is strictly smaller |
| Selection.Collect | ai.py:17-18 | the keys evaluated in order: Ok exactly when all are Ok, with their values; otherwise the first error |
| Selection.MaxIndex | ai.py:33-34 | `max(xs, key=k)`: Ok exactly when every key is Ok, the chosen key is maximal and the first maximal; otherwise the first error raised |
| Policies.UnclaimedIn | ai.py:15 | exactly the territories with no owner (`not c.owner`) |
| Policies.BestCountry | ai.py:14-19 | a chosen territory exists on the board and is unclaimed; its maximality, the None case and the failure case are stated by Policies.BestCountryMaximal, Policies.BestCountryNone and Policies.BestCountryFails |
| Policies.BestCountryNone | ai.py:14-19 | `best_country` returns None exactly when every territory is claimed |
| Policies.BestCountryMaximal | ai.py:14-19 | a chosen territory is unclaimed, and no unclaimed territory has a larger position value |
| Policies.BestCountryFails | ai.py:17-18 | a failure is a KeyError from an unclaimed territory without a position value |
| Policies.BestCountryNeedsEveryValue | ai.py:17-18 | one unclaimed territory without a position value makes `best_country` fail |
| Policies.TotalRiskBounds | ai.py:24 | with no negative risk, the total is non-negative and at least each territory's risk |
| Policies.Allocate | ai.py:25 | same keys as the risk map; each allocation is within 1/2 of `num * val / tv` |
| Policies.DeployTroops | ai.py:21-25 | the risk map's error is passed on; a non-empty map with total 0 raises ZeroDivisionError; otherwise the keys are the risk map's keys and each allocation is within 1/2 of the territory's share |
| Policies.AllocateMonotone | ai.py:25 | a riskier territory never receives fewer troops |
| Policies.AllocationBounds | ai.py:25 | a risk between 0 and the total gets between 0 and all of the troops |
| Policies.RiskKeysOwned | ai.py:23-25 | every territory that receives troops belongs to the player |
| Policies.DeployWithinBudget | ai.py:21-25 | with no negative risk, every territory receives between 0 and all of the deployment troops |
| Policies.AllocationMayExceedBudget | ai.py:25 | the allocations need not add up to the budget: 10 troops over risks 3 and 1 give 8 and 3 |
| Policies.PairsMembers | ai.py:28-32 | a pair is listed exactly when its first territory is the player's with more than one troop and its second is a border of the first with the required ownership |
| Policies.AttackPairsMembers | ai.py:28-32 | `possible_attacks` is exactly the pairs from a territory of the player with more than one troop to a bordering territory it does not own |
| Policies.BestAttack | ai.py:27-35 | a chosen attack is one of the candidate pairs; its legality, maximality, the None case and the failures are stated by Policies.BestAttackLegal, Policies.BestAttackMaximal, Policies.BestAttackNone, Policies.BestAttackNoCandidate and Policies.BestAttackFails |
| Policies.BestAttackNoCandidate | ai.py:28-34 | ValueError exactly when there is no candidate pair |
| Policies.BestAttackFails | ai.py:33-34 | any other failure is a KeyError from some candidate's attack value |
| Policies.BestAttackNeedsEveryValue | ai.py:33-34 | one candidate whose attack value raises makes `best_attack` fail |
| Policies.BestAttackLegal | ai.py:27-35 | a chosen attack starts from a territory of the player with more than one troop and targets a bordering territory the player does not own |
| Policies.BestAttackMaximal | ai.py:33-35 | a chosen attack is a candidate with a positive attack value, and no candidate has a larger one |
| Policies.BestAttackNone | ai.py:33-35 | no attack exactly when there are candidates and none has a positive value |
| Policies.AttackingTroops | app.py:78 | `min(3, troops - 1)`: from a territory with more than one troop, between 1 and 3 troops attack and at least one stays |
| Reinforcement.ReinforcePairsMembers | app.py:94-97 | the candidates are exactly the pairs of neighbouring territories of the player whose first one has more than one troop |
| Reinforcement.RatioKey | ai.py:86 | Ok exactly when both risks exist and are non-zero and the second troop count is non-zero, the value times the second ratio being the first ratio; KeyError exactly for a missing risk reached first; otherwise ZeroDivisionError |
| Reinforcement.SmallestMove | ai.py:88-91 | a returned move is in [1, a.troops - 1], the condition fails for it and holds for every smaller move; None exactly when the condition holds for every move |
| Reinforcement.ContinuesMonotone | ai.py:89 | with positive risks, a move that satisfies the condition is preceded only by moves that satisfy it |
| Reinforcement.ContinuesThreshold | ai.py:89 | with positive risks, the condition holds exactly when move * (1/risk[a] + 1/risk[b]) < a.troops - b.troops |
| Reinforcement.BestPair | ai.py:86-87 | Ok exactly when every candidate's key is Ok, and then the chosen candidate's key is the largest and every earlier candidate's key is strictly smaller (the first on a tie); otherwise the error of the first candidate whose key raises, every earlier key being Ok |
| Reinforcement.Reinforce | ai.py:84-91 | the risk map's error is passed on, as is the first key that raises; otherwise the pair of largest ratio and the smallest move that stops the loop, or None exactly when every move continues |

## Left out

- Loading `PROBS` and `TROOP_LOSS` from JSON (ai.py:4-10). The tables are a parameter of the model, as two maps from (attackers, defenders) to a real.
- The `networkx` graph. It is replaced by a set of nodes and a set of edges, with degree centrality computed as (in-degree + out-degree) / (n - 1).
- IEEE floating point and Python 2 integer division. Scores are exact reals and every division is a real division; `round` is Python 2 rounding (halves away from zero) on reals.
- `troops_to_move` (app.py:79). It is called but not defined, so it is not part of this model.
- The Flask routes, request parsing, JSON responses and `print` logging in `app.py`. They are transport and I/O.
- The random card trade-in (app.py:55-62). It is random and depends on `Card.is_set_with`, which is not part of this model.
- The unpacking of the result of `reinforce` when it returns None (app.py:103). This is in the handler, not in the decision layer.
- `ai.py` membership tests compare territory objects (`c in continent.countries`, `bc not in player.countries`). The model compares territory names. For `continent.countries`, a dictionary keyed by name, this is the evident reading.
- The order in which `sum(risk.values())` adds the risks. The model adds them in the player's territory order; with exact reals, any order gives the same sum.
- Valuation.EvAttack, Exposure.Threat, Exposure.Risk, Policies.BestAttack, Policies.DeployTroops and Reinforcement.Reinforce: use the corrected lookup `Combat.GetProbsAndTroops`. As written, the code raises TypeError whenever an attack reads the tables from a base with more than 101 troops or against a target with more than 100 (see Findings); the model instead reads the rescaled entry.
- The errors of a malformed board. `Snapshot.ValidBoard` requires every territory to have an entry in `continentOf` whose members include it, and every border to be another territory of the board. So the KeyError of `board.continent_lookup[country.name]` (ai.py:51) for a territory with no continent is not modelled, and neither are a territory that borders itself or a border missing from the board.
- Snapshot.ValidPlayer: the player's territory list is assumed to be free of repeats and to hold exactly the territories whose owner is that player. The source reads the list (ai.py:29, 32, 76, 78) and the owner fields (ai.py:15, 57) separately, and the handler fills them from different parts of the request (app.py:19, app.py:24-25), so a request where the two disagree is not modelled. `Exposure.Risk`, `Exposure.CountryRisk`, `Policies.DeployTroops`, `Policies.BestAttack` and `Reinforcement.Reinforce` require it.
- Snapshot.OwnerView: an enemy player is given the territories the board says it owns. The handler creates each enemy as a bare `Player(n)` (app.py:21) and never fills in its territory list, so in the source the bonus part of every threat (ai.py:79, through ai.py:61, 71 and 52) reads a territory list the handler never sets. The `Player` class is not part of this model, so what that unset list holds is not captured.
- Policies.DeployTroops: does not state that the allocations add up to the budget, because the code does not ensure it (Policies.AllocationMayExceedBudget).
- Reinforcement.Reinforce: requires at least one candidate. The handler returns before calling it with none (app.py:99-102). With none, `max` would raise ValueError.

## Findings

| source | as written | input that shows it | evidently intended | confidence | as-written member | corrected member |
|---|---|---|---|---|---|---|
| ai.py:65-67 | the rescaling passes a float digit count to `round(m, ...)` and unpacks one integer into two names, so every out-of-range lookup raises TypeError | 150 attackers against 3 defenders (a base of 151 troops) | rescale both counts by 100/m with m the larger, then look up the rescaled key | high; not executed | Combat.LargeArmyLookupRaisesAsWritten | Combat.ScaleInRange |
