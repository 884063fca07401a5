/** The board snapshot the decision layer reads: territories, continents and
    the acting player. The core never changes it. */
module Snapshot {
  import opened Results

  /** A territory: its owner is a player name, or None when unclaimed. */
  datatype Territory = Territory(name: string, owner: Option<string>, troops: nat, borders: seq<string>)

  datatype Continent = Continent(members: set<string>, bonus: real)

  /** `order` is the iteration order of the board's territory dictionary;
      `continentOf` is the lookup from a territory name to its continent. */
  datatype Board = Board(order: seq<string>, countries: map<string, Territory>, continentOf: map<string, Continent>)

  /** `countries` is the player's list of owned territory names. */
  datatype Player = Player(name: string, countries: seq<string>, troopsToDeploy: nat)

  predicate Distinct<T(==)>(s: seq<T>) {
    forall i, j :: 0 <= i < j < |s| ==> s[i] != s[j]
  }

  /** A territory entry is keyed by its own name, belongs to a continent that
      lists it, and borders only other territories of the board. */
  predicate ValidTerritory(b: Board, n: string)
    requires n in b.countries
  {
    && b.countries[n].name == n
    && n in b.continentOf
    && n in b.continentOf[n].members
    && forall k :: 0 <= k < |b.countries[n].borders| ==> b.countries[n].borders[k] in b.countries && b.countries[n].borders[k] != n
  }

  predicate ValidBoard(b: Board) {
    && Distinct(b.order)
    && (forall n :: n in b.order ==> n in b.countries)
    && (forall n :: n in b.countries ==> n in b.order)
    && (forall n :: n in b.countries ==> ValidTerritory(b, n))
  }

  /** The player's list holds exactly the territories whose owner it is,
      each once. */
  predicate ValidPlayer(b: Board, p: Player) {
    && Distinct(p.countries)
    && (forall n :: n in p.countries ==> n in b.countries)
    && (forall n :: n in b.countries ==> (n in p.countries <==> b.countries[n].owner == Some(p.name)))
  }

  function Troops(b: Board, n: string): nat
    requires n in b.countries
  {
    b.countries[n].troops
  }

  function Borders(b: Board, n: string): seq<string>
    requires n in b.countries
  {
    b.countries[n].borders
  }

  /** The names in `names` whose territory belongs to player `o`, in order. */
  function OwnedIn(b: Board, names: seq<string>, o: string): (r: seq<string>)
    requires forall n :: n in names ==> n in b.countries
    ensures forall n :: n in r <==> n in names && b.countries[n].owner == Some(o)
    ensures Distinct(names) ==> Distinct(r)
  {
    if names == [] then []
    else
      var rest := OwnedIn(b, names[1..], o);
      assert forall n :: n in rest ==> n in names[1..];
      if b.countries[names[0]].owner == Some(o) then [names[0]] + rest else rest
  }

  /** The view of player `o` the board determines: its territories in board
      order. It stands for the owner objects that enemy territories point to. */
  function OwnerView(b: Board, o: string): (p: Player)
    requires ValidBoard(b)
    ensures ValidPlayer(b, p) && p.name == o
  {
    Player(o, OwnedIn(b, b.order, o), 0)
  }
}
