/** The star map: the hyperlanes drawn between planets, which lanes are lit,
    and the click that starts a trip. Each planet is linked to its three
    nearest neighbours (fewer when there are fewer planets); a lane is kept
    only from the lower index, so each pair appears once. Distances are
    compared squared: the square root the screen takes preserves their order. */
module Starmap {
  import opened Wrappers
  import opened Seqs
  import opened Models
  import opened Geometry
  import GameStore

  const NeighbourCount := 3

  /** Another planet and its squared distance from the planet in question. */
  datatype Candidate = Candidate(index: nat, d2: nat)

  /** A hyperlane between two planet indices. */
  datatype Lane = Lane(from: nat, to: nat, d2: nat)

  /** The planet index at position `j` of the list that skips planet `i`. */
  function Other(i: nat, j: nat): (k: nat)
    ensures k != i
  {
    if j < i then j else j + 1
  }

  /** Where planet `k` sits in the list that skips planet `i`. */
  function Slot(i: nat, k: nat): nat
    requires k != i
    ensures Other(i, Slot(i, k)) == k
  {
    if k < i then k else k - 1
  }

  /** Every other planet, in index order, with its distance from planet `i`
      (the `map` then `filter` of the screen). */
  function Candidates(planets: seq<Planet>, i: nat): (r: seq<Candidate>)
    requires i < |planets|
    ensures |r| == |planets| - 1
    ensures forall j :: 0 <= j < |r| ==> r[j].index == Other(i, j) < |planets|
    ensures forall j :: 0 <= j < |r| ==> r[j].d2 == SquaredDistance(planets[i].coordinates, planets[r[j].index].coordinates)
    ensures forall k :: 0 <= k < |planets| && k != i ==> Slot(i, k) < |r| && r[Slot(i, k)].index == k
  {
    seq(|planets| - 1, j requires 0 <= j < |planets| - 1 =>
      Candidate(Other(i, j), SquaredDistance(planets[i].coordinates, planets[Other(i, j)].coordinates)))
  }

  /** Candidates ordered by distance, ties by index: the order a stable sort
      by distance gives a list in index order. */
  predicate SortedByDistance(s: seq<Candidate>) {
    forall a, b :: 0 <= a < b < |s| ==>
      s[a].d2 < s[b].d2 || (s[a].d2 == s[b].d2 && s[a].index < s[b].index)
  }

  predicate IndicesAbove(s: seq<Candidate>, k: nat) {
    forall j :: 0 <= j < |s| ==> s[j].index > k
  }

  /** Inserts `x` before the first element at least as far: an earlier
      element stays ahead of later ones at equal distance. */
  function Insert(x: Candidate, s: seq<Candidate>): (r: seq<Candidate>)
    ensures |r| == |s| + 1
    ensures multiset(r) == multiset(s) + multiset{x}
  {
    if |s| == 0 || x.d2 <= s[0].d2 then [x] + s
    else
      assert s == [s[0]] + s[1..];
      [s[0]] + Insert(x, s[1..])
  }

  /** The stable sort by distance (`sort((a, b) => a.distance - b.distance)`),
      as an insertion sort from the back. */
  function SortByDistance(s: seq<Candidate>): (r: seq<Candidate>)
    ensures |r| == |s|
    ensures multiset(r) == multiset(s)
  {
    if |s| == 0 then []
    else
      assert s == [s[0]] + s[1..];
      Insert(s[0], SortByDistance(s[1..]))
  }

  /** `a` comes before `b` in the distance order. */
  predicate Precedes(a: Candidate, b: Candidate) {
    a.d2 < b.d2 || (a.d2 == b.d2 && a.index < b.index)
  }

  lemma SortedCons(h: Candidate, t: seq<Candidate>)
    requires SortedByDistance(t)
    requires forall j :: 0 <= j < |t| ==> Precedes(h, t[j])
    ensures SortedByDistance([h] + t)
  {
    var r := [h] + t;
    forall a, b | 0 <= a < b < |r|
      ensures r[a].d2 < r[b].d2 || (r[a].d2 == r[b].d2 && r[a].index < r[b].index)
    {
      assert r[b] == t[b - 1];
      if a > 0 {
        assert r[a] == t[a - 1];
      }
    }
  }

  lemma {:induction false} InsertMember(x: Candidate, s: seq<Candidate>, y: Candidate)
    requires y in Insert(x, s)
    ensures y == x || y in s
    decreases |s|
  {
    if |s| > 0 && x.d2 > s[0].d2 && y != s[0] {
      assert y in Insert(x, s[1..]);
      InsertMember(x, s[1..], y);
    }
  }

  lemma {:induction false} InsertSorted(x: Candidate, s: seq<Candidate>)
    requires SortedByDistance(s) && IndicesAbove(s, x.index)
    ensures SortedByDistance(Insert(x, s))
    decreases |s|
  {
    if |s| == 0 || x.d2 <= s[0].d2 {
      forall j | 0 <= j < |s| ensures Precedes(x, s[j]) {
        assert s[0].d2 <= s[j].d2;
      }
      SortedCons(x, s);
    } else {
      var t := Insert(x, s[1..]);
      InsertSorted(x, s[1..]);
      forall j | 0 <= j < |t| ensures Precedes(s[0], t[j]) {
        InsertMember(x, s[1..], t[j]);
        if t[j] != x {
          var m :| 0 <= m < |s[1..]| && s[1..][m] == t[j];
          assert s[m + 1] == t[j];
        }
      }
      SortedCons(s[0], t);
    }
  }

  lemma {:induction false} SortMembers(s: seq<Candidate>, x: Candidate)
    requires x in SortByDistance(s)
    ensures x in s
  {
    assert x in multiset(SortByDistance(s));
  }

  /** Sorting a list in increasing index order gives the distance order,
      ties broken by index. */
  lemma {:induction false} SortIsSorted(s: seq<Candidate>)
    requires forall a, b :: 0 <= a < b < |s| ==> s[a].index < s[b].index
    ensures SortedByDistance(SortByDistance(s))
    decreases |s|
  {
    if |s| > 0 {
      var tail := SortByDistance(s[1..]);
      SortIsSorted(s[1..]);
      forall j | 0 <= j < |tail|
        ensures tail[j].index > s[0].index
      {
        SortMembers(s[1..], tail[j]);
      }
      InsertSorted(s[0], tail);
    }
  }

  /** The neighbours planet `i` is linked to: the first three of its sorted
      candidates, or all of them when there are fewer. */
  function Nearest(planets: seq<Planet>, i: nat): (r: seq<Candidate>)
    requires i < |planets|
    ensures |r| == Min(NeighbourCount, |planets| - 1)
  {
    var sorted := SortByDistance(Candidates(planets, i));
    sorted[..Min(NeighbourCount, |sorted|)]
  }

  /** The lanes pushed for planet `i`: one per neighbour with a higher index. */
  function LanesFrom(i: nat, nearest: seq<Candidate>): (r: seq<Lane>)
    ensures |r| <= |nearest|
    ensures forall l :: l in r ==> l.from == i && i < l.to
  {
    if |nearest| == 0 then []
    else
      var rest := LanesFrom(i, nearest[1..]);
      if i < nearest[0].index then [Lane(i, nearest[0].index, nearest[0].d2)] + rest else rest
  }

  /** Every lane from planet `i` leads to one of the given neighbours. */
  lemma {:induction false} LanesFromSound(i: nat, nearest: seq<Candidate>, l: Lane)
    requires l in LanesFrom(i, nearest)
    ensures Candidate(l.to, l.d2) in nearest
    decreases |nearest|
  {
    var rest := LanesFrom(i, nearest[1..]);
    if l in rest {
      LanesFromSound(i, nearest[1..], l);
      assert nearest == [nearest[0]] + nearest[1..];
    }
  }

  /** Every given neighbour with a higher index gets a lane from planet `i`. */
  lemma {:induction false} LanesFromComplete(i: nat, nearest: seq<Candidate>, c: Candidate)
    requires c in nearest && i < c.index
    ensures Lane(i, c.index, c.d2) in LanesFrom(i, nearest)
    decreases |nearest|
  {
    if c != nearest[0] {
      assert c in nearest[1..];
      LanesFromComplete(i, nearest[1..], c);
    }
  }

  /** Every planet's neighbours, by planet index. */
  function NearestTable(planets: seq<Planet>): (r: seq<seq<Candidate>>)
    ensures |r| == |planets|
    ensures forall i :: 0 <= i < |planets| ==> r[i] == Nearest(planets, i)
  {
    seq(|planets|, i requires 0 <= i < |planets| => Nearest(planets, i))
  }

  /** The lanes of planets `0 .. n-1`, in the order the screen pushes them,
      from each planet's neighbours. */
  function LanesUpTo(table: seq<seq<Candidate>>, n: nat): (r: seq<Lane>)
    requires n <= |table|
    ensures forall l :: l in r ==> l.from < n && l.from < l.to
  {
    if n == 0 then []
    else LanesUpTo(table, n - 1) + LanesFrom(n - 1, table[n - 1])
  }

  /** The hyperlanes of the map. */
  function Hyperlanes(planets: seq<Planet>): (r: seq<Lane>)
    ensures forall l :: l in r ==> l.from < l.to < |planets|
  {
    var r := LanesUpTo(NearestTable(planets), |planets|);
    forall l | l in r ensures l.to < |planets| {
      HyperlaneInNearest(planets, l);
      NearestAreCandidates(planets, l.from, Candidate(l.to, l.d2));
    }
    r
  }

  /** Every lane comes from its start's neighbour list. */
  lemma {:induction false} LaneIsListed(table: seq<seq<Candidate>>, n: nat, l: Lane)
    requires n <= |table| && l in LanesUpTo(table, n)
    ensures l.from < n && Candidate(l.to, l.d2) in table[l.from]
    decreases n
  {
    var prev := LanesUpTo(table, n - 1);
    var last := LanesFrom(n - 1, table[n - 1]);
    assert LanesUpTo(table, n) == prev + last;
    InSplit(prev, last, l);
    if l in prev {
      LaneIsListed(table, n - 1, l);
    } else {
      LanesFromSound(n - 1, table[n - 1], l);
    }
  }

  /** Every listed neighbour with a higher index gets its lane. */
  lemma {:induction false} ListedGetLanes(table: seq<seq<Candidate>>, n: nat, i: nat, c: Candidate)
    requires i < n <= |table| && c in table[i] && i < c.index
    ensures Lane(i, c.index, c.d2) in LanesUpTo(table, n)
    decreases n
  {
    var prev := LanesUpTo(table, n - 1);
    var last := LanesFrom(n - 1, table[n - 1]);
    if i < n - 1 {
      ListedGetLanes(table, n - 1, i, c);
    } else {
      LanesFromComplete(i, table[i], c);
    }
    InAppend(prev, last, Lane(i, c.index, c.d2));
    assert LanesUpTo(table, n) == prev + last;
  }

  lemma HyperlaneIsListed(planets: seq<Planet>, l: Lane)
    requires l in LanesUpTo(NearestTable(planets), |planets|)
    ensures l.from < |planets| && Candidate(l.to, l.d2) in NearestTable(planets)[l.from]
  {
    LaneIsListed(NearestTable(planets), |planets|, l);
  }

  lemma HyperlaneInNearest(planets: seq<Planet>, l: Lane)
    requires l in LanesUpTo(NearestTable(planets), |planets|)
    ensures l.from < |planets| && Candidate(l.to, l.d2) in Nearest(planets, l.from)
  {
    HyperlaneIsListed(planets, l);
    assert NearestTable(planets)[l.from] == Nearest(planets, l.from);
  }

  /** Every lane links a planet to one of its nearest neighbours, at that
      neighbour's distance. */
  lemma HyperlaneIsNear(planets: seq<Planet>, l: Lane)
    requires l in Hyperlanes(planets)
    ensures l.from < |planets| && Candidate(l.to, l.d2) in Nearest(planets, l.from)
    ensures l.to < |planets| && l.to != l.from
    ensures l.d2 == SquaredDistance(planets[l.from].coordinates, planets[l.to].coordinates)
  {
    HyperlaneInNearest(planets, l);
    var c := Candidate(l.to, l.d2);
    NearestAreCandidates(planets, l.from, c);
  }

  /** Every nearest neighbour with a higher index gets its lane. */
  lemma NearestGetLanes(planets: seq<Planet>, i: nat, c: Candidate)
    requires i < |planets| && c in Nearest(planets, i) && i < c.index
    ensures Lane(i, c.index, c.d2) in Hyperlanes(planets)
  {
    ListedGetLanes(NearestTable(planets), |planets|, i, c);
  }

  lemma NearestAreCandidates(planets: seq<Planet>, i: nat, c: Candidate)
    requires i < |planets| && c in Nearest(planets, i)
    ensures c in Candidates(planets, i)
    ensures c.index < |planets| && c.index != i
    ensures c.d2 == SquaredDistance(planets[i].coordinates, planets[c.index].coordinates)
  {
    var cands := Candidates(planets, i);
    var sorted := SortByDistance(cands);
    assert c in sorted;
    SortMembers(cands, c);
    var j :| 0 <= j < |cands| && cands[j] == c;
  }

  lemma InAppend<T>(a: seq<T>, b: seq<T>, x: T)
    requires x in a || x in b
    ensures x in a + b
  {
    if x in a {
      var k :| 0 <= k < |a| && a[k] == x;
      assert (a + b)[k] == x;
    } else {
      var k :| 0 <= k < |b| && b[k] == x;
      assert (a + b)[|a| + k] == x;
    }
  }

  lemma InSplit<T>(a: seq<T>, b: seq<T>, x: T)
    requires x in a + b
    ensures x in a || x in b
  {
    var k :| 0 <= k < |a + b| && (a + b)[k] == x;
    if k < |a| {
      assert a[k] == x;
    } else {
      assert b[k - |a|] == x;
    }
  }

  /** A planet's neighbours are no farther than any other planet: every
      candidate left out is at least as far as every one kept. */
  lemma NearestAreNearest(planets: seq<Planet>, i: nat, a: nat, b: nat)
    requires i < |planets|
    requires var sorted := SortByDistance(Candidates(planets, i));
      a < Min(NeighbourCount, |sorted|) <= b < |sorted|
    ensures var sorted := SortByDistance(Candidates(planets, i));
      sorted[a].d2 <= sorted[b].d2
  {
    var cands := Candidates(planets, i);
    SortIsSorted(cands);
  }

  predicate DistinctPairs(ls: seq<Lane>) {
    forall a, b :: 0 <= a < b < |ls| ==> ls[a].from != ls[b].from || ls[a].to != ls[b].to
  }

  /** No pair of planets is linked twice. */
  lemma {:induction false} LanesAreDistinct(table: seq<seq<Candidate>>, n: nat)
    requires n <= |table|
    requires forall i :: 0 <= i < n ==> DistinctIndices(table[i])
    ensures DistinctPairs(LanesUpTo(table, n))
    decreases n
  {
    if n > 0 {
      LanesAreDistinct(table, n - 1);
      LanesFromDistinct(n - 1, table[n - 1]);
      AppendDistinct(LanesUpTo(table, n - 1), LanesFrom(n - 1, table[n - 1]), n - 1);
    }
  }

  /** The map has no duplicate hyperlane. */
  lemma HyperlanesAreDistinct(planets: seq<Planet>)
    ensures DistinctPairs(Hyperlanes(planets))
  {
    var table := NearestTable(planets);
    forall i | 0 <= i < |planets| ensures DistinctIndices(table[i]) {
      NearestDistinct(planets, i);
    }
    LanesAreDistinct(table, |planets|);
  }

  lemma AppendDistinct(prev: seq<Lane>, last: seq<Lane>, k: nat)
    requires DistinctPairs(prev) && DistinctPairs(last)
    requires forall l :: l in prev ==> l.from < k
    requires forall l :: l in last ==> l.from == k
    ensures DistinctPairs(prev + last)
  {
    var all := prev + last;
    forall a, b | 0 <= a < b < |all|
      ensures all[a].from != all[b].from || all[a].to != all[b].to
    {
      if a < |prev| <= b {
        assert all[a] in prev && all[b] in last;
      } else if |prev| <= a {
        assert all[a] == last[a - |prev|] && all[b] == last[b - |prev|];
      }
    }
  }

  predicate DistinctIndices(s: seq<Candidate>) {
    forall a, b :: 0 <= a < b < |s| ==> s[a].index != s[b].index
  }

  /** The neighbours of a planet are different planets: in the candidate list
      a planet's distance is fixed by its index, so two entries with one index
      would be equal, which the strict distance order rules out. */
  lemma NearestDistinct(planets: seq<Planet>, i: nat)
    requires i < |planets|
    ensures DistinctIndices(Nearest(planets, i))
  {
    var cands := Candidates(planets, i);
    var sorted := SortByDistance(cands);
    SortIsSorted(cands);
    forall a, b | 0 <= a < b < |sorted|
      ensures sorted[a].index != sorted[b].index
    {
      SortMembers(cands, sorted[a]);
      SortMembers(cands, sorted[b]);
    }
  }

  lemma {:induction false} LanesFromDistinct(i: nat, nearest: seq<Candidate>)
    requires DistinctIndices(nearest)
    ensures DistinctPairs(LanesFrom(i, nearest))
    decreases |nearest|
  {
    if |nearest| > 0 {
      var rest := LanesFrom(i, nearest[1..]);
      LanesFromDistinct(i, nearest[1..]);
      if i < nearest[0].index {
        var r := LanesFrom(i, nearest);
        assert r == [Lane(i, nearest[0].index, nearest[0].d2)] + rest;
        forall a, b | 0 <= a < b < |r| ensures r[a].from != r[b].from || r[a].to != r[b].to {
          if a == 0 {
            assert r[b] in rest;
            LanesFromSound(i, nearest[1..], r[b]);
            var m :| 0 <= m < |nearest[1..]| && nearest[1..][m] == Candidate(r[b].to, r[b].d2);
            assert nearest[m + 1].index == r[b].to;
          } else {
            assert r[a] == rest[a - 1] && r[b] == rest[b - 1];
          }
        }
      }
    }
  }

  /** Lanes in ascending distance, ties broken by the lower target index. */
  predicate LanesByDistance(ls: seq<Lane>) {
    forall a, b :: 0 <= a < b < |ls| ==>
      ls[a].d2 < ls[b].d2 || (ls[a].d2 == ls[b].d2 && ls[a].to < ls[b].to)
  }

  /** The kept neighbours are in ascending distance order. */
  lemma NearestSorted(planets: seq<Planet>, i: nat)
    requires i < |planets|
    ensures SortedByDistance(Nearest(planets, i))
  {
    SortIsSorted(Candidates(planets, i));
  }

  /** Filtering neighbours into lanes keeps their order. */
  lemma {:induction false} LanesFromOrdered(i: nat, nearest: seq<Candidate>)
    requires SortedByDistance(nearest)
    ensures LanesByDistance(LanesFrom(i, nearest))
    decreases |nearest|
  {
    if |nearest| > 0 {
      var rest := LanesFrom(i, nearest[1..]);
      LanesFromOrdered(i, nearest[1..]);
      if i < nearest[0].index {
        var r := LanesFrom(i, nearest);
        assert r == [Lane(i, nearest[0].index, nearest[0].d2)] + rest;
        forall a, b | 0 <= a < b < |r|
          ensures r[a].d2 < r[b].d2 || (r[a].d2 == r[b].d2 && r[a].to < r[b].to)
        {
          if a == 0 {
            assert r[b] in rest;
            LanesFromSound(i, nearest[1..], r[b]);
            var m :| 0 <= m < |nearest[1..]| && nearest[1..][m] == Candidate(r[b].to, r[b].d2);
            assert nearest[m + 1] == Candidate(r[b].to, r[b].d2);
          } else {
            assert r[a] == rest[a - 1] && r[b] == rest[b - 1];
          }
        }
      }
    }
  }

  /** The lanes planet `i` pushes go out in ascending distance order. */
  lemma LanesInDistanceOrder(planets: seq<Planet>, i: nat)
    requires i < |planets|
    ensures LanesByDistance(LanesFrom(i, Nearest(planets, i)))
  {
    NearestSorted(planets, i);
    LanesFromOrdered(i, Nearest(planets, i));
  }

  /** A lane is lit when either end is the player's planet; with no planet
      recorded none is. */
  predicate IsActive(planets: seq<Planet>, l: Lane, currentPlanetId: Option<string>)
    requires l.from < |planets| && l.to < |planets|
  {
    currentPlanetId == Some(planets[l.from].id) || currentPlanetId == Some(planets[l.to].id)
  }

  predicate DistinctIds(planets: seq<Planet>) {
    forall a, b :: 0 <= a < b < |planets| ==> planets[a].id != planets[b].id
  }

  /** With distinct planet ids, the lit lanes are exactly the lanes touching
      the player's planet. */
  lemma ActiveLanesTouchCurrent(planets: seq<Planet>, l: Lane, c: nat)
    requires DistinctIds(planets) && c < |planets| && l in Hyperlanes(planets)
    ensures IsActive(planets, l, Some(planets[c].id)) <==> (l.from == c || l.to == c)
  {
  }

  /** A click on a planet starts a trip (the first half of `travelToPlanet`)
      unless one is under way, in which case nothing happens. A click while
      idle starts the trip exactly when the planet is known and the fuel
      covers its cost. */
  function OnPlanetClick(s: GameStore.GameState, planetId: string): (r: (GameStore.GameState, Option<GameStore.TravelPlan>))
    ensures s.isTraveling ==> r == (s, None)
    ensures r.1.None? ==> r.0 == s
    ensures r.1.Some? ==>
      && !s.isTraveling
      && r.0 == s.(isTraveling := true)
      && r.1.value.target == planetId
      && GameStore.TravelCost(s, planetId) == Some(r.1.value.fuelNeeded)
      && r.1.value.fuelNeeded <= s.ship.fuel
    ensures !s.isTraveling && GameStore.TravelCost(s, planetId).Some?
            && GameStore.TravelCost(s, planetId).value <= s.ship.fuel ==>
      r.1 == Some(GameStore.TravelPlan(planetId, GameStore.TravelCost(s, planetId).value))
  {
    if s.isTraveling then (s, None) else GameStore.StartTravel(s, planetId)
  }

  /** Once a click has started a trip, further clicks change nothing until
      the ship arrives. */
  lemma {:induction false} NoSecondTripUnderWay(s: GameStore.GameState, first: string, second: string)
    requires OnPlanetClick(s, first).1.Some?
    ensures OnPlanetClick(OnPlanetClick(s, first).0, second) == (OnPlanetClick(s, first).0, None)
  {
  }

  /** With at most four planets every planet's neighbours are all the
      others, so every pair of planets is linked. */
  lemma SmallMapIsComplete(planets: seq<Planet>, i: nat, j: nat)
    requires |planets| <= NeighbourCount + 1 && i < j < |planets|
    ensures exists l :: l in Hyperlanes(planets) && l.from == i && l.to == j
  {
    var cands := Candidates(planets, i);
    var c := cands[Slot(i, j)];
    assert c in multiset(cands);
    assert c in Nearest(planets, i);
    NearestGetLanes(planets, i, c);
  }
}
