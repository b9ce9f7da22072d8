/** The selection behind `renderLeaderboard`: keep people with points, sort
    them by points, highest first, keeping registry order among equals
    (`Array.prototype.sort` is stable), and show the first LEADERBOARD_LIMIT. */
module Leaderboard {
  import opened Config
  import opened Aggregation

  /** `filter(p => p.points > 0)` */
  function Scoring(people: seq<Person>): (r: seq<Person>)
    ensures forall p :: p in r <==> p in people && p.points > 0
    ensures |r| <= |people|
  {
    if people == [] then []
    else (if people[0].points > 0 then [people[0]] else []) + Scoring(people[1..])
  }

  /** Put `p` before the first entry that does not have more points. */
  function Insert(p: Person, sorted: seq<Person>): (r: seq<Person>)
    ensures multiset(r) == multiset(sorted) + multiset{p}
  {
    if sorted == [] || p.points >= sorted[0].points then [p] + sorted
    else
      assert sorted == [sorted[0]] + sorted[1..];
      [sorted[0]] + Insert(p, sorted[1..])
  }

  /** `sort((a, b) => b.points - a.points)`, stable: an insertion sort that
      inserts each earlier person in front of later ones with equal points. */
  function SortByPoints(people: seq<Person>): (r: seq<Person>)
    ensures multiset(r) == multiset(people)
  {
    if people == [] then []
    else
      assert people == [people[0]] + people[1..];
      Insert(people[0], SortByPoints(people[1..]))
  }

  /** `slice(0, n)` */
  function Take(s: seq<Person>, n: nat): (r: seq<Person>)
    ensures |r| == if |s| < n then |s| else n
    ensures r == s[..|r|]
  {
    if |s| < n then s else s[..n]
  }

  /** The people shown: as many as have points, up to LEADERBOARD_LIMIT. */
  function Select(people: seq<Person>): (r: seq<Person>)
    ensures |r| == if |Scoring(people)| < LEADERBOARD_LIMIT then |Scoring(people)| else LEADERBOARD_LIMIT
  {
    var sorted := SortByPoints(Scoring(people));
    assert |multiset(sorted)| == |multiset(Scoring(people))|;
    Take(sorted, LEADERBOARD_LIMIT)
  }

  // ---------------------------------------------------------------------
  // Reference definitions

  predicate SortedDescending(s: seq<Person>) {
    forall i, j :: 0 <= i < j < |s| ==> s[i].points >= s[j].points
  }

  /** The people of `s` with exactly `v` points, in their order in `s`. */
  function WithPoints(s: seq<Person>, v: nat): seq<Person> {
    if s == [] then [] else (if s[0].points == v then [s[0]] else []) + WithPoints(s[1..], v)
  }

  // ---------------------------------------------------------------------
  // Lemmas

  lemma {:induction false} InsertSorted(p: Person, sorted: seq<Person>)
    requires SortedDescending(sorted)
    ensures SortedDescending(Insert(p, sorted))
  {
    if sorted != [] && p.points < sorted[0].points {
      InsertSorted(p, sorted[1..]);
      var rest := Insert(p, sorted[1..]);
      forall q | q in rest ensures q.points <= sorted[0].points {
        assert q in multiset(rest);
      }
    }
  }

  /** The sort orders by points, highest first. */
  lemma {:induction false} SortIsSorted(people: seq<Person>)
    ensures SortedDescending(SortByPoints(people))
  {
    if people != [] {
      SortIsSorted(people[1..]);
      InsertSorted(people[0], SortByPoints(people[1..]));
    }
  }

  lemma {:induction false} WithPointsConcat(a: seq<Person>, b: seq<Person>, v: nat)
    ensures WithPoints(a + b, v) == WithPoints(a, v) + WithPoints(b, v)
  {
    if a == [] {
      assert a + b == b;
    } else {
      WithPointsConcat(a[1..], b, v);
      assert (a + b)[1..] == a[1..] + b;
    }
  }

  lemma WithPointsCons(x: Person, rest: seq<Person>, v: nat)
    ensures WithPoints([x] + rest, v) == (if x.points == v then [x] else []) + WithPoints(rest, v)
  {
    assert ([x] + rest)[1..] == rest;
  }

  lemma {:induction false} InsertWithPoints(p: Person, sorted: seq<Person>, v: nat)
    ensures WithPoints(Insert(p, sorted), v) ==
      (if p.points == v then [p] else []) + WithPoints(sorted, v)
  {
    if sorted == [] || p.points >= sorted[0].points {
      WithPointsCons(p, sorted, v);
    } else {
      var head, tail := sorted[0], sorted[1..];
      InsertWithPoints(p, tail, v);
      WithPointsCons(head, Insert(p, tail), v);
      WithPointsCons(head, tail, v);
      assert sorted == [head] + tail;
    }
  }

  /** Stability: the people with any given number of points come out in the
      order they had in the registry. */
  lemma {:induction false} SortIsStable(people: seq<Person>, v: nat)
    ensures WithPoints(SortByPoints(people), v) == WithPoints(people, v)
  {
    if people != [] {
      SortIsStable(people[1..], v);
      InsertWithPoints(people[0], SortByPoints(people[1..]), v);
    }
  }

  lemma {:induction false} WithPointsPrefix(s: seq<Person>, k: nat, v: nat)
    requires k <= |s|
    ensures WithPoints(s[..k], v) <= WithPoints(s, v)
  {
    if k > 0 {
      WithPointsPrefix(s[1..], k - 1, v);
      assert s[..k] == [s[0]] + s[1..][..k - 1];
    }
  }

  /** Everyone shown has points, and the board reads highest first. */
  lemma SelectShowsScoringSorted(people: seq<Person>)
    ensures forall p :: p in Select(people) ==> p in people && p.points > 0
    ensures SortedDescending(Select(people))
  {
    var sorted := SortByPoints(Scoring(people));
    SortIsSorted(Scoring(people));
    var r := Select(people);
    forall p | p in r ensures p in people && p.points > 0 {
      assert p in multiset(sorted);
    }
  }

  /** Top five: anyone with points who is left out has no more points than
      anyone shown. */
  lemma SelectIsTop(people: seq<Person>, p: Person, q: Person)
    requires p in people && p.points > 0 && p !in Select(people)
    requires q in Select(people)
    ensures q.points >= p.points
  {
    var scoring := Scoring(people);
    var sorted := SortByPoints(scoring);
    SortIsSorted(scoring);
    var r := Select(people);
    assert p in multiset(scoring);
    var k :| 0 <= k < |sorted| && sorted[k] == p;
    var i :| 0 <= i < |r| && r[i] == q;
    assert forall m :: 0 <= m < |r| ==> r[m] != p;
    assert sorted[i] == q && i < |r| <= k;
  }

  /** The filter keeps registry order among the people it keeps. */
  lemma {:induction false} ScoringKeepsOrder(people: seq<Person>, v: nat)
    requires v > 0
    ensures WithPoints(Scoring(people), v) == WithPoints(people, v)
  {
    if people != [] {
      ScoringKeepsOrder(people[1..], v);
      var head := if people[0].points > 0 then [people[0]] else [];
      WithPointsConcat(head, Scoring(people[1..]), v);
    }
  }

  /** Ties keep registry order: the people shown with `v` points are the
      first ones in the registry with `v` points. */
  lemma SelectKeepsTieOrder(people: seq<Person>, v: nat)
    requires v > 0
    ensures WithPoints(Select(people), v) <= WithPoints(people, v)
  {
    var sorted := SortByPoints(Scoring(people));
    WithPointsPrefix(sorted, |Select(people)|, v);
    SortIsStable(Scoring(people), v);
    ScoringKeepsOrder(people, v);
  }

  /** A person with 0 points is never shown: {X: 0, Y: 10} shows only Y. */
  lemma ZeroPointsHidden(x: Person, y: Person)
    requires x.points == 0 && y.points == 10
    ensures Select([x, y]) == [y]
  {
    assert [x, y][1..] == [y];
    assert Scoring([x, y]) == [y];
    assert SortByPoints([y]) == [y];
  }
}
