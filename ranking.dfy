/**
 * The ordering of search results: each boxed record is paired with its distance
 * (`map(c => ({...c, distance}))`) and the pairs are put in order by
 * `sort((a, b) => a.distance - b.distance)`, a stable sort, modelled as a stable
 * insertion sort.
 */
module Ranking {
  import opened Store

  /** Squared distance in the XZ plane; `Math.sqrt` of it is monotone, so it orders alike. */
  function Dist2(c: Coord, x: int, z: int): (d: nat)
    ensures d == 0 <==> c.x == x && c.z == z
    ensures d >= (c.x - x) * (c.x - x) && d >= (c.z - z) * (c.z - z)
  {
    var dx, dz := c.x - x, c.z - z;
    assert dx != 0 ==> dx * dx > 0 by { if dx < 0 { assert dx * dx == (-dx) * (-dx); } }
    assert dz != 0 ==> dz * dz > 0 by { if dz < 0 { assert dz * dz == (-dz) * (-dz); } }
    dx * dx + dz * dz
  }

  /** A record together with its distance from the search centre. */
  datatype Ranked = Ranked(coord: Coord, distance: nat)

  /** The records paired with their distances, in the same order. */
  function WithDistance(cs: seq<Coord>, x: int, z: int): (r: seq<Ranked>)
    ensures |r| == |cs|
    ensures forall i :: 0 <= i < |cs| ==> r[i] == Ranked(cs[i], Dist2(cs[i], x, z))
  {
    seq(|cs|, i requires 0 <= i < |cs| => Ranked(cs[i], Dist2(cs[i], x, z)))
  }

  /** Nearest first: each element is no farther than the next. */
  predicate Sorted(s: seq<Ranked>) {
    |s| < 2 || (s[0].distance <= s[1].distance && Sorted(s[1..]))
  }

  /** In a sorted sequence every element is no farther than any later one. */
  lemma {:induction false} SortedPairwise(s: seq<Ranked>)
    requires Sorted(s)
    ensures forall i, j :: 0 <= i < j < |s| ==> s[i].distance <= s[j].distance
  {
    if |s| >= 2 {
      SortedPairwise(s[1..]);
      forall i, j | 0 <= i < j < |s| ensures s[i].distance <= s[j].distance {
        assert s[j] == s[1..][j - 1];
        if i > 0 {
          assert s[i] == s[1..][i - 1];
        }
      }
    }
  }

  /** A sorted sequence stays sorted behind an element no farther than its head. */
  lemma ConsSorted(h: Ranked, t: seq<Ranked>)
    requires Sorted(t) && (|t| == 0 || h.distance <= t[0].distance)
    ensures Sorted([h] + t)
  {
    var r := [h] + t;
    assert r[1..] == t;
  }

  /** Inserts e after every element no farther than e: the step of a stable insertion sort. */
  function Insert(e: Ranked, s: seq<Ranked>): seq<Ranked> {
    if |s| == 0 then [e]
    else if e.distance < s[0].distance then [e] + s
    else [s[0]] + Insert(e, s[1..])
  }

  /** Insertion adds e and loses nothing. */
  lemma {:induction false} InsertPermutes(e: Ranked, s: seq<Ranked>)
    ensures multiset(Insert(e, s)) == multiset(s) + multiset{e}
  {
    if |s| > 0 && e.distance >= s[0].distance {
      InsertPermutes(e, s[1..]);
      assert s == [s[0]] + s[1..];
    }
  }

  /** Inserting into a non-empty sequence: e goes first when nearer than the head, else after it. */
  lemma InsertCons(e: Ranked, s: seq<Ranked>)
    requires |s| > 0
    ensures Insert(e, s) == if e.distance < s[0].distance then [e] + s else [s[0]] + Insert(e, s[1..])
  {
  }

  /** The head after an insertion is e or the old head. */
  lemma InsertHead(e: Ranked, s: seq<Ranked>)
    ensures |Insert(e, s)| > 0
    ensures Insert(e, s)[0] == e || (|s| > 0 && Insert(e, s)[0] == s[0])
  {
    if |s| > 0 {
      InsertCons(e, s);
    }
  }

  /** Insertion keeps a sorted sequence sorted. */
  lemma {:induction false} InsertSorted(e: Ranked, s: seq<Ranked>)
    requires Sorted(s)
    ensures Sorted(Insert(e, s))
  {
    if |s| > 0 {
      InsertCons(e, s);
      if e.distance < s[0].distance {
        ConsSorted(e, s);
      } else {
        var rest := Insert(e, s[1..]);
        InsertSorted(e, s[1..]);
        InsertHead(e, s[1..]);
        ConsSorted(s[0], rest);
      }
    }
  }

  /** `sort((a, b) => a.distance - b.distance)`: nearest first, a permutation of its input. */
  function SortByDistance(s: seq<Ranked>): (r: seq<Ranked>)
    ensures multiset(r) == multiset(s)
    ensures Sorted(r)
  {
    if |s| == 0 then []
    else
      var front := s[..|s| - 1];
      assert s == front + [s[|s| - 1]];
      InsertSorted(s[|s| - 1], SortByDistance(front));
      InsertPermutes(s[|s| - 1], SortByDistance(front));
      Insert(s[|s| - 1], SortByDistance(front))
  }

  /** The elements of s at distance d, in the order of s. */
  function AtDistance(s: seq<Ranked>, d: nat): seq<Ranked> {
    if |s| == 0 then []
    else (if s[0].distance == d then [s[0]] else []) + AtDistance(s[1..], d)
  }

  lemma {:induction false} AtDistanceAppend(a: seq<Ranked>, b: seq<Ranked>, d: nat)
    ensures AtDistance(a + b, d) == AtDistance(a, d) + AtDistance(b, d)
  {
    if |a| == 0 {
      assert a + b == b;
    } else {
      assert (a + b)[1..] == a[1..] + b;
      AtDistanceAppend(a[1..], b, d);
    }
  }

  /** No element of a sorted sequence whose head lies beyond d is at distance d. */
  lemma {:induction false} AtDistanceBeyond(s: seq<Ranked>, d: nat)
    requires Sorted(s) && (|s| == 0 || d < s[0].distance)
    ensures AtDistance(s, d) == []
  {
    if |s| > 0 {
      AtDistanceBeyond(s[1..], d);
    }
  }

  lemma AtDistanceCons(h: Ranked, t: seq<Ranked>, d: nat)
    ensures AtDistance([h] + t, d) == Own(h, d) + AtDistance(t, d)
  {
    var r := [h] + t;
    assert r[0] == h && r[1..] == t;
  }

  /** The elements at distance d that a single element contributes. */
  function Own(e: Ranked, d: nat): seq<Ranked> {
    if e.distance == d then [e] else []
  }

  /** e nearer than the head of a sorted s: it goes first, and nothing in s shares its distance. */
  lemma InsertStableFront(e: Ranked, s: seq<Ranked>, d: nat)
    requires Sorted(s) && |s| > 0 && e.distance < s[0].distance
    ensures AtDistance([e] + s, d) == AtDistance(s, d) + Own(e, d)
  {
    AtDistanceCons(e, s, d);
    if e.distance == d {
      AtDistanceBeyond(s, d);
    }
  }

  /** Putting the same head in front of two sequences keeps how their elements at distance d differ. */
  lemma SameHead(h: Ranked, t: seq<Ranked>, u: seq<Ranked>, o: seq<Ranked>, d: nat)
    requires AtDistance(u, d) == AtDistance(t, d) + o
    ensures AtDistance([h] + u, d) == AtDistance([h] + t, d) + o
  {
    AtDistanceCons(h, u, d);
    AtDistanceCons(h, t, d);
    assert Own(h, d) + (AtDistance(t, d) + o) == (Own(h, d) + AtDistance(t, d)) + o;
  }

  /** Insertion puts e behind every element at its own distance. */
  lemma {:induction false} InsertStable(e: Ranked, s: seq<Ranked>, d: nat)
    requires Sorted(s)
    ensures AtDistance(Insert(e, s), d) == AtDistance(s, d) + Own(e, d)
  {
    if |s| == 0 {
      assert Insert(e, s) == [e] + s;
      AtDistanceCons(e, s, d);
    } else {
      InsertCons(e, s);
      if e.distance < s[0].distance {
        InsertStableFront(e, s, d);
      } else {
        InsertStable(e, s[1..], d);
        SameHead(s[0], s[1..], Insert(e, s[1..]), Own(e, d), d);
        assert [s[0]] + s[1..] == s;
      }
    }
  }

  /** The sort of a non-empty sequence inserts its last element into the sorted rest. */
  lemma SortSnoc(s: seq<Ranked>)
    requires |s| > 0
    ensures SortByDistance(s) == Insert(s[|s| - 1], SortByDistance(s[..|s| - 1]))
  {
  }

  /** The elements at distance d of a non-empty sequence: those of its front, then possibly its last. */
  lemma AtDistanceLast(s: seq<Ranked>, d: nat)
    requires |s| > 0
    ensures AtDistance(s, d) ==
      AtDistance(s[..|s| - 1], d) + Own(s[|s| - 1], d)
  {
    var last := s[|s| - 1];
    assert s == s[..|s| - 1] + [last];
    AtDistanceAppend(s[..|s| - 1], [last], d);
    assert [last][1..] == [];
  }

  /** The sort is stable: elements at one distance keep their relative order. */
  lemma {:induction false} SortStable(s: seq<Ranked>, d: nat)
    ensures AtDistance(SortByDistance(s), d) == AtDistance(s, d)
  {
    if |s| > 0 {
      var front := s[..|s| - 1];
      SortSnoc(s);
      SortStable(front, d);
      InsertStable(s[|s| - 1], SortByDistance(front), d);
      AtDistanceLast(s, d);
    }
  }
}
