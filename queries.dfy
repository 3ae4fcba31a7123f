/**
 * The read-only slash commands over the store (`coords`, `search`, `stats`,
 * `export`) and the health probe of the web server.  Each is a function of the
 * `coordinates` array; message formatting is not part of the model.
 */
module Queries {
  import opened Wrappers
  import opened Decimal
  import opened Store
  import opened Ranking

  function Min(a: int, b: int): int {
    if a < b then a else b
  }

  function Max(a: int, b: int): int {
    if a < b then b else a
  }

  function Abs(a: int): nat {
    if a < 0 then -a else a
  }

  // ---------------------------------------------------------------- /coords

  /** `Array.prototype.slice(start)`: a negative start counts from the end. */
  function SliceFrom<T>(s: seq<T>, start: int): (r: seq<T>)
    ensures |r| == if start < 0 then Min(-start, |s|) else Max(|s| - start, 0)
    ensures r == s[|s| - |r|..]
  {
    if start < 0 then s[Max(|s| + start, 0)..] else s[Min(start, |s|)..]
  }

  /** `Array.prototype.reverse`. */
  function Reverse<T>(s: seq<T>): (r: seq<T>)
    ensures |r| == |s|
    ensures forall i :: 0 <= i < |s| ==> r[i] == s[|s| - 1 - i]
  {
    if |s| == 0 then []
    else
      [s[|s| - 1]] + Reverse(s[..|s| - 1])
  }

  /** `getInteger('count') || 10`: an absent or zero count means 10. */
  function CountOrDefault(count: Option<int>): (n: int)
    ensures count.None? || count.value == 0 ==> n == 10
    ensures count.Some? && count.value != 0 ==> n == count.value
  {
    if count.None? || count.value == 0 then 10 else count.value
  }

  /**
   * `coordinates.slice(-count).reverse()`: the newest records first.  For a positive
   * count (the only kind the command's option admits) these are the last
   * min(count, length) records.
   */
  function Recent(cs: seq<Coord>, count: Option<int>): (r: seq<Coord>)
    ensures var n := CountOrDefault(count);
      |r| == if n > 0 then Min(n, |cs|) else Max(|cs| + n, 0)
    ensures forall i :: 0 <= i < |r| ==> r[i] == cs[|cs| - 1 - i]
  {
    Reverse(SliceFrom(cs, -CountOrDefault(count)))
  }

  /** The listing is empty, and "No coordinates logged yet" is replied, exactly when the store is. */
  lemma RecentEmpty(cs: seq<Coord>, count: Option<int>)
    requires CountOrDefault(count) > 0
    ensures Recent(cs, count) == [] <==> cs == []
  {
    if cs != [] {
      assert |Recent(cs, count)| > 0;
    }
  }

  // ---------------------------------------------------------------- /search

  /** `getInteger('radius') || 1000`: an absent or zero radius means 1000. */
  function RadiusOrDefault(radius: Option<int>): (r: int)
    ensures radius.None? || radius.value == 0 ==> r == 1000
    ensures radius.Some? && radius.value != 0 ==> r == radius.value
  {
    if radius.None? || radius.value == 0 then 1000 else radius.value
  }

  /** The bounding-box test of the search filter. */
  predicate InBox(c: Coord, x: int, z: int, radius: int)
    ensures InBox(c, x, z, radius) ==> radius >= 0
    ensures c.x == x && c.z == z ==> (InBox(c, x, z, radius) <==> radius >= 0)
  {
    Abs(c.x - x) <= radius && Abs(c.z - z) <= radius
  }

  /** `coordinates.filter(InBox)`: the records in the box, in store order. */
  function Nearby(cs: seq<Coord>, x: int, z: int, radius: int): (r: seq<Coord>)
    ensures forall c :: multiset(r)[c] == if InBox(c, x, z, radius) then multiset(cs)[c] else 0
    ensures forall i :: 0 <= i < |r| ==> InBox(r[i], x, z, radius)
  {
    if |cs| == 0 then []
    else
      var rest := Nearby(cs[1..], x, z, radius);
      assert cs == [cs[0]] + cs[1..];
      if InBox(cs[0], x, z, radius) then [cs[0]] + rest else rest
  }

  /** The boxed records with their distances, nearest first. */
  function Rank(cs: seq<Coord>, x: int, z: int, radius: int): (r: seq<Ranked>)
    ensures Sorted(r)
    ensures multiset(r) == multiset(WithDistance(Nearby(cs, x, z, radius), x, z))
  {
    SortByDistance(WithDistance(Nearby(cs, x, z, radius), x, z))
  }

  /** The embed lists at most this many of the ranked records. */
  const SearchShown := 15

  /** The reply to `/search`: none found, or the first ranked records with the full count. */
  datatype SearchReply =
    | NoneNearby(radius: int)
    | Found(shown: seq<Ranked>, total: nat, radius: int)

  /** Nothing is near exactly when no stored record lies in the box. */
  lemma NearbyEmpty(cs: seq<Coord>, x: int, z: int, radius: int)
    ensures |Nearby(cs, x, z, radius)| == 0 <==> forall i :: 0 <= i < |cs| ==> !InBox(cs[i], x, z, radius)
  {
    var nearby := Nearby(cs, x, z, radius);
    if |nearby| == 0 {
      forall i | 0 <= i < |cs| ensures !InBox(cs[i], x, z, radius) {
        assert multiset(nearby)[cs[i]] == 0;
        assert cs[i] in multiset(cs);
      }
    } else {
      assert nearby[0] in multiset(nearby);
      var i :| 0 <= i < |cs| && cs[i] == nearby[0];
    }
  }

  /** As many records are ranked as lie in the box. */
  lemma RankLength(cs: seq<Coord>, x: int, z: int, radius: int)
    ensures |Rank(cs, x, z, radius)| == |Nearby(cs, x, z, radius)|
  {
    var paired := WithDistance(Nearby(cs, x, z, radius), x, z);
    assert |multiset(Rank(cs, x, z, radius))| == |multiset(paired)|;
  }

  /** `/search x z radius`. */
  function Search(cs: seq<Coord>, x: int, z: int, radius: Option<int>): (r: SearchReply)
    ensures r.radius == RadiusOrDefault(radius)
    ensures r.NoneNearby? <==> forall i :: 0 <= i < |cs| ==> !InBox(cs[i], x, z, r.radius)
    ensures r.Found? ==>
      r.total == |Nearby(cs, x, z, r.radius)| && |r.shown| == Min(SearchShown, r.total) &&
      r.shown == Rank(cs, x, z, r.radius)[..|r.shown|]
  {
    var rad := RadiusOrDefault(radius);
    var nearby := Nearby(cs, x, z, rad);
    NearbyEmpty(cs, x, z, rad);
    RankLength(cs, x, z, rad);
    if |nearby| == 0 then NoneNearby(rad)
    else Found(Rank(cs, x, z, rad)[..Min(SearchShown, |nearby|)], |nearby|, rad)
  }

  /** Every ranked entry is a stored record in the box, paired with its own distance. */
  lemma RankInBox(cs: seq<Coord>, x: int, z: int, radius: int, i: nat)
    requires i < |Rank(cs, x, z, radius)|
    ensures var e := Rank(cs, x, z, radius)[i];
      e.coord in cs && InBox(e.coord, x, z, radius) && e.distance == Dist2(e.coord, x, z)
  {
    var nearby := Nearby(cs, x, z, radius);
    var paired := WithDistance(nearby, x, z);
    var e := Rank(cs, x, z, radius)[i];
    assert e in multiset(paired);
    var j :| 0 <= j < |paired| && paired[j] == e;
    assert e.coord == nearby[j];
    assert multiset(nearby)[nearby[j]] > 0;
  }

  /** Every stored record in the box is ranked, paired with its distance. */
  lemma RankHasBoxed(cs: seq<Coord>, x: int, z: int, radius: int, i: nat)
    requires i < |cs| && InBox(cs[i], x, z, radius)
    ensures Ranked(cs[i], Dist2(cs[i], x, z)) in Rank(cs, x, z, radius)
  {
    var nearby := Nearby(cs, x, z, radius);
    var paired := WithDistance(nearby, x, z);
    assert cs[i] in multiset(cs);
    assert cs[i] in multiset(nearby);
    var j :| 0 <= j < |nearby| && nearby[j] == cs[i];
    assert paired[j] == Ranked(cs[i], Dist2(cs[i], x, z));
    assert paired[j] in multiset(paired);
  }

  /** What a search shows lies in the box, nearest first, and is drawn from the store. */
  lemma SearchShowsBoxedSorted(cs: seq<Coord>, x: int, z: int, radius: Option<int>)
    ensures var r := Search(cs, x, z, radius);
      r.Found? ==>
        (forall i, j :: 0 <= i < j < |r.shown| ==> r.shown[i].distance <= r.shown[j].distance) &&
        forall i :: 0 <= i < |r.shown| ==>
          r.shown[i].coord in cs && InBox(r.shown[i].coord, x, z, r.radius) &&
          r.shown[i].distance == Dist2(r.shown[i].coord, x, z)
  {
    var r := Search(cs, x, z, radius);
    if r.Found? {
      var ranked := Rank(cs, x, z, r.radius);
      forall i | 0 <= i < |r.shown|
        ensures r.shown[i].coord in cs && InBox(r.shown[i].coord, x, z, r.radius)
        ensures r.shown[i].distance == Dist2(r.shown[i].coord, x, z)
      {
        RankInBox(cs, x, z, r.radius, i);
      }
      SortedPairwise(ranked);
      forall i, j | 0 <= i < j < |r.shown| ensures r.shown[i].distance <= r.shown[j].distance {
        assert r.shown[i] == ranked[i] && r.shown[j] == ranked[j];
      }
    }
  }

  /** A negative radius finds nothing: no absolute difference is negative. */
  lemma NegativeRadiusFindsNothing(cs: seq<Coord>, x: int, z: int, radius: int)
    requires radius < 0
    ensures Search(cs, x, z, Some(radius)).NoneNearby?
  {
    var r := Search(cs, x, z, Some(radius));
    forall i | 0 <= i < |cs| ensures !InBox(cs[i], x, z, r.radius) {
    }
  }

  // ---------------------------------------------------------------- /stats

  datatype Stats = Stats(total: nat, last: Option<(int, int, int)>)

  /** `coordinates.length` and the triple of `coordinates[coordinates.length - 1]`, if any. */
  function StatsOf(cs: seq<Coord>): (s: Stats)
    ensures s.total == |cs|
    ensures s.last.None? <==> |cs| == 0
    ensures s.last.Some? ==>
      s.last.value == (cs[|cs| - 1].x, cs[|cs| - 1].y, cs[|cs| - 1].z)
  {
    if |cs| == 0 then Stats(0, None)
    else
      var c := cs[|cs| - 1];
      Stats(|cs|, Some((c.x, c.y, c.z)))
  }

  // ---------------------------------------------------------------- /export

  /** Export shows at most this many of the most recent records. */
  const ExportCap := 50

  /** One exported line, `${c.x}, ${c.y}, ${c.z}`. */
  function ExportLine(c: Coord): (line: string)
    ensures '\n' !in line
  {
    var line := IntToString(c.x) + ", " + IntToString(c.y) + ", " + IntToString(c.z);
    assert forall i :: 0 <= i < |line| ==> line[i] != '\n' by {
      forall i | 0 <= i < |line| ensures line[i] != '\n' {
        if i < |IntToString(c.x)| {
          assert line[i] == IntToString(c.x)[i];
        } else if i < |IntToString(c.x)| + 2 {
        } else if i < |IntToString(c.x)| + 2 + |IntToString(c.y)| {
          assert line[i] == IntToString(c.y)[i - |IntToString(c.x)| - 2];
        } else if i < |IntToString(c.x)| + 4 + |IntToString(c.y)| {
        } else {
          assert line[i] == IntToString(c.z)[i - |IntToString(c.x)| - 4 - |IntToString(c.y)|];
        }
      }
    }
    line
  }

  /** `lines.join('\n')`. */
  function Join(lines: seq<string>): (r: string)
    ensures |lines| == 0 ==> r == ""
    ensures |lines| > 0 ==> lines[0] <= r
  {
    if |lines| == 0 then ""
    else if |lines| == 1 then lines[0]
    else lines[0] + "\n" + Join(lines[1..])
  }

  /** `text.split('\n')`: the reading side of Join. */
  function Split(s: string): (r: seq<string>)
    ensures |r| > 0
  {
    if |s| == 0 then [""]
    else
      var rest := Split(s[1..]);
      if s[0] == '\n' then [""] + rest else [[s[0]] + rest[0]] + rest[1..]
  }

  lemma {:induction false} SplitLine(line: string, tail: string)
    requires '\n' !in line
    ensures Split(line) == [line]
    ensures Split(line + "\n" + tail) == [line] + Split(tail)
  {
    if |line| == 0 {
      assert line + "\n" + tail == "\n" + tail;
      assert ("\n" + tail)[1..] == tail;
    } else {
      SplitLine(line[1..], tail);
      assert (line + "\n" + tail)[1..] == line[1..] + "\n" + tail;
      assert [line[0]] + line[1..] == line;
    }
  }

  /** Splitting the joined lines gives them back, as none of them holds a newline. */
  lemma {:induction false} SplitJoin(lines: seq<string>)
    requires |lines| > 0
    requires forall i :: 0 <= i < |lines| ==> '\n' !in lines[i]
    ensures Split(Join(lines)) == lines
  {
    if |lines| == 1 {
      SplitLine(lines[0], "");
    } else {
      SplitJoin(lines[1..]);
      SplitLine(lines[0], Join(lines[1..]));
      assert [lines[0]] + lines[1..] == lines;
    }
  }

  datatype ExportReply =
    | NothingToExport
    | Exported(count: nat, text: string, truncated: bool)

  /** The i-th element of a suffix is the element that many places into its tail of s. */
  lemma SuffixAt<T>(s: seq<T>, r: seq<T>, i: nat)
    requires |r| <= |s| && r == s[|s| - |r|..] && i < |r|
    ensures r[i] == s[|s| - |r| + i]
  {
  }

  /** The lines of the last 50 records, oldest first, as `slice(-50).map(...)` builds them. */
  function ExportLines(cs: seq<Coord>): (lines: seq<string>)
    ensures |lines| == Min(|cs|, ExportCap)
    ensures forall i :: 0 <= i < |lines| ==> lines[i] == ExportLine(cs[|cs| - |lines| + i])
  {
    var last := SliceFrom(cs, -ExportCap);
    var lines := seq(|last|, i requires 0 <= i < |last| => ExportLine(last[i]));
    forall i | 0 <= i < |last| ensures lines[i] == ExportLine(cs[|cs| - |last| + i]) {
      SuffixAt(cs, last, i);
    }
    lines
  }

  /** `/export`: the text holds one line per exported record, and says when records were left out. */
  function Export(cs: seq<Coord>): (e: ExportReply)
    ensures e.NothingToExport? <==> |cs| == 0
    ensures e.Exported? ==>
      e.count == Min(|cs|, ExportCap) && e.truncated == (|cs| > ExportCap) &&
      Split(e.text) == ExportLines(cs)
  {
    if |cs| == 0 then NothingToExport
    else
      var lines := ExportLines(cs);
      SplitJoin(lines);
      Exported(Min(|cs|, ExportCap), Join(lines), |cs| > ExportCap)
  }

  // ---------------------------------------------------------------- GET /

  datatype Health = Health(status: string, coordsLogged: nat)

  /** The health probe: always online, with the number of stored records. */
  function HealthOf(cs: seq<Coord>): (h: Health)
    ensures h.status == "online" && h.coordsLogged == |cs|
  {
    Health("online", |cs|)
  }

  // ---------------------------------------------------------------- across commands

  /** A saved ping is counted by stats and shown as the last coordinate; a rejected one changes nothing. */
  lemma StatsAfterWebhook(cs: seq<Coord>, body: Body, now: string)
    ensures var o := Webhook(cs, body, now);
      StatsOf(o.coords) ==
        if o.response.Saved? then Stats(|cs| + 1, Some((o.response.x, o.response.y, o.response.z)))
        else StatsOf(cs)
  {
  }

  /** A saved ping heads the recent listing. */
  lemma RecentAfterWebhook(cs: seq<Coord>, body: Body, now: string, count: Option<int>)
    requires CountOrDefault(count) > 0
    ensures var o := Webhook(cs, body, now);
      o.response.Saved? ==>
        |Recent(o.coords, count)| > 0 && Recent(o.coords, count)[0] == o.coords[|cs|] &&
        Recent(o.coords, count)[0].id == o.response.id
  {
  }

  /** The health probe counts every saved ping and nothing else. */
  lemma HealthAfterWebhook(cs: seq<Coord>, body: Body, now: string)
    ensures var o := Webhook(cs, body, now);
      HealthOf(o.coords).coordsLogged == |cs| + (if o.response.Saved? then 1 else 0)
  {
  }

  /** Only the first of three sample records lies in the box of radius 1000 around the origin. */
  lemma SampleNearby(a: Coord, b: Coord, c: Coord)
    requires a == Coord(1, 10, 64, -20, "", "") && b == Coord(2, 1010, 64, -20, "", "")
    requires c == Coord(3, 5000, 0, 5000, "", "")
    ensures Nearby([a, b, c], 0, 0, 1000) == [a]
  {
    assert [a, b, c][1..] == [b, c] && [b, c][1..] == [c] && [c][1..] == [];
  }

  /** A sample search: the box test is `<=` per axis, so x = 1010 lies outside radius 1000. */
  lemma SearchSample()
    ensures var a, b, c := Coord(1, 10, 64, -20, "", ""), Coord(2, 1010, 64, -20, "", ""),
                          Coord(3, 5000, 0, 5000, "", "");
      Search([a, b, c], 0, 0, Some(1000)) == Found([Ranked(a, 500)], 1, 1000)
  {
    var a, b, c := Coord(1, 10, 64, -20, "", ""), Coord(2, 1010, 64, -20, "", ""),
                   Coord(3, 5000, 0, 5000, "", "");
    SampleNearby(a, b, c);
    assert WithDistance([a], 0, 0) == [Ranked(a, 500)];
    assert SortByDistance([Ranked(a, 500)]) == [Ranked(a, 500)];
  }

  lemma SampleJoin()
    ensures Join(["1, 2, 3", "4, 5, 6", "-7, 8, 9"]) == "1, 2, 3\n4, 5, 6\n-7, 8, 9"
  {
    var l := ["1, 2, 3", "4, 5, 6", "-7, 8, 9"];
    assert l[1..] == ["4, 5, 6", "-7, 8, 9"] && l[1..][1..] == ["-7, 8, 9"];
    assert Join(["-7, 8, 9"]) == "-7, 8, 9";
    assert Join(["4, 5, 6", "-7, 8, 9"]) == "4, 5, 6" + "\n" + "-7, 8, 9";
    assert "4, 5, 6" + "\n" + "-7, 8, 9" == "4, 5, 6\n-7, 8, 9";
    assert "1, 2, 3" + "\n" + "4, 5, 6\n-7, 8, 9" == "1, 2, 3\n4, 5, 6\n-7, 8, 9";
  }

  /** The line of a record whose numbers are spelled tx, ty and tz. */
  lemma ExportLineSpelled(c: Coord, tx: string, ty: string, tz: string)
    requires IntToString(c.x) == tx && IntToString(c.y) == ty && IntToString(c.z) == tz
    ensures ExportLine(c) == tx + ", " + ty + ", " + tz
  {
  }

  lemma SampleLines(a: Coord, b: Coord, c: Coord)
    requires a == Coord(1, 1, 2, 3, "", "") && b == Coord(2, 4, 5, 6, "", "") && c == Coord(3, -7, 8, 9, "", "")
    ensures ExportLines([a, b, c]) == ["1, 2, 3", "4, 5, 6", "-7, 8, 9"]
  {
    assert IntToString(1) == "1" && IntToString(2) == "2" && IntToString(3) == "3";
    ExportLineSpelled(a, "1", "2", "3");
    assert IntToString(4) == "4" && IntToString(5) == "5" && IntToString(6) == "6";
    ExportLineSpelled(b, "4", "5", "6");
    assert IntToString(-7) == "-7" && IntToString(8) == "8" && IntToString(9) == "9";
    ExportLineSpelled(c, "-7", "8", "9");
    assert "1" + ", " + "2" + ", " + "3" == "1, 2, 3";
    assert "4" + ", " + "5" + ", " + "6" == "4, 5, 6";
    assert "-7" + ", " + "8" + ", " + "9" == "-7, 8, 9";
    var lines := ExportLines([a, b, c]);
    assert |lines| == 3;
    assert lines[0] == ExportLine(a) && lines[1] == ExportLine(b) && lines[2] == ExportLine(c);
  }

  /** Export lists the last records oldest first. */
  lemma ExportSample()
    ensures var a, b, c := Coord(1, 1, 2, 3, "", ""), Coord(2, 4, 5, 6, "", ""), Coord(3, -7, 8, 9, "", "");
      Export([a, b, c]) == Exported(3, "1, 2, 3\n4, 5, 6\n-7, 8, 9", false)
  {
    var a, b, c := Coord(1, 1, 2, 3, "", ""), Coord(2, 4, 5, 6, "", ""), Coord(3, -7, 8, 9, "", "");
    SampleLines(a, b, c);
    SampleJoin();
  }
}
