/**
 * The in-memory coordinate store: the module-level `coordinates` array, the id
 * rule of the webhook, the `/webhook` handler itself, and the `delete` and
 * `clearall` slash commands that change the array in place.
 */
module Store {
  import opened Wrappers
  import opened Extractor

  /** One logged coordinate, as pushed by the webhook and kept in `coordinates.json`. */
  datatype Coord = Coord(id: int, x: int, y: int, z: int, timestamp: string, raw: string)

  /** The largest id in a non-empty store (`Math.max` over the ids). */
  function MaxId(cs: seq<Coord>): (m: int)
    requires |cs| > 0
    ensures forall i :: 0 <= i < |cs| ==> cs[i].id <= m
    ensures exists i :: 0 <= i < |cs| && cs[i].id == m
  {
    if |cs| == 1 then cs[0].id
    else
      var front := cs[..|cs| - 1];
      var m := MaxId(front);
      assert forall i :: 0 <= i < |cs| - 1 ==> cs[i] == front[i];
      if cs[|cs| - 1].id > m then cs[|cs| - 1].id else m
  }

  /** The id the webhook gives the next record: 1 in an empty store, else one past the largest. */
  function NextId(cs: seq<Coord>): (id: int)
    ensures forall i :: 0 <= i < |cs| ==> cs[i].id < id
    ensures |cs| == 0 ==> id == 1
    ensures |cs| > 0 ==> exists i :: 0 <= i < |cs| && cs[i].id == id - 1
  {
    if |cs| > 0 then MaxId(cs) + 1 else 1
  }

  /** No two records share an id. */
  predicate UniqueIds(cs: seq<Coord>) {
    forall i, j :: 0 <= i < j < |cs| ==> cs[i].id != cs[j].id
  }

  predicate HasId(cs: seq<Coord>, id: int) {
    exists i :: 0 <= i < |cs| && cs[i].id == id
  }

  /** `findIndex(c => c.id === id)`: the first index holding id, or -1. */
  function FindIndex(cs: seq<Coord>, id: int): (k: int)
    ensures -1 <= k < |cs|
    ensures k == -1 <==> !HasId(cs, id)
    ensures k >= 0 ==> cs[k].id == id && forall i :: 0 <= i < k ==> cs[i].id != id
  {
    if |cs| == 0 then -1
    else if cs[0].id == id then 0
    else
      var k := FindIndex(cs[1..], id);
      assert forall i :: 1 <= i < |cs| ==> cs[i] == cs[1..][i - 1];
      if k == -1 then -1 else k + 1
  }

  /** The store after `splice(findIndex(...), 1)` when the id is found, unchanged otherwise. */
  function DeleteFirst(cs: seq<Coord>, id: int): (r: seq<Coord>)
    ensures !HasId(cs, id) ==> r == cs
    ensures HasId(cs, id) ==> |r| == |cs| - 1
  {
    var k := FindIndex(cs, id);
    if k == -1 then cs else cs[..k] + cs[k + 1..]
  }

  /** The records whose id differs from id, in store order. */
  function Others(cs: seq<Coord>, id: int): (r: seq<Coord>)
    ensures |r| <= |cs|
    ensures forall i :: 0 <= i < |r| ==> r[i].id != id
  {
    if |cs| == 0 then []
    else if cs[0].id == id then Others(cs[1..], id)
    else [cs[0]] + Others(cs[1..], id)
  }

  /** How many records hold id. */
  function CountId(cs: seq<Coord>, id: int): (n: nat)
    ensures n <= |cs|
    ensures n == 0 <==> !HasId(cs, id)
  {
    if |cs| == 0 then 0
    else
      assert forall i :: 1 <= i < |cs| ==> cs[i] == cs[1..][i - 1];
      (if cs[0].id == id then 1 else 0) + CountId(cs[1..], id)
  }

  /** Splicing out index k + 1 of a sequence splices out index k of its tail. */
  lemma SpliceTail(cs: seq<Coord>, k: nat)
    requires k + 1 < |cs|
    ensures cs[..k + 1] + cs[k + 2..] == [cs[0]] + (cs[1..][..k] + cs[1..][k + 1..])
  {
    assert cs[..k + 1] == [cs[0]] + cs[1..][..k];
    assert cs[k + 2..] == cs[1..][k + 1..];
  }

  /** Deleting from a non-empty store: the head goes if it holds id, else the deletion moves on. */
  lemma DeleteFirstCons(cs: seq<Coord>, id: int)
    requires |cs| > 0
    ensures DeleteFirst(cs, id) == if cs[0].id == id then cs[1..] else [cs[0]] + DeleteFirst(cs[1..], id)
  {
    if cs[0].id != id {
      var k := FindIndex(cs[1..], id);
      assert FindIndex(cs, id) == if k == -1 then -1 else k + 1;
      if k == -1 {
        assert DeleteFirst(cs[1..], id) == cs[1..];
        assert cs == [cs[0]] + cs[1..];
      } else {
        assert DeleteFirst(cs[1..], id) == cs[1..][..k] + cs[1..][k + 1..];
        SpliceTail(cs, k);
      }
    }
  }

  /** A non-empty store holds id in its head or in its tail. */
  lemma HasIdCons(cs: seq<Coord>, id: int)
    requires |cs| > 0
    ensures HasId(cs, id) <==> cs[0].id == id || HasId(cs[1..], id)
  {
    if HasId(cs, id) && cs[0].id != id {
      var i :| 0 <= i < |cs| && cs[i].id == id;
      assert cs[1..][i - 1] == cs[i];
    }
    if HasId(cs[1..], id) {
      var i :| 0 <= i < |cs| - 1 && cs[1..][i].id == id;
      assert cs[i + 1] == cs[1..][i];
    }
  }

  /** Deleting by id removes no record of any other id, and keeps their order. */
  lemma {:induction false} DeleteFirstKeepsOthers(cs: seq<Coord>, id: int)
    ensures Others(DeleteFirst(cs, id), id) == Others(cs, id)
  {
    if |cs| > 0 {
      DeleteFirstCons(cs, id);
      if cs[0].id != id {
        var rest := DeleteFirst(cs[1..], id);
        DeleteFirstKeepsOthers(cs[1..], id);
        var r := [cs[0]] + rest;
        assert r[0] == cs[0] && r[1..] == rest;
      }
    }
  }

  /** Deleting by id removes exactly one record holding it, when there is one. */
  lemma {:induction false} DeleteFirstCount(cs: seq<Coord>, id: int)
    ensures CountId(DeleteFirst(cs, id), id) == if HasId(cs, id) then CountId(cs, id) - 1 else 0
  {
    if |cs| > 0 {
      DeleteFirstCons(cs, id);
      HasIdCons(cs, id);
      if cs[0].id != id {
        var rest := DeleteFirst(cs[1..], id);
        DeleteFirstCount(cs[1..], id);
        var r := [cs[0]] + rest;
        assert r[0] == cs[0] && r[1..] == rest;
      }
    }
  }

  /** Deleting keeps the order of the records that remain: it cuts out the first holder of id. */
  lemma DeleteFirstCutsFirst(cs: seq<Coord>, id: int, k: nat)
    requires k < |cs| && cs[k].id == id
    requires forall i :: 0 <= i < k ==> cs[i].id != id
    ensures DeleteFirst(cs, id) == cs[..k] + cs[k + 1..]
  {
    var j := FindIndex(cs, id);
    assert j != -1 by { assert HasId(cs, id); }
  }

  /** Deleting keeps ids unique. */
  lemma DeleteKeepsUniqueIds(cs: seq<Coord>, id: int)
    requires UniqueIds(cs)
    ensures UniqueIds(DeleteFirst(cs, id))
  {
    var k := FindIndex(cs, id);
    if k != -1 {
      var r := DeleteFirst(cs, id);
      forall i, j | 0 <= i < j < |r| ensures r[i].id != r[j].id {
        DeleteFirstAt(cs, id, i);
        DeleteFirstAt(cs, id, j);
      }
    }
  }

  /** The records after a deletion are those before it, less the first holder of id. */
  lemma DeleteFirstAt(cs: seq<Coord>, id: int, i: nat)
    requires HasId(cs, id) && i < |DeleteFirst(cs, id)|
    ensures var k := FindIndex(cs, id);
      DeleteFirst(cs, id)[i] == cs[if i < k then i else i + 1]
  {
    var k := FindIndex(cs, id);
    var r := cs[..k] + cs[k + 1..];
    if i < k {
      assert r[i] == cs[..k][i];
    } else {
      assert r[i] == cs[k + 1..][i - k];
    }
  }

  /** Deleting by id keeps every record of another id. */
  lemma DeleteFirstKeeps(cs: seq<Coord>, id: int, j: nat)
    requires j < |cs| && cs[j].id != id
    ensures HasId(DeleteFirst(cs, id), cs[j].id)
  {
    var k := FindIndex(cs, id);
    var r := DeleteFirst(cs, id);
    if k != -1 {
      var j' := if j < k then j else j - 1;
      DeleteFirstAt(cs, id, j');
      assert r[j'] == cs[j];
    } else {
      assert r[j] == cs[j];
    }
  }

  /** Deleting the only holder of the largest id leaves every id below it. */
  lemma DeleteUniqueBelow(cs: seq<Coord>, m: int)
    requires UniqueIds(cs)
    requires forall i :: 0 <= i < |cs| ==> cs[i].id <= m
    ensures var r := DeleteFirst(cs, m); forall i :: 0 <= i < |r| ==> r[i].id < m
  {
    var k := FindIndex(cs, m);
    var r := DeleteFirst(cs, m);
    forall i | 0 <= i < |r| ensures r[i].id < m {
      if k != -1 {
        DeleteFirstAt(cs, m, i);
        var i' := if i < k then i else i + 1;
        assert r[i] == cs[i'] && i' != k;
      }
    }
  }

  /** A store whose ids are all below m and that holds m - 1 gives out m next. */
  lemma NextIdBelow(cs: seq<Coord>, m: int)
    requires forall i :: 0 <= i < |cs| ==> cs[i].id < m
    requires HasId(cs, m - 1)
    ensures NextId(cs) == m
  {
    var n := NextId(cs);
    var i :| 0 <= i < |cs| && cs[i].id == n - 1;
    var j :| 0 <= j < |cs| && cs[j].id == m - 1;
  }

  /** Ids are reused: deleting the record with the largest id gives that id out again. */
  lemma DeleteMaxReusesId(cs: seq<Coord>)
    requires |cs| > 0 && UniqueIds(cs)
    requires HasId(cs, MaxId(cs) - 1)
    ensures NextId(DeleteFirst(cs, MaxId(cs))) == MaxId(cs)
  {
    var m := MaxId(cs);
    var r := DeleteFirst(cs, m);
    assert HasId(r, m - 1) by {
      var j :| 0 <= j < |cs| && cs[j].id == m - 1;
      DeleteFirstKeeps(cs, m, j);
    }
    assert forall i :: 0 <= i < |r| ==> r[i].id < m by {
      DeleteUniqueBelow(cs, m);
    }
    NextIdBelow(r, m);
  }

  /** One embed of the posted body: its `description` and `timestamp` fields, when present. */
  datatype Embed = Embed(description: Option<string>, timestamp: Option<string>)

  /** The posted JSON body: its `embeds` array, whose entries may be null. */
  datatype Body = Body(embeds: Option<seq<Option<Embed>>>)

  /** The JSON answer of `/webhook`. */
  datatype Response =
    | Saved(id: int, x: int, y: int, z: int)
    | NoEmbeds
    | Unparseable
    | InternalError

  /** The HTTP status sent with each answer. */
  function Status(r: Response): (code: int)
    ensures code == 200 <==> r.Saved?
    ensures code == 400 <==> r.NoEmbeds? || r.Unparseable?
    ensures code == 500 <==> r.InternalError?
  {
    match r
    case Saved(_, _, _, _) => 200
    case NoEmbeds => 400
    case Unparseable => 400
    case InternalError => 500
  }

  /** `s || fallback` on an optional string: a missing or empty string gives the fallback. */
  function OrElse(s: Option<string>, fallback: string): (r: string)
    ensures s.Some? && s.value != "" ==> r == s.value
    ensures s.None? || s.value == "" ==> r == fallback
  {
    if s.Some? && s.value != "" then s.value else fallback
  }

  predicate HasEmbeds(body: Body) {
    body.embeds.Some? && |body.embeds.value| > 0
  }

  /** The first embed, when the body has one and it is not null. */
  function FirstEmbed(body: Body): Option<Embed> {
    if HasEmbeds(body) then body.embeds.value[0] else None
  }

  /** `embed.description || ''` */
  function DescriptionOf(e: Embed): string {
    OrElse(e.description, "")
  }

  datatype Outcome = Outcome(response: Response, coords: seq<Coord>)

  /** The record a successful webhook appends: the next id, the raw description, its triple and a timestamp. */
  predicate Appended(cs: seq<Coord>, e: Embed, now: string, c: Coord) {
    c.id == NextId(cs) &&
    c.raw == DescriptionOf(e) && Extract(c.raw) == Some((c.x, c.y, c.z)) &&
    c.timestamp == OrElse(e.timestamp, now)
  }

  /**
   * The `/webhook` handler as a function of the store before the call, the body, and
   * the current time as an ISO string (used when the embed carries no timestamp).
   */
  function Webhook(cs: seq<Coord>, body: Body, now: string): (o: Outcome)
    ensures !o.response.Saved? ==> o.coords == cs
    ensures o.response.NoEmbeds? <==> !HasEmbeds(body)
    ensures o.response.InternalError? <==> HasEmbeds(body) && FirstEmbed(body).None?
    ensures o.response.Unparseable? <==>
      FirstEmbed(body).Some? && Extract(DescriptionOf(FirstEmbed(body).value)).None?
    ensures o.response.Saved? ==>
      FirstEmbed(body).Some? && |o.coords| == |cs| + 1 && o.coords[..|cs|] == cs &&
      o.response == Saved(o.coords[|cs|].id, o.coords[|cs|].x, o.coords[|cs|].y, o.coords[|cs|].z) &&
      Appended(cs, FirstEmbed(body).value, now, o.coords[|cs|])
  {
    if !HasEmbeds(body) then Outcome(NoEmbeds, cs)
    else if FirstEmbed(body).None? then Outcome(InternalError, cs)
    else
      var e := FirstEmbed(body).value;
      var description := DescriptionOf(e);
      var parsed := Extract(description);
      if parsed.None? then Outcome(Unparseable, cs)
      else
        var id := NextId(cs);
        var (x, y, z) := parsed.value;
        var c := Coord(id, x, y, z, OrElse(e.timestamp, now), description);
        assert Appended(cs, e, now, c);
        Outcome(Saved(id, x, y, z), cs + [c])
  }

  /** After `clearall` the next saved ping gets id 1 again. */
  lemma WebhookAfterClearAll(body: Body, now: string)
    ensures var o := Webhook([], body, now);
      o.response.Saved? ==> o.response.id == 1 && o.coords[0].id == 1
  {
  }

  /** Appending a record whose id exceeds every stored id keeps ids unique. */
  lemma AppendFreshKeepsUniqueIds(cs: seq<Coord>, c: Coord)
    requires UniqueIds(cs)
    requires forall i :: 0 <= i < |cs| ==> cs[i].id < c.id
    ensures UniqueIds(cs + [c])
  {
    var r := cs + [c];
    forall i, j | 0 <= i < j < |r| ensures r[i].id != r[j].id {
      assert r[i] == cs[i];
    }
  }

  /** The webhook keeps ids unique. */
  lemma WebhookKeepsUniqueIds(cs: seq<Coord>, body: Body, now: string)
    requires UniqueIds(cs)
    ensures UniqueIds(Webhook(cs, body, now).coords)
  {
    var o := Webhook(cs, body, now);
    if o.response.Saved? {
      var c := o.coords[|cs|];
      assert o.coords == o.coords[..|cs|] + [c];
      AppendFreshKeepsUniqueIds(cs, c);
    }
  }

  /** The `coordinates` array of the running bot. */
  class CoordStore {
    var coords: seq<Coord>

    /** The store as `loadCoords` returned it. */
    constructor (loaded: seq<Coord>)
      ensures coords == loaded
    {
      coords := loaded;
    }

    /**
     * POST `/webhook`.  Whether forwarding to Discord failed (`sendFails`) is caught
     * and logged by the handler, so neither the answer nor the store depends on it.
     */
    method Ingest(body: Body, now: string, sendFails: bool) returns (response: Response)
      modifies this
      ensures Outcome(response, coords) == Webhook(old(coords), body, now)
    {
      if !HasEmbeds(body) {
        return NoEmbeds;
      }
      var first := FirstEmbed(body);
      if first.None? {
        // reading `description` of null throws; the handler's catch answers 500
        return InternalError;
      }
      var description := DescriptionOf(first.value);
      var timestamp := OrElse(first.value.timestamp, now);
      var parsed := Extract(description);
      if parsed.None? {
        return Unparseable;
      }
      var (x, y, z) := parsed.value;
      var id := NextId(coords);
      coords := coords + [Coord(id, x, y, z, timestamp, description)];
      response := Saved(id, x, y, z);
    }

    /** `/delete id`: splices out the first record with that id and reports whether there was one. */
    method Delete(id: int) returns (found: bool)
      modifies this
      ensures found == HasId(old(coords), id)
      ensures coords == DeleteFirst(old(coords), id)
    {
      var index := FindIndex(coords, id);
      found := index != -1;
      if found {
        coords := coords[..index] + coords[index + 1..];
      }
    }

    /** `/clearall`: empties the store and reports how many records it held. */
    method ClearAll() returns (count: nat)
      modifies this
      ensures count == |old(coords)| && coords == []
    {
      count := |coords|;
      coords := [];
    }
  }
}
