/**
 The in-memory blueprint store of the socket server: a two-level map from
 author to blueprint name to the blueprint's point sequence, and the five
 REST handlers over it, each as a function from the old store (and the
 request) to the new store and the response.
 */
module BlueprintStore {
  import opened Wrappers

  /** A drawn point; its coordinates are opaque and never validated. */
  datatype Point = Point(x: int, y: int)

  type Points = seq<Point>

  /** The record `{author, name, points}` that the handlers store and return. */
  datatype Blueprint = Blueprint(author: string, name: string, points: Points)

  /** One author's blueprints, by name. */
  type Shelf = map<string, Points>

  /**
   The whole store: author -> name -> points. The stored record's `author`
   and `name` always equal the two keys it is stored under, so only the
   points are kept.
   */
  type Store = map<string, Shelf>

  /** The responses of the REST handlers, one constructor per status they send. */
  datatype Response =
    | Listed(author: string, blueprints: seq<Blueprint>, totalPoints: nat)  // 200
    | Ok(bp: Blueprint)                                                     // 200
    | Created(bp: Blueprint)                                                // 201
    | Deleted                                                               // 204
    | BadRequest                                                            // 400
    | NotFound                                                              // 404
    | Conflict                                                              // 409

  function Status(r: Response): int {
    match r
    case Listed(_, _, _) => 200
    case Ok(_) => 200
    case Created(_) => 201
    case Deleted => 204
    case BadRequest => 400
    case NotFound => 404
    case Conflict => 409
  }

  /** What a mutating handler leaves behind: the new store and its response. */
  datatype Step = Step(store: Store, response: Response)

  /**
   A request field passes the handlers' `!field` test: it is present (not
   undefined or null: `None`) and not the empty string.
   */
  predicate Supplied(f: Option<string>) {
    f.Some? && f.value != ""
  }

  /** `blueprints[author] && blueprints[author][name]`, as an optional value. */
  function Lookup(s: Store, author: string, name: string): Option<Points> {
    if author in s && name in s[author] then Some(s[author][name]) else None
  }

  /** `blueprints[author] || {}`. */
  function ShelfOf(s: Store, author: string): Shelf {
    if author in s then s[author] else map[]
  }

  /** The authors that are present but have no blueprint. */
  ghost function EmptyAuthors(s: Store): set<string> {
    set a | a in s && s[a] == map[]
  }

  /** The store the server starts with, including an author with no blueprints. */
  function Seed(): Store {
    map[
      "juan" := map["plano-1" := [], "plano-2" := [Point(50, 50), Point(100, 100)]],
      "maria" := map["diseño-a" := [Point(10, 10)]],
      "angie" := map[]
    ]
  }

  lemma SeedHasEmptyAuthor()
    ensures EmptyAuthors(Seed()) == {"angie"}
  {
    var s := Seed();
    assert "plano-1" in s["juan"] && "diseño-a" in s["maria"];
    assert "angie" in EmptyAuthors(s);
  }

  // ---------------------------------------------------------------------
  // list: the author's blueprints and their total number of points
  // ---------------------------------------------------------------------

  function Names(bps: seq<Blueprint>): set<string> {
    set i | 0 <= i < |bps| :: bps[i].name
  }

  /**
   `bps` lists `shelf`, the blueprints of `author`: every stored blueprint
   appears exactly once, with its stored points, and nothing else appears.
   */
  ghost predicate IsListing(author: string, shelf: Shelf, bps: seq<Blueprint>) {
    && Names(bps) == shelf.Keys
    && (forall i :: 0 <= i < |bps| ==>
          bps[i].author == author && bps[i].name in shelf && bps[i].points == shelf[bps[i].name])
    && (forall i, j :: 0 <= i < j < |bps| ==> bps[i].name != bps[j].name)
  }

  /**
   Progress of walking a shelf: the blueprints in `done` are listed in
   `bps`, those in `rest` are still to come, and together they are `shelf`.
   */
  ghost predicate ListingProgress(author: string, shelf: Shelf, done: Shelf, rest: Shelf, bps: seq<Blueprint>) {
    && done.Keys !! rest.Keys
    && done.Keys + rest.Keys == shelf.Keys
    && (forall n :: n in rest ==> rest[n] == shelf[n])
    && (forall n :: n in done ==> done[n] == shelf[n])
    && IsListing(author, done, bps)
  }

  /** A listing extended by one more blueprint lists the extended shelf. */
  lemma ListingExtend(author: string, shelf: Shelf, bps: seq<Blueprint>, n: string, pts: Points)
    requires IsListing(author, shelf, bps) && n !in shelf
    ensures IsListing(author, shelf[n := pts], bps + [Blueprint(author, n, pts)])
  {
    var bps' := bps + [Blueprint(author, n, pts)];
    assert forall i :: 0 <= i < |bps| ==> bps'[i] == bps[i];
    forall x | x in Names(bps) ensures x in Names(bps') {
      var i :| 0 <= i < |bps| && bps[i].name == x;
      assert bps'[i].name == x;
    }
    assert bps'[|bps|].name == n;
    assert Names(bps') == Names(bps) + {n};
  }

  /** Moving one blueprint from `rest` to the end of the listing keeps the walk's progress. */
  lemma ListingStep(author: string, shelf: Shelf, done: Shelf, rest: Shelf, bps: seq<Blueprint>, n: string)
    requires ListingProgress(author, shelf, done, rest, bps) && n in rest
    ensures ListingProgress(author, shelf, done[n := rest[n]], rest - {n}, bps + [Blueprint(author, n, rest[n])])
  {
    ListingExtend(author, done, bps, n, rest[n]);
  }

  /** A finished walk lists the whole shelf. */
  lemma ListingFinished(author: string, shelf: Shelf, done: Shelf, bps: seq<Blueprint>)
    requires ListingProgress(author, shelf, done, map[], bps)
    ensures IsListing(author, shelf, bps)
  {
    assert done == shelf;
  }

  /** `blueprintList.reduce((sum, bp) => sum + bp.points.length, 0)`, left to right. */
  function TotalPoints(bps: seq<Blueprint>): nat {
    if bps == [] then 0 else TotalPoints(bps[..|bps| - 1]) + |bps[|bps| - 1].points|
  }

  /** The number of points stored under a shelf, independent of any order. */
  ghost function SumPoints(shelf: Shelf): nat
    decreases |shelf|
  {
    if shelf == map[] then 0
    else
      var n :| n in shelf;
      |shelf[n]| + SumPoints(shelf - {n})
  }

  /** Any blueprint can be taken out of the sum first. */
  lemma {:induction false} SumPointsRemove(shelf: Shelf, n: string)
    requires n in shelf
    ensures SumPoints(shelf) == |shelf[n]| + SumPoints(shelf - {n})
    decreases |shelf|
  {
    var m :| m in shelf && SumPoints(shelf) == |shelf[m]| + SumPoints(shelf - {m});
    if m != n {
      SumPointsRemove(shelf - {m}, n);
      SumPointsRemove(shelf - {n}, m);
      assert shelf - {m} - {n} == shelf - {n} - {m};
    }
  }

  /** The reduce over any listing of a shelf counts every stored point once. */
  lemma {:induction false} ListingTotal(author: string, shelf: Shelf, bps: seq<Blueprint>)
    requires IsListing(author, shelf, bps)
    ensures TotalPoints(bps) == SumPoints(shelf)
    decreases |bps|
  {
    if bps == [] {
      assert shelf.Keys == {};
      assert shelf == map[];
    } else {
      var k := |bps| - 1;
      var b, init := bps[k], bps[..k];
      var rest := shelf - {b.name};
      forall x | x in Names(bps) - {b.name} ensures x in Names(init) {
        var i :| 0 <= i < |bps| && bps[i].name == x;
        assert i < k && init[i] == bps[i];
      }
      assert Names(init) == rest.Keys;
      ListingTotal(author, rest, init);
      SumPointsRemove(shelf, b.name);
    }
  }

  // ---------------------------------------------------------------------
  // create, replace points, delete
  // ---------------------------------------------------------------------

  /** POST /api/blueprints with body `{author, name, points = []}`. */
  function Create(s: Store, author: Option<string>, name: Option<string>, points: Option<Points>): (r: Step)
    ensures !(Supplied(author) && Supplied(name)) ==> r == Step(s, BadRequest)
    ensures Supplied(author) && Supplied(name) && Lookup(s, author.value, name.value).Some? ==>
              r == Step(s, Conflict)
    ensures Supplied(author) && Supplied(name) && Lookup(s, author.value, name.value).None? ==>
              && r.response == Created(Blueprint(author.value, name.value, points.GetOr([])))
              && Lookup(r.store, author.value, name.value) == Some(points.GetOr([]))
              && (forall a, n :: (a, n) != (author.value, name.value) ==> Lookup(r.store, a, n) == Lookup(s, a, n))
              && r.store.Keys == s.Keys + {author.value}
    ensures EmptyAuthors(r.store) <= EmptyAuthors(s)
  {
    if !Supplied(author) || !Supplied(name) then Step(s, BadRequest)
    else
      var a, n := author.value, name.value;
      var shelf := ShelfOf(s, a);
      if n in shelf then Step(s, Conflict)
      else
        var pts := points.GetOr([]);
        Step(s[a := shelf[n := pts]], Created(Blueprint(a, n, pts)))
  }

  /** PUT /api/blueprints/:author/:name with body `{points}`. */
  function ReplacePoints(s: Store, author: string, name: string, points: Option<Points>): (r: Step)
    ensures Lookup(s, author, name).None? ==> r == Step(s, NotFound)
    ensures Lookup(s, author, name).Some? ==>
              && r.response == Ok(Blueprint(author, name, points.GetOr([])))
              && Lookup(r.store, author, name) == Some(points.GetOr([]))
              && (forall a, n :: (a, n) != (author, name) ==> Lookup(r.store, a, n) == Lookup(s, a, n))
              && r.store.Keys == s.Keys
              && r.store[author].Keys == s[author].Keys
    ensures EmptyAuthors(r.store) == EmptyAuthors(s)
  {
    if Lookup(s, author, name).None? then Step(s, NotFound)
    else
      var pts := points.GetOr([]);
      Step(s[author := s[author][name := pts]], Ok(Blueprint(author, name, pts)))
  }

  /** DELETE /api/blueprints/:author/:name; an author left without blueprints is removed. */
  function Delete(s: Store, author: string, name: string): (r: Step)
    ensures Lookup(s, author, name).None? ==> r == Step(s, NotFound)
    ensures Lookup(s, author, name).Some? ==>
              && r.response == Deleted
              && Lookup(r.store, author, name).None?
              && (forall a, n :: (a, n) != (author, name) ==> Lookup(r.store, a, n) == Lookup(s, a, n))
              && (author !in r.store <==> s[author].Keys == {name})
              && r.store.Keys <= s.Keys
              && (author in r.store ==> r.store[author] != map[])
    ensures EmptyAuthors(r.store) == EmptyAuthors(s)
  {
    if Lookup(s, author, name).None? then Step(s, NotFound)
    else
      var shelf := s[author] - {name};
      assert forall n :: n in s[author] ==> n in shelf || n == name;
      if shelf == map[] then Step(s - {author}, Deleted)
      else Step(s[author := shelf], Deleted)
  }

  /**
   The store half of a draw-event: `points.push(point)` on an existing
   blueprint; `None` when the blueprint is missing.
   */
  function AppendPoint(s: Store, author: string, name: string, p: Point): (r: Option<Store>)
    ensures r.None? <==> Lookup(s, author, name).None?
    ensures r.Some? ==> Lookup(r.value, author, name).Some?
    ensures r.Some? ==>
              var old_ := Lookup(s, author, name).value;
              var new_ := Lookup(r.value, author, name).value;
              && |new_| == |old_| + 1
              && new_[..|old_|] == old_
              && new_[|old_|] == p
              && (forall a, n :: (a, n) != (author, name) ==> Lookup(r.value, a, n) == Lookup(s, a, n))
              && r.value.Keys == s.Keys
              && r.value[author].Keys == s[author].Keys
  {
    if Lookup(s, author, name).None? then None
    else Some(s[author := s[author][name := s[author][name] + [p]]])
  }

  /**
   Deleting a blueprint just created gives back the store it was created in,
   except that an author who had no blueprints before is now gone.
   */
  lemma CreateThenDelete(s: Store, author: string, name: string, points: Option<Points>)
    requires author != "" && name != "" && Lookup(s, author, name).None?
    ensures var created := Create(s, Some(author), Some(name), points).store;
            Delete(created, author, name).store == if author in s && s[author] == map[] then s - {author} else s
  {
    var created := Create(s, Some(author), Some(name), points).store;
    var pts := points.GetOr([]);
    assert created == s[author := ShelfOf(s, author)[name := pts]];
    assert created[author] - {name} == ShelfOf(s, author);
  }

  /** Saving the points a blueprint already has changes nothing. */
  lemma ReplaceWithCurrentPoints(s: Store, author: string, name: string)
    requires Lookup(s, author, name).Some?
    ensures ReplacePoints(s, author, name, Lookup(s, author, name)).store == s
  {
    assert s[author][name := s[author][name]] == s[author];
  }
}
