/**
 The socket server: the blueprint store, the room directory and the
 broadcasts sent so far, with one method per REST handler and per socket
 event.
 */
module SocketServer {
  import opened Wrappers
  import opened BlueprintStore
  import opened RoomDirectory

  /** The payload of a client's `draw-event`. */
  datatype DrawPayload = DrawPayload(room: Room, author: string, name: string, point: Point)

  /** The payload of a `blueprint-update`: the full point sequence, not the new point alone. */
  datatype Update = Update(author: string, name: string, points: Points)

  /** One `io.to(room).emit(event, payload)`: who was in the room when it was sent, and what. */
  datatype Emission = Emission(room: Room, recipients: set<ConnId>, event: string, payload: Update)

  const BlueprintUpdate := "blueprint-update"

  /** What a draw-event leaves behind: the new store and the emissions it made (none or one). */
  datatype DrawStep = DrawStep(store: Store, emitted: seq<Emission>)

  /**
   `draw-event`: append the point to an existing blueprint, then send the
   whole new point sequence to every member of the payload's room, which is
   not checked against the author and name. A missing blueprint drops the
   event.
   */
  function Draw(s: Store, d: Directory, ev: DrawPayload): (r: DrawStep)
    ensures Lookup(s, ev.author, ev.name).None? ==> r == DrawStep(s, [])
    ensures Lookup(s, ev.author, ev.name).Some? ==>
              var pts := Lookup(s, ev.author, ev.name).value + [ev.point];
              && Lookup(r.store, ev.author, ev.name) == Some(pts)
              && (forall a, n :: (a, n) != (ev.author, ev.name) ==> Lookup(r.store, a, n) == Lookup(s, a, n))
              && r.store.Keys == s.Keys
              && r.emitted == [Emission(ev.room, Members(d, ev.room), BlueprintUpdate, Update(ev.author, ev.name, pts))]
  {
    match AppendPoint(s, ev.author, ev.name, ev.point)
    case None => DrawStep(s, [])
    case Some(s') =>
      var pts := s'[ev.author][ev.name];
      assert pts == Lookup(s, ev.author, ev.name).value + [ev.point];
      DrawStep(s', [Emission(ev.room, Members(d, ev.room), BlueprintUpdate, Update(ev.author, ev.name, pts))])
  }

  /** The updates connection `c` has been sent, in the order they were emitted. */
  function Received(outbox: seq<Emission>, c: ConnId): seq<Update> {
    if outbox == [] then []
    else
      var e := outbox[|outbox| - 1];
      Received(outbox[..|outbox| - 1], c) + (if c in e.recipients then [e.payload] else [])
  }

  /**
   After a draw on an existing blueprint every member of the room, the
   sender included, has been sent the same full sequence once more; a
   connection outside the room has been sent nothing.
   */
  lemma DrawDelivery(s: Store, d: Directory, outbox: seq<Emission>, ev: DrawPayload, c: ConnId)
    requires Lookup(s, ev.author, ev.name).Some?
    ensures var after := outbox + Draw(s, d, ev).emitted;
            var u := Update(ev.author, ev.name, Lookup(s, ev.author, ev.name).value + [ev.point]);
            Received(after, c) == Received(outbox, c) + (if c in Members(d, ev.room) then [u] else [])
  {
    var after := outbox + Draw(s, d, ev).emitted;
    assert after[..|after| - 1] == outbox;
  }

  /** A dropped draw sends nothing to anybody. */
  lemma DroppedDrawSendsNothing(s: Store, d: Directory, outbox: seq<Emission>, ev: DrawPayload, c: ConnId)
    requires Lookup(s, ev.author, ev.name).None?
    ensures Received(outbox + Draw(s, d, ev).emitted, c) == Received(outbox, c)
  {
    assert outbox + [] == outbox;
  }

  /** The points of a run of draw-events, in arrival order. */
  function Strokes(evs: seq<DrawPayload>): Points {
    if evs == [] then [] else Strokes(evs[..|evs| - 1]) + [evs[|evs| - 1].point]
  }

  /** The event loop handling draw-events one after another, in arrival order. */
  function DrawAll(s: Store, d: Directory, evs: seq<DrawPayload>): DrawStep {
    if evs == [] then DrawStep(s, [])
    else
      var prev := DrawAll(s, d, evs[..|evs| - 1]);
      var last := Draw(prev.store, d, evs[|evs| - 1]);
      DrawStep(last.store, prev.emitted + last.emitted)
  }

  /** A run of draw-events on one existing blueprint appends its points in arrival order. */
  lemma {:induction false} DrawAllAppends(s: Store, d: Directory, author: string, name: string, evs: seq<DrawPayload>)
    requires Lookup(s, author, name).Some?
    requires forall i :: 0 <= i < |evs| ==> evs[i].author == author && evs[i].name == name
    ensures Lookup(DrawAll(s, d, evs).store, author, name) == Some(Lookup(s, author, name).value + Strokes(evs))
    ensures |DrawAll(s, d, evs).emitted| == |evs|
    decreases |evs|
  {
    var base := Lookup(s, author, name).value;
    if evs == [] {
      assert base + [] == base;
    } else {
      var init, last := evs[..|evs| - 1], evs[|evs| - 1];
      DrawAllAppends(s, d, author, name, init);
      var prev := DrawAll(s, d, init);
      assert last.author == author && last.name == name;
      var step := Draw(prev.store, d, last);
      assert DrawAll(s, d, evs) == DrawStep(step.store, prev.emitted + step.emitted);
      assert Lookup(step.store, author, name) == Some(base + Strokes(init) + [last.point]);
      assert Strokes(evs) == Strokes(init) + [last.point];
      assert base + Strokes(init) + [last.point] == base + Strokes(evs);
    }
  }

  /**
   What a room is sent for a run of draw-events on one blueprint that held
   `base`: after each event, the whole sequence drawn so far.
   */
  function Broadcasts(base: Points, d: Directory, author: string, name: string, evs: seq<DrawPayload>): seq<Emission> {
    if evs == [] then []
    else
      var last := evs[|evs| - 1];
      Broadcasts(base, d, author, name, evs[..|evs| - 1])
        + [Emission(last.room, Members(d, last.room), BlueprintUpdate, Update(author, name, base + Strokes(evs)))]
  }

  /** The event loop's broadcasts for a run of draws on one existing blueprint are exactly `Broadcasts`. */
  lemma {:induction false} DrawAllBroadcasts(s: Store, d: Directory, author: string, name: string, evs: seq<DrawPayload>)
    requires Lookup(s, author, name).Some?
    requires forall i :: 0 <= i < |evs| ==> evs[i].author == author && evs[i].name == name
    ensures DrawAll(s, d, evs).emitted == Broadcasts(Lookup(s, author, name).value, d, author, name, evs)
    decreases |evs|
  {
    if evs != [] {
      var init, last := evs[..|evs| - 1], evs[|evs| - 1];
      DrawAllBroadcasts(s, d, author, name, init);
      DrawAllAppends(s, d, author, name, init);
      assert last.author == author && last.name == name;
      var base := Lookup(s, author, name).value;
      assert Strokes(evs) == Strokes(init) + [last.point];
      assert base + Strokes(init) + [last.point] == base + Strokes(evs);
    }
  }

  /** The k-th broadcast carries `base` followed by the first k + 1 drawn points. */
  lemma {:induction false} BroadcastsAt(base: Points, d: Directory, author: string, name: string, evs: seq<DrawPayload>, k: nat)
    requires k < |evs|
    ensures |Broadcasts(base, d, author, name, evs)| == |evs|
    ensures Broadcasts(base, d, author, name, evs)[k] ==
              Emission(evs[k].room, Members(d, evs[k].room), BlueprintUpdate, Update(author, name, base + Strokes(evs[..k + 1])))
    decreases |evs|
  {
    var init := evs[..|evs| - 1];
    if k < |init| {
      BroadcastsAt(base, d, author, name, init, k);
      assert init[..k + 1] == evs[..k + 1];
    } else {
      if init != [] {
        BroadcastsAt(base, d, author, name, init, 0);
      }
      assert evs[..k + 1] == evs;
    }
  }

  /**
   Successive draw-events on one existing blueprint are broadcast in the
   order they arrived: the k-th broadcast goes to the members of the k-th
   event's room and carries the original points followed by the first
   k + 1 drawn points, so successive payloads grow by one point each.
   */
  lemma DrawsInArrivalOrder(s: Store, d: Directory, author: string, name: string, evs: seq<DrawPayload>)
    requires Lookup(s, author, name).Some?
    requires forall i :: 0 <= i < |evs| ==> evs[i].author == author && evs[i].name == name
    ensures |DrawAll(s, d, evs).emitted| == |evs|
    ensures forall k :: 0 <= k < |evs| ==>
              DrawAll(s, d, evs).emitted[k] ==
                Emission(evs[k].room, Members(d, evs[k].room), BlueprintUpdate,
                         Update(author, name, Lookup(s, author, name).value + Strokes(evs[..k + 1])))
  {
    DrawAllAppends(s, d, author, name, evs);
    DrawAllBroadcasts(s, d, author, name, evs);
    forall k | 0 <= k < |evs|
      ensures DrawAll(s, d, evs).emitted[k] ==
                Emission(evs[k].room, Members(d, evs[k].room), BlueprintUpdate,
                         Update(author, name, Lookup(s, author, name).value + Strokes(evs[..k + 1])))
    {
      BroadcastsAt(Lookup(s, author, name).value, d, author, name, evs, k);
    }
  }

  /** The server process: everything the handlers read and change. */
  class BlueprintServer {
    var blueprints: Store
    var rooms: Directory
    /** Every broadcast made so far, oldest first. */
    ghost var outbox: seq<Emission>

    ghost predicate Valid()
      reads this
    {
      NoEmptyRooms(rooms)
    }

    constructor ()
      ensures Valid()
      ensures blueprints == Seed() && rooms == map[] && outbox == []
    {
      blueprints := Seed();
      rooms := map[];
      outbox := [];
    }

    /** GET /api/blueprints?author=... */
    method List(author: Option<string>) returns (r: Response)
      ensures !Supplied(author) ==> r == BadRequest
      ensures Supplied(author) ==>
                && r.Listed?
                && r.author == author.value
                && IsListing(author.value, ShelfOf(blueprints, author.value), r.blueprints)
                && r.totalPoints == SumPoints(ShelfOf(blueprints, author.value))
      ensures Supplied(author) && author.value !in blueprints ==> r == Listed(author.value, [], 0)
    {
      if !Supplied(author) {
        return BadRequest;
      }
      var a := author.value;
      var shelf := ShelfOf(blueprints, a);
      var rest := shelf;
      var list := [];
      ghost var done: Shelf := map[];
      while rest != map[]
        invariant ListingProgress(a, shelf, done, rest, list)
        decreases |rest|
      {
        var n :| n in rest;
        ListingStep(a, shelf, done, rest, list, n);
        list := list + [Blueprint(a, n, rest[n])];
        done := done[n := rest[n]];
        rest := rest - {n};
      }
      ListingFinished(a, shelf, done, list);
      ListingTotal(a, shelf, list);
      if a !in blueprints {
        assert list == [] by { assert Names(list) == {}; }
      }
      r := Listed(a, list, TotalPoints(list));
    }

    /** GET /api/blueprints/:author/:name */
    method Get(author: string, name: string) returns (r: Response)
      ensures r == NotFound <==> Lookup(blueprints, author, name).None?
      ensures Lookup(blueprints, author, name).Some? ==>
                r == Ok(Blueprint(author, name, Lookup(blueprints, author, name).value))
    {
      if author !in blueprints || name !in blueprints[author] {
        return NotFound;
      }
      r := Ok(Blueprint(author, name, blueprints[author][name]));
    }

    /** POST /api/blueprints */
    method Create(author: Option<string>, name: Option<string>, points: Option<Points>) returns (r: Response)
      modifies this`blueprints
      ensures Step(blueprints, r) == BlueprintStore.Create(old(blueprints), author, name, points)
    {
      if !Supplied(author) || !Supplied(name) {
        return BadRequest;
      }
      var a, n := author.value, name.value;
      if a !in blueprints {
        blueprints := blueprints[a := map[]];
      }
      if n in blueprints[a] {
        return Conflict;
      }
      var pts := points.GetOr([]);
      blueprints := blueprints[a := blueprints[a][n := pts]];
      r := Created(Blueprint(a, n, pts));
    }

    /** PUT /api/blueprints/:author/:name */
    method ReplacePoints(author: string, name: string, points: Option<Points>) returns (r: Response)
      modifies this`blueprints
      ensures Step(blueprints, r) == BlueprintStore.ReplacePoints(old(blueprints), author, name, points)
    {
      if author !in blueprints || name !in blueprints[author] {
        return NotFound;
      }
      blueprints := blueprints[author := blueprints[author][name := points.GetOr([])]];
      r := Ok(Blueprint(author, name, blueprints[author][name]));
    }

    /** DELETE /api/blueprints/:author/:name */
    method Delete(author: string, name: string) returns (r: Response)
      modifies this`blueprints
      ensures Step(blueprints, r) == BlueprintStore.Delete(old(blueprints), author, name)
    {
      if author !in blueprints || name !in blueprints[author] {
        return NotFound;
      }
      blueprints := blueprints[author := blueprints[author] - {name}];
      if blueprints[author] == map[] {
        blueprints := blueprints - {author};
      }
      r := Deleted;
    }

    /** Socket event `join-room` from connection `c`. */
    method JoinRoom(c: ConnId, room: Room)
      requires Valid()
      modifies this`rooms
      ensures Valid()
      ensures rooms == Join(old(rooms), c, room)
    {
      rooms := rooms[room := Members(rooms, room) + {c}];
    }

    /** Socket event `draw-event`. */
    method DrawEvent(ev: DrawPayload)
      modifies this`blueprints, this`outbox
      ensures blueprints == Draw(old(blueprints), rooms, ev).store
      ensures outbox == old(outbox) + Draw(old(blueprints), rooms, ev).emitted
    {
      if ev.author in blueprints && ev.name in blueprints[ev.author] {
        var a, n := ev.author, ev.name;
        blueprints := blueprints[a := blueprints[a][n := blueprints[a][n] + [ev.point]]];
        outbox := outbox + [Emission(ev.room, Members(rooms, ev.room), BlueprintUpdate,
                                     Update(a, n, blueprints[a][n]))];
      }
    }

    /** Connection `c` closes: it leaves every room it joined. */
    method Disconnect(c: ConnId)
      requires Valid()
      modifies this`rooms
      ensures Valid()
      ensures rooms == LeaveAll(old(rooms), c)
    {
      rooms := map room | room in rooms && rooms[room] - {c} != {} :: rooms[room] - {c};
    }
  }

  /** Create a blueprint, draw two points into it, and read it back. */
  method AppendScenario(server: BlueprintServer)
    requires Lookup(server.blueprints, "juan", "plano-3").None?
    modifies server
  {
    var created := server.Create(Some("juan"), Some("plano-3"), Some([]));
    assert created == Created(Blueprint("juan", "plano-3", []));
    var room := RoomName("juan", "plano-3");
    server.DrawEvent(DrawPayload(room, "juan", "plano-3", Point(10, 20)));
    assert Lookup(server.blueprints, "juan", "plano-3") == Some([] + [Point(10, 20)]);
    server.DrawEvent(DrawPayload(room, "juan", "plano-3", Point(30, 40)));
    assert [] + [Point(10, 20)] + [Point(30, 40)] == [Point(10, 20), Point(30, 40)];
    var got := server.Get("juan", "plano-3");
    assert got == Ok(Blueprint("juan", "plano-3", [Point(10, 20), Point(30, 40)]));
    var again := server.Create(Some("juan"), Some("plano-3"), None);
    assert again == Conflict;
  }

  /** Two sessions join one room, a third another; the first draws. */
  method BroadcastScenario(server: BlueprintServer)
    requires server.Valid() && server.rooms == map[] && server.outbox == []
    requires Lookup(server.blueprints, "juan", "plano-3") == Some([])
    modifies server
  {
    var room, other := RoomName("juan", "plano-3"), RoomName("juan", "plano-1");
    assert room != other by { assert room[|room| - 1] != other[|other| - 1]; }
    server.JoinRoom("A", room);
    server.JoinRoom("B", room);
    server.JoinRoom("C", other);
    assert Members(server.rooms, room) == {"A", "B"};
    server.DrawEvent(DrawPayload(room, "juan", "plano-3", Point(1, 1)));
    var u := Update("juan", "plano-3", [Point(1, 1)]);
    assert server.outbox == [Emission(room, {"A", "B"}, BlueprintUpdate, u)];
    assert Received(server.outbox, "A") == [u];
    assert Received(server.outbox, "B") == [u];
    assert Received(server.outbox, "C") == [];
  }
}
