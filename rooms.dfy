/**
 The room directory kept by the socket server: which connections have
 joined which broadcast room.
 */
module RoomDirectory {

  /** A connection's socket id. */
  type ConnId = string

  /** A room name, taken verbatim from the client's messages. */
  type Room = string

  /** Room -> the connections that joined it. */
  type Directory = map<Room, set<ConnId>>

  /** A directory keeps no room without members. */
  ghost predicate NoEmptyRooms(d: Directory) {
    forall room :: room in d ==> d[room] != {}
  }

  /** The connections subscribed to `room`; no entry means nobody. */
  function Members(d: Directory, room: Room): set<ConnId> {
    if room in d then d[room] else {}
  }

  /** `join-room`: add the connection to the room's members. */
  function Join(d: Directory, c: ConnId, room: Room): (r: Directory)
    ensures Members(r, room) == Members(d, room) + {c}
    ensures forall other :: other != room ==> Members(r, other) == Members(d, other)
    ensures r.Keys == d.Keys + {room}
    ensures NoEmptyRooms(d) ==> NoEmptyRooms(r)
  {
    d[room := Members(d, room) + {c}]
  }

  /** Joining a room twice leaves the same membership as joining it once. */
  lemma JoinIdempotent(d: Directory, c: ConnId, room: Room)
    ensures Join(Join(d, c, room), c, room) == Join(d, c, room)
  {
  }

  /** Disconnect: the connection leaves every room; rooms left without members disappear. */
  function LeaveAll(d: Directory, c: ConnId): (r: Directory)
    ensures forall room :: Members(r, room) == Members(d, room) - {c}
    ensures r.Keys <= d.Keys
    ensures NoEmptyRooms(r)
  {
    map room | room in d && d[room] - {c} != {} :: d[room] - {c}
  }

  /**
   The room a client joins and draws into for the blueprint it shows
   (src/App.jsx:107,143). The server never computes it.
   */
  function RoomName(author: string, name: string): Room {
    "blueprints." + author + "." + name
  }

  /** Different blueprints can share a room: names may themselves contain dots. */
  lemma RoomNameCollides()
    ensures RoomName("a.b", "c") == RoomName("a", "b.c")
  {
  }
}
