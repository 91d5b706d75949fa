# Blueprint socket server, modelled in Dafny

This project models the core of the collaborative blueprint server
(`backend-socketio/server.js`). The server keeps blueprints in memory. A
blueprint is a sequence of 2D points, stored under an author and a name.
Five REST handlers list, get, create, replace and delete blueprints. Over
socket.io, clients join broadcast rooms. When a client sends a
`draw-event`, the server appends the point to the stored blueprint and
sends the whole new point sequence, as a `blueprint-update`, to every
member of the room named in the event.

Modules, one per component:

- `Wrappers` (`wrappers.dfy`): `Option`. An absent request field (undefined or null) is `None`.
- `BlueprintStore` (`store.dfy`): the store as a value, `author -> name -> points`.
  It gives the seed data and each REST handler as a function from the old
  store and the request to the new store and the response. It also holds
  the listing and point-count lemmas.
- `RoomDirectory` (`rooms.dfy`): rooms as a map from room name to the set of
  socket ids, with join and disconnect as functions.
- `SocketServer` (`server.dfy`): the socket messages, the draw-event rule
  `Draw`, the event loop over a run of draws `DrawAll`, and what each
  connection receives (`Received`). Its class `BlueprintServer` holds the
  mutable state the source keeps: the `blueprints` object, socket.io's room
  table, and a ghost `outbox` of every emission so far. It has one method
  per handler. Each mutating method's postcondition ties the new state to
  the matching store or room function of the old state. Two client methods,
  `AppendScenario` and `BroadcastScenario`, are proved from those contracts
  alone.

Where the code and the design description of the system differ, the model follows the code:

- The broadcast room is taken from the event payload. It is not computed from author and name.
- The seed data holds an author with no blueprints (`angie`). So "an
  author is present exactly when it has a blueprint" does not hold from the
  start. The model proves only that no operation creates a new empty author.
- There is no `leave` operation. A connection leaves rooms only when it disconnects.

## Model

| member | source | states |
|---|---|---|
| `BlueprintStore.SeedHasEmptyAuthor` | backend-socketio/server.js:21-30 | In the initial store, the only author with no blueprints is `angie`. |
| `SocketServer.BlueprintServer.constructor` | backend-socketio/server.js:21-30 | The server starts with the seed store, no rooms and no emissions. |
| `SocketServer.BlueprintServer.List` | backend-socketio/server.js:36-57 | With no author, or an empty one, the result is 400. Otherwise the result lists every blueprint of the author exactly once, with its stored points and nothing else. `totalPoints` is the number of points stored under the author. An unknown author gets an empty list and 0, not an error. The method changes nothing. |
| `BlueprintStore.ListingTotal` | backend-socketio/server.js:50 | The left-to-right `reduce` over any listing of an author's blueprints equals the order-independent sum of their point counts. |
| `BlueprintStore.SumPointsRemove` | backend-socketio/server.js:44-50 | The point sum of an author's blueprints can take any one blueprint out first. So the total does not depend on the order `Object.values` yields. |
| `BlueprintStore.ListingStep` | backend-socketio/server.js:44-48 | Taking one more stored blueprint into the listing keeps "listed so far plus still to list = the author's blueprints", with no name repeated. |
| `SocketServer.BlueprintServer.Get` | backend-socketio/server.js:61-69 | The result is 404 exactly when the author is absent or the name is absent under that author. Otherwise it is the stored blueprint, unchanged. |
| `BlueprintStore.Create` | backend-socketio/server.js:73-93 | A missing or empty author or name gives 400 and no change. An existing pair gives 409, and its points stay unchanged. Otherwise the result is 201 with the supplied points (`[]` when omitted). A later lookup returns exactly those points. Every other pair is unchanged, only the author key can be added, and no author is left empty. |
| `SocketServer.BlueprintServer.Create` | backend-socketio/server.js:73-93 | Step by step as the handler does it: insert the empty author map first, then check for a conflict, then store. New store and response are those of `BlueprintStore.Create`. |
| `BlueprintStore.ReplacePoints` | backend-socketio/server.js:97-109 | A missing pair gives 404 and no change. Otherwise the points become exactly the supplied sequence, or `[]` when none is supplied. The response is 200 with the updated blueprint. Every other pair is unchanged, and so are all author and name keys. |
| `BlueprintStore.ReplaceWithCurrentPoints` | backend-socketio/server.js:105 | Saving the points a blueprint already has leaves the store as it was. |
| `SocketServer.BlueprintServer.ReplacePoints` | backend-socketio/server.js:97-109 | New store and response are those of `BlueprintStore.ReplacePoints`. |
| `BlueprintStore.Delete` | backend-socketio/server.js:113-129 | A missing pair gives 404 and no change. Otherwise the response is 204 and the pair is gone. Sibling blueprints and other authors are untouched. The author key is removed exactly when its last blueprint was deleted, and if it remains, it is non-empty. |
| `BlueprintStore.CreateThenDelete` | backend-socketio/server.js:73-129 | Deleting a blueprint just created restores the original store. The one exception is an author that was present with no blueprints: it is now gone. |
| `SocketServer.BlueprintServer.Delete` | backend-socketio/server.js:113-129 | Removes the name, then removes the author key if its map became empty. New store and response are those of `BlueprintStore.Delete`. |
| `BlueprintStore.AppendPoint` | backend-socketio/server.js:147-148 | A missing blueprint gives no new store. Otherwise the sequence grows by exactly one point. The new point is last, and the earlier points keep their order. Every other pair and every key stay unchanged. |
| `SocketServer.Draw` | backend-socketio/server.js:143-157 | A draw-event on a missing blueprint changes nothing and emits nothing. On an existing one, the point is appended. Exactly one `blueprint-update {author, name, points}`, carrying the full new sequence, goes to every current member of the payload's room. The room is not checked against author and name. |
| `SocketServer.BlueprintServer.DrawEvent` | backend-socketio/server.js:143-157 | New store and new outbox entries are those of `SocketServer.Draw`. Earlier emissions are kept. |
| `SocketServer.DrawDelivery` | backend-socketio/server.js:150-155 | After a draw on an existing blueprint, each member of the room has been sent the same payload once more. This includes the sender, if it is a member. A connection outside the room has been sent nothing new. |
| `SocketServer.DroppedDrawSendsNothing` | backend-socketio/server.js:147 | A draw on a missing blueprint sends nothing to anybody. |
| `SocketServer.DrawAllAppends` | backend-socketio/server.js:143-157 | Handling a run of draw-events on one existing blueprint leaves its original points followed by the drawn points, in arrival order. It makes one emission per event. |
| `SocketServer.DrawAllBroadcasts` | backend-socketio/server.js:143-157 | For such a run, the emissions are exactly the reference sequence `Broadcasts`. That sequence depends only on the original points, the rooms and the events' arrival order. |
| `SocketServer.BroadcastsAt` | backend-socketio/server.js:151-155 | The k-th reference broadcast goes to the k-th event's room. It carries the original points followed by the first k + 1 drawn points. |
| `SocketServer.DrawsInArrivalOrder` | backend-socketio/server.js:143-157 | Successive draw-events on one blueprint are broadcast in arrival order, and each payload is one point longer than the one before. |
| `RoomDirectory.Join` | backend-socketio/server.js:137-138 | The connection becomes a member of the room. Every other room's members are unchanged, and no room ends up without members. |
| `RoomDirectory.JoinIdempotent` | backend-socketio/server.js:137-138 | Joining the same room twice gives the same directory as joining it once. |
| `SocketServer.BlueprintServer.JoinRoom` | backend-socketio/server.js:137-140 | The new room table is `Join` of the old one. The directory invariant is kept. |
| `RoomDirectory.LeaveAll` | backend-socketio/server.js:159-161 | On disconnect, the connection is removed from every room and all other memberships are kept. Rooms left without members disappear. |
| `SocketServer.BlueprintServer.Disconnect` | backend-socketio/server.js:159-161 | The new room table is `LeaveAll` of the old one. The directory invariant is kept. |
| `RoomDirectory.RoomNameCollides` | src/App.jsx:107 | The client's room name `blueprints.<author>.<name>` can be the same for two different blueprints, since names may contain dots. |

## Left out

- HTTP, express, CORS, JSON parsing and serialisation, socket.io transport, `httpServer.listen` and the `PORT` variable. These are foreign libraries and I/O. Status codes appear only as `Response` constructors (`Status` gives the number).
- `console.log` calls: they are side effects only.
- SocketServer.BlueprintServer.ReplacePoints: when the body has no `points`, the store is set to `[]` as modelled. The source then throws at its log line (server.js:107), so the client gets an error response instead of the 200 the model returns. The exception is not modelled.
- BlueprintStore.Create: a JSON `null` or non-array `points` is stored as sent by the source. The model has only "omitted" (`None`, giving `[]`) and a point sequence.
- Request fields that are not strings, such as numbers or repeated query parameters, are not modelled. A field is either absent or a string, and JavaScript's `!field` is "absent or empty".
- SocketServer.BlueprintServer.List: the model promises that the listing holds each of the author's blueprints exactly once. It does not promise their order. JavaScript's property order (integer-like keys first, then insertion order) is not modelled.
- JavaScript objects are modelled as plain dictionaries. Inherited property names such as `__proto__` or `toString`, which the source's `blueprints[author]` tests would treat as present, are not modelled.
- The stored point array is shared with the request body and with the emitted payload in the source. The model uses values, so that aliasing is not captured. Nothing in the core mutates those arrays after they are stored, except the draw-event push, which the model captures.
- socket.io internals: each socket's automatic room named by its own id, network delivery, per-subscriber delivery order and at-most-once delivery. An emission records the room's members at the moment it is sent.
- The `connection` handler only logs, so connecting has no model. The design's explicit `leave` does not exist in the source.
- Point coordinates are never validated by the source, and they are modelled as two unbounded integers.
- The React client (`src/App.jsx`) is not part of this model: rendering, fetch calls, timers and the socket lifecycle. The one exception is its room-name format, `RoomDirectory.RoomName`.
