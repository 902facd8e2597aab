# Route-guide streaming handlers, modelled in Dafny

This project models the streaming handlers of a gRPC route-guide server
(`server.js`):

- **ListFeatures** (server-streaming). It normalises the two corners of a
  rectangle into a closed box, using min and max on each axis. It walks the
  stored feature list in order, skips sentinel features (empty name) and
  writes every feature inside the box. Then it ends the stream.
- **RecordRoute** (client-streaming). It counts the points received and the
  points at which the feature lookup finds a named feature. It adds the leg
  distance from the previous point for every point after the first. It
  replies with a summary whose distance is cast to an integer with
  JavaScript's `| 0`.
- **RouteChat** (bidirectional). A process-wide board maps the key
  `"<latitude> <longitude>"` (`pointKey`) to the notes received at that
  location. Each incoming note is answered with every note already stored
  at its key, in receipt order. Only then is a copy of the note appended,
  and the key is created first if it is absent.

Modules:

- `Messages` (`messages.dfy`): points, features, notes, summaries, and the
  outbound stream as a sequence of `Write(m)` / `End` events.
- `FeatureFilter` (`feature_filter.dfy`): the box, the specification function
  `Listed`, and the loop method `ListFeatures`.
- `RouteRecorder` (`route_recorder.dfy`): the specification functions
  `FeatureCount`, `PathLength` and `ToInt32`, and the loop method
  `RecordRoute`.
- `PointKeys` (`point_keys.dfy`): `PointKey`, and a parser `ParseKey` that
  reads a key back. The parser is used to prove that the key is injective.
- `RouteChat` (`route_chat.dfy`): the board as a pure map with its lemmas,
  and the class `NoteBoard` holding `route_notes`. Its methods update the
  board in place.

Event callbacks (`call.on('data')`, `call.on('end')`) are flattened. A call's
inbound stream is a sequence, processed in order, and the end of that
sequence is the `'end'` event. Calls that share the board are modelled by
calling `NoteBoard.ProcessNote` in whatever order their notes arrive.

External parts become parameters:

- `checkFeature` is not defined in `server.js`. It is the parameter
  `lookup: Point -> Feature`.
- `getDistance` is haversine arithmetic in floating point. It is the
  parameter `dist: (Point, Point) -> Meters`, where `Meters` is a
  non-negative real.
- The elapsed wall-clock seconds (`process.hrtime`) are the parameter
  `elapsed`.

Three facts about the code shape the model:

- `recordRoute` has no end-of-stream state check and no error path. The
  model processes one finite sequence of points and has no error state
  either.
- The summary distance is `distance | 0`, a signed 32-bit cast. It equals
  the whole number of metres only below 2^31 metres; above that it wraps
  (`ToInt32OfDistance`).
- `checkFeature` is not defined in `server.js`, so the lookup is a
  parameter.

The board lemmas of `RouteChat` are stated for any key function `key` that
gives distinct locations distinct keys (`SeparatesLocations`). `PointKey` is
proved to be such a function (`PointKeySeparatesLocations`), and `NoteBoard`
uses `PointKey`.

## Model

| member | source | states |
|---|---|---|
| `Messages.Writes` | server.js:78 | one `Write` event per message, in order, with the same length as the messages |
| `Messages.WrittenWrites` | server.js:78 | reading the messages back out of their writes gives the messages, in order |
| `Messages.TranscriptEndsOnce` | server.js:78-81 | writing the messages and then ending makes a stream that is ended exactly once, after the last write, and that carries exactly those messages |
| `FeatureFilter.BoxOf` | server.js:63-66 | `left`/`bottom` are at most both corners' longitude/latitude and equal one of them; `right`/`top` are at least both and equal one of them |
| `FeatureFilter.InBox` | server.js:72-77 | the closed-box test: longitude between `left` and `right`, latitude between `bottom` and `top`, edges included |
| `FeatureFilter.Emitted` | server.js:69-77 | a feature is written when its name is not `''` and its location is in the normalised box |
| `FeatureFilter.InBoxIffBetweenCorners` | server.js:63-77 | a point is in the normalised box, edges included, exactly when it lies between the two corners on both axes, whichever corner is lower |
| `FeatureFilter.Listed` | server.js:68-80 | the written features are no more than the stored ones, and each has a non-empty name and lies inside the box |
| `FeatureFilter.ListedMembers` | server.js:68-80 | a feature is written if and only if it is stored, named, and between the corners on both axes |
| `FeatureFilter.ListedIsOrderedSubsequence` | server.js:68-80 | the output is the stored features at strictly increasing positions; a position is taken exactly when its feature is named and inside the box |
| `FeatureFilter.ListedDependsOnlyOnBox` | server.js:63-77 | two requests with the same normalised box give the same output |
| `FeatureFilter.CornerOrderIrrelevant` | server.js:63-66 | swapping the corners on the longitude axis, the latitude axis or both gives the identical output sequence |
| `FeatureFilter.SentinelNeverListed` | server.js:69-71 | a feature named `''` is never written, wherever it lies |
| `FeatureFilter.ListFeatures` | server.js:60-82 | the loop writes exactly `Listed(featureList, request)` in order, then ends the stream once |
| `RouteRecorder.FeatureCount` | server.js:129-132 | the feature count never exceeds the number of points |
| `RouteRecorder.PathLength` | server.js:133-138 | the accumulated distance is never negative |
| `RouteRecorder.ToInt32` | server.js:144-145 | the 32-bit cast lies in the signed 32-bit range and agrees with `x` truncated toward zero, modulo 2^32 |
| `RouteRecorder.Truncate` | server.js:145 | the truncation half of the 32-bit cast: the result has the sign of `x` and is less than one away from it, toward zero |
| `RouteRecorder.FeatureCountAppend` | server.js:129-132 | the feature count is additive over concatenated point streams |
| `RouteRecorder.FeatureCountAll` | server.js:129-132 | the feature count equals the point count exactly when every lookup finds a named feature |
| `RouteRecorder.PathLengthAppend` | server.js:133-138 | joining two paths adds the leg from the last point of the first to the first point of the second |
| `RouteRecorder.PathLengthIsSumOfLegs` | server.js:133-138 | the accumulated distance equals the forward sum of `dist` over consecutive pairs, taken from the first leg on |
| `RouteRecorder.ToInt32OfDistance` | server.js:145 | a distance below 2^31 m is reported as its whole metres; from 2^31 to 2^32 m the report wraps to a negative number |
| `RouteRecorder.RecordRoute` | server.js:121-150 | the summary has point count = number of points, feature count = `FeatureCount` (at most the point count), distance = `ToInt32` of the sum over consecutive legs, and the elapsed time given; the distance is 0 for fewer than two points; the loop keeps `previous` equal to the last point seen |
| `PointKeys.DigitChar` | server.js:160 | a digit is rendered as the character whose offset from `'0'` is its value |
| `PointKeys.NatToDecimal` | server.js:160 | a number is rendered as a non-empty string of decimal digits, starting with `0` only for zero |
| `PointKeys.IntToDecimal` | server.js:160 | an integer is rendered as a `-` sign, present exactly when it is negative, followed by decimal digits |
| `PointKeys.PointKey` | server.js:159-161 | the key holds exactly one space, with the rendered latitude before it and the rendered longitude after it |
| `PointKeys.FirstSpace` | server.js:160 | gives the position of the first space in a string, or its length when there is none |
| `PointKeys.DecimalRoundTrip` | server.js:160 | reading the decimal rendering of a natural number back gives the number |
| `PointKeys.IntRoundTrip` | server.js:160 | reading the rendering of an integer, with a `-` sign when negative, back gives the integer |
| `PointKeys.KeyRoundTrip` | server.js:159-161 | reading a key `"<latitude> <longitude>"` back gives the point it was made from |
| `PointKeys.KeyInjective` | server.js:159-161 | two locations share a key if and only if they are the same location |
| `RouteChat.PointKeySeparatesLocations` | server.js:159-161 | `PointKey` gives distinct locations distinct keys, so the board lemmas apply to it |
| `RouteChat.Replay` | server.js:173-176 | the notes written for an incoming note: the list stored at its key, or nothing when the key is absent |
| `RouteChat.Record` | server.js:173-181 | storing a note adds its key if absent, appends the note at the end of that key's list, and leaves every other key's list unchanged |
| `RouteChat.BoardAfter` | server.js:169-182 | processing a stream of notes never removes a key and only ever appends to a key's list: each old list is a prefix of the new one |
| `RouteChat.ChatReplies` | server.js:169-182 | the notes written on one call: each incoming note's replay, in the order the notes arrive |
| `RouteChat.KeysOf` | server.js:170 | one key per incoming note, in order, each computed from that note's location |
| `RouteChat.NotesAt` | server.js:169-182 | the notes of a stream at one location are at that location, are taken from the stream, and are no more than the stream |
| `RouteChat.RecordKeepsConsistent` | server.js:173-181 | storing a note keeps the board invariant: every list is non-empty and holds only notes whose location gives its key |
| `RouteChat.ReplaySameLocation` | server.js:170-176 | on a consistent board, with a key function that separates locations, every replayed note is at the incoming note's location, so notes at other locations never appear |
| `RouteChat.BoardHistory` | server.js:169-182 | after a stream of notes, a location's list is its old list followed by the stream's notes at that location, in receipt order |
| `RouteChat.BoardKeys` | server.js:173-179 | a key is on the board after a stream exactly when it was there before or some note of the stream has that key; from the empty board, a key is present exactly when a note was stored for it |
| `RouteChat.ReplayIsPriorHistory` | server.js:169-182 | the i-th incoming note is answered with exactly the notes stored at its location before it, in receipt order, and not with itself |
| `RouteChat.ThreeCallsAtOneLocation` | server.js:169-182 | three notes at one location, one after another, are answered with nothing, then with the first, then with the first two in order |
| `RouteChat.NoteBoard.constructor` | server.js:152 | the board starts empty and consistent |
| `RouteChat.NoteBoard.ProcessNote` | server.js:169-182 | the notes written are the ones stored at the key before the append, all at the note's location; the new board is the old one with the note appended at the end of its key's list |
| `RouteChat.NoteBoard.Chat` | server.js:168-186 | a call writes the replays of its notes in order and ends the stream once; the board after it has all its notes stored in order, and stays consistent |

## Left out

- `getDistance` (haversine, `Math.sin`, `Math.atan2`, `Math.sqrt`): floating-point numerics. It is a parameter returning a non-negative real, so properties such as `distance(p, p) == 0` and symmetry are not modelled.
- `checkFeature` and `COORD_FACTOR` are not defined in `server.js`. The lookup is a parameter, and coordinates are kept as the scaled integers.
- `elapsed_time` (`process.hrtime`): a wall-clock read. It is passed in as a number of seconds.
- `RouteRecorder.RecordRoute`: the running total is an exact sum of reals. In the program it is a float64 sum, `distance += getDistance(previous, point)`, rounded at each step. So the program's `| 0` can differ from `ToInt32(PathLength(..))` when rounding crosses a whole metre.
- `RouteRecorder.ToInt32`: models `| 0` on finite numbers only. In the program a leg can be NaN: `Math.sqrt(1 - a)` is NaN when `a` rounds above 1 for nearly antipodal points. The total then stays NaN and `| 0` reports 0. The model's legs are non-negative reals, so it cannot express this.
- Missing sub-messages: the proto loader decodes an unset `lo`, `hi` or note `location` as `null`. `listFeatures` then throws reading its coordinates, and `routeChat` throws inside `pointKey`. `Rectangle` and `RouteNote` always carry a `Point`, so this failure is not modelled.
- `PointKeys.IntToDecimal`: renders an integer in plain decimal. JavaScript switches to exponent notation from 10^21 on, far beyond any scaled coordinate.
- `getFileInfos` and `createFileInfo`: the unary handlers. One returns the whole record array. The other stamps a record with a foreign `uuidv4()` id and pushes it. Neither is part of the streaming core.
- gRPC plumbing: proto loading, `getServer`/`addService`, `bindAsync`/`start`. Startup I/O: reading and parsing the feature database, and argument parsing.
- Concurrency: the event-emitter callbacks are processed one message at a time. Interleaving between calls appears only as the order in which `ProcessNote` is called. Cancellation is not modelled.
- The deep copy `JSON.parse(JSON.stringify(note))` is implicit: notes are immutable datatype values, so no aliasing can arise.
