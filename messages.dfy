/** The messages exchanged by the route-guide handlers, and what a handler
    does to its outbound stream. */
module Messages {

  /** A location. Latitude and longitude are degrees scaled by COORD_FACTOR
      (10^7), so they are integers. */
  datatype Point = Point(latitude: int, longitude: int)

  /** The request of ListFeatures: two opposite corners, in either order. */
  datatype Rectangle = Rectangle(lo: Point, hi: Point)

  /** A named place. The empty name is the sentinel "no feature here". */
  datatype Feature = Feature(name: string, location: Point)

  /** A chat message left at a location. */
  datatype RouteNote = RouteNote(location: Point, message: string)

  /** The reply of RecordRoute. `distance` is the JavaScript `| 0` of the
      accumulated metres, so it is a signed 32-bit integer. */
  datatype RouteSummary = RouteSummary(pointCount: nat, featureCount: nat, distance: int, elapsedTime: nat)

  datatype Option<T> = None | Some(value: T)

  /** One action on an outbound stream: `call.write(msg)` or `call.end()`. */
  datatype Outbound<M> = Write(msg: M) | End

  /** The writes of `msgs`, one per message, in order. */
  function Writes<M>(msgs: seq<M>): (events: seq<Outbound<M>>)
    ensures |events| == |msgs|
    ensures forall i :: 0 <= i < |msgs| ==> events[i] == Write(msgs[i])
  {
    if msgs == [] then [] else Writes(msgs[..|msgs| - 1]) + [Write(msgs[|msgs| - 1])]
  }

  /** A stream that writes every message and then is ended exactly once, after
      the last write. */
  predicate EndedOnceAfterWrites<M>(events: seq<Outbound<M>>)
  {
    && |events| > 0
    && events[|events| - 1] == End
    && forall i :: 0 <= i < |events| - 1 ==> events[i].Write?
  }

  /** The messages a stream carries, in order: the inverse of `Writes`. */
  function Written<M>(events: seq<Outbound<M>>): seq<M>
  {
    if events == [] then []
    else
      var rest := Written(events[..|events| - 1]);
      match events[|events| - 1]
      case Write(m) => rest + [m]
      case End => rest
  }

  lemma {:induction false} WrittenWrites<M>(msgs: seq<M>)
    ensures Written(Writes(msgs)) == msgs
  {
    if msgs != [] {
      var init := msgs[..|msgs| - 1];
      assert Writes(msgs)[..|msgs| - 1] == Writes(init);
      WrittenWrites(init);
    }
  }

  /** Writing the messages and then ending gives a well-terminated stream that
      carries exactly those messages. */
  lemma TranscriptEndsOnce<M>(msgs: seq<M>)
    ensures EndedOnceAfterWrites(Writes(msgs) + [End])
    ensures Written(Writes(msgs) + [End]) == msgs
  {
  }

  lemma WritesStep<M>(msgs: seq<M>, m: M)
    ensures Writes(msgs + [m]) == Writes(msgs) + [Write(m)]
  {
    assert (msgs + [m])[..|msgs|] == msgs;
  }

  lemma {:induction false} WritesAppend<M>(a: seq<M>, b: seq<M>)
    ensures Writes(a + b) == Writes(a) + Writes(b)
  {
    // Both sides have the same length and the same element at each index.
  }
}
