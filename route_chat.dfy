/** RouteChat: a process-wide board of notes keyed by location. Each incoming
    note is answered with every note stored before it at the same location,
    in the order they were received, and is then stored itself. */
module RouteChat {
  import opened Messages
  import opened PointKeys

  /** `route_notes`: key -> the notes received at that key, oldest first. */
  type Board = map<string, seq<RouteNote>>

  /** How a location becomes a board key. The server uses `pointKey`
      (`PointKey`); the lemmas below hold for every key function that gives
      distinct locations distinct keys, which `PointKey` does. */
  type KeyOf = Point -> string

  ghost predicate SeparatesLocations(key: KeyOf)
  {
    forall p, q :: key(p) == key(q) ==> p == q
  }

  lemma PointKeySeparatesLocations()
    ensures SeparatesLocations(PointKey)
  {
    forall p, q | PointKey(p) == PointKey(q)
      ensures p == q
    {
      KeyInjective(p, q);
    }
  }

  function Stored(board: Board, k: string): seq<RouteNote>
  {
    if k in board then board[k] else []
  }

  /** What answering `note` replays: everything already stored at its key. */
  function Replay(key: KeyOf, board: Board, note: RouteNote): seq<RouteNote>
  {
    Stored(board, key(note.location))
  }

  /** The board after `note` is stored at the end of its key's list. */
  function Record(key: KeyOf, board: Board, note: RouteNote): (after: Board)
    ensures after.Keys == board.Keys + {key(note.location)}
    ensures after[key(note.location)] == Replay(key, board, note) + [note]
    ensures forall k :: k in board && k != key(note.location) ==> after[k] == board[k]
  {
    var k := key(note.location);
    board[k := Stored(board, k) + [note]]
  }

  /** The board after a stream of notes, each stored in turn. */
  function BoardAfter(key: KeyOf, board: Board, inbound: seq<RouteNote>): (after: Board)
    ensures board.Keys <= after.Keys
    ensures forall k :: k in board ==> |board[k]| <= |after[k]| && after[k][..|board[k]|] == board[k]
  {
    if inbound == [] then board
    else
      var n := |inbound| - 1;
      Record(key, BoardAfter(key, board, inbound[..n]), inbound[n])
  }

  /** Every note written back on a call whose inbound stream is `inbound`, in
      the order written. */
  function ChatReplies(key: KeyOf, board: Board, inbound: seq<RouteNote>): seq<RouteNote>
  {
    if inbound == [] then []
    else
      var n := |inbound| - 1;
      ChatReplies(key, board, inbound[..n]) + Replay(key, BoardAfter(key, board, inbound[..n]), inbound[n])
  }

  /** The keys of a stream of notes, one per note, in order. */
  function KeysOf(key: KeyOf, inbound: seq<RouteNote>): (keys: seq<string>)
    ensures |keys| == |inbound|
    ensures forall i :: 0 <= i < |inbound| ==> keys[i] == key(inbound[i].location)
  {
    if inbound == [] then []
    else
      var n := |inbound| - 1;
      KeysOf(key, inbound[..n]) + [key(inbound[n].location)]
  }

  /** The notes of `notes` left at location `p`, in order. */
  function NotesAt(notes: seq<RouteNote>, p: Point): (r: seq<RouteNote>)
    ensures |r| <= |notes|
    ensures forall i :: 0 <= i < |r| ==> r[i].location == p && r[i] in notes
  {
    if notes == [] then []
    else
      var n := |notes| - 1;
      NotesAt(notes[..n], p) + (if notes[n].location == p then [notes[n]] else [])
  }

  /** The board invariant: every list is non-empty and holds only notes whose
      location gives its key. */
  ghost predicate Consistent(key: KeyOf, board: Board)
  {
    && (forall k :: k in board ==> board[k] != [])
    && (forall k, i :: k in board && 0 <= i < |board[k]| ==> key(board[k][i].location) == k)
  }

  lemma RecordKeepsConsistent(key: KeyOf, board: Board, note: RouteNote)
    requires Consistent(key, board)
    ensures Consistent(key, Record(key, board, note))
  {
  }

  /** On a consistent board, a replay holds only notes left at the very
      location of the incoming note: notes at other locations never appear. */
  lemma ReplaySameLocation(key: KeyOf, board: Board, note: RouteNote)
    requires SeparatesLocations(key) && Consistent(key, board)
    ensures forall i :: 0 <= i < |Replay(key, board, note)| ==> Replay(key, board, note)[i].location == note.location
  {
  }

  /** The history of one location: after a stream of notes, a location's list
      is what it held before followed by the stream's notes at that location,
      in receipt order. */
  lemma {:induction false} BoardHistory(key: KeyOf, board: Board, inbound: seq<RouteNote>, p: Point)
    requires SeparatesLocations(key)
    ensures Stored(BoardAfter(key, board, inbound), key(p)) == Stored(board, key(p)) + NotesAt(inbound, p)
  {
    if inbound != [] {
      var n := |inbound| - 1;
      BoardHistory(key, board, inbound[..n], p);
    }
  }

  /** A key is on the board after a stream of notes exactly when it was there
      before or some note of the stream was left at a location with that key. */
  lemma {:induction false} BoardKeys(key: KeyOf, board: Board, inbound: seq<RouteNote>, k: string)
    ensures k in BoardAfter(key, board, inbound) <==> k in board || k in KeysOf(key, inbound)
  {
    if inbound != [] {
      var n := |inbound| - 1;
      BoardKeys(key, board, inbound[..n], k);
    }
  }

  /** The i-th incoming note of a stream is answered with exactly the notes
      stored at its location before it: those already on the board, then the
      earlier notes of the stream at that location, in receipt order. The note
      itself is not part of its own replay. */
  lemma ReplayIsPriorHistory(key: KeyOf, board: Board, inbound: seq<RouteNote>, i: nat)
    requires SeparatesLocations(key) && i < |inbound|
    ensures Replay(key, BoardAfter(key, board, inbound[..i]), inbound[i])
         == Stored(board, key(inbound[i].location)) + NotesAt(inbound[..i], inbound[i].location)
  {
    BoardHistory(key, board, inbound[..i], inbound[i].location);
  }

  /** Three notes at one location from three calls, one after another: the
      first is answered with nothing, the second with the first, the third
      with the first two in that order. */
  lemma ThreeCallsAtOneLocation(key: KeyOf, n1: RouteNote, n2: RouteNote, n3: RouteNote)
    requires n1.location == n2.location == n3.location
    ensures Replay(key, map[], n1) == []
    ensures Replay(key, Record(key, map[], n1), n2) == [n1]
    ensures Replay(key, Record(key, Record(key, map[], n1), n2), n3) == [n1, n2]
  {
  }

  /** The board shared by every RouteChat call (`route_notes`). */
  class NoteBoard {
    var notes: Board

    ghost predicate Valid()
      reads this
    {
      Consistent(PointKey, notes)
    }

    constructor ()
      ensures Valid() && notes == map[]
    {
      notes := map[];
    }

    /** Handle one incoming note: write back every note stored at its key,
        creating the key with an empty list if it is absent, then store the
        note at the end of that list. */
    method ProcessNote(note: RouteNote) returns (replayed: seq<RouteNote>)
      requires Valid()
      modifies this
      ensures Valid()
      ensures replayed == Replay(PointKey, old(notes), note)
      ensures notes == Record(PointKey, old(notes), note)
      ensures forall i :: 0 <= i < |replayed| ==> replayed[i].location == note.location
    {
      PointKeySeparatesLocations();
      ReplaySameLocation(PointKey, notes, note);
      RecordKeepsConsistent(PointKey, notes, note);
      var key := PointKey(note.location);
      replayed := [];
      if key in notes {
        var stored := notes[key];
        for i := 0 to |stored|
          invariant replayed == stored[..i]
        {
          replayed := replayed + [stored[i]];
        }
      } else {
        notes := notes[key := []];
      }
      notes := notes[key := notes[key] + [note]];
    }

    /** One RouteChat call: process the incoming notes in order, writing each
        one's replay, and end the outbound stream when the inbound one ends. */
    method Chat(inbound: seq<RouteNote>) returns (out: seq<Outbound<RouteNote>>)
      requires Valid()
      modifies this
      ensures Valid()
      ensures notes == BoardAfter(PointKey, old(notes), inbound)
      ensures out == Writes(ChatReplies(PointKey, old(notes), inbound)) + [End]
    {
      out := [];
      for i := 0 to |inbound|
        invariant Valid()
        invariant notes == BoardAfter(PointKey, old(notes), inbound[..i])
        invariant out == Writes(ChatReplies(PointKey, old(notes), inbound[..i]))
      {
        assert inbound[..i + 1][..i] == inbound[..i];
        var replayed := ProcessNote(inbound[i]);
        WritesAppend(ChatReplies(PointKey, old(notes), inbound[..i]), replayed);
        out := out + Writes(replayed);
      }
      assert inbound[..|inbound|] == inbound;
      out := out + [End];
    }
  }
}
