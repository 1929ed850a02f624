/** What the client does with its token: the room list must be exactly what it asked for before any room is read. */
module CliRooms {
  import opened Wrappers
  import opened CliAuthRows
  import opened CliAuthRuns
  import opened CliAuthSafety

  /** The answer to the room list; entries without a textual id have none. */
  datatype Listing = Malformed | Listed(ids: seq<Option<string>>)

  datatype Snapshot = Refused | Snapshot(roomId: string, messages: Option<nat>)

  datatype Line = Line(roomId: string, messageCount: nat)

  datatype SessionEnd = Complete | InvalidMetadata | UnexpectedScope | Stopped

  const SNAPSHOT_LIMIT: nat := 64

  function AuthorizedIds(ids: seq<Option<string>>): set<string> {
    set i | 0 <= i < |ids| && ids[i].Some? :: ids[i].value
  }

  predicate Usable(s: Snapshot, room: string) {
    s.Snapshot? && s.roomId == room && s.messages.Some? && s.messages.value <= SNAPSHOT_LIMIT
  }

  /**
   `snapshots(i)` is the answer to the `i`-th room read. Rooms are read in order, and none unless the scope is exact.
  */
  method ReadRooms(rooms: seq<string>, listing: Listing, snapshots: nat -> Snapshot)
    returns (end: SessionEnd, requests: seq<string>, lines: seq<Line>)
    ensures end == InvalidMetadata <==> listing.Malformed?
    ensures end == UnexpectedScope <==> listing.Listed? && AuthorizedIds(listing.ids) != Elements(rooms)
    ensures end == InvalidMetadata || end == UnexpectedScope ==> requests == [] && lines == []
    ensures requests <= rooms && forall i :: 0 <= i < |requests| ==>
              listing.Listed? && requests[i] in AuthorizedIds(listing.ids)
    ensures |lines| <= |requests| && forall i :: 0 <= i < |lines| ==>
              Usable(snapshots(i), rooms[i]) && lines[i] == Line(rooms[i], snapshots(i).messages.value)
    ensures end == Complete <==> listing.Listed? && AuthorizedIds(listing.ids) == Elements(rooms) && |lines| == |rooms|
    ensures end == Stopped ==> |requests| == |lines| + 1 && !Usable(snapshots(|lines|), rooms[|lines|])
  {
    requests, lines := [], [];
    if listing.Malformed? {
      return InvalidMetadata, [], [];
    }
    var requested := Elements(rooms);
    var authorized := AuthorizedIds(listing.ids);
    if !(requested <= authorized) || !(authorized <= requested) {
      return UnexpectedScope, [], [];
    }
    for n := 0 to |rooms|
      invariant |requests| == |lines| == n && requests == rooms[..n]
      invariant forall i :: 0 <= i < n ==>
                  Usable(snapshots(i), rooms[i]) && lines[i] == Line(rooms[i], snapshots(i).messages.value)
    {
      requests := requests + [rooms[n]];
      var snapshot := snapshots(n);
      if snapshot.Refused? || snapshot.roomId != rooms[n] || snapshot.messages == None
          || snapshot.messages.value > SNAPSHOT_LIMIT {
        return Stopped, requests, lines;
      }
      lines := lines + [Line(rooms[n], snapshot.messages.value)];
    }
    end := Complete;
  }

  /**
   Client and server agree on the rooms: in every run, when the server lists the rooms of the principal behind the token
   a client obtained for its own device, the client's scope check passes.
  */
  lemma OwnRoomsAreAccepted(before: seq<Event>, create: Event, after: seq<Event>, token: CliAuthRows.Token, now: Time,
                            p: Principal, ids: seq<Option<string>>)
    requires create.Create? && create.d !in Run(Init, before).db.devices
               && create.d in Next(Run(Init, before), create).db.devices
    requires var s := Run(Init, before + [create] + after);
             Resolves(s.db, token, now, p) && p.grant in s.owner && s.owner[p.grant] == create.d
    requires AuthorizedIds(ids) == p.rooms
    ensures AuthorizedIds(ids) == Elements(create.rooms)
  {
    var first, all := before + [create], before + [create] + after;
    assert first[..|first| - 1] == before;
    var s0, s1, s := Run(Init, before), Run(Init, first), Run(Init, all);
    assert s1 == Next(s0, create);
    RunConcat(Init, first, after);
    Reachable(first);
    Reachable(all);
    ResolveIsSound(all, token, now, p);
    RunMoves(s1, after, create.d);
    SameRooms(s, create.d);
    SameRooms(s1, create.d);
  }

  lemma SameRooms(s: Sys, d: Id)
    requires Inv(s) && d in s.db.devices
    ensures d in s.history && s.db.devices[d].rooms == s.history[d].rooms
  {
    assert RowOk(s.db.devices[d], s.history[d]);
  }

  lemma {:induction false} RunConcat(s: Sys, a: seq<Event>, b: seq<Event>)
    ensures Run(s, a + b) == Run(Run(s, a), b)
    decreases |b|
  {
    hide Next;
    if b == [] {
      assert a + b == a;
    } else {
      assert (a + b)[..|a + b| - 1] == a + b[..|b| - 1];
      RunConcat(s, a, b[..|b| - 1]);
    }
  }
}
