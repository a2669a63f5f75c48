/** The room registry of the lightweight lobby server: a map from room ids
    to rooms, kept in the order the rooms were created, and changed by the
    createRoom, joinRoom, startGame and disconnect handlers. Socket ids,
    player names and room ids are strings; the room id, which the server
    draws at random, is a parameter, and what the handlers emit back to
    the sockets is the value they return. */
module SimpleServer {
  import opened Wrappers

  const MaxRoomPlayers := 8
  const MinPlayersToStart := 2

  /** An entry of room.players. */
  datatype Member = Member(id: string, name: string, isHost: bool)

  datatype Room = Room(id: string, host: string, players: seq<Member>, gameStarted: bool)

  /** The error events the handlers emit. */
  datatype LobbyError = RoomNotFound | RoomFull | NotAuthorized | TooFewPlayers | AlreadyStarted

  /** The host is the first player, the only one marked as host. */
  predicate HostFirst(r: Room) {
    && |r.players| >= 1 && r.players[0].isHost && r.host == r.players[0].id
    && forall i :: 1 <= i < |r.players| ==> !r.players[i].isHost
  }

  /** What every room in the registry satisfies: one to eight players and
      the host first. */
  predicate GoodRoom(r: Room) {
    |r.players| <= MaxRoomPlayers && HostFirst(r)
  }

  /** The room createRoom makes: its creator alone, as host, game not
      started. */
  function NewRoom(roomId: string, sid: string, name: string): (r: Room)
    ensures GoodRoom(r) && r.id == roomId && r.host == sid && !r.gameStarted
    ensures r.players == [Member(sid, name, true)]
  {
    Room(roomId, sid, [Member(sid, name, true)], false)
  }

  /** players.findIndex(p => p.id === sid): the first index holding the
      socket, or -1. */
  function IndexOf(ps: seq<Member>, sid: string): (k: int)
    ensures -1 <= k < |ps|
    ensures k >= 0 ==> ps[k].id == sid && forall i :: 0 <= i < k ==> ps[i].id != sid
    ensures k == -1 ==> forall i :: 0 <= i < |ps| ==> ps[i].id != sid
  {
    if ps == [] then -1
    else if ps[0].id == sid then 0
    else
      var k := IndexOf(ps[1..], sid);
      if k == -1 then -1 else k + 1
  }

  /** The checks and the push of joinRoom, once the room is found: a full
      room refuses, otherwise the player is appended, not as host. */
  function Join(r: Room, sid: string, name: string): (o: Result<Room, LobbyError>)
    ensures o.Success? <==> |r.players| < MaxRoomPlayers
    ensures o.Failure? ==> o.error == RoomFull
    ensures o.Success? ==>
      && o.value.players == r.players + [Member(sid, name, false)]
      && o.value.(players := r.players) == r
    ensures o.Success? && GoodRoom(r) ==> GoodRoom(o.value)
  {
    if |r.players| >= MaxRoomPlayers then Failure(RoomFull)
    else Success(r.(players := r.players + [Member(sid, name, false)]))
  }

  /** The checks of startGame, once the room is found: only the host may
      start, with at least two players, and only once. */
  function Start(r: Room, sid: string): (o: Result<Room, LobbyError>)
    ensures o.Success? <==> r.host == sid && |r.players| >= MinPlayersToStart && !r.gameStarted
    ensures o.Success? ==> o.value == r.(gameStarted := true)
    ensures r.host != sid ==> o == Failure(NotAuthorized)
    ensures r.host == sid && |r.players| < MinPlayersToStart ==> o == Failure(TooFewPlayers)
  {
    if r.host != sid then Failure(NotAuthorized)
    else if |r.players| < MinPlayersToStart then Failure(TooFewPlayers)
    else if r.gameStarted then Failure(AlreadyStarted)
    else Success(r.(gameStarted := true))
  }

  /** The room after the player at index k left: None when nobody is left
      (the room is deleted); otherwise the other members in their order,
      unchanged, except that when the player who left was the host the new
      first member is marked host. */
  function Leave(r: Room, sid: string, k: nat): (o: Option<Room>)
    requires k < |r.players|
    ensures o.None? <==> |r.players| == 1
    ensures o.Some? ==>
      && |o.value.players| == |r.players| - 1
      && o.value.id == r.id && o.value.gameStarted == r.gameStarted
      && (forall i :: 0 <= i < |o.value.players| ==>
            var m := if i < k then r.players[i] else r.players[i + 1];
            o.value.players[i] == if i == 0 && r.host == sid then m.(isHost := true) else m)
      && o.value.host == (if r.host == sid then o.value.players[0].id else r.host)
  {
    var rest := r.players[..k] + r.players[k + 1..];
    if rest == [] then None
    else if r.host == sid then Some(r.(host := rest[0].id, players := [rest[0].(isHost := true)] + rest[1..]))
    else Some(r.(players := rest))
  }

  /** A player leaving a good room that holds them leaves a good room: the
      host, if they left, is replaced by the new first player, and the
      others keep their marks. */
  lemma LeaveKeepsHost(r: Room, sid: string)
    requires GoodRoom(r) && IndexOf(r.players, sid) >= 0
    ensures var o := Leave(r, sid, IndexOf(r.players, sid)); o.Some? ==> GoodRoom(o.value)
  {
    var k := IndexOf(r.players, sid);
    if r.host != sid {
      assert k != 0;
    }
  }

  /** The position in order of the first room holding the socket, which
      is the room the loop of disconnect stops at. */
  function FirstRoomWith(order: seq<string>, rooms: map<string, Room>, sid: string): (o: Option<nat>)
    requires forall j :: 0 <= j < |order| ==> order[j] in rooms
    ensures o.Some? ==>
      && o.value < |order| && IndexOf(rooms[order[o.value]].players, sid) >= 0
      && forall j :: 0 <= j < o.value ==> IndexOf(rooms[order[j]].players, sid) == -1
    ensures o.None? ==> forall j :: 0 <= j < |order| ==> IndexOf(rooms[order[j]].players, sid) == -1
  {
    if order == [] then None
    else if IndexOf(rooms[order[0]].players, sid) >= 0 then Some(0)
    else
      match FirstRoomWith(order[1..], rooms, sid)
      case None => None
      case Some(i) => Some(i + 1)
  }

  /** The order lists every room id once, and every room is good and
      filed under its own id. */
  predicate Registry(rooms: map<string, Room>, order: seq<string>) {
    && (forall id :: id in rooms ==> id in order)
    && (forall j :: 0 <= j < |order| ==> order[j] in rooms)
    && (forall i, j :: 0 <= i < j < |order| ==> order[i] != order[j])
    && forall id :: id in rooms ==> rooms[id].id == id && GoodRoom(rooms[id])
  }

  /** The rooms map of the server. */
  class Lobby {
    var rooms: map<string, Room>
    /** The room ids in the order the map iterates them: creation order. */
    var order: seq<string>

    predicate Valid()
      reads this
    {
      Registry(rooms, order)
    }

    constructor ()
      ensures Valid() && rooms == map[] && order == []
    {
      rooms := map[];
      order := [];
    }

    /** createRoom: the new room replaces any room under the same id, which
        keeps its place in the iteration order. */
    method CreateRoom(roomId: string, sid: string, name: string) returns (r: Room)
      requires Valid()
      modifies this
      ensures Valid() && r == NewRoom(roomId, sid, name)
      ensures rooms == old(rooms)[roomId := r]
      ensures order == if roomId in old(rooms) then old(order) else old(order) + [roomId]
    {
      r := NewRoom(roomId, sid, name);
      if roomId !in rooms {
        order := order + [roomId];
      }
      rooms := rooms[roomId := r];
    }

    /** joinRoom: an unknown room or a full one refuses; otherwise the
        player list after the push. */
    method JoinRoom(roomId: string, sid: string, name: string) returns (o: Result<seq<Member>, LobbyError>)
      requires Valid()
      modifies this`rooms
      ensures Valid()
      ensures roomId !in old(rooms) ==> o == Failure(RoomNotFound) && rooms == old(rooms)
      ensures roomId in old(rooms) ==>
        match Join(old(rooms)[roomId], sid, name)
        case Failure(e) => o == Failure(e) && rooms == old(rooms)
        case Success(room) => o == Success(room.players) && rooms == old(rooms)[roomId := room]
    {
      if roomId !in rooms {
        return Failure(RoomNotFound);
      }
      match Join(rooms[roomId], sid, name)
      case Failure(e) =>
        o := Failure(e);
      case Success(room) =>
        rooms := rooms[roomId := room];
        o := Success(room.players);
    }

    /** startGame: an unknown room is reported as not authorized, like a
        requester who is not the host. */
    method StartGame(roomId: string, sid: string) returns (o: Result<seq<Member>, LobbyError>)
      requires Valid()
      modifies this`rooms
      ensures Valid()
      ensures roomId !in old(rooms) ==> o == Failure(NotAuthorized) && rooms == old(rooms)
      ensures roomId in old(rooms) ==>
        match Start(old(rooms)[roomId], sid)
        case Failure(e) => o == Failure(e) && rooms == old(rooms)
        case Success(room) => o == Success(room.players) && rooms == old(rooms)[roomId := room]
    {
      if roomId !in rooms {
        return Failure(NotAuthorized);
      }
      match Start(rooms[roomId], sid)
      case Failure(e) =>
        o := Failure(e);
      case Success(room) =>
        rooms := rooms[roomId := room];
        o := Success(room.players);
    }

    /** disconnect: the socket leaves the first room, in iteration order,
        that holds it, and only that room; a room left empty is deleted. */
    method Disconnect(sid: string)
      requires Valid()
      modifies this
      ensures Valid()
      ensures match FirstRoomWith(old(order), old(rooms), sid)
        case None => rooms == old(rooms) && order == old(order)
        case Some(i) =>
          var id := old(order)[i];
          var room := old(rooms)[id];
          match Leave(room, sid, IndexOf(room.players, sid))
          case None => rooms == old(rooms) - {id} && order == old(order)[..i] + old(order)[i + 1..]
          case Some(left) => rooms == old(rooms)[id := left] && order == old(order)
    {
      var i := 0;
      while i < |order|
        invariant 0 <= i <= |order| && rooms == old(rooms) && order == old(order)
        invariant forall j :: 0 <= j < i ==> IndexOf(rooms[order[j]].players, sid) == -1
      {
        var id := order[i];
        var room := rooms[id];
        var k := IndexOf(room.players, sid);
        if k != -1 {
          assert FirstRoomWith(order, rooms, sid) == Some(i);
          LeaveRoom(i, sid);
          return;
        }
        i := i + 1;
      }
    }

    /** The splice of disconnect in the room at position i of the order,
        and the deletion of that room when it is left empty. */
    method LeaveRoom(i: nat, sid: string)
      requires Valid() && i < |order| && IndexOf(rooms[order[i]].players, sid) >= 0
      modifies this
      ensures Valid()
      ensures var id := old(order)[i];
        var room := old(rooms)[id];
        match Leave(room, sid, IndexOf(room.players, sid))
        case None => rooms == old(rooms) - {id} && order == old(order)[..i] + old(order)[i + 1..]
        case Some(left) => rooms == old(rooms)[id := left] && order == old(order)
    {
      var id := order[i];
      var room := rooms[id];
      LeaveKeepsHost(room, sid);
      match Leave(room, sid, IndexOf(room.players, sid))
      case None =>
        RemoveKeepsRegistry(rooms, order, i);
        rooms := rooms - {id};
        order := order[..i] + order[i + 1..];
      case Some(left) =>
        rooms := rooms[id := left];
    }
  }

  /** Deleting the room at position i of the order, and its id from the
      order, keeps the registry well formed. */
  lemma RemoveKeepsRegistry(rooms: map<string, Room>, order: seq<string>, i: nat)
    requires Registry(rooms, order) && i < |order|
    ensures Registry(rooms - {order[i]}, order[..i] + order[i + 1..])
  {
    RemoveAt(order, i);
  }

  /** Taking the id at position i out of a list without repeats leaves
      exactly the other ids, still without repeats. */
  lemma RemoveAt(order: seq<string>, i: nat)
    requires i < |order| && forall a, b :: 0 <= a < b < |order| ==> order[a] != order[b]
    ensures var rest := order[..i] + order[i + 1..];
      && (forall a, b :: 0 <= a < b < |rest| ==> rest[a] != rest[b])
      && forall id :: id in rest <==> id in order && id != order[i]
  {
    var rest := order[..i] + order[i + 1..];
    assert forall k :: 0 <= k < |rest| ==> rest[k] == order[if k < i then k else k + 1];
    forall id | id in order && id != order[i]
      ensures id in rest
    {
      var a :| 0 <= a < |order| && order[a] == id;
      if a < i {
        assert rest[a] == id;
      } else {
        assert rest[a - 1] == id;
      }
    }
  }
}
