/** Rooms and their members (src/modules/conversation/conversation.service.ts) over whole runs. */
module Conversations {
  import opened Prelude

  /** `members` maps each member to whether it is a chat admin. */
  datatype Room = Room(direct: bool, createdBy: string, members: map<string, bool>)

  /** The room and member tables; `directFor` is the history of direct rooms created, by their pair of users. */
  datatype Rooms = Rooms(rooms: map<string, Room>, directFor: seq<set<string>>)

  datatype Refusal = BadRequest | Forbidden | NotFound

  datatype Reply = Refused(why: Refusal) | Existing(room: string) | Created(room: string) | Changed

  // What each call does.

  predicate Answers(room: Room, a: string, b: string) {
    room.direct && room.members.Keys <= {a, b}
  }

  /** The query for an existing direct room returned a matching one, and none only if there is none. */
  ghost predicate FoundDirect(x: Rooms, a: string, b: string, found: Option<string>) {
    if found.Some? then found.value in x.rooms && Answers(x.rooms[found.value], a, b)
    else forall r :: r in x.rooms ==> !Answers(x.rooms[r], a, b)
  }

  function NewRoom(creator: string, participants: seq<string>, direct: bool): Room {
    var ids := {creator} + set p | p in participants;
    Room(direct, creator, map u | u in ids :: u == creator)
  }

  /** `users` are the ids in the user table, `id` the one the new room gets. */
  function Create(x: Rooms, users: set<string>, creator: string, participants: seq<string>, direct: bool,
                  found: Option<string>, id: string): (Rooms, Reply)
  {
    if direct && |participants| != 1 then (x, Refused(BadRequest))
    else if direct && found.Some? then (x, Existing(found.value))
    else
      var room := NewRoom(creator, participants, direct);
      if !(room.members.Keys <= users) then (x, Refused(NotFound))
      else (Rooms(x.rooms[id := room], if direct then x.directFor + [{creator, participants[0]}] else x.directFor),
            Created(id))
  }

  /** `assertGroupAdmin`: why the requester may not change the room's members, if so. */
  function GroupAdminRefusal(x: Rooms, room: string, requester: string): Option<Refusal> {
    if room !in x.rooms then Some(NotFound)
    else if x.rooms[room].direct then Some(BadRequest)
    else if requester !in x.rooms[room].members then Some(Forbidden)
    else if !x.rooms[room].members[requester] then Some(Forbidden)
    else None
  }

  /** New members are no admins; ids that are not users make the whole insert fail. */
  function MembersAdded(x: Rooms, users: set<string>, room: string, requester: string, ids: seq<string>)
    : (Rooms, Reply)
  {
    var refusal := GroupAdminRefusal(x, room, requester);
    if refusal.Some? then (x, Refused(refusal.value))
    else
      var members := x.rooms[room].members;
      var newIds := (set i | i in ids) - members.Keys;
      if newIds == {} then (x, Refused(BadRequest))
      else if !(newIds <= users) then (x, Refused(NotFound))
      else (x.(rooms := x.rooms[room := x.rooms[room].(members := members + map i | i in newIds :: false)]), Changed)
  }

  function Without(x: Rooms, room: string, user: string): Rooms
    requires room in x.rooms
  {
    x.(rooms := x.rooms[room := x.rooms[room].(members := x.rooms[room].members - {user})])
  }

  function MemberRemoved(x: Rooms, room: string, requester: string, target: string): (Rooms, Reply) {
    var refusal := GroupAdminRefusal(x, room, requester);
    if refusal.Some? then (x, Refused(refusal.value)) else (Without(x, room, target), Changed)
  }

  function Leave(x: Rooms, room: string, user: string): (Rooms, Reply) {
    if room !in x.rooms || user !in x.rooms[room].members then (x, Refused(NotFound))
    else (Without(x, room, user), Changed)
  }

  datatype Call =
    | DoCreate(users: set<string>, creator: string, participants: seq<string>, direct: bool, found: Option<string>,
               id: string)
    | DoAdd(users: set<string>, room: string, requester: string, ids: seq<string>)
    | DoRemove(room: string, requester: string, target: string)
    | DoLeave(room: string, user: string)

  ghost predicate Legit(x: Rooms, c: Call) {
    c.DoCreate? ==>
      c.id !in x.rooms && (c.direct && |c.participants| == 1 ==> FoundDirect(x, c.creator, c.participants[0], c.found))
  }

  function Apply(x: Rooms, c: Call): Rooms {
    match c
    case DoCreate(users, creator, participants, direct, found, id) =>
      Create(x, users, creator, participants, direct, found, id).0
    case DoAdd(users, room, requester, ids) => MembersAdded(x, users, room, requester, ids).0
    case DoRemove(room, requester, target) => MemberRemoved(x, room, requester, target).0
    case DoLeave(room, user) => Leave(x, room, user).0
  }

  ghost predicate LegitRun(x: Rooms, calls: seq<Call>)
    decreases |calls|
  {
    calls == [] || (Legit(x, calls[0]) && LegitRun(Apply(x, calls[0]), calls[1..]))
  }

  function Run(x: Rooms, calls: seq<Call>): Rooms
    decreases |calls|
  {
    if calls == [] then x else Run(Apply(x, calls[0]), calls[1..])
  }

  const NoRooms := Rooms(map[], [])

  // One direct room per pair.

  ghost predicate Covered(x: Rooms, pair: set<string>) {
    exists r :: r in x.rooms && x.rooms[r].direct && x.rooms[r].members.Keys <= pair
  }

  ghost predicate OnePerPair(x: Rooms) {
    && NoDuplicates(x.directFor)
    && forall pair :: pair in x.directFor ==> Covered(x, pair)
  }

  /** Rooms are never lost, and the members of a direct room only ever get fewer. */
  lemma DirectRoomsShrink(x: Rooms, c: Call, r: string)
    requires Legit(x, c) && r in x.rooms && x.rooms[r].direct
    ensures r in Apply(x, c).rooms && Apply(x, c).rooms[r].direct
    ensures Apply(x, c).rooms[r].members.Keys <= x.rooms[r].members.Keys
  {
  }

  lemma CallKeepsOnePerPair(x: Rooms, c: Call)
    requires OnePerPair(x) && Legit(x, c)
    ensures OnePerPair(Apply(x, c))
  {
    var y := Apply(x, c);
    forall pair | pair in x.directFor ensures Covered(y, pair) {
      var r :| r in x.rooms && x.rooms[r].direct && x.rooms[r].members.Keys <= pair;
      DirectRoomsShrink(x, c, r);
    }
    if y.directFor != x.directFor {
      var pair := {c.creator, c.participants[0]};
      assert y.directFor == x.directFor + [pair];
      assert !Covered(x, pair) by {
        assert forall r :: r in x.rooms ==> !Answers(x.rooms[r], c.creator, c.participants[0]);
      }
      assert y.rooms[c.id].members.Keys <= pair;
      assert Covered(y, pair);
    }
  }

  /** In any run at most one direct room is ever created for a pair of users, whoever asks first. */
  lemma {:induction false} AtMostOneDirectRoomPerPair(x: Rooms, calls: seq<Call>)
    requires OnePerPair(x) && LegitRun(x, calls)
    ensures OnePerPair(Run(x, calls))
    decreases |calls|
  {
    if calls == [] {
    } else {
      CallKeepsOnePerPair(x, calls[0]);
      AtMostOneDirectRoomPerPair(Apply(x, calls[0]), calls[1..]);
    }
  }

  /**
   A request for a direct chat creates a room exactly when no direct room lies within the pair and both
   users exist.
   */
  lemma DirectRoomCreatedIff(x: Rooms, users: set<string>, a: string, b: string, found: Option<string>, id: string)
    requires FoundDirect(x, a, b, found)
    ensures Create(x, users, a, [b], true, found, id).1 == Created(id) <==> !Covered(x, {a, b}) && {a, b} <= users
  {
    var room := NewRoom(a, [b], true);
    assert room.members.Keys == {a, b};
    if found.Some? {
      assert x.rooms[found.value].members.Keys <= {a, b};
    }
  }

  /**
   The test also fits a room that everybody has left. Once there is one, no direct room is created any
   more, and a request can be answered with a room that nobody asking is in.
   */
  lemma EmptiedRoomAnswersEveryRequest(x: Rooms, users: set<string>, a: string, b: string, r: string,
                                       found: Option<string>, id: string)
    requires r in x.rooms && x.rooms[r].direct && x.rooms[r].members == map[]
    requires FoundDirect(x, a, b, found)
    ensures FoundDirect(x, a, b, Some(r)) && a !in x.rooms[r].members
    ensures Create(x, users, a, [b], true, found, id).0 == x && Create(x, users, a, [b], true, found, id).1.Existing?
  {
    assert Answers(x.rooms[r], a, b);
  }

  // Admins.

  /** Among the members of a room, the admin is the creator. */
  ghost predicate OnlyCreatorsAdminister(x: Rooms) {
    forall r, u :: r in x.rooms && u in x.rooms[r].members ==> (x.rooms[r].members[u] <==> u == x.rooms[r].createdBy)
  }

  lemma {:induction false} AdminsAreCreators(x: Rooms, calls: seq<Call>)
    requires OnlyCreatorsAdminister(x) && LegitRun(x, calls)
    ensures OnlyCreatorsAdminister(Run(x, calls))
    decreases |calls|
  {
    if calls == [] {
    } else {
      AdminsAreCreators(Apply(x, calls[0]), calls[1..]);
    }
  }

  /** Once the creator is out of a room, its members can only get fewer for the rest of the run. */
  lemma {:induction false} OrphanedRoomsShrink(x: Rooms, calls: seq<Call>, r: string)
    requires OnlyCreatorsAdminister(x) && LegitRun(x, calls)
    requires r in x.rooms && x.rooms[r].createdBy !in x.rooms[r].members
    ensures r in Run(x, calls).rooms && Run(x, calls).rooms[r].members.Keys <= x.rooms[r].members.Keys
    decreases |calls|
  {
    if calls == [] {
    } else {
      var y := Apply(x, calls[0]);
      assert GroupAdminRefusal(x, r, if calls[0].DoAdd? then calls[0].requester else "").Some?;
      OrphanedRoomsShrink(y, calls[1..], r);
    }
  }

  /** What holds in every reachable state of the tables. */
  lemma EveryReachableState(calls: seq<Call>)
    requires LegitRun(NoRooms, calls)
    ensures OnePerPair(Run(NoRooms, calls)) && OnlyCreatorsAdminister(Run(NoRooms, calls))
  {
    AtMostOneDirectRoomPerPair(NoRooms, calls);
    AdminsAreCreators(NoRooms, calls);
  }

  // Who is in a room.

  predicate IsMember(x: Rooms, r: string, u: string) {
    r in x.rooms && u in x.rooms[r].members
  }

  /** The creator of a group room who is still in it. */
  predicate MayChange(x: Rooms, room: string, requester: string) {
    IsMember(x, room, requester) && !x.rooms[room].direct && requester == x.rooms[room].createdBy
  }

  ghost predicate CreatesRoom(c: Call) {
    && c.DoCreate? && (c.direct ==> |c.participants| == 1 && c.found.None?)
    && c.creator in c.users && forall p :: p in c.participants ==> p in c.users
  }

  /** The call puts the user into the room. */
  ghost predicate PutsIn(x: Rooms, c: Call, r: string, u: string) {
    match c
    case DoCreate(_, creator, participants, _, _, id) =>
      CreatesRoom(c) && id == r && (u == creator || u in participants)
    case DoAdd(users, room, requester, ids) =>
      && room == r && MayChange(x, r, requester) && u in ids
      && forall i :: i in ids ==> i in users || IsMember(x, r, i)
    case _ => false
  }

  /** The call takes the user out of the room. */
  ghost predicate TakesOut(x: Rooms, c: Call, r: string, u: string) {
    match c
    case DoRemove(room, requester, target) => room == r && target == u && MayChange(x, r, requester)
    case DoLeave(room, user) => room == r && user == u
    case _ => false
  }

  lemma MayChangeIff(x: Rooms, room: string, requester: string)
    requires OnlyCreatorsAdminister(x)
    ensures GroupAdminRefusal(x, room, requester)
            == if room !in x.rooms then Some(NotFound)
               else if x.rooms[room].direct then Some(BadRequest)
               else if MayChange(x, room, requester) then None
               else Some(Forbidden)
  {
  }

  /** The members of every room after any call. */
  lemma MemberAfter(x: Rooms, c: Call, r: string, u: string)
    requires OnlyCreatorsAdminister(x) && Legit(x, c)
    ensures IsMember(Apply(x, c), r, u) <==> (IsMember(x, r, u) && !TakesOut(x, c, r, u)) || PutsIn(x, c, r, u)
  {
    match c
    case DoCreate(users, creator, participants, direct, found, id) =>
      assert NewRoom(creator, participants, direct).members.Keys <= users
        <==> creator in users && forall p :: p in participants ==> p in users;
    case DoAdd(users, room, requester, ids) =>
      MayChangeIff(x, room, requester);
      if room in x.rooms {
        assert (set i | i in ids) - x.rooms[room].members.Keys <= users
          <==> forall i :: i in ids ==> i in users || IsMember(x, room, i);
      }
    case DoRemove(room, requester, _) => MayChangeIff(x, room, requester);
    case DoLeave(_, _) =>
  }

  /** Rooms keep their kind, their creator and the marks of their members; one more comes only by creation. */
  ghost predicate KeepsRooms(x: Rooms, y: Rooms, created: set<string>) {
    && y.rooms.Keys == x.rooms.Keys + created
    && (forall r :: r in x.rooms ==>
          && y.rooms[r].direct == x.rooms[r].direct && y.rooms[r].createdBy == x.rooms[r].createdBy
          && forall u :: u in x.rooms[r].members && u in y.rooms[r].members ==>
               y.rooms[r].members[u] == x.rooms[r].members[u])
  }

  lemma CallKeepsRooms(x: Rooms, c: Call)
    requires Legit(x, c)
    ensures KeepsRooms(x, Apply(x, c), if CreatesRoom(c) then {c.id} else {})
    ensures CreatesRoom(c) ==>
              var room := Apply(x, c).rooms[c.id];
              && room.direct == c.direct && room.createdBy == c.creator
              && forall u :: u in room.members ==> (room.members[u] <==> u == c.creator)
  {
    if c.DoCreate? {
      assert NewRoom(c.creator, c.participants, c.direct).members.Keys <= c.users
        <==> c.creator in c.users && forall p :: p in c.participants ==> p in c.users;
    }
  }

  lemma NewIds(x: Rooms, users: set<string>, room: string, ids: seq<string>)
    requires room in x.rooms
    ensures var newIds := (set i | i in ids) - x.rooms[room].members.Keys;
            && (newIds == {} <==> forall i :: i in ids ==> IsMember(x, room, i))
            && (newIds <= users <==> forall i :: i in ids ==> i in users || IsMember(x, room, i))
  {
    var newIds := (set i | i in ids) - x.rooms[room].members.Keys;
    if newIds == {} {
      forall i | i in ids ensures IsMember(x, room, i) {
        assert i !in newIds;
      }
    } else {
      var i :| i in newIds;
      assert i in ids && !IsMember(x, room, i);
    }
  }

  /** What each call answers. */
  lemma CallAnswers(x: Rooms, c: Call)
    requires OnlyCreatorsAdminister(x) && Legit(x, c)
    ensures match c
            case DoCreate(users, creator, participants, direct, found, id) =>
              Create(x, users, creator, participants, direct, found, id).1
              == if direct && |participants| != 1 then Refused(BadRequest)
                 else if direct && found.Some? then Existing(found.value)
                 else if CreatesRoom(c) then Created(id) else Refused(NotFound)
            case DoAdd(users, room, requester, ids) =>
              MembersAdded(x, users, room, requester, ids).1
              == if !MayChange(x, room, requester) then Refused(GroupAdminRefusal(x, room, requester).value)
                 else if forall i :: i in ids ==> IsMember(x, room, i) then Refused(BadRequest)
                 else if forall i :: i in ids ==> i in users || IsMember(x, room, i) then Changed
                 else Refused(NotFound)
            case DoRemove(room, requester, target) =>
              MemberRemoved(x, room, requester, target).1
              == if MayChange(x, room, requester) then Changed else Refused(GroupAdminRefusal(x, room, requester).value)
            case DoLeave(room, user) =>
              Leave(x, room, user).1 == if IsMember(x, room, user) then Changed else Refused(NotFound)
  {
    match c
    case DoCreate(users, creator, participants, direct, found, id) =>
      assert NewRoom(creator, participants, direct).members.Keys <= users
        <==> creator in users && forall p :: p in participants ==> p in users;
    case DoAdd(users, room, requester, ids) =>
      MayChangeIff(x, room, requester);
      if MayChange(x, room, requester) {
        NewIds(x, users, room, ids);
      }
    case DoRemove(room, requester, _) => MayChangeIff(x, room, requester);
    case DoLeave(_, _) =>
  }

  lemma {:induction false} RunPrefix(x: Rooms, calls: seq<Call>, n: nat)
    requires LegitRun(x, calls) && n < |calls|
    ensures LegitRun(x, calls[..n]) && Legit(Run(x, calls[..n]), calls[n])
    ensures Run(x, calls[..n + 1]) == Apply(Run(x, calls[..n]), calls[n])
    decreases n
  {
    if n == 0 {
      assert calls[..1] == [calls[0]] && calls[..1][1..] == [];
      assert Run(Apply(x, calls[0]), []) == Apply(x, calls[0]);
    } else {
      RunPrefix(Apply(x, calls[0]), calls[1..], n - 1);
      assert calls[..n][1..] == calls[1..][..n - 1] && calls[..n + 1][1..] == calls[1..][..n];
    }
  }

  /** The tables before the call at place i. */
  function Before(calls: seq<Call>, i: nat): Rooms
    requires i <= |calls|
  {
    Run(NoRooms, calls[..i])
  }

  /** Put in by some call and taken out by none since. */
  ghost predicate InByHistory(calls: seq<Call>, n: nat, r: string, u: string)
    requires n <= |calls|
  {
    exists i: nat :: i < n && PutsIn(Before(calls, i), calls[i], r, u)
                     && forall j :: i < j < n ==> !TakesOut(Before(calls, j), calls[j], r, u)
  }

  lemma OneCallMore(calls: seq<Call>, n: nat, r: string, u: string)
    requires n < |calls|
    ensures InByHistory(calls, n + 1, r, u)
            <==> || (InByHistory(calls, n, r, u) && !TakesOut(Before(calls, n), calls[n], r, u))
                 || PutsIn(Before(calls, n), calls[n], r, u)
  {
    if InByHistory(calls, n, r, u) && !TakesOut(Before(calls, n), calls[n], r, u) {
      var i: nat :| i < n && PutsIn(Before(calls, i), calls[i], r, u)
                    && forall j :: i < j < n ==> !TakesOut(Before(calls, j), calls[j], r, u);
      assert i < n + 1 && forall j :: i < j < n + 1 ==> !TakesOut(Before(calls, j), calls[j], r, u);
    }
  }

  lemma {:induction false} MembersFrom(calls: seq<Call>, n: nat, r: string, u: string)
    requires LegitRun(NoRooms, calls) && n <= |calls|
    ensures LegitRun(NoRooms, calls[..n])
    ensures IsMember(Before(calls, n), r, u) <==> InByHistory(calls, n, r, u)
  {
    if n == 0 {
    } else {
      MembersFrom(calls, n - 1, r, u);
      RunPrefix(NoRooms, calls, n - 1);
      if n < |calls| {
        RunPrefix(NoRooms, calls, n);
      } else {
        assert calls[..n] == calls;
      }
      AdminsAreCreators(NoRooms, calls[..n - 1]);
      MemberAfter(Before(calls, n - 1), calls[n - 1], r, u);
      OneCallMore(calls, n - 1, r, u);
    }
  }

  /**
   In any run someone is in a room exactly when some call, creation or addition, put them in and none since,
   by removal or departure, took them out.
   */
  lemma MemberIffPutIn(calls: seq<Call>, r: string, u: string)
    requires LegitRun(NoRooms, calls)
    ensures IsMember(Run(NoRooms, calls), r, u) <==> InByHistory(calls, |calls|, r, u)
  {
    assert calls[..|calls|] == calls;
    MembersFrom(calls, |calls|, r, u);
  }

  /** The service over its tables. */
  class ConversationService {
    var rooms: map<string, Room>
    ghost var directFor: seq<set<string>>

    ghost function State(): Rooms
      reads this
    {
      Rooms(rooms, directFor)
    }

    ghost predicate Valid()
      reads this
    {
      OnePerPair(State()) && OnlyCreatorsAdminister(State())
    }

    constructor ()
      ensures Valid() && State() == NoRooms
    {
      rooms, directFor := map[], [];
    }

    method FindDirect(a: string, b: string) returns (found: Option<string>)
      ensures FoundDirect(State(), a, b, found)
    {
      var todo := rooms.Keys;
      while todo != {}
        invariant todo <= rooms.Keys
        invariant forall r :: r in rooms && r !in todo ==> !Answers(rooms[r], a, b)
        decreases todo
      {
        var r :| r in todo;
        if rooms[r].direct && rooms[r].members.Keys <= {a, b} {
          return Some(r);
        }
        todo := todo - {r};
      }
      found := None;
    }

    method CreateConversation(users: set<string>, creatorId: string, participantIds: seq<string>, direct: bool,
                              id: string)
      returns (reply: Reply, found: Option<string>)
      requires Valid() && id !in rooms
      modifies this
      ensures Valid()
      ensures direct && |participantIds| == 1 ==> FoundDirect(old(State()), creatorId, participantIds[0], found)
      ensures (State(), reply) == Create(old(State()), users, creatorId, participantIds, direct, found, id)
      ensures reply == Created(id) <==>
                && (direct ==> |participantIds| == 1 && found.None?)
                && creatorId in users && forall p :: p in participantIds ==> p in users
      ensures KeepsRooms(old(State()), State(), if reply == Created(id) then {id} else {})
      ensures reply == Created(id) ==>
                rooms[id].direct == direct && rooms[id].createdBy == creatorId
                && forall u :: u in rooms[id].members ==> (rooms[id].members[u] <==> u == creatorId)
      ensures forall r, u :: IsMember(State(), r, u)
                             <==> || old(IsMember(State(), r, u))
                                  || (reply == Created(id) && r == id && (u == creatorId || u in participantIds))
    {
      found := None;
      if direct {
        if |participantIds| != 1 {
          return Refused(BadRequest), found;
        }
        found := FindDirect(creatorId, participantIds[0]);
        if found.Some? {
          return Existing(found.value), found;
        }
      }
      var room := NewRoom(creatorId, participantIds, direct);
      if !(room.members.Keys <= users) {
        return Refused(NotFound), found;
      }
      CallKeepsOnePerPair(State(), DoCreate(users, creatorId, participantIds, direct, found, id));
      rooms := rooms[id := room];
      if direct {
        directFor := directFor + [{creatorId, participantIds[0]}];
      }
      reply := Created(id);
    }

    /** Lets through exactly the creator of a group room who is still in it. */
    method AssertGroupAdmin(roomId: string, requesterId: string) returns (refusal: Option<Refusal>)
      requires Valid()
      ensures refusal == Some(NotFound) <==> roomId !in rooms
      ensures refusal == Some(BadRequest) <==> roomId in rooms && rooms[roomId].direct
      ensures roomId in rooms && !rooms[roomId].direct ==>
                var mayChange := requesterId == rooms[roomId].createdBy && requesterId in rooms[roomId].members;
                refusal == if mayChange then None else Some(Forbidden)
    {
      if roomId !in rooms {
        return Some(NotFound);
      }
      var room := rooms[roomId];
      if room.direct {
        return Some(BadRequest);
      }
      if requesterId !in room.members || !room.members[requesterId] {
        return Some(Forbidden);
      }
      refusal := None;
    }

    method AddMembers(users: set<string>, roomId: string, requesterId: string, memberIds: seq<string>)
      returns (reply: Reply)
      requires Valid()
      modifies this
      ensures Valid()
      ensures (State(), reply) == MembersAdded(old(State()), users, roomId, requesterId, memberIds)
      ensures reply == Changed <==>
                && old(MayChange(State(), roomId, requesterId))
                && (exists i :: i in memberIds && !old(IsMember(State(), roomId, i)))
                && (forall i :: i in memberIds ==> i in users || old(IsMember(State(), roomId, i)))
      ensures KeepsRooms(old(State()), State(), {})
      ensures forall r, u :: IsMember(State(), r, u)
                             <==> old(IsMember(State(), r, u)) || (reply == Changed && r == roomId && u in memberIds)
    {
      var refusal := AssertGroupAdmin(roomId, requesterId);
      if refusal.Some? {
        return Refused(refusal.value);
      }
      var members := rooms[roomId].members;
      var newIds := (set i | i in memberIds) - members.Keys;
      NewIds(State(), users, roomId, memberIds);
      if newIds == {} {
        return Refused(BadRequest);
      }
      if !(newIds <= users) {
        return Refused(NotFound);
      }
      CallKeepsOnePerPair(State(), DoAdd(users, roomId, requesterId, memberIds));
      rooms := rooms[roomId := rooms[roomId].(members := members + map i | i in newIds :: false)];
      reply := Changed;
    }

    method RemoveMember(roomId: string, requesterId: string, targetUserId: string) returns (reply: Reply)
      requires Valid()
      modifies this
      ensures Valid()
      ensures (State(), reply) == MemberRemoved(old(State()), roomId, requesterId, targetUserId)
      ensures reply == Changed <==> old(MayChange(State(), roomId, requesterId))
      ensures KeepsRooms(old(State()), State(), {})
      ensures forall r, u :: IsMember(State(), r, u)
                             <==> && old(IsMember(State(), r, u))
                                  && !(reply == Changed && r == roomId && u == targetUserId)
    {
      var refusal := AssertGroupAdmin(roomId, requesterId);
      if refusal.Some? {
        return Refused(refusal.value);
      }
      CallKeepsOnePerPair(State(), DoRemove(roomId, requesterId, targetUserId));
      rooms := rooms[roomId := rooms[roomId].(members := rooms[roomId].members - {targetUserId})];
      reply := Changed;
    }

    method LeaveConversation(roomId: string, userId: string) returns (reply: Reply)
      requires Valid()
      modifies this
      ensures Valid()
      ensures (State(), reply) == Leave(old(State()), roomId, userId)
      ensures reply == Changed <==> old(IsMember(State(), roomId, userId))
      ensures KeepsRooms(old(State()), State(), {})
      ensures forall r, u :: IsMember(State(), r, u)
                             <==> old(IsMember(State(), r, u)) && !(r == roomId && u == userId)
    {
      if roomId !in rooms || userId !in rooms[roomId].members {
        return Refused(NotFound);
      }
      CallKeepsOnePerPair(State(), DoLeave(roomId, userId));
      rooms := rooms[roomId := rooms[roomId].(members := rooms[roomId].members - {userId})];
      reply := Changed;
    }
  }
}
