/**
 Who is online (src/socket/socket-state.service.ts): two maps that stay inverse to each other, and the
 database writes and presence flags that trail behind them.

 Every call changes the maps before its first `await`, so calls interleave only in what they still
 have to write; those writes are issued in the order of the map changes.
 */
module Presence {
  import opened Prelude

  /** `UPDATE users SET isOnline = online WHERE id = user`. */
  datatype Write = Write(user: string, online: bool)

  datatype Index = Index(userSockets: map<string, set<string>>, socketUser: map<string, string>, issued: seq<Write>)

  function SocketsOf(x: Index, user: string): set<string> {
    if user in x.userSockets then x.userSockets[user] else {}
  }

  predicate IsOnline(x: Index, user: string) {
    user in x.userSockets && x.userSockets[user] != {}
  }

  /** The new index and whether the user came online. */
  function Add(x: Index, user: string, socket: string): (Index, bool) {
    var becameOnline := SocketsOf(x, user) == {};
    (Index(x.userSockets[user := SocketsOf(x, user) + {socket}], x.socketUser[socket := user],
           if becameOnline then x.issued + [Write(user, true)] else x.issued),
     becameOnline)
  }

  /** The new index, the owner of the socket if it was known, and whether that user went offline. */
  function Drop(x: Index, socket: string): (Index, Option<string>, bool) {
    if socket !in x.socketUser then (x, None, false)
    else
      var user := x.socketUser[socket];
      var left := SocketsOf(x, user) - {socket};
      var socketUser := x.socketUser - {socket};
      if user !in x.userSockets then (x.(socketUser := socketUser), Some(user), false)
      else if left == {} then
        (Index(x.userSockets - {user}, socketUser, x.issued + [Write(user, false)]), Some(user), true)
      else (x.(userSockets := x.userSockets[user := left], socketUser := socketUser), Some(user), false)
  }

  /** A socket id that nobody else uses. */
  predicate Free(x: Index, user: string, socket: string) {
    socket in x.socketUser ==> x.socketUser[socket] == user
  }

  // The two maps.

  ghost predicate Inverse(x: Index) {
    && (forall s :: s in x.socketUser ==> s in SocketsOf(x, x.socketUser[s]))
    && (forall u, s :: u in x.userSockets && s in x.userSockets[u] ==> s in x.socketUser && x.socketUser[s] == u)
    && (forall u :: u in x.userSockets ==> x.userSockets[u] != {})
  }

  /** Adding keeps the maps inverse exactly when the socket does not belong to another user. */
  lemma AddKeepsInverseIff(x: Index, user: string, socket: string)
    requires Inverse(x)
    ensures Inverse(Add(x, user, socket).0) <==> Free(x, user, socket)
  {
    var y := Add(x, user, socket).0;
    if !Free(x, user, socket) {
      var other := x.socketUser[socket];
      assert socket in SocketsOf(x, other);
      assert other in y.userSockets && socket in y.userSockets[other] && y.socketUser[socket] == user;
    } else {
      assert forall s :: s in x.socketUser ==> s in SocketsOf(x, x.socketUser[s]);
    }
  }

  lemma DropKeepsInverse(x: Index, socket: string)
    requires Inverse(x)
    ensures Inverse(Drop(x, socket).0)
  {
    assert forall s :: s in x.socketUser ==> s in SocketsOf(x, x.socketUser[s]);
  }

  ghost function TotalSize(m: map<string, set<string>>): nat {
    if m == map[] then 0
    else
      var u :| u in m;
      |m[u]| + TotalSize(m - {u})
  }

  /** Leaving one user and that user's sockets out keeps the maps inverse. */
  lemma LeavingOneOut(x: Index, u: string)
    requires Inverse(x) && u in x.userSockets
    ensures var rest := Index(x.userSockets - {u}, x.socketUser - x.userSockets[u], []);
            && Inverse(rest)
            && |x.socketUser| == |x.userSockets[u]| + |rest.socketUser|
  {
    LeavingOneOutKeepsInverse(x, u);
    SocketsAreKnown(x, u);
    SizeWithout(x.socketUser, x.userSockets[u]);
  }

  lemma LeavingOneOutKeepsInverse(x: Index, u: string)
    requires Inverse(x) && u in x.userSockets
    ensures Inverse(Index(x.userSockets - {u}, x.socketUser - x.userSockets[u], []))
  {
    var rest := Index(x.userSockets - {u}, x.socketUser - x.userSockets[u], []);
    forall s | s in rest.socketUser ensures s in SocketsOf(rest, rest.socketUser[s]) {
      assert s in SocketsOf(x, x.socketUser[s]);
    }
    forall v, s | v in rest.userSockets && s in rest.userSockets[v]
      ensures s in rest.socketUser && rest.socketUser[s] == v
    {
      assert s in x.userSockets[v] && x.socketUser[s] == v;
    }
  }

  lemma SocketsAreKnown(x: Index, u: string)
    requires Inverse(x) && u in x.userSockets
    ensures x.userSockets[u] <= x.socketUser.Keys
  {
  }

  lemma SizeWithout<K, V>(m: map<K, V>, part: set<K>)
    requires part <= m.Keys
    ensures |m| == |part| + |m - part|
  {
    assert (m - part).Keys == m.Keys - part;
    assert (m.Keys - part) + part == m.Keys;
  }

  /** The number of sockets reported is the sum of the users' socket counts. */
  lemma {:induction false} SocketsAddUp(x: Index)
    requires Inverse(x)
    ensures |x.socketUser| == TotalSize(x.userSockets)
    decreases |x.userSockets|
  {
    if x.userSockets == map[] {
      assert forall s :: s in x.socketUser ==> s in SocketsOf(x, x.socketUser[s]);
      assert x.socketUser == map[];
    } else {
      var u :| u in x.userSockets && TotalSize(x.userSockets) == |x.userSockets[u]| + TotalSize(x.userSockets - {u});
      LeavingOneOut(x, u);
      SocketsAddUp(Index(x.userSockets - {u}, x.socketUser - x.userSockets[u], []));
    }
  }

  // The database.

  /** What the writes say about a user: the last one, or nothing. */
  function Said(writes: seq<Write>, user: string): Option<bool> {
    if writes == [] then None
    else if writes[|writes| - 1].user == user then Some(writes[|writes| - 1].online)
    else Said(writes[..|writes| - 1], user)
  }

  /** For every user the writes alternate, online first. */
  predicate Alternating(writes: seq<Write>) {
    writes == [] ||
    (var n := |writes| - 1;
     Alternating(writes[..n]) && writes[n].online != (Said(writes[..n], writes[n].user) == Some(true)))
  }

  ghost predicate WritesMatch(x: Index) {
    Alternating(x.issued) && forall u :: IsOnline(x, u) <==> Said(x.issued, u) == Some(true)
  }

  lemma OneMoreWrite(writes: seq<Write>, w: Write)
    ensures (writes + [w])[..|writes|] == writes
    ensures forall u :: Said(writes + [w], u) == if u == w.user then Some(w.online) else Said(writes, u)
    ensures Alternating(writes + [w]) <==> Alternating(writes) && w.online != (Said(writes, w.user) == Some(true))
  {
    assert (writes + [w])[..|writes|] == writes;
  }

  lemma AddKeepsWrites(x: Index, user: string, socket: string)
    requires Inverse(x) && WritesMatch(x)
    ensures WritesMatch(Add(x, user, socket).0)
    ensures Add(x, user, socket).1 <==> !IsOnline(x, user)
  {
    OneMoreWrite(x.issued, Write(user, true));
    assert IsOnline(x, user) <==> SocketsOf(x, user) != {};
  }

  lemma DropKeepsWrites(x: Index, socket: string)
    requires Inverse(x) && WritesMatch(x)
    ensures WritesMatch(Drop(x, socket).0)
  {
    if socket in x.socketUser {
      assert socket in SocketsOf(x, x.socketUser[socket]);
      OneMoreWrite(x.issued, Write(x.socketUser[socket], false));
    }
  }

  datatype Call = Connect(user: string, socket: string) | Disconnect(socket: string)

  function Apply(x: Index, c: Call): Index {
    match c
    case Connect(user, socket) => Add(x, user, socket).0
    case Disconnect(socket) => Drop(x, socket).0
  }

  predicate Proper(x: Index, calls: seq<Call>)
    decreases |calls|
  {
    calls == [] ||
    ((calls[0].Connect? ==> Free(x, calls[0].user, calls[0].socket)) && Proper(Apply(x, calls[0]), calls[1..]))
  }

  function Run(x: Index, calls: seq<Call>): Index
    decreases |calls|
  {
    if calls == [] then x else Run(Apply(x, calls[0]), calls[1..])
  }

  lemma {:induction false} RunKeeps(x: Index, calls: seq<Call>)
    requires Inverse(x) && WritesMatch(x) && Proper(x, calls)
    ensures Inverse(Run(x, calls)) && WritesMatch(Run(x, calls))
    decreases |calls|
  {
    if calls == [] {
    } else {
      match calls[0] {
        case Connect(user, socket) =>
          AddKeepsInverseIff(x, user, socket);
          AddKeepsWrites(x, user, socket);
        case Disconnect(socket) =>
          DropKeepsInverse(x, socket);
          DropKeepsWrites(x, socket);
      }
      RunKeeps(Apply(x, calls[0]), calls[1..]);
    }
  }

  const Empty := Index(map[], map[], [])

  /** The database column after some writes. */
  function Perform(db: map<string, bool>, writes: seq<Write>): map<string, bool>
    decreases |writes|
  {
    if writes == [] then db else Perform(db[writes[0].user := writes[0].online], writes[1..])
  }

  lemma {:induction false} PerformEndsAtSaid(db: map<string, bool>, writes: seq<Write>, user: string)
    ensures match Said(writes, user)
            case Some(b) => user in Perform(db, writes) && Perform(db, writes)[user] == b
            case None =>
              && (user in Perform(db, writes) <==> user in db)
              && (user in db ==> Perform(db, writes)[user] == db[user])
    decreases |writes|
  {
    if writes == [] {
    } else {
      PerformEndsAtSaid(db[writes[0].user := writes[0].online], writes[1..], user);
      SaidOfTail(writes, user);
    }
  }

  lemma {:induction false} SaidOfTail(writes: seq<Write>, user: string)
    requires writes != []
    ensures Said(writes, user)
            == if Said(writes[1..], user).Some? then Said(writes[1..], user)
               else if writes[0].user == user then Some(writes[0].online) else None
    decreases |writes|
  {
    if |writes| <= 1 {
    } else {
      var n := |writes| - 1;
      SaidOfTail(writes[..n], user);
      assert writes[..n][1..] == writes[1..][..n - 1];
    }
  }

  lemma {:induction false} PerformSplits(db: map<string, bool>, a: seq<Write>, b: seq<Write>)
    ensures Perform(db, a + b) == Perform(Perform(db, a), b)
    decreases |a|
  {
    if a == [] {
      assert a + b == b;
    } else {
      assert (a + b)[1..] == a[1..] + b;
      PerformSplits(db[a[0].user := a[0].online], a[1..], b);
    }
  }

  lemma CallKeepsIndex(x: Index, c: Call)
    requires Inverse(x) && WritesMatch(x) && (c.Connect? ==> Free(x, c.user, c.socket))
    ensures Inverse(Apply(x, c)) && WritesMatch(Apply(x, c))
  {
    assert [c][1..] == [];
    assert Proper(Apply(x, c), []) && Run(Apply(x, c), []) == Apply(x, c);
    RunKeeps(x, [c]);
  }

  ghost predicate Connects(calls: seq<Call>, user: string) {
    exists i :: 0 <= i < |calls| && calls[i].Connect? && calls[i].user == user
  }

  lemma CallWrites(x: Index, c: Call, user: string)
    requires Inverse(x) && WritesMatch(x)
    ensures Said(Apply(x, c).issued, user).Some? <==> Said(x.issued, user).Some? || (c.Connect? && c.user == user)
  {
    match c
    case Connect(u, _) =>
      OneMoreWrite(x.issued, Write(u, true));
      assert IsOnline(x, u) <==> SocketsOf(x, u) != {};
    case Disconnect(socket) =>
      if socket in x.socketUser {
        assert socket in SocketsOf(x, x.socketUser[socket]);
        OneMoreWrite(x.issued, Write(x.socketUser[socket], false));
      }
  }

  /** The database hears of a user exactly when the user connects at least once. */
  lemma {:induction false} WrittenIffConnected(x: Index, calls: seq<Call>, user: string)
    requires Inverse(x) && WritesMatch(x) && Proper(x, calls)
    ensures Said(Run(x, calls).issued, user).Some? <==> Said(x.issued, user).Some? || Connects(calls, user)
    decreases |calls|
  {
    if calls == [] {
    } else {
      CallKeepsIndex(x, calls[0]);
      CallWrites(x, calls[0], user);
      WrittenIffConnected(Apply(x, calls[0]), calls[1..], user);
      assert Connects(calls, user) <==> (calls[0].Connect? && calls[0].user == user) || Connects(calls[1..], user) by {
        assert forall k :: 0 <= k < |calls| - 1 ==> calls[1..][k] == calls[k + 1];
        if k :| 0 <= k < |calls| && calls[k].Connect? && calls[k].user == user {
          assert k == 0 || calls[1..][k - 1] == calls[k];
        }
      }
    }
  }

  /**
   After any proper run the maps are inverse and each user's writes alternate, so online and offline events
   do too. However many writes have reached the database so far, performing the rest in order leaves a
   user's column at what the maps say exactly when the column did not start at a stale "online", or the
   user connected at least once.
   */
  lemma DatabaseCatchesUpIff(calls: seq<Call>, db: map<string, bool>, done: nat, user: string)
    requires Proper(Empty, calls) && done <= |Run(Empty, calls).issued| && user in db
    ensures var x := Run(Empty, calls);
            var reached := Perform(db, x.issued[..done]);
            && Inverse(x) && Alternating(x.issued) && |x.socketUser| == TotalSize(x.userSockets)
            && user in Perform(reached, x.issued[done..])
            && (Perform(reached, x.issued[done..])[user] == IsOnline(x, user) <==> !db[user] || Connects(calls, user))
  {
    RunKeeps(Empty, calls);
    var x := Run(Empty, calls);
    SocketsAddUp(x);
    assert x.issued[..done] + x.issued[done..] == x.issued;
    PerformSplits(db, x.issued[..done], x.issued[done..]);
    PerformEndsAtSaid(db, x.issued, user);
    WrittenIffConnected(Empty, calls, user);
    assert IsOnline(x, user) <==> Said(x.issued, user) == Some(true);
  }

  // The presence flag in Redis is written only after the database write is done, so its order is not kept.

  datatype Chore =
    | SaveOnline(user: string)
    | SaveOffline(user: string)
    | SetFlag(user: string)
    | ClearFlag(user: string)

  /** What has happened to a flag: set, deleted, or renewed by a heartbeat if it was there. */
  datatype Sign = Raised(user: string, at: nat) | Lowered(user: string, at: nat) | Beat(user: string, at: nat)

  const FLAG_MS: nat := 120_000

  /**
   Calls on their way: what each still has to do, and the flags in the store with their expiry. `asked` and
   `done` are the history: the flag writes that calls have taken on, in the order of the calls, and what
   was done to the flags. Times are in milliseconds.
   */
  datatype System = System(
    index: Index, chores: seq<seq<Chore>>, now: nat, flags: map<string, nat>, asked: seq<Write>, done: seq<Sign>)

  const Start := System(Empty, [], 0, map[], [], [])

  function ChoresOf(x: Index, c: Call): seq<Chore> {
    match c
    case Connect(user, socket) => (if Add(x, user, socket).1 then [SaveOnline(user)] else []) + [SetFlag(user)]
    case Disconnect(socket) =>
      if Drop(x, socket).2 then [SaveOffline(x.socketUser[socket]), ClearFlag(x.socketUser[socket])] else []
  }

  function FlagWrite(c: Chore): seq<Write> {
    match c
    case SetFlag(user) => [Write(user, true)]
    case ClearFlag(user) => [Write(user, false)]
    case _ => []
  }

  function FlagWrites(chores: seq<Chore>): seq<Write> {
    if chores == [] then [] else FlagWrite(chores[0]) + FlagWrites(chores[1..])
  }

  function Signs(c: Chore, at: nat): seq<Sign> {
    match c
    case SetFlag(user) => [Raised(user, at)]
    case ClearFlag(user) => [Lowered(user, at)]
    case _ => []
  }

  datatype Move = Begin(call: Call) | Resume(task: nat) | Pass(ms: nat) | Heartbeat(user: string)

  function Flags(flags: map<string, nat>, c: Chore, now: nat): map<string, nat> {
    match c
    case SetFlag(user) => flags[user := now + FLAG_MS]
    case ClearFlag(user) => flags - {user}
    case _ => flags
  }

  predicate CanMove(s: System, m: Move) {
    match m
    case Begin(Connect(user, socket)) => Free(s.index, user, socket)
    case Resume(task) => task < |s.chores| && s.chores[task] != []
    case _ => true
  }

  function Moved(s: System, m: Move): System
    requires CanMove(s, m)
  {
    match m
    case Begin(c) =>
      var chores := ChoresOf(s.index, c);
      s.(index := Apply(s.index, c), chores := s.chores + [chores], asked := s.asked + FlagWrites(chores))
    case Resume(i) =>
      var c := s.chores[i][0];
      s.(chores := s.chores[i := s.chores[i][1..]], flags := Flags(s.flags, c, s.now), done := s.done + Signs(c, s.now))
    case Pass(ms) =>
      s.(now := s.now + ms, flags := map u | u in s.flags && s.now + ms < s.flags[u] :: s.flags[u])
    case Heartbeat(u) =>
      s.(flags := if u in s.flags then s.flags[u := s.now + FLAG_MS] else s.flags, done := s.done + [Beat(u, s.now)])
  }

  /** The state after some moves, if each could be made. */
  function Played(s: System, moves: seq<Move>): Option<System>
    decreases |moves|
  {
    if moves == [] then Some(s)
    else if !CanMove(s, moves[0]) then None
    else Played(Moved(s, moves[0]), moves[1..])
  }

  predicate Idle(s: System) {
    forall i :: 0 <= i < |s.chores| ==> s.chores[i] == []
  }

  ghost predicate FlagsMatch(s: System) {
    forall u :: u in s.flags <==> IsOnline(s.index, u)
  }

  /** A flag write that a call has taken on and not yet performed. */
  ghost predicate Pending(s: System, w: Write) {
    exists i :: 0 <= i < |s.chores| && w in FlagWrites(s.chores[i])
  }

  /** Adding changes the sockets of one user only, and writes when they were none. */
  lemma AddIs(x: Index, user: string, socket: string)
    ensures var (y, becameOnline) := Add(x, user, socket);
            && y.socketUser == x.socketUser[socket := user]
            && (forall u :: SocketsOf(y, u) == SocketsOf(x, u) + if u == user then {socket} else {})
            && (becameOnline <==> SocketsOf(x, user) == {})
            && y.issued == x.issued + if becameOnline then [Write(user, true)] else []
  {
    assert x.issued + [] == x.issued;
  }

  /** Removing takes the socket from its owner, and writes when it was the last. */
  lemma DropIs(x: Index, socket: string)
    requires Inverse(x)
    ensures var (y, owner, becameOffline) := Drop(x, socket);
            && y.socketUser == x.socketUser - {socket}
            && owner == (if socket in x.socketUser then Some(x.socketUser[socket]) else None)
            && (forall u :: SocketsOf(y, u) == SocketsOf(x, u) - {socket})
            && (becameOffline <==> owner.Some? && SocketsOf(x, owner.value) == {socket})
            && y.issued == x.issued + if becameOffline then [Write(owner.value, false)] else []
  {
    assert x.issued + [] == x.issued;
    if socket in x.socketUser {
      assert socket in SocketsOf(x, x.socketUser[socket]);
    }
    forall u ensures socket in SocketsOf(x, u) <==> socket in x.socketUser && x.socketUser[socket] == u {
      if socket in x.socketUser {
        assert socket in SocketsOf(x, x.socketUser[socket]);
      }
    }
  }

  lemma FlagOfConnect(x: Index, user: string, socket: string)
    ensures FlagWrites(ChoresOf(x, Connect(user, socket))) == [Write(user, true)]
  {
    var raise := [SetFlag(user)];
    assert FlagWrites(raise) == [Write(user, true)] + FlagWrites(raise[1..]);
    var chores := ChoresOf(x, Connect(user, socket));
    if Add(x, user, socket).1 {
      assert chores[1..] == raise;
      assert FlagWrites(chores) == FlagWrite(SaveOnline(user)) + FlagWrites(chores[1..]);
    } else {
      assert chores == raise;
    }
  }

  lemma FlagOfDisconnect(x: Index, socket: string)
    ensures var (_, owner, becameOffline) := Drop(x, socket);
            FlagWrites(ChoresOf(x, Disconnect(socket))) == if becameOffline then [Write(owner.value, false)] else []
  {
    var (_, owner, becameOffline) := Drop(x, socket);
    if becameOffline {
      var user := owner.value;
      var chores := ChoresOf(x, Disconnect(socket));
      assert chores == [SaveOffline(user), ClearFlag(user)] && chores[1..] == [ClearFlag(user)];
      assert FlagWrites(chores) == FlagWrite(SaveOffline(user)) + FlagWrites(chores[1..]);
      assert FlagWrites([ClearFlag(user)]) == [Write(user, false)] + FlagWrites([ClearFlag(user)][1..]);
    }
  }

  lemma OnlineIffSockets(x: Index, u: string)
    ensures IsOnline(x, u) <==> SocketsOf(x, u) != {}
  {
  }

  lemma FlagWritesOf(x: Index, c: Call, u: string)
    requires Inverse(x)
    ensures var y, ws := Apply(x, c), FlagWrites(ChoresOf(x, c));
            && |ws| <= 1
            && (IsOnline(y, u) <==> if ws != [] && u == ws[0].user then ws[0].online else IsOnline(x, u))
  {
    OnlineIffSockets(x, u);
    OnlineIffSockets(Apply(x, c), u);
    match c
    case Connect(user, socket) =>
      FlagOfConnect(x, user, socket);
      AddIs(x, user, socket);
    case Disconnect(socket) =>
      FlagOfDisconnect(x, socket);
      DropIs(x, socket);
  }

  lemma PendingAfterBegin(s: System, c: Call, w: Write)
    requires CanMove(s, Begin(c))
    ensures Pending(Moved(s, Begin(c)), w) <==> Pending(s, w) || w in FlagWrites(ChoresOf(s.index, c))
  {
    var t := Moved(s, Begin(c));
    assert t.chores[|s.chores|] == ChoresOf(s.index, c);
    assert forall i :: 0 <= i < |s.chores| ==> t.chores[i] == s.chores[i];
  }

  lemma PendingAfterResume(s: System, task: nat, w: Write)
    requires CanMove(s, Resume(task))
    ensures Pending(Moved(s, Resume(task)), w) ==> Pending(s, w)
    ensures Pending(s, w) ==> Pending(Moved(s, Resume(task)), w) || w in FlagWrite(s.chores[task][0])
    ensures w in FlagWrite(s.chores[task][0]) ==> Pending(s, w)
  {
    var t := Moved(s, Resume(task));
    assert FlagWrites(s.chores[task]) == FlagWrite(s.chores[task][0]) + FlagWrites(t.chores[task]);
    assert forall i :: 0 <= i < |s.chores| && i != task ==> t.chores[i] == s.chores[i];
  }

  /** Some call has taken on a flag write for the user and not yet performed it. */
  ghost predicate Waits(s: System, u: string) {
    Pending(s, Write(u, true)) || Pending(s, Write(u, false))
  }

  /** What was written to a user's flag last; heartbeats do not count. */
  function Marked(signs: seq<Sign>, u: string): Option<bool> {
    if signs == [] then None
    else
      var e := signs[|signs| - 1];
      if e.user == u && !e.Beat? then Some(e.Raised?) else Marked(signs[..|signs| - 1], u)
  }

  /** Each flag write asked for is pending or performed. */
  ghost predicate AccountedFor(s: System, u: string) {
    && (IsOnline(s.index, u) <==> Said(s.asked, u) == Some(true))
    && (Said(s.asked, u).Some? <==> Marked(s.done, u).Some? || Waits(s, u))
  }

  /** What any schedule keeps. */
  ghost predicate Accounted(s: System) {
    Inverse(s.index) && WritesMatch(s.index) && forall u :: AccountedFor(s, u)
  }

  lemma MarkedAfter(signs: seq<Sign>, more: seq<Sign>, u: string)
    requires |more| <= 1
    ensures Marked(signs + more, u)
            == if more != [] && more[0].user == u && !more[0].Beat? then Some(more[0].Raised?) else Marked(signs, u)
  {
    if more == [] {
      assert signs + more == signs;
    } else {
      assert (signs + more)[..|signs|] == signs;
    }
  }

  lemma SaidAfter(writes: seq<Write>, more: seq<Write>, u: string)
    requires |more| <= 1
    ensures Said(writes + more, u) == if more != [] && more[0].user == u then Some(more[0].online) else Said(writes, u)
  {
    if more == [] {
      assert writes + more == writes;
    } else {
      assert more == [more[0]];
      OneMoreWrite(writes, more[0]);
    }
  }

  /** What a call that begins changes for a user. */
  lemma BeginFor(s: System, c: Call, u: string, b: bool)
    requires Accounted(s) && CanMove(s, Begin(c))
    ensures var t, ws := Moved(s, Begin(c)), FlagWrites(ChoresOf(s.index, c));
            var mine := ws != [] && ws[0].user == u;
            && Said(t.asked, u) == (if mine then Some(ws[0].online) else Said(s.asked, u))
            && (IsOnline(t.index, u) <==> if mine then ws[0].online else IsOnline(s.index, u))
            && (Pending(t, Write(u, b)) <==> Pending(s, Write(u, b)) || (mine && ws[0].online == b))
            && t.done == s.done
  {
    var ws := FlagWrites(ChoresOf(s.index, c));
    FlagWritesOf(s.index, c, u);
    SaidAfter(s.asked, ws, u);
    PendingAfterBegin(s, c, Write(u, b));
    assert Write(u, b) in ws <==> ws != [] && ws[0] == Write(u, b);
  }

  /** What a chore performed changes for a user. */
  lemma ResumeFor(s: System, task: nat, u: string, b: bool)
    requires CanMove(s, Resume(task))
    ensures var t, ws := Moved(s, Resume(task)), FlagWrite(s.chores[task][0]);
            var mine := ws != [] && ws[0].user == u;
            && Marked(t.done, u) == (if mine then Some(ws[0].online) else Marked(s.done, u))
            && (Pending(t, Write(u, b)) ==> Pending(s, Write(u, b)))
            && (Pending(s, Write(u, b)) ==> Pending(t, Write(u, b)) || (mine && ws[0].online == b))
            && (mine && ws[0].online == b ==> Pending(s, Write(u, b)))
            && t.asked == s.asked && t.index == s.index
  {
    var ws := FlagWrite(s.chores[task][0]);
    MarkedAfter(s.done, Signs(s.chores[task][0], s.now), u);
    PendingAfterResume(s, task, Write(u, b));
    assert Write(u, b) in ws <==> ws != [] && ws[0] == Write(u, b);
  }

  lemma BeginAccounted(s: System, c: Call)
    requires Accounted(s) && CanMove(s, Begin(c))
    ensures Accounted(Moved(s, Begin(c)))
  {
    CallKeepsIndex(s.index, c);
    forall u ensures AccountedFor(Moved(s, Begin(c)), u) {
      assert AccountedFor(s, u);
      BeginFor(s, c, u, true);
      BeginFor(s, c, u, false);
    }
  }

  lemma ResumeAccounted(s: System, task: nat)
    requires Accounted(s) && CanMove(s, Resume(task))
    ensures Accounted(Moved(s, Resume(task)))
  {
    forall u ensures AccountedFor(Moved(s, Resume(task)), u) {
      assert AccountedFor(s, u);
      ResumeFor(s, task, u, true);
      ResumeFor(s, task, u, false);
    }
  }

  /** Time and heartbeats leave what is asked, written and pending as it is. */
  lemma QuietMove(s: System, m: Move, u: string)
    requires m.Pass? || m.Heartbeat?
    ensures var t := Moved(s, m);
            && t.index == s.index && t.asked == s.asked && t.chores == s.chores
            && Marked(t.done, u) == Marked(s.done, u)
            && (forall w :: Pending(t, w) <==> Pending(s, w))
  {
    if m.Heartbeat? {
      MarkedAfter(s.done, [Beat(m.user, s.now)], u);
    }
  }

  lemma QuietAccounted(s: System, m: Move)
    requires Accounted(s) && (m.Pass? || m.Heartbeat?)
    ensures Accounted(Moved(s, m))
  {
    QuietMove(s, m, "");
    forall u ensures AccountedFor(Moved(s, m), u) {
      assert AccountedFor(s, u);
      QuietMove(s, m, u);
    }
  }

  lemma {:induction false} ScheduleAccounted(s: System, moves: seq<Move>)
    requires Accounted(s) && Played(s, moves).Some?
    ensures Accounted(Played(s, moves).value)
    decreases |moves|
  {
    if moves == [] {
    } else {
      match moves[0] {
        case Begin(c) => BeginAccounted(s, c);
        case Resume(task) => ResumeAccounted(s, task);
        case _ => QuietAccounted(s, moves[0]);
      }
      ScheduleAccounted(Moved(s, moves[0]), moves[1..]);
    }
  }

  lemma NobodyWaits(s: System, u: string)
    requires Idle(s)
    ensures !Waits(s, u)
  {
  }

  /** Every connect asks for the flag to be set, and a disconnect for it to be deleted exactly with the last socket. */
  lemma CallAsks(s: System, c: Call)
    requires Accounted(s) && CanMove(s, Begin(c))
    ensures match c
            case Connect(user, _) => Pending(Moved(s, Begin(c)), Write(user, true))
            case Disconnect(socket) =>
              var owner := if socket in s.index.socketUser then s.index.socketUser[socket] else "";
              ChoresOf(s.index, c) == if socket in s.index.socketUser && SocketsOf(s.index, owner) == {socket}
                                      then [SaveOffline(owner), ClearFlag(owner)] else []
  {
    match c
    case Connect(user, _) =>
      var chores := ChoresOf(s.index, c);
      assert chores == [SaveOnline(user)] + [SetFlag(user)] || chores == [] + [SetFlag(user)];
      assert FlagWrites([SetFlag(user)]) == [Write(user, true)] + FlagWrites([SetFlag(user)][1..]);
      assert Write(user, true) in FlagWrites(chores) by {
        if |chores| == 2 {
          assert chores[1..] == [SetFlag(user)];
          assert FlagWrites(chores) == FlagWrite(chores[0]) + FlagWrites(chores[1..]);
        } else {
          assert chores == [SetFlag(user)];
        }
      }
      PendingAfterBegin(s, c, Write(user, true));
    case Disconnect(socket) =>
      if socket in s.index.socketUser {
        assert socket in SocketsOf(s.index, s.index.socketUser[socket]);
      }
  }

  /** A call that writes to the database does so before it writes the flag, for the same user and to the same end. */
  ghost predicate DatabaseFirst(chores: seq<Chore>) {
    || chores == []
    || (|chores| == 1 && (chores[0].SetFlag? || chores[0].ClearFlag?))
    || (exists u :: chores == [SaveOnline(u), SetFlag(u)] || chores == [SaveOffline(u), ClearFlag(u)])
  }

  lemma {:induction false} DatabaseComesFirst(s: System, moves: seq<Move>)
    requires (forall i :: 0 <= i < |s.chores| ==> DatabaseFirst(s.chores[i])) && Played(s, moves).Some?
    ensures var t := Played(s, moves).value; forall i :: 0 <= i < |t.chores| ==> DatabaseFirst(t.chores[i])
    decreases |moves|
  {
    if moves == [] {
    } else {
      var t := Moved(s, moves[0]);
      forall i | 0 <= i < |t.chores| ensures DatabaseFirst(t.chores[i]) {
        match moves[0] {
          case Begin(c) => if i == |s.chores| { ChoresAreOrdered(s.index, c); }
          case Resume(task) => if i == task { assert DatabaseFirst(s.chores[i]); }
          case _ =>
        }
      }
      DatabaseComesFirst(t, moves[1..]);
    }
  }

  lemma ChoresAreOrdered(x: Index, c: Call)
    ensures DatabaseFirst(ChoresOf(x, c))
  {
    var chores := ChoresOf(x, c);
    if c.Connect? {
      assert chores == [SaveOnline(c.user), SetFlag(c.user)] || chores == [SetFlag(c.user)];
    }
  }

  // How long a flag lasts.

  /** When the flag runs out, if it was set and not deleted since; a heartbeat only renews a flag that is there. */
  function Until(signs: seq<Sign>, u: string): Option<nat> {
    if signs == [] then None
    else
      var e, before := signs[|signs| - 1], Until(signs[..|signs| - 1], u);
      if e.user != u then before
      else match e
           case Raised(_, at) => Some(at + FLAG_MS)
           case Lowered(_, _) => None
           case Beat(_, at) => if before.Some? && at < before.value then Some(at + FLAG_MS) else before
  }

  ghost predicate InOrder(signs: seq<Sign>, now: nat) {
    && (forall i, j :: 0 <= i < j < |signs| ==> signs[i].at <= signs[j].at)
    && (forall i :: 0 <= i < |signs| ==> signs[i].at <= now)
  }

  /** The store holds the flag until then. */
  ghost predicate FlagFollows(s: System, u: string) {
    if u in s.flags then Until(s.done, u) == Some(s.flags[u]) && s.now < s.flags[u]
    else Until(s.done, u).None? || Until(s.done, u).value <= s.now
  }

  ghost predicate FlagsFollow(s: System) {
    InOrder(s.done, s.now) && forall u :: FlagFollows(s, u)
  }

  lemma UntilAfter(signs: seq<Sign>, e: Sign, u: string)
    ensures Until(signs + [e], u)
            == if e.user != u then Until(signs, u)
               else match e
                    case Raised(_, at) => Some(at + FLAG_MS)
                    case Lowered(_, _) => None
                    case Beat(_, at) =>
                      var before := Until(signs, u);
                      if before.Some? && at < before.value then Some(at + FLAG_MS) else before
  {
    assert (signs + [e])[..|signs|] == signs;
  }

  lemma OrderKept(signs: seq<Sign>, more: seq<Sign>, now: nat)
    requires InOrder(signs, now) && |more| <= 1 && (more != [] ==> more[0].at == now)
    ensures InOrder(signs + more, now)
  {
  }

  lemma SignKeepsFlag(s: System, signs: seq<Sign>, t: System, u: string)
    requires FlagFollows(s, u) && |signs| <= 1 && t.now == s.now && t.done == s.done + signs
    requires signs != [] ==> signs[0].at == s.now
    requires if signs == [] || signs[0].user != u then
               (u in t.flags <==> u in s.flags) && (u in s.flags ==> t.flags[u] == s.flags[u])
             else match signs[0]
                  case Raised(_, _) => u in t.flags && t.flags[u] == s.now + FLAG_MS
                  case Lowered(_, _) => u !in t.flags
                  case Beat(_, _) =>
                    && (u in t.flags <==> u in s.flags)
                    && (u in s.flags ==> t.flags[u] == s.now + FLAG_MS)
    ensures FlagFollows(t, u)
  {
    if signs == [] {
      assert s.done + signs == s.done;
    } else {
      assert signs == [signs[0]];
      UntilAfter(s.done, signs[0], u);
    }
  }

  lemma MoveKeepsFlags(s: System, m: Move)
    requires FlagsFollow(s) && CanMove(s, m)
    ensures FlagsFollow(Moved(s, m))
  {
    var t := Moved(s, m);
    var signs :=
      match m
      case Resume(i) => Signs(s.chores[i][0], s.now)
      case Heartbeat(v) => [Beat(v, s.now)]
      case _ => [];
    OrderKept(s.done, signs, s.now);
    assert s.done + [] == s.done;
    forall u ensures FlagFollows(t, u) {
      assert FlagFollows(s, u);
      if !m.Pass? {
        SignKeepsFlag(s, signs, t, u);
      }
    }
  }

  lemma {:induction false} ScheduleKeepsFlags(s: System, moves: seq<Move>)
    requires FlagsFollow(s) && Played(s, moves).Some?
    ensures FlagsFollow(Played(s, moves).value)
    decreases |moves|
  {
    if moves == [] {
    } else {
      MoveKeepsFlags(s, moves[0]);
      ScheduleKeepsFlags(Moved(s, moves[0]), moves[1..]);
    }
  }

  /** The flag was set at place i and only renewed since. */
  ghost predicate RaisedLast(signs: seq<Sign>, u: string, i: nat) {
    && i < |signs| && signs[i].Raised? && signs[i].user == u
    && forall j :: i < j < |signs| && signs[j].user == u ==> signs[j].Beat?
  }

  /** Shortly before the moment there was a sign of the user, at place i or later. */
  ghost predicate Covered(signs: seq<Sign>, u: string, i: nat, t: nat) {
    exists j :: i <= j < |signs| && signs[j].user == u && signs[j].at < t < signs[j].at + 120_000
  }

  /** Since the flag was set there has been no moment without a sign of the user in the 120 seconds before it. */
  ghost predicate KeptUp(signs: seq<Sign>, u: string, now: nat) {
    exists i: nat :: RaisedLast(signs, u, i) && forall t: nat :: signs[i].at < t <= now ==> Covered(signs, u, i, t)
  }

  ghost predicate Alive(signs: seq<Sign>, u: string, now: nat) {
    Until(signs, u).Some? && now < Until(signs, u).value
  }

  lemma KeptUpSince(signs: seq<Sign>, u: string, now: nat) returns (i: nat)
    requires KeptUp(signs, u, now)
    ensures RaisedLast(signs, u, i) && forall t: nat :: signs[i].at < t <= now ==> Covered(signs, u, i, t)
  {
    i :| RaisedLast(signs, u, i) && forall t: nat :: signs[i].at < t <= now ==> Covered(signs, u, i, t);
  }

  /** A sign of somebody else changes nothing. */
  lemma OtherSign(signs: seq<Sign>, e: Sign, u: string, now: nat)
    requires e.user != u
    ensures KeptUp(signs + [e], u, now) <==> KeptUp(signs, u, now)
  {
    var more := signs + [e];
    assert more[|signs|] == e && forall j :: 0 <= j < |signs| ==> more[j] == signs[j];
    if KeptUp(signs, u, now) {
      var i := KeptUpSince(signs, u, now);
      SameCover(signs, e, u, i, now);
      assert RaisedLast(more, u, i);
    }
    if KeptUp(more, u, now) {
      var i := KeptUpSince(more, u, now);
      SameCover(signs, e, u, i, now);
      assert RaisedLast(signs, u, i);
    }
  }

  lemma SameCover(signs: seq<Sign>, e: Sign, u: string, i: nat, now: nat)
    requires e.user != u
    ensures forall t: nat :: Covered(signs + [e], u, i, t) <==> Covered(signs, u, i, t)
  {
    var more := signs + [e];
    forall t: nat ensures Covered(more, u, i, t) <==> Covered(signs, u, i, t) {
      assert forall j :: 0 <= j < |signs| ==> more[j] == signs[j];
      if Covered(more, u, i, t) {
        var j :| i <= j < |more| && more[j].user == u && more[j].at < t < more[j].at + FLAG_MS;
        assert signs[j] == more[j];
      }
      if Covered(signs, u, i, t) {
        var j :| i <= j < |signs| && signs[j].user == u && signs[j].at < t < signs[j].at + FLAG_MS;
        assert more[j] == signs[j];
      }
    }
  }

  lemma RaisedSign(signs: seq<Sign>, u: string, at: nat, now: nat)
    requires at <= now
    ensures KeptUp(signs + [Raised(u, at)], u, now) <==> now < at + FLAG_MS
  {
    var more, n := signs + [Raised(u, at)], |signs|;
    assert more[n] == Raised(u, at) && RaisedLast(more, u, n);
    if now < at + FLAG_MS {
      assert forall t: nat :: at < t <= now ==> Covered(more, u, n, t);
    }
    if KeptUp(more, u, now) {
      var i := KeptUpSince(more, u, now);
      assert i == n;
      assert at < now ==> Covered(more, u, n, now);
    }
  }

  lemma LoweredSign(signs: seq<Sign>, u: string, at: nat, now: nat)
    ensures !KeptUp(signs + [Lowered(u, at)], u, now)
  {
    var more := signs + [Lowered(u, at)];
    assert more[|signs|] == Lowered(u, at);
    if KeptUp(more, u, now) {
      var i := KeptUpSince(more, u, now);
    }
  }

  lemma BeatRenews(signs: seq<Sign>, u: string, at: nat, now: nat)
    requires InOrder(signs, at) && at <= now < at + FLAG_MS && KeptUp(signs, u, at)
    ensures KeptUp(signs + [Beat(u, at)], u, now)
  {
    var more, n := signs + [Beat(u, at)], |signs|;
    assert more[n] == Beat(u, at) && forall j :: 0 <= j < n ==> more[j] == signs[j];
    var i := KeptUpSince(signs, u, at);
    assert RaisedLast(more, u, i);
    forall t: nat | more[i].at < t <= now ensures Covered(more, u, i, t) {
      if t <= at {
        assert Covered(signs, u, i, t);
        var j :| i <= j < n && signs[j].user == u && signs[j].at < t < signs[j].at + FLAG_MS;
        assert more[j] == signs[j];
      } else {
        assert more[n].at < t < more[n].at + FLAG_MS;
      }
    }
  }

  lemma BeatNeedsFlag(signs: seq<Sign>, u: string, at: nat, now: nat)
    requires InOrder(signs, at) && at <= now && KeptUp(signs + [Beat(u, at)], u, now)
    ensures KeptUp(signs, u, at) && now < at + FLAG_MS
  {
    var more, n := signs + [Beat(u, at)], |signs|;
    assert more[n] == Beat(u, at) && forall j :: 0 <= j < n ==> more[j] == signs[j];
    var i := KeptUpSince(more, u, now);
    assert RaisedLast(signs, u, i);
    forall t: nat | signs[i].at < t <= at ensures Covered(signs, u, i, t) {
      assert Covered(more, u, i, t);
      var j :| i <= j < |more| && more[j].user == u && more[j].at < t < more[j].at + FLAG_MS;
      assert j < n && signs[j] == more[j];
    }
    if signs[i].at < now {
      assert Covered(more, u, i, now);
      var j :| i <= j < |more| && more[j].user == u && more[j].at < now < more[j].at + FLAG_MS;
      assert more[j].at <= at;
    }
  }

  /** A heartbeat keeps a flag up that was up till then, and no other. */
  lemma BeatSign(signs: seq<Sign>, u: string, at: nat, now: nat)
    requires InOrder(signs, at) && at <= now
    ensures KeptUp(signs + [Beat(u, at)], u, now) <==> KeptUp(signs, u, at) && now < at + FLAG_MS
  {
    if KeptUp(signs, u, at) && now < at + FLAG_MS {
      BeatRenews(signs, u, at, now);
    }
    if KeptUp(signs + [Beat(u, at)], u, now) {
      BeatNeedsFlag(signs, u, at, now);
    }
  }

  /** A flag is there exactly while it has been kept up. */
  lemma {:induction false} AliveIffKeptUp(signs: seq<Sign>, u: string, now: nat)
    requires InOrder(signs, now)
    ensures Alive(signs, u, now) <==> KeptUp(signs, u, now)
  {
    if signs == [] {
    } else {
      var n := |signs| - 1;
      var front, e := signs[..n], signs[n];
      assert signs == front + [e];
      UntilAfter(front, e, u);
      if e.user != u {
        AliveIffKeptUp(front, u, now);
        OtherSign(front, e, u, now);
      } else {
        match e {
          case Raised(_, at) => RaisedSign(front, u, at, now);
          case Lowered(_, at) => LoweredSign(front, u, at, now);
          case Beat(_, at) =>
            AliveIffKeptUp(front, u, at);
            BeatSign(front, u, at, now);
        }
      }
    }
  }

  /** In every state of every schedule a user's flag is in the store exactly when it has been kept up. */
  lemma FlagThereIff(moves: seq<Move>, u: string)
    requires Played(Start, moves).Some?
    ensures var s := Played(Start, moves).value; u in s.flags <==> KeptUp(s.done, u, s.now)
  {
    var s := Played(Start, moves).value;
    assert forall v :: FlagFollows(Start, v);
    ScheduleKeepsFlags(Start, moves);
    assert FlagFollows(s, u);
    AliveIffKeptUp(s.done, u, s.now);
  }

  lemma {:induction false} KeptUpIsMarked(signs: seq<Sign>, u: string, i: nat)
    requires RaisedLast(signs, u, i)
    ensures Marked(signs, u) == Some(true)
  {
    var n := |signs| - 1;
    if i == n {
    } else {
      assert signs[..n][i] == signs[i];
      KeptUpIsMarked(signs[..n], u, i);
    }
  }

  /** The flag of the user ran out: it was the last thing written, but it was not kept up. */
  ghost predicate RanOut(s: System, u: string) {
    Marked(s.done, u) == Some(true) && !KeptUp(s.done, u, s.now)
  }

  lemma FlagAfterAll(moves: seq<Move>, u: string)
    requires Played(Start, moves).Some? && Idle(Played(Start, moves).value)
    ensures var s := Played(Start, moves).value;
            && (u in s.flags <==> Marked(s.done, u) == Some(true) && KeptUp(s.done, u, s.now))
            && (IsOnline(s.index, u) <==> Said(s.asked, u) == Some(true))
            && (Marked(s.done, u) == Said(s.asked, u)
                <==> (Marked(s.done, u) == Some(true) <==> IsOnline(s.index, u)))
  {
    var s := Played(Start, moves).value;
    StartAccounted();
    ScheduleAccounted(Start, moves);
    assert AccountedFor(s, u);
    NobodyWaits(s, u);
    SameAnswer(Marked(s.done, u), Said(s.asked, u));
    FlagThereIff(moves, u);
    if KeptUp(s.done, u, s.now) {
      var i := KeptUpSince(s.done, u, s.now);
      KeptUpIsMarked(s.done, u, i);
    }
  }

  /**
   However calls overlap, once all are done the flags agree with the maps exactly when for every user the
   flag write performed last is the one the last call asked for, or the flag ran out and the user is offline.
   */
  lemma FlagsMatchIff(moves: seq<Move>)
    requires Played(Start, moves).Some? && Idle(Played(Start, moves).value)
    ensures var s := Played(Start, moves).value;
            FlagsMatch(s)
            <==> forall u :: if RanOut(s, u) then !IsOnline(s.index, u) else Marked(s.done, u) == Said(s.asked, u)
  {
    var s := Played(Start, moves).value;
    forall u ensures (u in s.flags <==> IsOnline(s.index, u))
                     <==> if RanOut(s, u) then !IsOnline(s.index, u) else Marked(s.done, u) == Said(s.asked, u) {
      FlagAfterAll(moves, u);
    }
    if FlagsMatch(s) {
      forall u ensures if RanOut(s, u) then !IsOnline(s.index, u) else Marked(s.done, u) == Said(s.asked, u) {
        assert u in s.flags <==> IsOnline(s.index, u);
      }
    } else {
      var u :| !(u in s.flags <==> IsOnline(s.index, u));
      assert !(if RanOut(s, u) then !IsOnline(s.index, u) else Marked(s.done, u) == Said(s.asked, u));
    }
  }

  lemma SameAnswer(a: Option<bool>, b: Option<bool>)
    requires a.Some? <==> b.Some?
    ensures a == b <==> (a == Some(true) <==> b == Some(true))
  {
    if a.Some? {
      var x, y := a.value, b.value;
      assert a == Some(x) && b == Some(y);
    }
  }

  lemma StartAccounted()
    ensures Accounted(Start)
  {
    assert forall u :: AccountedFor(Start, u);
  }

  // Schedules in which no two calls of one user are on their way together.

  /** A call that begins has nothing to do with users that calls on their way still write for. */
  ghost predicate Apart(s: System, m: Move) {
    m.Begin? ==> forall w :: w in FlagWrites(ChoresOf(s.index, m.call)) ==> !Waits(s, w.user)
  }

  ghost predicate OneCallPerUser(s: System, moves: seq<Move>)
    decreases |moves|
  {
    moves == [] ||
    (CanMove(s, moves[0]) && Apart(s, moves[0]) && OneCallPerUser(Moved(s, moves[0]), moves[1..]))
  }

  /** What is pending is what was asked for last; where nothing is pending, that has been performed. */
  ghost predicate InStepFor(s: System, u: string) {
    && (Pending(s, Write(u, true)) ==> Said(s.asked, u) == Some(true))
    && (Pending(s, Write(u, false)) ==> Said(s.asked, u) == Some(false))
    && (!Waits(s, u) ==> Marked(s.done, u) == Said(s.asked, u))
  }

  ghost predicate InStep(s: System) {
    forall u :: InStepFor(s, u)
  }

  lemma BeginInStep(s: System, c: Call)
    requires Accounted(s) && InStep(s) && CanMove(s, Begin(c)) && Apart(s, Begin(c))
    ensures InStep(Moved(s, Begin(c)))
  {
    var ws := FlagWrites(ChoresOf(s.index, c));
    assert ws != [] ==> ws[0] in ws && !Waits(s, ws[0].user);
    forall u ensures InStepFor(Moved(s, Begin(c)), u) {
      assert InStepFor(s, u);
      BeginFor(s, c, u, true);
      BeginFor(s, c, u, false);
    }
  }

  lemma ResumeInStep(s: System, task: nat)
    requires InStep(s) && CanMove(s, Resume(task))
    ensures InStep(Moved(s, Resume(task)))
  {
    forall u ensures InStepFor(Moved(s, Resume(task)), u) {
      assert InStepFor(s, u);
      ResumeFor(s, task, u, true);
      ResumeFor(s, task, u, false);
    }
  }

  lemma QuietInStep(s: System, m: Move)
    requires InStep(s) && (m.Pass? || m.Heartbeat?)
    ensures InStep(Moved(s, m))
  {
    forall u ensures InStepFor(Moved(s, m), u) {
      assert InStepFor(s, u);
      QuietMove(s, m, u);
    }
  }

  lemma {:induction false} ScheduleInStep(s: System, moves: seq<Move>)
    requires Accounted(s) && InStep(s) && OneCallPerUser(s, moves)
    ensures Played(s, moves).Some? && InStep(Played(s, moves).value) && Accounted(Played(s, moves).value)
    decreases |moves|
  {
    if moves == [] {
    } else {
      match moves[0] {
        case Begin(c) => BeginInStep(s, c); BeginAccounted(s, c);
        case Resume(task) => ResumeInStep(s, task); ResumeAccounted(s, task);
        case _ => QuietInStep(s, moves[0]); QuietAccounted(s, moves[0]);
      }
      ScheduleInStep(Moved(s, moves[0]), moves[1..]);
    }
  }

  /**
   In schedules in which no two calls of one user are on their way together, once all are done a user's flag
   is there exactly when the user is connected and the flag has been kept up.
   */
  lemma SeparateCallsKeepFlags(moves: seq<Move>, u: string)
    requires OneCallPerUser(Start, moves)
    ensures Played(Start, moves).Some?
    ensures var s := Played(Start, moves).value;
            Idle(s) ==> (u in s.flags <==> IsOnline(s.index, u) && KeptUp(s.done, u, s.now))
  {
    StartAccounted();
    assert forall v :: InStepFor(Start, v);
    ScheduleInStep(Start, moves);
    var s := Played(Start, moves).value;
    if Idle(s) {
      FlagAfterAll(moves, u);
      NobodyWaits(s, u);
      assert InStepFor(s, u);
    }
  }

  /**
   Overlapping calls can leave a flag behind: a connect and the disconnect of the same socket both
   finish their database writes, then the flag is cleared before it is set. All is done, the user is
   offline, the database agrees, and the flag says online until it expires.
   */
  lemma OverlappingCallsLeaveStaleFlag(user: string, socket: string) returns (moves: seq<Move>, s: System)
    ensures moves == [Begin(Connect(user, socket)), Resume(0), Begin(Disconnect(socket)), Resume(1), Resume(1),
                      Resume(0)]
    ensures Played(Start, moves) == Some(s)
    ensures Idle(s) && !IsOnline(s.index, user) && user in s.flags
  {
    moves := [Begin(Connect(user, socket)), Resume(0), Begin(Disconnect(socket)), Resume(1), Resume(1), Resume(0)];
    var s1 := Moved(Start, moves[0]);
    assert [SaveOnline(user)] + [SetFlag(user)] == [SaveOnline(user), SetFlag(user)];
    assert s1.chores == [[SaveOnline(user), SetFlag(user)]];
    assert [SaveOnline(user), SetFlag(user)][1..] == [SetFlag(user)];
    var s2 := Moved(s1, moves[1]);
    assert s2.chores == [[SetFlag(user)]];
    var s3 := Moved(s2, moves[2]);
    assert s3.chores == [[SetFlag(user)], [SaveOffline(user), ClearFlag(user)]];
    s := ClearedBeforeSet(s3, user);
    assert moves[1..][1..] == moves[2..] && moves[2..][1..] == moves[3..] == [Resume(1), Resume(1), Resume(0)];
    assert Played(s2, moves[2..]) == Some(s);
    assert Played(s1, moves[1..]) == Some(s);
  }

  lemma ClearedBeforeSet(s3: System, user: string) returns (s: System)
    requires s3.chores == [[SetFlag(user)], [SaveOffline(user), ClearFlag(user)]]
    ensures Played(s3, [Resume(1), Resume(1), Resume(0)]) == Some(s)
    ensures Idle(s) && s.index == s3.index && user in s.flags
  {
    var moves := [Resume(1), Resume(1), Resume(0)];
    assert [SaveOffline(user), ClearFlag(user)][1..] == [ClearFlag(user)];
    assert [ClearFlag(user)][1..] == [] && [SetFlag(user)][1..] == [];
    var s4 := Moved(s3, moves[0]);
    assert s4.chores == [[SetFlag(user)], [ClearFlag(user)]];
    var s5 := Moved(s4, moves[1]);
    assert s5.chores == [[SetFlag(user)], []];
    s := Moved(s5, moves[2]);
    assert s.chores == [[], []];
    assert moves[2..][1..] == [] && moves[1..][1..] == moves[2..];
    assert Played(s5, moves[2..]) == Played(s, []) == Some(s);
    assert Played(s4, moves[1..]) == Some(s);
  }

  lemma OwnersAreOnline(x: Index, u: string)
    requires Inverse(x)
    ensures IsOnline(x, u) <==> u in x.socketUser.Values
  {
    if IsOnline(x, u) {
      var s :| s in x.userSockets[u];
      assert s in x.socketUser && x.socketUser[s] == u;
    }
    if u in x.socketUser.Values {
      var s :| s in x.socketUser && x.socketUser[s] == u;
      assert s in SocketsOf(x, x.socketUser[s]);
    }
  }

  /** The users that are in a set, in their order and as often as they are named. */
  function Among(users: seq<string>, chosen: set<string>): seq<string> {
    if users == [] then []
    else
      var n := |users| - 1;
      Among(users[..n], chosen) + if users[n] in chosen then [users[n]] else []
  }

  /** The service itself; `issued` is the list of database writes it has started. */
  class SocketStateService {
    var userSockets: map<string, set<string>>
    var socketUser: map<string, string>
    ghost var issued: seq<Write>

    ghost function State(): Index
      reads this
    {
      Index(userSockets, socketUser, issued)
    }

    ghost predicate Valid()
      reads this
    {
      Inverse(State()) && WritesMatch(State())
    }

    constructor ()
      ensures Valid() && State() == Empty
    {
      userSockets, socketUser, issued := map[], map[], [];
    }

    /** The part of `addSocket` before its first await. */
    method AddSocket(userId: string, socketId: string) returns (becameOnline: bool)
      requires Valid()
      modifies this
      ensures (State(), becameOnline) == Add(old(State()), userId, socketId)
      ensures Valid() <==> old(Free(State(), userId, socketId))
      ensures becameOnline == !old(IsOnline(State(), userId))
      ensures socketUser == old(socketUser)[socketId := userId]
      ensures forall u :: SocketsOf(State(), u) == old(SocketsOf(State(), u)) + if u == userId then {socketId} else {}
      ensures issued == old(issued) + if becameOnline then [Write(userId, true)] else []
    {
      ghost var before := State();
      ghost var next := Add(before, userId, socketId).0;
      var socketsBefore := if userId in userSockets then |userSockets[userId]| else 0;
      becameOnline := socketsBefore == 0;
      if userId !in userSockets {
        userSockets := userSockets[userId := {}];
      }
      userSockets := userSockets[userId := userSockets[userId] + {socketId}];
      socketUser := socketUser[socketId := userId];
      if becameOnline {
        issued := issued + [Write(userId, true)];
      }
      assert State() == next by {
        assert userSockets == next.userSockets;
      }
      AddIs(before, userId, socketId);
      AddKeepsInverseIff(before, userId, socketId);
      AddKeepsWrites(before, userId, socketId);
    }

    /** The part of `removeSocket` before its first await. */
    method RemoveSocket(socketId: string) returns (userId: Option<string>, becameOffline: bool)
      requires Valid()
      modifies this
      ensures Valid() && (State(), userId, becameOffline) == Drop(old(State()), socketId)
      ensures socketUser == old(socketUser) - {socketId}
      ensures userId == if socketId in old(socketUser) then Some(old(socketUser)[socketId]) else None
      ensures forall u :: SocketsOf(State(), u) == old(SocketsOf(State(), u)) - {socketId}
      ensures becameOffline <==> userId.Some? && old(SocketsOf(State(), userId.value)) == {socketId}
      ensures issued == old(issued) + if becameOffline then [Write(userId.value, false)] else []
    {
      ghost var before := State();
      userId, becameOffline := None, false;
      if socketId in socketUser {
        var user := socketUser[socketId];
        userId := Some(user);
        socketUser := socketUser - {socketId};
        if user in userSockets {
          var sockets := userSockets[user] - {socketId};
          userSockets := userSockets[user := sockets];
          if |sockets| == 0 {
            becameOffline := true;
            userSockets := userSockets - {user};
            issued := issued + [Write(user, false)];
          }
        }
      }
      assert (State(), userId, becameOffline) == Drop(before, socketId) by {
        assert userSockets == Drop(before, socketId).0.userSockets;
      }
      DropKeepsInverse(before, socketId);
      DropKeepsWrites(before, socketId);
      DropIs(before, socketId);
    }

    method FilterOnlineUsers(userIds: seq<string>) returns (online: seq<string>)
      requires Valid()
      ensures online == Among(userIds, socketUser.Values)
    {
      forall u ensures IsOnline(State(), u) <==> u in socketUser.Values {
        OwnersAreOnline(State(), u);
      }
      online := [];
      for i := 0 to |userIds|
        invariant online == Among(userIds[..i], socketUser.Values)
      {
        assert userIds[..i + 1][..i] == userIds[..i];
        if userIds[i] in userSockets && |userSockets[userIds[i]]| > 0 {
          online := online + [userIds[i]];
        }
      }
      assert userIds[..|userIds|] == userIds;
    }

    method GetStats() returns (onlineUsers: nat, totalSockets: nat)
      requires Valid()
      ensures totalSockets == TotalSize(userSockets)
      ensures onlineUsers == |set u | u in userSockets && IsOnline(State(), u)|
    {
      SocketsAddUp(State());
      assert userSockets.Keys == set u | u in userSockets && IsOnline(State(), u);
      onlineUsers := |userSockets|;
      totalSockets := |socketUser|;
    }
  }
}
