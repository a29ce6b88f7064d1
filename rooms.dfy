/** The session-room registry (`docSessions`) and the fanout of `EditorServer`:
    join, leave, `broadcast`, `broadcastSystemMessage`, direct sends and the roster. */
module Rooms {
  import opened Wire

  /** One connection as the endpoint sees it: whether it is open, and the user
      properties `docId`, `userId` and `username` (absent until `onOpen` stores them). */
  datatype SessionInfo = SessionInfo(open: bool, docId: Option<DocId>, userId: Option<UserId>, username: Option<string>)

  /** `docSessions`: per document id, its members in insertion order. */
  type Registry = map<DocId, seq<SessionId>>

  type Sessions = map<SessionId, SessionInfo>

  /** Every room that exists has a member, and no session is in a room twice. */
  ghost predicate WellFormed(rooms: Registry) {
    forall d | d in rooms :: rooms[d] != [] && NoRepeats(rooms[d])
  }

  /** The members of the room of `d`; none when it has no room. */
  function Members(rooms: Registry, d: DocId): seq<SessionId> {
    if d in rooms then rooms[d] else []
  }

  /** `docSessions.computeIfAbsent(d, ...).add(s)`: a set add keeps the room unchanged
      when `s` is already in it. */
  function Join(rooms: Registry, d: DocId, s: SessionId): (r: Registry)
    ensures r.Keys == rooms.Keys + {d}
    ensures forall x :: x in r[d] <==> x in Members(rooms, d) || x == s
    ensures |Members(rooms, d)| <= |r[d]| && Members(rooms, d) == r[d][..|Members(rooms, d)|]
    ensures forall e | e in rooms && e != d :: r[e] == rooms[e]
  {
    var room := Members(rooms, d);
    rooms[d := if s in room then room else room + [s]]
  }

  /** `sessions.remove(s)` on one room. */
  function Remove(room: seq<SessionId>, s: SessionId): (r: seq<SessionId>)
    ensures multiset(r) == multiset(room)[s := 0]
    ensures forall x :: x in r <==> x in room && x != s
  {
    if room == [] then []
    else
      var rest := Remove(room[1..], s);
      assert room == [room[0]] + room[1..];
      if room[0] == s then rest else [room[0]] + rest
  }

  /** Removal works element by element: it distributes over concatenation, so the members
      that remain keep their order. */
  lemma {:induction false} RemoveConcat(a: seq<SessionId>, b: seq<SessionId>, s: SessionId)
    ensures Remove(a + b, s) == Remove(a, s) + Remove(b, s)
    decreases |a|
  {
    if a != [] {
      assert (a + b)[1..] == a[1..] + b;
      RemoveConcat(a[1..], b, s);
    } else {
      assert a + b == b;
    }
  }

  /** The registry part of `onClose`: `s` leaves the room of `d`, and the room's entry is
      removed once it is empty. Without a room nothing changes. */
  function Leave(rooms: Registry, d: DocId, s: SessionId): (r: Registry)
    ensures d !in rooms ==> r == rooms
    ensures r.Keys <= rooms.Keys
    ensures forall e | e in rooms && e != d :: e in r && r[e] == rooms[e]
    ensures forall x :: x in Members(r, d) <==> x in Members(rooms, d) && x != s
    ensures d in rooms ==> (d in r <==> Remove(rooms[d], s) != [])
  {
    if d !in rooms then rooms
    else
      var rest := Remove(rooms[d], s);
      if rest == [] then rooms - {d} else rooms[d := rest]
  }

  /** After a leave the room of `d` holds exactly the others, in their order. */
  lemma MembersAfterLeave(rooms: Registry, d: DocId, s: SessionId)
    requires d in rooms
    ensures Members(Leave(rooms, d, s), d) == Remove(rooms[d], s)
  {
  }

  /** A join keeps the registry well formed. */
  lemma JoinWellFormed(rooms: Registry, d: DocId, s: SessionId)
    requires WellFormed(rooms)
    ensures WellFormed(Join(rooms, d, s))
  {
    var room := Members(rooms, d);
    if s !in room {
      var r := room + [s];
      forall x | x in r ensures multiset(r)[x] == 1 {
        assert multiset(r) == multiset(room) + multiset{s};
        if x != s { assert x in room; }
      }
    }
  }

  /** A leave keeps the registry well formed: in particular no empty room survives. */
  lemma LeaveWellFormed(rooms: Registry, d: DocId, s: SessionId)
    requires WellFormed(rooms)
    ensures WellFormed(Leave(rooms, d, s))
  {
    if d in rooms {
      var rest := Remove(rooms[d], s);
      forall x | x in rest ensures multiset(rest)[x] == 1 {
        assert x in rooms[d];
      }
    }
  }

  /** Leaving a room one is not in, or a document without a room, is a no-op. */
  lemma LeaveNonMember(rooms: Registry, d: DocId, s: SessionId)
    requires WellFormed(rooms)
    requires s !in Members(rooms, d)
    ensures Leave(rooms, d, s) == rooms
  {
    if d in rooms {
      var room := rooms[d];
      var rest := Remove(room, s);
      assert multiset(rest) == multiset(room);
      RemoveAbsent(room, s);
      assert rest == room;
    }
  }

  /** Removing an element that is absent returns the room unchanged. */
  lemma {:induction false} RemoveAbsent(room: seq<SessionId>, s: SessionId)
    requires s !in room
    ensures Remove(room, s) == room
  {
    if room != [] {
      RemoveAbsent(room[1..], s);
      assert room == [room[0]] + room[1..];
    }
  }

  /** Leaving twice is the same as leaving once. */
  lemma LeaveIdempotent(rooms: Registry, d: DocId, s: SessionId)
    requires WellFormed(rooms)
    ensures Leave(Leave(rooms, d, s), d, s) == Leave(rooms, d, s)
  {
    LeaveWellFormed(rooms, d, s);
    LeaveNonMember(Leave(rooms, d, s), d, s);
  }

  predicate IsOpen(sessions: Sessions, s: SessionId) {
    s in sessions && sessions[s].open
  }

  /** Member `s` receives a `broadcast` from `sender`: it is not the sender, it is open
      and its send does not fail. */
  predicate Receives(sessions: Sessions, failed: set<SessionId>, sender: SessionId, s: SessionId) {
    s != sender && IsOpen(sessions, s) && s !in failed
  }

  /** The sends of `broadcast(msg, sender)` over `room`, in room order. A send that
      fails is caught inside the loop, so it only costs its own recipient. */
  function Fanout(room: seq<SessionId>, sessions: Sessions, failed: set<SessionId>, sender: SessionId, msg: Msg): seq<Delivery> {
    if room == [] then []
    else
      (if Receives(sessions, failed, sender, room[0]) then [Delivery(room[0], msg)] else [])
      + Fanout(room[1..], sessions, failed, sender, msg)
  }

  /** Each member other than the sender that is open and whose send succeeds receives
      `msg` as often as it occurs in the room, and nobody else receives anything. */
  lemma {:induction false} FanoutCount(room: seq<SessionId>, sessions: Sessions, failed: set<SessionId>, sender: SessionId, msg: Msg, x: SessionId, m: Msg)
    ensures multiset(Fanout(room, sessions, failed, sender, msg))[Delivery(x, m)]
         == if m == msg && Receives(sessions, failed, sender, x) then multiset(room)[x] else 0
  {
    if room != [] {
      FanoutCount(room[1..], sessions, failed, sender, msg, x, m);
      assert room == [room[0]] + room[1..];
    }
  }

  /** In a well-formed room, `broadcast` reaches exactly the open members other than the
      sender whose sends succeed, each exactly once; the sender never gets its own message. */
  lemma FanoutExactlyOnce(room: seq<SessionId>, sessions: Sessions, failed: set<SessionId>, sender: SessionId, msg: Msg, x: SessionId)
    requires NoRepeats(room)
    ensures multiset(Fanout(room, sessions, failed, sender, msg))[Delivery(x, msg)]
         == if x in room && Receives(sessions, failed, sender, x) then 1 else 0
    ensures forall m :: Delivery(sender, m) !in Fanout(room, sessions, failed, sender, msg)
  {
    FanoutCount(room, sessions, failed, sender, msg, x, msg);
    forall m ensures Delivery(sender, m) !in Fanout(room, sessions, failed, sender, msg) {
      FanoutCount(room, sessions, failed, sender, msg, sender, m);
    }
  }

  /** The sends of `broadcastSystemMessage` over `room`: every open member, with no
      exclusion. The try block encloses the whole loop, so the first failing send ends it. */
  function SystemFanout(room: seq<SessionId>, sessions: Sessions, failed: set<SessionId>, msg: Msg): seq<Delivery> {
    if room == [] then []
    else if !IsOpen(sessions, room[0]) then SystemFanout(room[1..], sessions, failed, msg)
    else if room[0] in failed then []
    else [Delivery(room[0], msg)] + SystemFanout(room[1..], sessions, failed, msg)
  }

  /** With no failing send, every open member receives `msg` as often as it occurs in the
      room, without exclusion, and nobody else receives anything. */
  lemma {:induction false} SystemFanoutCount(room: seq<SessionId>, sessions: Sessions, failed: set<SessionId>, msg: Msg, x: SessionId, m: Msg)
    requires forall k :: 0 <= k < |room| && IsOpen(sessions, room[k]) ==> room[k] !in failed
    ensures multiset(SystemFanout(room, sessions, failed, msg))[Delivery(x, m)]
         == if m == msg && IsOpen(sessions, x) then multiset(room)[x] else 0
  {
    if room != [] {
      SystemFanoutCount(room[1..], sessions, failed, msg, x, m);
      assert room == [room[0]] + room[1..];
    }
  }

  /** An open member whose send fails ends the loop: nothing after it in the room is
      sent, only what came before it. */
  lemma {:induction false} SystemFanoutAborts(room: seq<SessionId>, sessions: Sessions, failed: set<SessionId>, msg: Msg, k: nat)
    requires k < |room| && IsOpen(sessions, room[k]) && room[k] in failed
    ensures SystemFanout(room, sessions, failed, msg) == SystemFanout(room[..k], sessions, failed, msg)
  {
    if k > 0 {
      SystemFanoutAborts(room[1..], sessions, failed, msg, k - 1);
      assert room[1..][..k - 1] == room[..k][1..];
    }
  }

  /** Everything `broadcastSystemMessage` sends goes to an open member. */
  lemma {:induction false} SystemFanoutOnlyOpenMembers(room: seq<SessionId>, sessions: Sessions, failed: set<SessionId>, msg: Msg, dl: Delivery)
    requires dl in SystemFanout(room, sessions, failed, msg)
    ensures dl.to in room && IsOpen(sessions, dl.to) && dl.to !in failed && dl.msg == msg
  {
    if dl !in SystemFanout(room[1..], sessions, failed, msg) {
      assert dl == Delivery(room[0], msg);
    } else {
      SystemFanoutOnlyOpenMembers(room[1..], sessions, failed, msg, dl);
    }
  }

  /** `session.getBasicRemote().sendText(...)` to one session: nothing arrives when the
      session is closed or the send fails. */
  function Direct(sessions: Sessions, failed: set<SessionId>, s: SessionId, msg: Msg): (r: seq<Delivery>)
    ensures |r| <= 1
    ensures forall dl | dl in r :: dl == Delivery(s, msg)
    ensures r != [] <==> IsOpen(sessions, s) && s !in failed
  {
    if IsOpen(sessions, s) && s !in failed then [Delivery(s, msg)] else []
  }

  function UsernameOf(sessions: Sessions, s: SessionId): Option<string> {
    if s in sessions then sessions[s].username else None
  }

  /** The user properties `username` of the members, nulls filtered out. */
  function Usernames(room: seq<SessionId>, sessions: Sessions): (r: seq<string>)
    ensures forall k | 0 <= k < |room| && UsernameOf(sessions, room[k]).Some? :: UsernameOf(sessions, room[k]).value in r
    ensures forall n | n in r :: exists k :: 0 <= k < |room| && UsernameOf(sessions, room[k]) == Some(n)
  {
    if room == [] then []
    else
      var rest := Usernames(room[1..], sessions);
      assert forall n | n in rest :: exists k :: 1 <= k < |room| && UsernameOf(sessions, room[k]) == Some(n) by {
        forall n | n in rest ensures exists k :: 1 <= k < |room| && UsernameOf(sessions, room[k]) == Some(n) {
          var j :| 0 <= j < |room[1..]| && UsernameOf(sessions, room[1..][j]) == Some(n);
          assert room[j + 1] == room[1..][j];
        }
      }
      var head := UsernameOf(sessions, room[0]);
      (if head.Some? then [head.value] else []) + rest
  }

  /** Java's `Stream.distinct`: the first occurrence of each element, in order. */
  function Distinct(xs: seq<string>): (r: seq<string>)
    ensures NoRepeats(r)
    ensures forall x :: x in r <==> x in xs
  {
    if xs == [] then []
    else
      var init := xs[..|xs| - 1];
      var last := xs[|xs| - 1];
      assert xs == init + [last];
      var p := Distinct(init);
      if last in init then p
      else
        var r := p + [last];
        assert forall x | x in r :: multiset(r)[x] == 1 by {
          forall x | x in r ensures multiset(r)[x] == 1 {
            assert multiset(r) == multiset(p) + multiset{last};
            if x != last { assert x in p; }
          }
        }
        r
  }

  /** The roster sent with USER_LIST: the distinct display names of the members. */
  function Roster(room: seq<SessionId>, sessions: Sessions): seq<string> {
    Distinct(Usernames(room, sessions))
  }

  /** The roster lists each member's display name once, and nothing else. */
  lemma RosterNames(room: seq<SessionId>, sessions: Sessions, n: string)
    ensures NoRepeats(Roster(room, sessions))
    ensures n in Roster(room, sessions) <==> exists k :: 0 <= k < |room| && UsernameOf(sessions, room[k]) == Some(n)
  {
    if exists k :: 0 <= k < |room| && UsernameOf(sessions, room[k]) == Some(n) {
      var k :| 0 <= k < |room| && UsernameOf(sessions, room[k]) == Some(n);
      assert n in Usernames(room, sessions);
    }
  }
}
