/** The shared state of the server as one object and its handlers as atomic steps: the
    WebSocket endpoint `EditorServer` (open, message, close, the two broadcasts), the
    flush of `DocumentSyncTask`, and the state-changing rules of `DocumentServiceImpl`.
    Sends are recorded in `outbox`, server-initiated closes in `closes`. */
module Server {
  import opened Wire
  import opened Query
  import opened Rooms
  import opened Documents
  import opened Gate
  import opened Flush

  function JoinMsg(name: string): Msg {
    Msg(USER_JOIN, Some(name), NoData)
  }

  function LeaveMsg(name: string): Msg {
    Msg(USER_LEAVE, Some(name), NoData)
  }

  function ListMsg(names: seq<string>): Msg {
    Msg(USER_LIST, Some(SENDER_SERVER), NameList(names))
  }

  function SyncMsg(content: string): Msg {
    Msg(SYNC, Some(SENDER_SERVER), Text(content))
  }

  const PONG_MSG: Msg := Msg(PONG, Some(SENDER_SERVER), Text("pong"))

  const DELETED_TEXT: string := "Document deleted"

  /** The name announced in USER_JOIN: the display name, or the anonymous name. */
  function JoinName(adm: Admission): string {
    if adm.Admitted? then adm.username else ANONYMOUS
  }

  /** The user properties stored for an admitted connection; one without permission has
      already been closed. Anonymous connections store no user id and no name. */
  function OpenedSession(adm: Admission, d: DocId): SessionInfo {
    if adm.Admitted? then SessionInfo(adm.permitted, Some(d), Some(adm.userId), Some(adm.username))
    else SessionInfo(true, Some(d), None, None)
  }

  /** The close of the no-permission branch, which does not return. */
  function PermissionCloses(sid: SessionId, adm: Admission): seq<CloseEvent> {
    if adm.Admitted? && !adm.permitted then [CloseEvent(sid, ViolatedPolicy, DocumentNoPermissionReason)] else []
  }

  /** Rooms are well formed and hold known sessions whose `docId` names the room. */
  ghost predicate RoomsTracked(rooms: Registry, sessions: Sessions) {
    WellFormed(rooms) && MembersKnown(rooms, sessions)
  }

  /** Every member of a room is a known connection whose `docId` names that room. */
  ghost predicate MembersKnown(rooms: Registry, sessions: Sessions) {
    forall d, s | d in rooms && s in rooms[d] :: s in sessions && sessions[s].docId == Some(d)
  }

  /** A dirty id is cached, a cached id is a document, and cache authority holds. */
  ghost predicate CacheCovered(cache: map<DocId, string>, dirty: set<DocId>, docs: DocTable) {
    dirty <= cache.Keys && cache.Keys <= docs.Keys && CleanAgrees(docs, cache, dirty)
  }

  /** An open connection's document exists. */
  ghost predicate SessionsOnDocuments(sessions: Sessions, docs: DocTable) {
    forall s | s in sessions && sessions[s].open && sessions[s].docId.Some? :: sessions[s].docId.value in docs
  }

  /** A new connection is in no room, so any user properties may be stored for it. */
  lemma TrackNewcomer(rooms: Registry, sessions: Sessions, sid: SessionId, info: SessionInfo)
    requires RoomsTracked(rooms, sessions) && sid !in sessions
    ensures RoomsTracked(rooms, sessions[sid := info])
  {
  }

  /** Storing the properties of a connection that is closed or on a document keeps
      open connections on documents. */
  lemma SessionOnDocument(sessions: Sessions, docs: DocTable, sid: SessionId, info: SessionInfo)
    requires SessionsOnDocuments(sessions, docs)
    requires info.open && info.docId.Some? ==> info.docId.value in docs
    ensures SessionsOnDocuments(sessions[sid := info], docs)
  {
  }

  /** Seeding the cache with the durable text of a found document keeps cache authority. */
  lemma SeedKeepsCovered(cache: map<DocId, string>, dirty: set<DocId>, docs: DocTable, d: DocId)
    requires CacheCovered(cache, dirty, docs)
    requires d !in cache && d in docs && Enabled(docs[d])
    ensures CacheCovered(cache[d := ContentText(docs[d])], dirty, docs)
  {
  }

  /** Changing a connection's open flag keeps the registry tracked. */
  lemma TrackClosing(rooms: Registry, sessions: Sessions, sid: SessionId)
    requires RoomsTracked(rooms, sessions) && sid in sessions
    ensures RoomsTracked(rooms, sessions[sid := sessions[sid].(open := false)])
  {
  }

  /** A connection whose `docId` is `d` may join the room of `d`. */
  lemma TrackJoin(rooms: Registry, sessions: Sessions, d: DocId, sid: SessionId)
    requires RoomsTracked(rooms, sessions)
    requires sid in sessions && sessions[sid].docId == Some(d)
    ensures RoomsTracked(Join(rooms, d, sid), sessions)
  {
    JoinWellFormed(rooms, d, sid);
    JoinKeepsMembersKnown(rooms, sessions, d, sid);
  }

  lemma JoinKeepsMembersKnown(rooms: Registry, sessions: Sessions, d: DocId, sid: SessionId)
    requires MembersKnown(rooms, sessions)
    requires sid in sessions && sessions[sid].docId == Some(d)
    ensures MembersKnown(Join(rooms, d, sid), sessions)
  {
    var room := Members(rooms, d);
    var r := rooms[d := if sid in room then room else room + [sid]];
    assert r == Join(rooms, d, sid);
    forall e, s | e in r && s in r[e] ensures s in sessions && sessions[s].docId == Some(e) {
      if e == d && s != sid {
        assert s in room;
      }
    }
  }

  /** Leaving keeps the registry tracked. */
  lemma TrackLeave(rooms: Registry, sessions: Sessions, d: DocId, sid: SessionId)
    requires RoomsTracked(rooms, sessions)
    ensures RoomsTracked(Leave(rooms, d, sid), sessions)
  {
    LeaveWellFormed(rooms, d, sid);
    LeaveKeepsMembersKnown(rooms, sessions, d, sid);
  }

  lemma LeaveKeepsMembersKnown(rooms: Registry, sessions: Sessions, d: DocId, sid: SessionId)
    requires MembersKnown(rooms, sessions)
    ensures MembersKnown(Leave(rooms, d, sid), sessions)
  {
    var r := Leave(rooms, d, sid);
    forall e, s | e in r && s in r[e] ensures s in sessions && sessions[s].docId == Some(e) {
      if e != d {
        assert r[e] == rooms[e];
      } else {
        assert s in Members(r, d);
      }
    }
  }

  class Backend {
    /** Every connection the endpoint has seen, with its user properties. */
    var sessions: Sessions
    /** `docSessions`. */
    var rooms: Registry
    /** The `doc:<id>` keys. */
    var cache: map<DocId, string>
    /** `dirty_docs`. */
    var dirty: set<DocId>
    /** The `document` table. */
    var documents: DocTable
    /** The `collaborator` table. */
    var collaborators: Collaborators
    /** The `invite:<code>` keys. */
    var invites: map<string, DocId>
    /** Every `sendText` that reached its recipient, in order. */
    var outbox: seq<Delivery>
    /** Every `session.close(...)` issued by the server, in order. */
    var closes: seq<CloseEvent>

    ghost predicate Valid()
      reads this`sessions, this`rooms, this`cache, this`dirty, this`documents, this`collaborators
    {
      RoomsTracked(rooms, sessions)
      && CacheCovered(cache, dirty, documents)
      && OwnersApart(documents, collaborators)
      && SessionsOnDocuments(sessions, documents)
    }

    constructor ()
      ensures Valid()
      ensures sessions == map[] && rooms == map[] && cache == map[] && dirty == {}
      ensures documents == map[] && collaborators == {} && invites == map[]
      ensures outbox == [] && closes == []
    {
      sessions, rooms, cache, dirty := map[], map[], map[], {};
      documents, collaborators, invites := map[], {}, map[];
      outbox, closes := [], [];
    }

    /** The token check of `onOpen` for document `d` against the current tables. */
    function AdmissionOf(query: Option<string>, decode: string -> Option<string>, d: DocId, tokens: map<string, Claims>): Admission
      reads this`documents, this`collaborators
    {
      Authorize(QueryToken(query), QueryUsername(query, decode), d, tokens, documents, collaborators)
    }

    /** The text a joiner of `d` is synchronised with: the cached text, else the durable
        content of a found document with NULL read as "". With cache authority, a document
        without unflushed edits is seen with its durable content. */
    function SeedContent(d: DocId): (c: Option<string>)
      reads this`sessions, this`rooms, this`cache, this`dirty, this`documents, this`collaborators
      ensures c.None? <==> d !in cache && Lookup(documents, d).None?
      ensures Valid() && d in documents && Enabled(documents[d]) && d !in dirty ==> c == Some(ContentText(documents[d]))
    {
      if d in cache then Some(cache[d])
      else
        match Lookup(documents, d)
        case None => None
        case Some(doc) => Some(ContentText(doc))
    }

    /** `broadcast(data, sender)`: every member of the sender's room other than the
        sender that is open gets the message; a failing send costs only its recipient. */
    method Broadcast(msg: Msg, sender: SessionId, failed: set<SessionId>)
      modifies this`outbox
      ensures outbox == old(outbox) +
                if sender in sessions && sessions[sender].docId.Some?
                then Fanout(Members(rooms, sessions[sender].docId.value), sessions, failed, sender, msg)
                else []
    {
      if sender !in sessions || sessions[sender].docId.None? {
        return;
      }
      // The iteration runs over a snapshot of the room, as a CopyOnWriteArraySet's does.
      var room := Members(rooms, sessions[sender].docId.value);
      var info := sessions;
      var i := 0;
      while i < |room|
        invariant 0 <= i <= |room|
        invariant old(outbox) + Fanout(room, info, failed, sender, msg)
               == outbox + Fanout(room[i..], info, failed, sender, msg)
      {
        var s := room[i];
        ghost var rest := Fanout(room[i + 1..], info, failed, sender, msg);
        assert room[i..][1..] == room[i + 1..];
        if s != sender && s in info && info[s].open && s !in failed {
          assert Fanout(room[i..], info, failed, sender, msg) == [Delivery(s, msg)] + rest;
          assert outbox + ([Delivery(s, msg)] + rest) == (outbox + [Delivery(s, msg)]) + rest;
          outbox := outbox + [Delivery(s, msg)];
        } else {
          assert Fanout(room[i..], info, failed, sender, msg) == rest;
        }
        i := i + 1;
      }
    }

    /** `broadcastSystemMessage(d, kind, content)`: every open member of the room, the
        first failing send ending the loop. */
    method BroadcastSystemMessage(d: DocId, kind: string, content: string, failed: set<SessionId>)
      modifies this`outbox
      ensures outbox == old(outbox) + SystemFanout(Members(rooms, d), sessions, failed, Msg(kind, Some(SENDER_SERVER), Text(content)))
    {
      var room := Members(rooms, d);
      var msg := Msg(kind, Some(SENDER_SERVER), Text(content));
      var i := 0;
      while i < |room|
        invariant 0 <= i <= |room|
        invariant old(outbox) + SystemFanout(room, sessions, failed, msg)
               == outbox + SystemFanout(room[i..], sessions, failed, msg)
      {
        var s := room[i];
        assert room[i..][1..] == room[i + 1..];
        if s in sessions && sessions[s].open {
          if s in failed {
            break;
          }
          outbox := outbox + [Delivery(s, msg)];
        }
        i := i + 1;
      }
    }

    /** `session.getBasicRemote().sendText(...)` to one session. */
    method Send(s: SessionId, msg: Msg, failed: set<SessionId>)
      modifies this`outbox
      ensures outbox == old(outbox) + Direct(sessions, failed, s, msg)
    {
      if s in sessions && sessions[s].open && s !in failed {
        outbox := outbox + [Delivery(s, msg)];
      }
    }

    /** `onOpen(session, d)` for a new connection `sid`. `tokens` stands for the tokens
        `JwtUtil.parseToken` accepts and `decode` for `URLDecoder.decode`.
        - A rejected token closes the connection with "Invalid Token"; nothing else happens.
        - A user without permission is closed, and the handler goes on all the same.
        - Without cached text and without a found document the connection is closed as
          document-not-found after its properties are stored.
        - Otherwise the cache is seeded (no dirty marker), the connection joins the room,
          the others are told, and it is sent the roster and the text. */
    method OnOpen(sid: SessionId, d: DocId, query: Option<string>, decode: string -> Option<string>,
                  tokens: map<string, Claims>, failed: set<SessionId>)
      requires Valid() && sid !in sessions
      modifies this`sessions, this`rooms, this`cache, this`outbox, this`closes
      ensures Valid()
      ensures var adm := old(AdmissionOf(query, decode, d, tokens));
              adm == Rejected ==>
                sessions == old(sessions)[sid := SessionInfo(false, None, None, None)]
                && closes == old(closes) + [CloseEvent(sid, ViolatedPolicy, InvalidToken)]
                && rooms == old(rooms) && cache == old(cache) && outbox == old(outbox)
      ensures var adm := old(AdmissionOf(query, decode, d, tokens));
              adm != Rejected && old(SeedContent(d)).None? ==>
                sessions == old(sessions)[sid := OpenedSession(adm, d).(open := false)]
                && closes == old(closes) + PermissionCloses(sid, adm) + [CloseEvent(sid, CannotAccept, DocumentNotFoundReason)]
                && rooms == old(rooms) && cache == old(cache) && outbox == old(outbox)
      ensures var adm := old(AdmissionOf(query, decode, d, tokens));
              var seed := old(SeedContent(d));
              adm != Rejected && seed.Some? ==>
                sessions == old(sessions)[sid := OpenedSession(adm, d)]
                && closes == old(closes) + PermissionCloses(sid, adm)
                && cache == old(cache)[d := seed.value]
                && rooms == Join(old(rooms), d, sid)
                && outbox == old(outbox)
                   + Fanout(rooms[d], sessions, failed, sid, JoinMsg(JoinName(adm)))
                   + Direct(sessions, failed, sid, ListMsg(Roster(rooms[d], sessions)))
                   + Direct(sessions, failed, sid, SyncMsg(seed.value))
    {
      var token, queryName := ParseQuery(query, decode);
      var adm := Authorize(token, queryName, d, tokens, documents, collaborators);
      if adm.Rejected? {
        Refuse(sid, SessionInfo(false, None, None, None), CloseEvent(sid, ViolatedPolicy, InvalidToken));
      } else {
        Admit(sid, d, adm, failed);
      }
    }

    /** The rest of `onOpen` once the token check has passed or there was no token. */
    method Admit(sid: SessionId, d: DocId, adm: Admission, failed: set<SessionId>)
      requires Valid() && sid !in sessions && !adm.Rejected?
      modifies this`sessions, this`rooms, this`cache, this`outbox, this`closes
      ensures Valid()
      ensures old(SeedContent(d)).None? ==>
                sessions == old(sessions)[sid := OpenedSession(adm, d).(open := false)]
                && closes == old(closes) + PermissionCloses(sid, adm) + [CloseEvent(sid, CannotAccept, DocumentNotFoundReason)]
                && rooms == old(rooms) && cache == old(cache) && outbox == old(outbox)
      ensures var seed := old(SeedContent(d));
              seed.Some? ==>
                sessions == old(sessions)[sid := OpenedSession(adm, d)]
                && closes == old(closes) + PermissionCloses(sid, adm)
                && cache == old(cache)[d := seed.value]
                && rooms == Join(old(rooms), d, sid)
                && outbox == old(outbox)
                   + Fanout(rooms[d], sessions, failed, sid, JoinMsg(JoinName(adm)))
                   + Direct(sessions, failed, sid, ListMsg(Roster(rooms[d], sessions)))
                   + Direct(sessions, failed, sid, SyncMsg(seed.value))
    {
      ghost var seed := SeedContent(d);
      var info := OpenedSession(adm, d);
      closes := closes + PermissionCloses(sid, adm);
      var content: string;
      if d in cache {
        content := cache[d];
      } else {
        var found := GetDocument(documents, d);
        if found.Err? {
          Refuse(sid, info.(open := false), CloseEvent(sid, CannotAccept, DocumentNotFoundReason));
          return;
        }
        content := ContentText(found.value);
      }
      assert seed == Some(content);
      Enter(sid, d, info, content);
      Greet(sid, d, JoinName(adm), content, failed);
    }

    /** An `onOpen` that ends in `close`: the properties of the already closed connection
        are stored and the close is recorded. */
    method Refuse(sid: SessionId, info: SessionInfo, event: CloseEvent)
      requires Valid() && sid !in sessions && !info.open
      modifies this`sessions, this`closes
      ensures Valid()
      ensures sessions == old(sessions)[sid := info]
      ensures closes == old(closes) + [event]
    {
      TrackNewcomer(rooms, sessions, sid, info);
      SessionOnDocument(sessions, documents, sid, info);
      sessions := sessions[sid := info];
      closes := closes + [event];
    }

    /** The state changes of an `onOpen` that gets past the checks: the user properties
        are stored, the cache is seeded when it had no entry, and the connection joins the
        room. */
    method Enter(sid: SessionId, d: DocId, info: SessionInfo, content: string)
      requires Valid() && sid !in sessions && info.docId == Some(d)
      requires d in cache ==> content == cache[d]
      requires d !in cache ==> d in documents && Enabled(documents[d]) && content == ContentText(documents[d])
      modifies this`sessions, this`rooms, this`cache
      ensures Valid()
      ensures sessions == old(sessions)[sid := info]
      ensures cache == old(cache)[d := content]
      ensures rooms == Join(old(rooms), d, sid)
    {
      if d !in cache {
        SeedKeepsCovered(cache, dirty, documents, d);
        cache := cache[d := content];
      }
      TrackNewcomer(rooms, sessions, sid, info);
      SessionOnDocument(sessions, documents, sid, info);
      sessions := sessions[sid := info];
      TrackJoin(rooms, sessions, d, sid);
      rooms := Join(rooms, d, sid);
    }

    /** The three sends that end `onOpen`: USER_JOIN to the others, then the roster and
        the text to the new connection. */
    method Greet(sid: SessionId, d: DocId, name: string, content: string, failed: set<SessionId>)
      requires sid in sessions && sessions[sid].docId == Some(d) && d in rooms
      modifies this`outbox
      ensures outbox == old(outbox)
                        + Fanout(rooms[d], sessions, failed, sid, JoinMsg(name))
                        + Direct(sessions, failed, sid, ListMsg(Roster(rooms[d], sessions)))
                        + Direct(sessions, failed, sid, SyncMsg(content))
    {
      Broadcast(JoinMsg(name), sid, failed);
      Send(sid, ListMsg(Roster(rooms[d], sessions)), failed);
      Send(sid, SyncMsg(content), failed);
    }

    /** `onMessage` on an open connection; `None` is text that does not parse as a
        message. Nothing happens on a connection without a document.
        - EDIT overwrites the cached text, marks the document dirty and relays the message
          as received. Without text data the cache write throws and nothing changes.
        - CURSOR is relayed with the sender replaced by the connection's display name.
        - PING is answered with one PONG to the sender alone.
        - Any other type is ignored. */
    method OnMessage(sid: SessionId, incoming: Option<Msg>, failed: set<SessionId>)
      requires Valid() && sid in sessions && sessions[sid].open
      modifies this`cache, this`dirty, this`outbox
      ensures Valid()
      ensures sessions[sid].docId.None? || incoming.None? ==>
                cache == old(cache) && dirty == old(dirty) && outbox == old(outbox)
      ensures sessions[sid].docId.Some? && incoming.Some? ==>
                var d := sessions[sid].docId.value;
                var m := incoming.value;
                (m.kind == EDIT && m.data.Text? ==>
                   cache == old(cache)[d := m.data.text] && dirty == old(dirty) + {d}
                   && outbox == old(outbox) + Fanout(Members(rooms, d), sessions, failed, sid, m))
                && (m.kind == EDIT && !m.data.Text? ==>
                   cache == old(cache) && dirty == old(dirty) && outbox == old(outbox))
                && (m.kind == CURSOR ==>
                   cache == old(cache) && dirty == old(dirty)
                   && outbox == old(outbox) + Fanout(Members(rooms, d), sessions, failed, sid, m.(sender := sessions[sid].username)))
                && (m.kind == PING ==>
                   cache == old(cache) && dirty == old(dirty)
                   && outbox == old(outbox) + Direct(sessions, failed, sid, PONG_MSG))
                && (m.kind != EDIT && m.kind != CURSOR && m.kind != PING ==>
                   cache == old(cache) && dirty == old(dirty) && outbox == old(outbox))
    {
      var info := sessions[sid];
      if info.docId.None? || incoming.None? {
        return;
      }
      var d := info.docId.value;
      var m := incoming.value;
      if m.kind == EDIT {
        if m.data.Text? {
          cache := cache[d := m.data.text];
          dirty := dirty + {d};
          Broadcast(m, sid, failed);
        }
      } else if m.kind == CURSOR {
        Broadcast(m.(sender := info.username), sid, failed);
      } else if m.kind == PING {
        Send(sid, PONG_MSG, failed);
      }
    }

    /** `onClose` of an open connection: it leaves its room, the room's entry goes once
        it is empty, and when it had a display name the remaining members are told. */
    method OnClose(sid: SessionId, failed: set<SessionId>)
      requires Valid() && sid in sessions && sessions[sid].open
      modifies this`sessions, this`rooms, this`outbox
      ensures Valid()
      ensures sessions == old(sessions)[sid := old(sessions)[sid].(open := false)]
      ensures old(sessions)[sid].docId.None? ==> rooms == old(rooms) && outbox == old(outbox)
      ensures old(sessions)[sid].docId.Some? ==>
                var d := old(sessions)[sid].docId.value;
                var name := old(sessions)[sid].username;
                rooms == Leave(old(rooms), d, sid)
                && outbox == old(outbox) +
                     if d in old(rooms) && name.Some?
                     then Fanout(Remove(old(rooms)[d], sid), sessions, failed, sid, LeaveMsg(name.value))
                     else []
    {
      var info := sessions[sid];
      TrackClosing(rooms, sessions, sid);
      SessionOnDocument(sessions, documents, sid, info.(open := false));
      sessions := sessions[sid := info.(open := false)];
      if info.docId.None? {
        return;
      }
      var d := info.docId.value;
      if d in rooms {
        TrackLeave(rooms, sessions, d, sid);
        Depart(sid, d, info.username, failed);
      }
    }

    /** The part of `onClose` for a connection in the room of `d`: it leaves, and the
        remaining members are told when it had a display name. */
    method Depart(sid: SessionId, d: DocId, name: Option<string>, failed: set<SessionId>)
      requires sid in sessions && sessions[sid].docId == Some(d) && d in rooms
      modifies this`rooms, this`outbox
      ensures rooms == Leave(old(rooms), d, sid)
      ensures outbox == old(outbox) +
                if name.Some? then Fanout(Remove(old(rooms)[d], sid), sessions, failed, sid, LeaveMsg(name.value))
                else []
    {
      MembersAfterLeave(rooms, d, sid);
      // The source drops the empty entry after the broadcast; a broadcast over an empty
      // room sends nothing, so leaving first changes nothing that can be observed.
      rooms := Leave(rooms, d, sid);
      if name.Some? {
        Broadcast(LeaveMsg(name.value), sid, failed);
      }
    }

    /** `saveContent(d, content)` at time `now`: a found document gets the content and the
        update time; otherwise nothing. */
    method SaveContent(d: DocId, content: string, now: int)
      modifies this`documents
      ensures documents == Saved(old(documents), d, content, now)
    {
      var found := Lookup(documents, d);
      if found.Some? {
        documents := documents[d := found.value.(content := Some(content), updateTime := now)];
      }
    }

    /** `syncDocumentContent`: over a snapshot of the dirty set, every id with cached text
        whose read and save do not throw is saved with exactly that text and then unmarked,
        unless the unmarking throws; the others stay dirty. `fails` are the ids whose read or
        save throws, `removeFails` those whose removal from the dirty set throws. An empty
        dirty set changes nothing. Every save of one run is stamped with the same time `now`. */
    method SyncDocumentContent(fails: set<DocId>, removeFails: set<DocId>, now: int)
      requires Valid()
      modifies this`documents, this`dirty
      ensures Valid()
      ensures old(dirty) == {} ==> documents == old(documents) && dirty == old(dirty)
      ensures documents == SavedAll(old(documents), cache, Persisted(old(dirty), cache, fails), now)
      ensures dirty == old(dirty) - Unmarked(old(dirty), cache, fails, removeFails)
    {
      var snapshot := dirty;
      if snapshot == {} {
        return;
      }
      SaveSnapshot(snapshot, fails, removeFails, now);
      FlushKeepsAgreement(old(documents), cache, snapshot, fails, removeFails, now);
      SavedAllKeepsRows(old(documents), cache, Persisted(snapshot, cache, fails), now);
    }

    /** The loop of `syncDocumentContent` over a snapshot of the dirty set. */
    method SaveSnapshot(snapshot: set<DocId>, fails: set<DocId>, removeFails: set<DocId>, now: int)
      requires snapshot == dirty
      modifies this`documents, this`dirty
      ensures documents == SavedAll(old(documents), cache, Persisted(snapshot, cache, fails), now)
      ensures dirty == snapshot - Unmarked(snapshot, cache, fails, removeFails)
    {
      var remaining := snapshot;
      ghost var saved: set<DocId> := {};
      ghost var unmarked: set<DocId> := {};
      SavedNone(documents, cache, now);
      while remaining != {}
        invariant remaining <= snapshot
        invariant saved == Persisted(snapshot - remaining, cache, fails)
        invariant unmarked == Unmarked(snapshot - remaining, cache, fails, removeFails)
        invariant documents == SavedAll(old(documents), cache, saved, now)
        invariant dirty == snapshot - unmarked
        decreases remaining
      {
        var d :| d in remaining;
        assert snapshot - (remaining - {d}) == (snapshot - remaining) + {d};
        PersistedStep(snapshot - remaining, d, cache, fails, removeFails);
        if d !in fails && d in cache {
          SavedAllStep(old(documents), cache, saved, d, now);
          ghost var before := documents;
          SaveContent(d, cache[d], now);
          assert documents == Saved(before, d, cache[d], now);
          saved := saved + {d};
          if d !in removeFails {
            dirty := dirty - {d};
            unmarked := unmarked + {d};
          }
        }
        remaining := remaining - {d};
      }
    }

    /** `listDocuments(user)` against the current tables. The invariant supplies what the
        listing needs: no owner is a collaborator of their own document. */
    method ListDocuments(user: UserId) returns (r: seq<Entry>)
      requires Valid()
      ensures SortedDesc(r)
      ensures forall e :: e in r <==> Listed(documents, collaborators, user, e)
      ensures NoRepeats(r)
    {
      r := Documents.ListDocuments(documents, collaborators, user);
    }

    /** `createDocument(title, user)` with `docId` for the fresh random UUID and `now` for
        the insert time: the caller owns the new, empty, enabled document. */
    method CreateDocument(title: string, user: UserId, docId: DocId, now: int) returns (doc: Doc)
      requires Valid() && docId !in documents
      modifies this`documents
      ensures Valid()
      ensures doc.ownerId == user && doc.title == title && doc.content == Some("")
      ensures Enabled(doc) && doc.updateTime == now
      ensures documents == old(documents)[docId := doc]
      ensures GetDocument(documents, docId) == Ok(doc)
    {
      doc := Doc(user, title, Some(""), ENABLE, now);
      documents := documents[docId := doc];
    }

    /** `deleteDocument(d)` by `user` at time `now`: not found, then not the owner;
        otherwise the document is disabled with its update time stamped, its cached text
        and dirty marker are dropped and every open member of its room is sent DOC_DELETED. */
    method DeleteDocument(d: DocId, user: UserId, failed: set<SessionId>, now: int) returns (r: Option<Error>)
      requires Valid()
      modifies this`documents, this`cache, this`dirty, this`outbox
      ensures Valid()
      ensures OwnerGuard(old(documents), d, user).Err? ==>
                r == Some(OwnerGuard(old(documents), d, user).error)
                && documents == old(documents) && cache == old(cache) && dirty == old(dirty) && outbox == old(outbox)
      ensures OwnerGuard(old(documents), d, user).Ok? ==>
                r.None?
                && documents == old(documents)[d := old(documents)[d].(status := DISABLE, updateTime := now)]
                && cache == old(cache) - {d} && dirty == old(dirty) - {d}
                && outbox == old(outbox) + SystemFanout(Members(rooms, d), sessions, failed, Msg(DOC_DELETED, Some(SENDER_SERVER), Text(DELETED_TEXT)))
    {
      var guard := OwnerGuard(documents, d, user);
      if guard.Err? {
        return Some(guard.error);
      }
      documents := documents[d := guard.value.(status := DISABLE, updateTime := now)];
      cache := cache - {d};
      dirty := dirty - {d};
      BroadcastSystemMessage(d, DOC_DELETED, DELETED_TEXT, failed);
      r := None;
    }

    /** `createInviteCode(d)` by `user`, `uuid` being the random UUID's text: owner only;
        the code is the UUID's first eight hexadecimal digits and now leads to `d`. */
    method CreateInviteCode(d: DocId, user: UserId, uuid: string) returns (r: Result<string, Error>)
      requires Valid() && IsUuidText(uuid)
      modifies this`invites
      ensures Valid()
      ensures OwnerGuard(documents, d, user).Err? ==>
                r == Err(OwnerGuard(documents, d, user).error) && invites == old(invites)
      ensures OwnerGuard(documents, d, user).Ok? ==>
                r.Ok? && r.value == uuid[..8] && |r.value| == 8
                && (forall c | c in r.value :: IsHexDigit(c))
                && invites == old(invites)[r.value := d]
    {
      var guard := OwnerGuard(documents, d, user);
      if guard.Err? {
        return Err(guard.error);
      }
      InviteCodeOfUuid(uuid);
      var code := InviteCode(uuid);
      invites := invites[code := d];
      r := Ok(code);
    }

    /** `joinByInviteCode(code)` by `user`, as `InviteJoined` states it. */
    method JoinByInviteCode(code: string, user: UserId) returns (r: Result<Doc, Error>)
      requires Valid()
      modifies this`collaborators
      ensures Valid()
      ensures InviteJoin(r, collaborators) == InviteJoined(invites, documents, old(collaborators), code, user)
    {
      InviteJoinKeepsOwnerOut(invites, documents, collaborators, code, user);
      if code !in invites {
        return Err(InviteCodeInvalid);
      }
      var d := invites[code];
      var found := Lookup(documents, d);
      if found.None? {
        return Err(DocumentNotFound);
      }
      var doc := found.value;
      if doc.ownerId == user {
        return Ok(doc);
      }
      if (d, user) !in collaborators {
        collaborators := collaborators + {(d, user)};
      }
      r := Ok(doc);
    }

    /** `updateTitle(d, title)` by `user` at time `now`: owner only; the title and the
        update time change and nothing else. */
    method UpdateTitle(d: DocId, user: UserId, title: string, now: int) returns (r: Option<Error>)
      requires Valid()
      modifies this`documents
      ensures Valid()
      ensures OwnerGuard(old(documents), d, user).Err? ==>
                r == Some(OwnerGuard(old(documents), d, user).error) && documents == old(documents)
      ensures OwnerGuard(old(documents), d, user).Ok? ==>
                r.None? && documents == old(documents)[d := old(documents)[d].(title := title, updateTime := now)]
    {
      var guard := OwnerGuard(documents, d, user);
      if guard.Err? {
        return Some(guard.error);
      }
      documents := documents[d := guard.value.(title := title, updateTime := now)];
      r := None;
    }
  }
}
