/** Runs of the server on small inputs, checked by the verifier: an anonymous join, an
    edit, the owner joining with a token, and a deletion, which notifies the room without
    closing it. */
module Scenarios {
  import opened Wire
  import opened Rooms
  import opened Documents
  import opened Server
  import opened Query
  import opened Gate

  function Plain(s: string): Option<string> {
    Some(s)
  }

  /** User 1 creates the empty document d1 and A joins it without a token: A is the only
      member, and is sent an empty roster and an empty SYNC. */
  method JoinEmptyDocument() returns (b: Backend)
    ensures fresh(b) && b.Valid()
    ensures b.documents == map["d1" := Doc(1, "notes", Some(""), ENABLE, 0)]
    ensures b.sessions == map["A" := SessionInfo(true, Some("d1"), None, None)]
    ensures b.rooms == map["d1" := ["A"]] && b.cache == map["d1" := ""] && b.dirty == {}
    ensures b.closes == []
    ensures b.outbox == [Delivery("A", ListMsg([])), Delivery("A", SyncMsg(""))]
  {
    b := new Backend();
    var doc := b.CreateDocument("notes", 1, "d1", 0);
    b.OnOpen("A", "d1", None, Plain, map[], {});
    assert b.rooms["d1"] == ["A"];
    assert Fanout(["A"], b.sessions, {}, "A", JoinMsg(ANONYMOUS)) == [];
    assert Usernames(["A"], b.sessions) == [];
  }

  /** A's edit is cached, marked dirty, and not echoed back to A. */
  method EditIsNotEchoed() returns (b: Backend)
    ensures fresh(b) && b.Valid()
    ensures b.cache == map["d1" := "hello"] && b.dirty == {"d1"}
    ensures b.outbox == [Delivery("A", ListMsg([])), Delivery("A", SyncMsg(""))]
  {
    b := JoinEmptyDocument();
    var m := Msg(EDIT, None, Text("hello"));
    assert Fanout(["A"], b.sessions, {}, "A", m) == [];
    b.OnMessage("A", Some(m), {});
  }

  /** Deleting d1 sends DOC_DELETED to the open member and drops the cached text, but the
      member stays in the room. */
  method DeleteNotifiesButKeepsRoom() returns (b: Backend, r: Option<Error>)
    ensures fresh(b) && b.Valid() && r.None?
    ensures b.outbox == [Delivery("A", ListMsg([])), Delivery("A", SyncMsg("")),
                         Delivery("A", Msg(DOC_DELETED, Some(SENDER_SERVER), Text(DELETED_TEXT)))]
    ensures "d1" in b.documents && b.documents["d1"].status == DISABLE
    ensures "d1" !in b.cache && b.rooms == map["d1" := ["A"]]
  {
    b := JoinEmptyDocument();
    var notice := Msg(DOC_DELETED, Some(SENDER_SERVER), Text(DELETED_TEXT));
    assert SystemFanout(["A"], b.sessions, {}, notice) == [Delivery("A", notice)];
    r := b.DeleteDocument("d1", 1, {}, 5);
  }

  /** The owner's token `t1` for d1, with no `username=` field: the query yields the
      token and no display-name override. */
  lemma OwnerQuery()
    ensures QueryToken(Some("token=t1")) == Some("t1")
    ensures QueryUsername(Some("token=t1"), Plain).None?
  {
    var q := "token=t1";
    assert '&' !in q by {
      forall k | 0 <= k < |q| ensures q[k] != '&' { }
    }
    assert JavaSplit(q) == [q];
    assert q[..|TOKEN_KEY|] == TOKEN_KEY;
    assert q[|TOKEN_KEY|..] == "t1";
    var none: seq<string> := [];
    assert [q][..0] == none;
  }

  /** The owner's token admits them to an enabled d1 with permission, under the token's
      subject. */
  lemma OwnerAdmitted(docs: DocTable, collabs: Collaborators)
    requires "d1" in docs && Enabled(docs["d1"]) && docs["d1"].ownerId == 1
    ensures Authorize(QueryToken(Some("token=t1")), QueryUsername(Some("token=t1"), Plain), "d1",
                      map["t1" := Claims(1, "alice")], docs, collabs) == Admitted(1, "alice", true)
  {
    OwnerQuery();
    MembersArePermitted("t1", None, "d1", map["t1" := Claims(1, "alice")], docs, collabs);
  }

  /** The sessions once the owner has joined as B after the anonymous A. */
  function TwoMembers(): Sessions {
    map["A" := SessionInfo(true, Some("d1"), None, None),
        "B" := SessionInfo(true, Some("d1"), Some(1), Some("alice"))]
  }

  /** Only A hears of B's join, and the roster names alice alone: A has no display name. */
  lemma TwoMembersTraffic()
    ensures Fanout(["A", "B"], TwoMembers(), {}, "B", JoinMsg("alice")) == [Delivery("A", JoinMsg("alice"))]
    ensures Roster(["A", "B"], TwoMembers()) == ["alice"]
  {
    var s := TwoMembers();
    assert ["A", "B"][1..] == ["B"] && ["B"][1..] == [];
    assert Fanout(["B"], s, {}, "B", JoinMsg("alice")) == [];
    assert Usernames(["B"], s) == ["alice"];
    assert Usernames(["A", "B"], s) == ["alice"];
    assert ["alice"][..0] == [];
  }

  /** The pieces of `onOpen` for the owner's token: the session B stores, no permission
      close, the room after the join and the name announced. */
  lemma OwnerJoinPieces()
    ensures OpenedSession(Admitted(1, "alice", true), "d1") == TwoMembers()["B"]
    ensures PermissionCloses("B", Admitted(1, "alice", true)) == []
    ensures Join(map["d1" := ["A"]], "d1", "B") == map["d1" := ["A", "B"]]
    ensures JoinName(Admitted(1, "alice", true)) == "alice"
    ensures Direct(TwoMembers(), {}, "B", ListMsg(["alice"])) == [Delivery("B", ListMsg(["alice"]))]
    ensures Direct(TwoMembers(), {}, "B", SyncMsg("")) == [Delivery("B", SyncMsg(""))]
  {
    assert Members(map["d1" := ["A"]], "d1") == ["A"];
    assert "B" !in ["A"];
    assert ["A"] + ["B"] == ["A", "B"];
  }

  /** What B's join appends to any earlier outbox. */
  lemma OwnerJoinOutbox(before: seq<Delivery>)
    ensures before + Fanout(["A", "B"], TwoMembers(), {}, "B", JoinMsg("alice"))
                   + Direct(TwoMembers(), {}, "B", ListMsg(Roster(["A", "B"], TwoMembers())))
                   + Direct(TwoMembers(), {}, "B", SyncMsg(""))
         == before + [Delivery("A", JoinMsg("alice")), Delivery("B", ListMsg(["alice"])), Delivery("B", SyncMsg(""))]
  {
    TwoMembersTraffic();
    OwnerJoinPieces();
    AppendThree(before, Delivery("A", JoinMsg("alice")), Delivery("B", ListMsg(["alice"])), Delivery("B", SyncMsg("")));
  }

  /** Appending three deliveries one by one appends the three in order. */
  lemma AppendThree(before: seq<Delivery>, x: Delivery, y: Delivery, z: Delivery)
    ensures before + [x] + [y] + [z] == before + [x, y, z]
  {
    assert [x] + [y] + [z] == [x, y, z];
  }

  /** With A already in d1, its owner joins as B with a token whose subject is "alice":
      A is told that alice joined, and B gets the roster ["alice"] and the empty text. */
  method OwnerJoinsWithToken() returns (b: Backend)
    ensures fresh(b) && b.Valid()
    ensures b.sessions == TwoMembers()
    ensures b.rooms == map["d1" := ["A", "B"]] && b.closes == []
    ensures b.outbox == [Delivery("A", ListMsg([])), Delivery("A", SyncMsg("")),
                         Delivery("A", JoinMsg("alice")),
                         Delivery("B", ListMsg(["alice"])), Delivery("B", SyncMsg(""))]
  {
    b := JoinEmptyDocument();
    OwnerJoins(b);
  }

  /** The second join of the scenario above, from the state the first one leaves. */
  method OwnerJoins(b: Backend)
    requires b.Valid() && b.documents == map["d1" := Doc(1, "notes", Some(""), ENABLE, 0)]
    requires b.sessions == map["A" := SessionInfo(true, Some("d1"), None, None)]
    requires b.rooms == map["d1" := ["A"]] && b.cache == map["d1" := ""] && b.closes == []
    modifies b`sessions, b`rooms, b`cache, b`outbox, b`closes
    ensures b.Valid() && b.sessions == TwoMembers()
    ensures b.rooms == map["d1" := ["A", "B"]] && b.closes == []
    ensures b.outbox == old(b.outbox) + [Delivery("A", JoinMsg("alice")),
                                         Delivery("B", ListMsg(["alice"])), Delivery("B", SyncMsg(""))]
  {
    var tokens := map["t1" := Claims(1, "alice")];
    OwnerAdmitted(b.documents, b.collaborators);
    assert b.AdmissionOf(Some("token=t1"), Plain, "d1", tokens) == Admitted(1, "alice", true);
    assert b.SeedContent("d1") == Some("");
    OwnerJoinPieces();
    assert b.sessions["B" := TwoMembers()["B"]] == TwoMembers();
    ghost var before := b.outbox;
    b.OnOpen("B", "d1", Some("token=t1"), Plain, tokens, {});
    assert b.rooms["d1"] == ["A", "B"] && b.sessions == TwoMembers();
    OwnerJoinOutbox(before);
    assert b.outbox == before + Fanout(["A", "B"], TwoMembers(), {}, "B", JoinMsg("alice"))
                      + Direct(TwoMembers(), {}, "B", ListMsg(Roster(["A", "B"], TwoMembers())))
                      + Direct(TwoMembers(), {}, "B", SyncMsg(""));
  }
}
