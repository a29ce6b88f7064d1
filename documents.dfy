/** The document rules of `DocumentServiceImpl` over the durable document table and the
    collaborator table: lookup, the owner guard, `saveContent`, invite codes, joining by
    invite code, and the merged, sorted document list. */
module Documents {
  import opened Wire

  /** A row of the `document` table. `content` is `None` for SQL NULL; `updateTime`
      is a timestamp's position on the clock. */
  datatype Doc = Doc(ownerId: UserId, title: string, content: Option<string>, status: int, updateTime: int)

  type DocTable = map<DocId, Doc>

  /** The `collaborator` table: (doc_id, user_id) rows. */
  type Collaborators = set<(DocId, UserId)>

  predicate Enabled(doc: Doc) {
    doc.status == ENABLE
  }

  /** `documentMapper.getByDocId`: the query matches only rows with status = 1, so a
      deleted document is not found. */
  function Lookup(docs: DocTable, d: DocId): (r: Option<Doc>)
    ensures r.Some? <==> d in docs && Enabled(docs[d])
    ensures r.Some? ==> r.value == docs[d]
  {
    if d in docs && docs[d].status == ENABLE then Some(docs[d]) else None
  }

  /** `getDocument`: it throws DOCUMENT_NOT_FOUND instead of returning null. */
  function GetDocument(docs: DocTable, d: DocId): (r: Result<Doc, Error>)
    ensures r.Ok? <==> d in docs && Enabled(docs[d])
    ensures r.Ok? ==> r.value == docs[d]
    ensures r.Err? ==> r.error == DocumentNotFound
  {
    match Lookup(docs, d)
    case Some(doc) => Ok(doc)
    case None => Err(DocumentNotFound)
  }

  /** The text a joiner is synchronised with: durable NULL content reads as "". */
  function ContentText(doc: Doc): string {
    if doc.content.Some? then doc.content.value else ""
  }

  /** The check shared by `deleteDocument`, `createInviteCode` and `updateTitle`: the
      document must be found, then the caller must own it. */
  function OwnerGuard(docs: DocTable, d: DocId, user: UserId): (r: Result<Doc, Error>)
    ensures r.Ok? <==> d in docs && Enabled(docs[d]) && docs[d].ownerId == user
    ensures r.Ok? ==> r.value == docs[d]
    ensures r == Err(DocumentNotFound) <==> !(d in docs && Enabled(docs[d]))
    ensures r == Err(DocumentNoPermission) <==> d in docs && Enabled(docs[d]) && docs[d].ownerId != user
  {
    match Lookup(docs, d)
    case None => Err(DocumentNotFound)
    case Some(doc) => if doc.ownerId != user then Err(DocumentNoPermission) else Ok(doc)
  }

  /** `saveContent` at time `now`: the content of a found document is replaced and the
      update fill of `documentMapper.update` stamps its update time; a missing or deleted
      document is left alone and nothing is raised. */
  function Saved(docs: DocTable, d: DocId, content: string, now: int): (r: DocTable)
    ensures r.Keys == docs.Keys
    ensures forall e | e in docs && e != d :: r[e] == docs[e]
    ensures !(d in docs && Enabled(docs[d])) ==> r == docs
    ensures d in docs && Enabled(docs[d]) ==> r[d] == docs[d].(content := Some(content), updateTime := now)
  {
    if Lookup(docs, d).Some? then docs[d := docs[d].(content := Some(content), updateTime := now)] else docs
  }

  // ---------------------------------------------------------------- invite codes

  /** `replace("-", "")`. */
  function RemoveDashes(s: string): (r: string)
    ensures '-' !in r
    ensures forall c :: c in r <==> c in s && c != '-'
  {
    if s == [] then []
    else (if s[0] == '-' then [] else [s[0]]) + RemoveDashes(s[1..])
  }

  /** The code derived from a random UUID's text: dashes removed, first eight characters. */
  function InviteCode(uuid: string): (code: string)
    requires |RemoveDashes(uuid)| >= 8
    ensures |code| == 8 && '-' !in code
    ensures forall c | c in code :: c in uuid
  {
    var hex := RemoveDashes(uuid);
    assert forall c | c in hex[..8] :: c in hex;
    hex[..8]
  }

  predicate IsHexDigit(c: char) {
    '0' <= c <= '9' || 'a' <= c <= 'f'
  }

  /** The text of `UUID.toString()`: 36 characters, dashes at 8, 13, 18, 23, lowercase
      hexadecimal digits elsewhere. */
  predicate IsUuidText(u: string) {
    |u| == 36
    && forall i | 0 <= i < 36 :: if i == 8 || i == 13 || i == 18 || i == 23 then u[i] == '-' else IsHexDigit(u[i])
  }

  lemma {:induction false} RemoveDashesConcat(a: string, b: string)
    ensures RemoveDashes(a + b) == RemoveDashes(a) + RemoveDashes(b)
  {
    if a != [] {
      var head := if a[0] == '-' then [] else [a[0]];
      assert (a + b)[0] == a[0] && (a + b)[1..] == a[1..] + b;
      calc {
        RemoveDashes(a + b);
        head + RemoveDashes(a[1..] + b);
        { RemoveDashesConcat(a[1..], b); }
        head + (RemoveDashes(a[1..]) + RemoveDashes(b));
        (head + RemoveDashes(a[1..])) + RemoveDashes(b);
        RemoveDashes(a) + RemoveDashes(b);
      }
    } else {
      assert a + b == b;
    }
  }

  lemma {:induction false} RemoveDashesNoDash(s: string)
    requires '-' !in s
    ensures RemoveDashes(s) == s
  {
    if s != [] {
      RemoveDashesNoDash(s[1..]);
    }
  }

  /** For a UUID's text, the invite code is its first eight hexadecimal digits. */
  lemma InviteCodeOfUuid(u: string)
    requires IsUuidText(u)
    ensures |RemoveDashes(u)| >= 8
    ensures InviteCode(u) == u[..8]
    ensures forall c | c in InviteCode(u) :: IsHexDigit(c)
  {
    assert u == u[..8] + u[8..];
    assert forall i | 0 <= i < 8 :: u[..8][i] == u[i] && IsHexDigit(u[i]);
    RemoveDashesNoDash(u[..8]);
    RemoveDashesConcat(u[..8], u[8..]);
  }

  // ---------------------------------------------------------------- joining by invite

  /** What `joinByInviteCode` returns and the collaborator table after it. */
  datatype InviteJoin = InviteJoin(result: Result<Doc, Error>, collaborators: Collaborators)

  /** `joinByInviteCode(code)` for the current user: an unknown code is rejected, the
      document must be found, the owner gets it back without a row being inserted, and any
      other user gets a collaborator row unless one already exists. */
  function InviteJoined(invites: map<string, DocId>, docs: DocTable, collabs: Collaborators, code: string, user: UserId): (o: InviteJoin)
    ensures code !in invites ==> o == InviteJoin(Err(InviteCodeInvalid), collabs)
    ensures code in invites && Lookup(docs, invites[code]).None? ==> o == InviteJoin(Err(DocumentNotFound), collabs)
    ensures o.result.Ok? <==> code in invites && Lookup(docs, invites[code]).Some?
    ensures o.result.Ok? ==> o.result.value == docs[invites[code]]
    ensures o.result.Ok? && docs[invites[code]].ownerId == user ==> o.collaborators == collabs
    ensures o.result.Ok? && docs[invites[code]].ownerId != user ==> o.collaborators == collabs + {(invites[code], user)}
  {
    if code !in invites then InviteJoin(Err(InviteCodeInvalid), collabs)
    else
      var d := invites[code];
      match Lookup(docs, d)
      case None => InviteJoin(Err(DocumentNotFound), collabs)
      case Some(doc) =>
        if doc.ownerId == user then InviteJoin(Ok(doc), collabs)
        else if (d, user) in collabs then InviteJoin(Ok(doc), collabs)
        else InviteJoin(Ok(doc), collabs + {(d, user)})
  }

  /** Using the same code a second time returns the same document and inserts nothing. */
  lemma InviteJoinIdempotent(invites: map<string, DocId>, docs: DocTable, collabs: Collaborators, code: string, user: UserId)
    ensures var first := InviteJoined(invites, docs, collabs, code, user);
            InviteJoined(invites, docs, first.collaborators, code, user) == first
  {
  }

  /** Every collaborator row names a document, and not its owner. */
  ghost predicate OwnersApart(docs: DocTable, collabs: Collaborators) {
    forall p | p in collabs :: p.0 in docs && docs[p.0].ownerId != p.1
  }

  /** Joining never makes the owner a collaborator of their own document. */
  lemma InviteJoinKeepsOwnerOut(invites: map<string, DocId>, docs: DocTable, collabs: Collaborators, code: string, user: UserId)
    requires OwnersApart(docs, collabs)
    ensures OwnersApart(docs, InviteJoined(invites, docs, collabs, code, user).collaborators)
  {
  }

  // ---------------------------------------------------------------- listing

  /** One element of the list returned by `listDocuments`. */
  datatype Entry = Entry(docId: DocId, doc: Doc)

  /** Newest update first. */
  predicate SortedDesc(xs: seq<Entry>) {
    forall i, j | 0 <= i < j < |xs| :: xs[i].doc.updateTime >= xs[j].doc.updateTime
  }

  /** Inserts `e` after every entry at least as recent, keeping equal times in order. */
  function InsertDesc(xs: seq<Entry>, e: Entry): (r: seq<Entry>)
    requires SortedDesc(xs)
    ensures SortedDesc(r)
    ensures multiset(r) == multiset(xs) + multiset{e}
  {
    if xs == [] then [e]
    else if xs[0].doc.updateTime >= e.doc.updateTime then
      var rest := InsertDesc(xs[1..], e);
      assert xs == [xs[0]] + xs[1..];
      AtMostHead(xs, e, rest);
      ConsSorted(xs[0], rest);
      [xs[0]] + rest
    else
      assert forall k | 0 <= k < |xs| :: xs[k].doc.updateTime <= xs[0].doc.updateTime;
      ConsSorted(e, xs);
      [e] + xs
  }

  /** An entry no older than every entry of a sorted list may go in front of it. */
  lemma ConsSorted(h: Entry, t: seq<Entry>)
    requires SortedDesc(t)
    requires forall k | 0 <= k < |t| :: t[k].doc.updateTime <= h.doc.updateTime
    ensures SortedDesc([h] + t)
  {
    var r := [h] + t;
    forall i, j | 0 <= i < j < |r| ensures r[i].doc.updateTime >= r[j].doc.updateTime {
      assert r[j] == t[j - 1];
      if i > 0 { assert r[i] == t[i - 1]; }
    }
  }

  /** Everything in the insertion into the tail is no newer than the head. */
  lemma AtMostHead(xs: seq<Entry>, e: Entry, rest: seq<Entry>)
    requires xs != [] && SortedDesc(xs) && xs[0].doc.updateTime >= e.doc.updateTime
    requires multiset(rest) == multiset(xs[1..]) + multiset{e}
    ensures forall k | 0 <= k < |rest| :: rest[k].doc.updateTime <= xs[0].doc.updateTime
  {
    forall k | 0 <= k < |rest| ensures rest[k].doc.updateTime <= xs[0].doc.updateTime {
      assert rest[k] in multiset(rest);
      if rest[k] != e {
        assert rest[k] in multiset(xs[1..]);
        var j :| 0 <= j < |xs[1..]| && xs[1..][j] == rest[k];
        assert xs[j + 1] == rest[k];
      }
    }
  }

  /** `result.sort((d1, d2) -> d2.getUpdateTime().compareTo(d1.getUpdateTime()))`:
      the list sorted by update time, newest first, as a permutation of its input. */
  method SortByUpdateTimeDesc(xs: seq<Entry>) returns (r: seq<Entry>)
    ensures SortedDesc(r)
    ensures multiset(r) == multiset(xs)
  {
    r := [];
    var i := 0;
    while i < |xs|
      invariant 0 <= i <= |xs|
      invariant SortedDesc(r)
      invariant multiset(r) == multiset(xs[..i])
    {
      assert xs[..i + 1] == xs[..i] + [xs[i]];
      r := InsertDesc(r, xs[i]);
      i := i + 1;
    }
    assert xs[..|xs|] == xs;
  }

  /** A document appears in a user's list: it is not deleted, and the user owns it or
      has a collaborator row for it. */
  predicate Listed(docs: DocTable, collabs: Collaborators, user: UserId, e: Entry) {
    e.docId in docs && e.doc == docs[e.docId] && Enabled(e.doc)
    && (e.doc.ownerId == user || (e.docId, user) in collabs)
  }

  /** `listByOwnerId(user)`: the user's own documents that are not deleted. */
  method OwnedEntries(docs: DocTable, user: UserId) returns (owned: seq<Entry>)
    ensures forall e :: e in owned <==> Listed(docs, {}, user, e)
    ensures NoRepeats(owned)
  {
    owned := [];
    var ids := docs.Keys;
    while ids != {}
      invariant ids <= docs.Keys
      invariant forall e :: e in owned <==> e.docId !in ids && Listed(docs, {}, user, e)
      invariant NoRepeats(owned)
      decreases ids
    {
      var d :| d in ids;
      var doc := docs[d];
      if doc.status == ENABLE && doc.ownerId == user {
        NoRepeatsConcat(owned, [Entry(d, doc)]);
        owned := owned + [Entry(d, doc)];
      }
      ids := ids - {d};
    }
  }

  /** `listByIds(ids)`: the documents with these ids that are not deleted. */
  method EntriesByIds(docs: DocTable, ids: set<DocId>) returns (found: seq<Entry>)
    ensures forall e :: e in found <==> e.docId in ids && e.docId in docs && e.doc == docs[e.docId] && Enabled(e.doc)
    ensures NoRepeats(found)
  {
    found := [];
    var rest := ids;
    while rest != {}
      invariant rest <= ids
      invariant forall e :: e in found <==> e.docId in ids - rest && e.docId in docs && e.doc == docs[e.docId] && Enabled(e.doc)
      invariant NoRepeats(found)
      decreases rest
    {
      var d :| d in rest;
      if d in docs && docs[d].status == ENABLE {
        NoRepeatsConcat(found, [Entry(d, docs[d])]);
        found := found + [Entry(d, docs[d])];
      }
      rest := rest - {d};
    }
  }

  /** `listDocuments(userId)`: the owned documents plus the collaborated ones, sorted by
      update time, newest first; each listed document appears once. */
  method ListDocuments(docs: DocTable, collabs: Collaborators, user: UserId) returns (r: seq<Entry>)
    requires forall p | p in collabs && p.0 in docs :: docs[p.0].ownerId != p.1
    ensures SortedDesc(r)
    ensures forall e :: e in r <==> Listed(docs, collabs, user, e)
    ensures NoRepeats(r)
  {
    var owned := OwnedEntries(docs, user);
    // listDocIdsByUserId, then listByIds only for a non-empty id list.
    var collabIds: set<DocId> := set p | p in collabs && p.1 == user :: p.0;
    var shared: seq<Entry> := [];
    if collabIds != {} {
      shared := EntriesByIds(docs, collabIds);
    }
    forall e | e in shared ensures e !in owned {
      assert (e.docId, user) in collabs;
    }
    NoRepeatsConcat(owned, shared);
    var merged := owned + shared;
    forall e ensures e in merged <==> Listed(docs, collabs, user, e) {
      if Listed(docs, collabs, user, e) && e.doc.ownerId != user {
        assert e.docId in collabIds;
      }
    }
    r := SortByUpdateTimeDesc(merged);
    NoRepeatsPermutation(merged, r);
    forall e ensures e in r <==> e in merged {
      assert e in r <==> e in multiset(r);
      assert e in merged <==> e in multiset(merged);
    }
  }
}
