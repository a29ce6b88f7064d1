/** The token check of `EditorServer.onOpen`: a connection without a token is let in
    unchecked; one with a token is rejected unless the token parses and the document is
    found; an accepted token is then checked against the owner and the collaborator table. */
module Gate {
  import opened Wire
  import opened Documents

  /** What a token accepted by `JwtUtil.parseToken` carries: the `userId` claim and the
      subject, which is the account's username. */
  datatype Claims = Claims(userId: UserId, subject: string)

  /** The outcome of the token check. `Admitted` records whether the user may edit the
      document; a user who may not is closed but not turned away. */
  datatype Admission =
    | Anonymous
    | Rejected
    | Admitted(userId: UserId, username: string, permitted: bool)

  /** The display name of an authenticated connection: the `username=` override when it
      is present and non-empty, otherwise the token's subject. */
  function DisplayName(queryName: Option<string>, claims: Claims): string {
    if queryName.Some? && queryName.value != "" then queryName.value else claims.subject
  }

  /** The user owns the document or has a collaborator row for it. */
  predicate MayEdit(doc: Doc, collabs: Collaborators, d: DocId, user: UserId) {
    doc.ownerId == user || (d, user) in collabs
  }

  /** The token check for document `d`. `tokens` maps each token that parses to its claims;
      `getDocument` throws for a missing or deleted document and the catch-all handler
      treats that like a bad token. */
  function Authorize(token: Option<string>, queryName: Option<string>, d: DocId,
                     tokens: map<string, Claims>, docs: DocTable, collabs: Collaborators): (a: Admission)
    ensures a == Anonymous <==> token.None?
    ensures a == Rejected <==> token.Some? && (token.value !in tokens || Lookup(docs, d).None?)
    ensures a.Admitted? ==> token.Some? && token.value in tokens && Lookup(docs, d).Some?
    ensures a.Admitted? ==> a.userId == tokens[token.value].userId
    ensures a.Admitted? ==> a.username == DisplayName(queryName, tokens[token.value])
    ensures a.Admitted? ==> (a.permitted <==> MayEdit(docs[d], collabs, d, a.userId))
  {
    match token
    case None => Anonymous
    case Some(t) =>
      if t !in tokens then Rejected
      else
        var claims := tokens[t];
        match GetDocument(docs, d)
        case Err(_) => Rejected
        case Ok(doc) => Admitted(claims.userId, DisplayName(queryName, claims), MayEdit(doc, collabs, d, claims.userId))
  }

  /** A valid token for a missing or deleted document is answered like an invalid token,
      never with the document-not-found close. */
  lemma MissingDocumentLooksLikeBadToken(token: string, queryName: Option<string>, d: DocId,
                                         tokens: map<string, Claims>, docs: DocTable, collabs: Collaborators)
    requires token in tokens
    requires !(d in docs && Enabled(docs[d]))
    ensures Authorize(Some(token), queryName, d, tokens, docs, collabs) == Rejected
  {
  }

  /** Looking at the token, the document and the collaborator table is all the check does:
      the owner and every collaborator are admitted with permission, whatever name they
      ask for. */
  lemma MembersArePermitted(token: string, queryName: Option<string>, d: DocId,
                            tokens: map<string, Claims>, docs: DocTable, collabs: Collaborators)
    requires token in tokens && d in docs && Enabled(docs[d])
    requires docs[d].ownerId == tokens[token].userId || (d, tokens[token].userId) in collabs
    ensures Authorize(Some(token), queryName, d, tokens, docs, collabs)
         == Admitted(tokens[token].userId, DisplayName(queryName, tokens[token]), true)
  {
  }
}
