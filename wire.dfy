/** Shared vocabulary: identifiers, the wire message, deliveries, close reasons and
    the business errors the services raise. */
module Wire {

  datatype Option<T> = None | Some(value: T)

  datatype Result<T, E> = Ok(value: T) | Err(error: E)

  type DocId = string
  type SessionId = string
  type UserId = nat

  /** The `data` field of a message. `NameList` stands for the JSON array of display
      names sent with USER_LIST; the JSON encoding itself is not modelled. */
  datatype Data = NoData | Text(text: string) | NameList(names: seq<string>)

  /** A message `{type, sender, data}`; an absent sender is JSON null. */
  datatype Msg = Msg(kind: string, sender: Option<string>, data: Data)

  /** One `sendText` that reached its recipient. */
  datatype Delivery = Delivery(to: SessionId, msg: Msg)

  /** Close codes used by the endpoint. */
  datatype CloseCode = CannotAccept | ViolatedPolicy

  /** Reason texts used by the endpoint. */
  datatype CloseReason = DocumentNotFoundReason | DocumentNoPermissionReason | InvalidToken

  datatype CloseEvent = CloseEvent(session: SessionId, code: CloseCode, reason: CloseReason)

  /** The business exceptions thrown by the services. */
  datatype Error =
    | UsernameExist
    | EmailExist
    | PasswordError
    | AccountDisabled
    | DocumentNotFound
    | DocumentNoPermission
    | InviteCodeInvalid

  // Message types.
  const EDIT: string := "EDIT"
  const SYNC: string := "SYNC"
  const CURSOR: string := "CURSOR"
  const USER_JOIN: string := "USER_JOIN"
  const USER_LEAVE: string := "USER_LEAVE"
  const USER_LIST: string := "USER_LIST"
  const DOC_DELETED: string := "DOC_DELETED"
  const PING: string := "PING"
  const PONG: string := "PONG"

  /** Sender name of server-originated messages. */
  const SENDER_SERVER: string := "server"

  /** Display name of a connection opened without a token. */
  const ANONYMOUS: string := "匿名用户"

  /** Document and user status values. */
  const ENABLE: int := 1
  const DISABLE: int := 0

  /** True when `p` begins with `prefix` (Java's `startsWith`). */
  predicate HasPrefix(p: string, prefix: string) {
    |prefix| <= |p| && p[..|prefix|] == prefix
  }

  /** No element occurs twice. */
  ghost predicate NoRepeats<T>(s: seq<T>) {
    forall x | x in s :: multiset(s)[x] == 1
  }

  /** Two repeat-free sequences with no element in common concatenate to a repeat-free one. */
  lemma NoRepeatsConcat<T>(a: seq<T>, b: seq<T>)
    requires NoRepeats(a) && NoRepeats(b)
    requires forall x | x in a :: x !in b
    ensures NoRepeats(a + b)
  {
    forall x | x in a + b ensures multiset(a + b)[x] == 1 {
      assert multiset(a + b) == multiset(a) + multiset(b);
      if x in a { assert x !in multiset(b); } else { assert x !in multiset(a); }
    }
  }

  /** Being repeat-free depends only on the multiset of elements. */
  lemma NoRepeatsPermutation<T>(a: seq<T>, b: seq<T>)
    requires NoRepeats(a) && multiset(a) == multiset(b)
    ensures NoRepeats(b)
  {
    forall x | x in b ensures multiset(b)[x] == 1 {
      assert x in multiset(b);
      assert x in multiset(a);
    }
  }
}
