/** The query string of a connection request: `split("&")` and the prefix-matching loop
    of `EditorServer.onOpen` that picks out `token=` and `username=`. */
module Query {
  import opened Wire

  const TOKEN_KEY: string := "token="
  const USERNAME_KEY: string := "username="

  /** Position of the first `&` in `s`. */
  function IndexOfAmp(s: string): (i: nat)
    requires '&' in s
    ensures i < |s| && s[i] == '&' && '&' !in s[..i]
  {
    if s[0] == '&' then 0
    else
      var j := IndexOfAmp(s[1..]);
      assert s[1..][..j] == s[1..j + 1];
      assert s[..j + 1] == [s[0]] + s[1..j + 1];
      j + 1
  }

  /** Every field between `&` separators, empty ones included. */
  function SplitAll(s: string): (r: seq<string>)
    ensures |r| >= 1
    decreases |s|
  {
    if '&' !in s then [s]
    else
      var i := IndexOfAmp(s);
      [s[..i]] + SplitAll(s[i + 1..])
  }

  /** The fields joined back with `&` separators. */
  function JoinFields(ps: seq<string>): string {
    if |ps| == 0 then ""
    else if |ps| == 1 then ps[0]
    else ps[0] + "&" + JoinFields(ps[1..])
  }

  /** Java's `String.split` with limit 0 drops trailing empty fields. */
  function DropTrailingEmpty(ps: seq<string>): (r: seq<string>)
    ensures |r| <= |ps| && r == ps[..|r|]
    ensures |r| > 0 ==> r[|r| - 1] != ""
    ensures forall k :: |r| <= k < |ps| ==> ps[k] == ""
  {
    if |ps| > 0 && ps[|ps| - 1] == "" then DropTrailingEmpty(ps[..|ps| - 1]) else ps
  }

  /** `queryString.split("&")`: a string with no separator is returned whole, otherwise
      the fields with trailing empty ones removed. */
  function JavaSplit(s: string): (r: seq<string>)
    ensures '&' !in s ==> r == [s]
    ensures |r| <= |SplitAll(s)| && r == SplitAll(s)[..|r|]
    ensures forall k :: |r| <= k < |SplitAll(s)| ==> SplitAll(s)[k] == ""
    ensures '&' in s && |r| > 0 ==> r[|r| - 1] != ""
    ensures forall k :: 0 <= k < |r| ==> '&' !in r[k]
  {
    SplitFieldsHaveNoAmp(s);
    if '&' !in s then [s] else DropTrailingEmpty(SplitAll(s))
  }

  /** The value of the last `token=` field, if any. */
  function TokenParam(ps: seq<string>): Option<string> {
    if |ps| == 0 then None
    else if HasPrefix(ps[|ps| - 1], TOKEN_KEY) then Some(ps[|ps| - 1][|TOKEN_KEY|..])
    else TokenParam(ps[..|ps| - 1])
  }

  /** Field `p` sets the display name: it is not a `token=` field (the `else if`), it
      starts with `username=` and its value decodes. */
  predicate SetsUsername(p: string, decode: string -> Option<string>) {
    !HasPrefix(p, TOKEN_KEY) && HasPrefix(p, USERNAME_KEY) && decode(p[|USERNAME_KEY|..]).Some?
  }

  /** The decoded value of the last `username=` field whose decoding succeeds, if any; a
      field whose decoding throws leaves the earlier value in place. */
  function UsernameParam(ps: seq<string>, decode: string -> Option<string>): Option<string> {
    if |ps| == 0 then None
    else if SetsUsername(ps[|ps| - 1], decode) then decode(ps[|ps| - 1][|USERNAME_KEY|..])
    else UsernameParam(ps[..|ps| - 1], decode)
  }

  /** The token a query string yields. */
  function QueryToken(query: Option<string>): Option<string> {
    if query.None? then None else TokenParam(JavaSplit(query.value))
  }

  /** The display-name override a query string yields. */
  function QueryUsername(query: Option<string>, decode: string -> Option<string>): Option<string> {
    if query.None? then None else UsernameParam(JavaSplit(query.value), decode)
  }

  /** The loop over the fields of the query string. `decode` stands for `URLDecoder.decode`,
      `None` for a decoding that throws. */
  method ParseQuery(query: Option<string>, decode: string -> Option<string>)
    returns (token: Option<string>, username: Option<string>)
    ensures token == QueryToken(query)
    ensures username == QueryUsername(query, decode)
  {
    token, username := None, None;
    if query.Some? {
      var params := JavaSplit(query.value);
      var i := 0;
      while i < |params|
        invariant 0 <= i <= |params|
        invariant token == TokenParam(params[..i])
        invariant username == UsernameParam(params[..i], decode)
      {
        var p := params[i];
        assert params[..i + 1][..i] == params[..i];
        if HasPrefix(p, TOKEN_KEY) {
          token := Some(p[|TOKEN_KEY|..]);
        } else if HasPrefix(p, USERNAME_KEY) {
          var decoded := decode(p[|USERNAME_KEY|..]);
          if decoded.Some? {
            username := decoded;
          }
        }
        i := i + 1;
      }
      assert params[..|params|] == params;
    }
  }

  /** Field `j` is a `token=` field and no later field is. */
  predicate LastTokenAt(ps: seq<string>, j: int) {
    0 <= j < |ps| && HasPrefix(ps[j], TOKEN_KEY)
    && forall k :: j < k < |ps| ==> !HasPrefix(ps[k], TOKEN_KEY)
  }

  /** Field `j` sets the display name and no later field does. */
  predicate LastUsernameAt(ps: seq<string>, decode: string -> Option<string>, j: int) {
    0 <= j < |ps| && SetsUsername(ps[j], decode)
    && forall k :: j < k < |ps| ==> !SetsUsername(ps[k], decode)
  }

  /** The token is the text after the first six characters of the last `token=` field:
      a later field overrides an earlier one. */
  lemma {:induction false} TokenFromLastField(ps: seq<string>, j: int)
    requires LastTokenAt(ps, j)
    ensures TokenParam(ps) == Some(ps[j][6..])
    decreases |ps|
  {
    if j < |ps| - 1 {
      var init := ps[..|ps| - 1];
      assert LastTokenAt(init, j) by {
        forall k | j < k < |init| ensures !HasPrefix(init[k], TOKEN_KEY) {
          assert init[k] == ps[k];
        }
      }
      TokenFromLastField(init, j);
    }
  }

  /** There is no token exactly when no field starts with `token=`. */
  lemma {:induction false} NoTokenField(ps: seq<string>)
    ensures TokenParam(ps).None? <==> forall k :: 0 <= k < |ps| ==> !HasPrefix(ps[k], TOKEN_KEY)
    decreases |ps|
  {
    if |ps| > 0 {
      var init := ps[..|ps| - 1];
      NoTokenField(init);
      assert forall k :: 0 <= k < |init| ==> init[k] == ps[k];
    }
  }

  /** A token that was found comes from the last `token=` field. */
  lemma {:induction false} TokenHasLastField(ps: seq<string>)
    requires TokenParam(ps).Some?
    ensures exists j :: LastTokenAt(ps, j) && TokenParam(ps) == Some(ps[j][6..])
    decreases |ps|
  {
    var last := |ps| - 1;
    if HasPrefix(ps[last], TOKEN_KEY) {
      assert LastTokenAt(ps, last);
    } else {
      var init := ps[..last];
      TokenHasLastField(init);
      var j :| LastTokenAt(init, j) && TokenParam(init) == Some(init[j][6..]);
      assert init[j] == ps[j];
      assert LastTokenAt(ps, j) by {
        forall k | j < k < |ps| ensures !HasPrefix(ps[k], TOKEN_KEY) {
          if k < last { assert init[k] == ps[k]; }
        }
      }
    }
  }

  /** The display name is the decoded text after the first nine characters of the last
      `username=` field that decodes. */
  lemma {:induction false} UsernameFromLastField(ps: seq<string>, decode: string -> Option<string>, j: int)
    requires LastUsernameAt(ps, decode, j)
    ensures UsernameParam(ps, decode) == decode(ps[j][9..])
    ensures UsernameParam(ps, decode).Some?
    decreases |ps|
  {
    if j < |ps| - 1 {
      var init := ps[..|ps| - 1];
      assert LastUsernameAt(init, decode, j) by {
        forall k | j < k < |init| ensures !SetsUsername(init[k], decode) {
          assert init[k] == ps[k];
        }
      }
      UsernameFromLastField(init, decode, j);
    }
  }

  /** There is no display name exactly when no field sets one. */
  lemma {:induction false} NoUsernameField(ps: seq<string>, decode: string -> Option<string>)
    ensures UsernameParam(ps, decode).None? <==> forall k :: 0 <= k < |ps| ==> !SetsUsername(ps[k], decode)
    decreases |ps|
  {
    if |ps| > 0 {
      var init := ps[..|ps| - 1];
      NoUsernameField(init, decode);
      assert forall k :: 0 <= k < |init| ==> init[k] == ps[k];
    }
  }

  /** Dropping the trailing empty fields changes neither result: an empty field matches
      no prefix. */
  lemma {:induction false} DropTrailingEmptyKeepsParams(ps: seq<string>, decode: string -> Option<string>)
    ensures TokenParam(DropTrailingEmpty(ps)) == TokenParam(ps)
    ensures UsernameParam(DropTrailingEmpty(ps), decode) == UsernameParam(ps, decode)
    decreases |ps|
  {
    if |ps| > 0 && ps[|ps| - 1] == "" {
      DropTrailingEmptyKeepsParams(ps[..|ps| - 1], decode);
    }
  }

  /** No field of the split contains the separator. */
  lemma {:induction false} SplitFieldsHaveNoAmp(s: string)
    ensures forall k :: 0 <= k < |SplitAll(s)| ==> '&' !in SplitAll(s)[k]
    decreases |s|
  {
    if '&' in s {
      var i := IndexOfAmp(s);
      SplitFieldsHaveNoAmp(s[i + 1..]);
    }
  }

  /** Joining the fields with `&` gives back the query string. */
  lemma {:induction false} JoinSplit(s: string)
    ensures JoinFields(SplitAll(s)) == s
    decreases |s|
  {
    if '&' in s {
      var i := IndexOfAmp(s);
      var rest := s[i + 1..];
      JoinSplit(rest);
      assert s == s[..i] + "&" + rest;
    }
  }
}
