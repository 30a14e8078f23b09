/** The bearer-token check of src/middleware/auth.js: the `Authorization`
    header must read `Bearer <token>`, and the token must be the token of a
    user listed in src/config/users.json. */
module Auth {
  import opened Common

  /** An entry of the `users` list; its `token` may be absent. The other
      profile fields are carried along as `name`. */
  datatype User = User(name: string, token: Field)

  /** The middleware's verdict: 401 or 403 or 500 without calling `next`, or
      `next` called once with `req.user` set. */
  datatype Outcome = Unauthorized | Forbidden | InternalError | Proceed(user: User)

  const BEARER := "Bearer "

  /** The header is present and announces a bearer token. */
  predicate WellFormed(header: Field) {
    Truthy(header) && StartsWith(header.value, BEARER)
  }

  /** `authHeader.split(' ')[1]`. */
  function BearerToken(header: string): (token: string)
    requires StartsWith(header, BEARER)
    ensures ' ' !in token
  {
    assert header[6] == ' ';
    var parts := Split(header, ' ');
    parts[1]
  }

  /** The token is the text after `Bearer ` up to the next space (or to the
      end of the header). */
  lemma {:induction false} TokenAfterPrefix(header: string)
    requires StartsWith(header, BEARER)
    ensures BearerToken(header) == FirstField(header[|BEARER|..], ' ')
    ensures ' ' !in header[|BEARER|..] ==> BearerToken(header) == header[|BEARER|..]
  {
    var rest := header[|BEARER|..];
    assert header == "Bearer" + [' '] + rest;
    SplitPrefix("Bearer", rest, ' ');
    var parts := Split(rest, ' ');
    JoinSplit(rest, ' ');
    JoinHead(parts, ' ');
  }

  /** The user `find` returns for a token: the index of the first entry
      whose token is strictly equal, or the list's length when none is. */
  function FindUser(users: seq<User>, token: string): (k: nat)
    ensures k <= |users|
    ensures forall j :: 0 <= j < k ==> users[j].token != Some(token)
    ensures k < |users| ==> users[k].token == Some(token)
  {
    if users == [] then 0
    else if users[0].token == Some(token) then 0
    else 1 + FindUser(users[1..], token)
  }

  /** `authMiddleware` on the request's header and the users file (None when
      reading or parsing the file fails, or it has no user list). */
  function Authenticate(header: Field, users: Option<seq<User>>): (o: Outcome)
    ensures o.Unauthorized? <==> !WellFormed(header)
    ensures o.InternalError? <==> WellFormed(header) && users.None?
    ensures o.Forbidden? <==> WellFormed(header) && users.Some?
                               && forall u :: u in users.value ==> u.token != Some(BearerToken(header.value))
    ensures o.Proceed? ==>
              WellFormed(header) && users.Some?
              && exists k :: 0 <= k < |users.value| && users.value[k] == o.user
                             && o.user.token == Some(BearerToken(header.value))
                             && forall j :: 0 <= j < k ==> users.value[j].token != Some(BearerToken(header.value))
  {
    if !WellFormed(header) then Unauthorized
    else
      var token := BearerToken(header.value);
      match users
      case None => InternalError
      case Some(list) =>
        var k := FindUser(list, token);
        if k == |list| then Forbidden
        else Proceed(list[k])
  }

  /** A header built as `Bearer <token>` from a space-free token is accepted
      for the first user holding that token. */
  lemma {:induction false} IssuedTokenAccepted(token: string, users: seq<User>, k: nat)
    requires ' ' !in token
    requires k < |users| && users[k].token == Some(token)
    requires forall j :: 0 <= j < k ==> users[j].token != Some(token)
    ensures Authenticate(Some(BEARER + token), Some(users)) == Proceed(users[k])
  {
    var header := BEARER + token;
    assert header[..|BEARER|] == BEARER;
    assert header[|BEARER|..] == token;
    TokenAfterPrefix(header);
    assert FindUser(users, token) == k;
  }
}
