/**
 * The request guards (server/middleware/auth.mddleware.js): bearer-token
 * authentication, which attaches the caller to the request, and the
 * role check placed in front of protected routes. Token verification is a
 * function passed in.
 */
module AuthMiddleware {
  import opened Common
  import opened Records

  /** `s.split(" ")`: the pieces between single spaces, empty pieces included. */
  function Split(s: string): (r: seq<string>)
    ensures |r| >= 1
    ensures forall i :: 0 <= i < |r| ==> ' ' !in r[i]
    decreases |s|
  {
    match FirstWhere(s, (c: char) => c == ' ')
    case None => [s]
    case Some(k) => [s[..k]] + Split(s[k + 1..])
  }

  /** `parts.join(" ")`. */
  function JoinSpaced(parts: seq<string>): string
    requires |parts| >= 1
  {
    if |parts| == 1 then parts[0] else parts[0] + " " + JoinSpaced(parts[1..])
  }

  /** Joining the pieces of a split gives back the string. */
  lemma {:induction false} JoinSplit(s: string)
    ensures JoinSpaced(Split(s)) == s
    decreases |s|
  {
    match FirstWhere(s, (c: char) => c == ' ')
    case None =>
    case Some(k) =>
      var rest := s[k + 1..];
      assert Split(s) == [s[..k]] + Split(rest);
      JoinSplit(rest);
      JoinCons(s[..k], Split(rest));
      assert s == s[..k] + " " + rest;
  }

  /** Joining a list with a word in front puts that word and a space before the join of the rest. */
  lemma JoinCons(a: string, parts: seq<string>)
    requires |parts| >= 1
    ensures JoinSpaced([a] + parts) == a + " " + JoinSpaced(parts)
  {
    assert ([a] + parts)[1..] == parts;
  }

  /** A space-free string is one piece. */
  lemma SplitWithoutSpace(a: string)
    requires ' ' !in a
    ensures Split(a) == [a]
  {
    assert FirstWhere(a, (c: char) => c == ' ').None?;
  }

  /** A space-free word followed by a space is split off as the first piece. */
  lemma SplitFirstWord(a: string, b: string)
    requires ' ' !in a
    ensures Split(a + " " + b) == [a] + Split(b)
  {
    var s := a + " " + b;
    var k := |a|;
    var f := FirstWhere(s, (c: char) => c == ' ');
    assert s[k] == ' ';
    assert f == Some(k);
    assert s[..k] == a && s[k + 1..] == b;
  }

  /** Splitting a join of space-free pieces gives back the pieces. */
  lemma {:induction false} SplitJoin(parts: seq<string>)
    requires |parts| >= 1 && forall i :: 0 <= i < |parts| ==> ' ' !in parts[i]
    ensures Split(JoinSpaced(parts)) == parts
    decreases |parts|
  {
    if |parts| == 1 {
      SplitWithoutSpace(parts[0]);
    } else {
      SplitJoin(parts[1..]);
      SplitFirstWord(parts[0], JoinSpaced(parts[1..]));
      assert parts == [parts[0]] + parts[1..];
    }
  }

  /** `header?.split(" ")[1]`, kept only when truthy: the second word, whatever the first one is. */
  function Token(header: Option<string>): (r: Option<string>)
    ensures r.Some? ==> r.value != "" && ' ' !in r.value
  {
    if header.None? then None
    else
      var parts := Split(header.value);
      if |parts| >= 2 && parts[1] != "" then Some(parts[1]) else None
  }

  /** "<scheme> <token>" yields the token for any space-free scheme word, "Bearer" or not. */
  lemma TokenOfSchemeAndToken(scheme: string, token: string)
    requires ' ' !in scheme && ' ' !in token && token != ""
    ensures Token(Some(scheme + " " + token)) == Some(token)
  {
    SplitJoin([scheme, token]);
  }

  /** A header without a space carries no token. */
  lemma NoSpaceNoToken(header: string)
    requires ' ' !in header
    ensures Token(Some(header)) == None
  {
    SplitJoin([header]);
  }

  /** `req.user`: nothing yet, the decoded token payload, or the loaded user. */
  datatype Caller = Anonymous | Decoded(id: Id) | Loaded(id: Id, user: User)

  /** The request object the guards read and annotate. */
  class Request {
    var user: Caller
  }

  /**
   * What a guard does: call `next()`, answer with an error, or throw to
   * Express's error handler.
   */
  datatype Gate = Next | Deny(code: int, message: string) | Throws

  /**
   * `authMiddleware`: 401 without a token; 401 when `verify` refuses it;
   * otherwise the payload is attached, and 401 follows if no user has the
   * decoded identifier (the payload stays attached); otherwise the loaded
   * user replaces it and the request goes on.
   */
  method Authenticate(req: Request, header: Option<string>, verify: string -> Option<Id>, users: seq<User>)
    returns (g: Gate)
    modifies req
    ensures Token(header).None? ==> g == Deny(401, "Access denied. No token provided.") && req.user == old(req.user)
    ensures Token(header).Some? && verify(Token(header).value).None? ==>
              g == Deny(401, "Unauthorized") && req.user == old(req.user)
    ensures Token(header).Some? && verify(Token(header).value).Some? ==>
              var id := verify(Token(header).value).value;
              if id < |users| then g == Next && req.user == Loaded(id, users[id])
              else g == Deny(401, "Invalid token user.") && req.user == Decoded(id)
    ensures g == Next ==> req.user.Loaded? && req.user.id < |users| && req.user.user == users[req.user.id]
  {
    var token := Token(header);
    if token.None? {
      return Deny(401, "Access denied. No token provided.");
    }
    var decoded := verify(token.value);
    if decoded.None? {
      return Deny(401, "Unauthorized");
    }
    req.user := Decoded(decoded.value);
    if decoded.value >= |users| {
      return Deny(401, "Invalid token user.");
    }
    req.user := Loaded(decoded.value, users[decoded.value]);
    g := Next;
  }

  const Forbidden: string := "Forbidden: Insufficient rights"

  /**
   * `authorizeRoles(...allowed)`: the request goes on when the loaded
   * user's role name is listed. Without a user, or with only the token
   * payload (whose `role` is a string, so `role.name` is undefined), the
   * answer is 403; a user whose role is no longer stored makes `role.name`
   * throw.
   */
  function Authorize(allowed: seq<string>, caller: Caller, roles: seq<Role>): (g: Gate)
    ensures g == Next <==> caller.Loaded? && caller.user.role < |roles| && roles[caller.user.role].name in allowed
    ensures g == Throws <==> caller.Loaded? && caller.user.role >= |roles|
    ensures g.Deny? ==> g == Deny(403, Forbidden)
  {
    match caller
    case Loaded(_, u) =>
      if u.role >= |roles| then Throws
      else if roles[u.role].name in allowed then Next
      else Deny(403, Forbidden)
    case _ => Deny(403, Forbidden)
  }

  /** An empty list of roles lets nobody through. */
  lemma AuthorizeNobody(caller: Caller, roles: seq<Role>)
    ensures Authorize([], caller, roles) != Next
  {
  }

  /** Allowing more roles never turns away a caller that was let through. */
  lemma AuthorizeMonotone(allowed: seq<string>, more: seq<string>, caller: Caller, roles: seq<Role>)
    requires forall r :: r in allowed ==> r in more
    ensures Authorize(allowed, caller, roles) == Next ==> Authorize(more, caller, roles) == Next
  {
  }

  /** Only callers the authentication guard has loaded can pass the role check. */
  lemma AuthorizeNeedsLoadedUser(allowed: seq<string>, id: Id, roles: seq<Role>)
    ensures Authorize(allowed, Anonymous, roles) == Deny(403, Forbidden)
    ensures Authorize(allowed, Decoded(id), roles) == Deny(403, Forbidden)
  {
  }
}
