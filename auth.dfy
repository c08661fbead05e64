/** The `login` handler: look a user up by the email and password of the
    request body and decide between "no such user", "not verified" and a
    session token for that user. */
module Auth {
  import opened Documents

  /** The login query's condition on field `k`, with the request value `f`
      serialized as the driver does (undefined becomes null). */
  predicate QueryMatches(d: Doc, k: Key, f: Field)
  {
    Matches(Lookup(d, k), Stored(f))
  }

  /** The user document `d` matches the login query `{ email, password }`. */
  predicate HasCredentials(d: Doc, email: Field, password: Field)
  {
    QueryMatches(d, Email, email) && QueryMatches(d, Password, password)
  }

  /** `m` is the least id of `s`. */
  predicate IsLeast(m: Id, s: set<Id>)
  {
    m in s && forall x :: x in s ==> m <= x
  }

  /** Every non-empty set of ids has a least element. */
  lemma {:induction false} LeastExists(s: set<Id>)
    requires s != {}
    ensures exists m :: IsLeast(m, s)
  {
    var y :| y in s;
    if s == {y} {
      assert IsLeast(y, s);
    } else {
      var rest := s - {y};
      LeastExists(rest);
      var m :| IsLeast(m, rest);
      var w := if y < m then y else m;
      forall x | x in s
        ensures w <= x
      {
        if x != y {
          assert x in rest;
        }
      }
      assert IsLeast(w, s);
    }
  }

  /** The least id of a non-empty set. */
  function Least(s: set<Id>): (m: Id)
    requires s != {}
    ensures m in s && forall x :: x in s ==> m <= x
  {
    LeastExists(s);
    var m :| IsLeast(m, s); m
  }

  /** `findOne` of the login query: no user when none matches, otherwise the
      matching user with the least id, the model's choice for the first match
      in the store's natural order, which is unspecified. */
  function FindUser(users: map<Id, Doc>, email: Field, password: Field): (r: Option<Id>)
    ensures r.None? <==> forall id :: id in users ==> !HasCredentials(users[id], email, password)
    ensures r.Some? ==> r.value in users && HasCredentials(users[r.value], email, password)
    ensures r.Some? ==> forall id :: id in users && HasCredentials(users[id], email, password) ==> r.value <= id
  {
    var ids := set id | id in users && HasCredentials(users[id], email, password);
    assert forall id :: id in users && HasCredentials(users[id], email, password) ==> id in ids;
    if ids == {} then None else Some(Least(ids))
  }

  /** The session token the handler signs; its payload is the user's id.
      Signing and expiry are not modelled. */
  datatype Token = Token(userId: Id)

  /** The three answers of `login`. */
  datatype LoginReply =
    | NoSuchUser
    | NotVerified
    | LoggedIn(user: Doc, jwt: Token)
  {
    /** The `status` the handler puts in its JSON reply. */
    function Status(): int
    {
      match this
      case NoSuchUser => 404
      case NotVerified => 401
      case LoggedIn(_, _) => 200
    }
  }

  /** The handler refuses a user only when `isVerified` is exactly `false`;
      a missing, null, 0 or "" flag does not block the login. */
  predicate BlocksLogin(d: Doc)
  {
    Lookup(d, IsVerified) == Some(Bool(false))
  }

  /** The `login` handler. */
  function Login(users: map<Id, Doc>, email: Field, password: Field): (r: LoginReply)
    ensures r.NoSuchUser? <==> forall id :: id in users ==> !HasCredentials(users[id], email, password)
    ensures r.NotVerified? <==>
      exists id :: id in users && HasCredentials(users[id], email, password) && BlocksLogin(users[id])
        && forall j :: j in users && HasCredentials(users[j], email, password) ==> id <= j
    ensures r.LoggedIn? ==>
      && r.jwt.userId in users
      && r.user == users[r.jwt.userId]
      && HasCredentials(r.user, email, password)
      && !BlocksLogin(r.user)
      && forall j :: j in users && HasCredentials(users[j], email, password) ==> r.jwt.userId <= j
  {
    match FindUser(users, email, password)
    case None => NoSuchUser
    case Some(id) =>
      if BlocksLogin(users[id]) then NotVerified else LoggedIn(users[id], Token(id))
  }

  /** A user whose email and password match and who is the only match logs
      in unless their `isVerified` is exactly `false`; the token carries
      their id. */
  lemma SoleMatchLogsIn(users: map<Id, Doc>, email: Field, password: Field, id: Id)
    requires id in users && HasCredentials(users[id], email, password)
    requires forall j :: j in users && j != id ==> !HasCredentials(users[j], email, password)
    ensures BlocksLogin(users[id]) ==> Login(users, email, password) == NotVerified
    ensures !BlocksLogin(users[id]) ==> Login(users, email, password) == LoggedIn(users[id], Token(id))
  {
    var r := FindUser(users, email, password);
    assert r.Some?;
    assert r.value == id;
  }

  /** A request without email and password does not fail outright: the query
      becomes `{ email: null, password: null }` and matches the users whose
      email and password are each missing, null, or an array holding null. */
  lemma MissingCredentialsMatchBareUsers(d: Doc)
    ensures HasCredentials(d, None, None) <==>
      (Lookup(d, Email) in {None, Some(Null)} || (Email in d && d[Email].Arr? && Null in d[Email].elems))
      && (Lookup(d, Password) in {None, Some(Null)} || (Password in d && d[Password].Arr? && Null in d[Password].elems))
  {
  }

  /** A user with the requested email and password as plain strings matches
      the query. */
  lemma StoredCredentialsMatch(d: Doc, email: string, password: string)
    requires Lookup(d, Email) == Some(Str(email)) && Lookup(d, Password) == Some(Str(password))
    ensures HasCredentials(d, Some(Str(email)), Some(Str(password)))
  {
  }

  /** A string password never matches a stored password that is a different
      string: when every user has one, login is refused with 404. */
  lemma WrongPasswordRejected(users: map<Id, Doc>, email: string, password: string)
    requires forall id :: id in users ==> exists p :: Lookup(users[id], Password) == Some(Str(p)) && p != password
    ensures Login(users, Some(Str(email)), Some(Str(password))) == NoSuchUser
  {
  }
}
