/** The state-changing handlers of the backend over its three collections:
    `users` and `posts`, keyed by document id, and the append-only `otps`.
    Each method answers with the `status` the handler puts in its JSON
    reply. A request body's `data` is `None` when it is undefined or null,
    where the update handlers throw on reading a field of it and answer 500;
    create-post answers 200 even then. */
module Backend {
  import opened Documents
  import opened Patch
  import opened Auth
  import opened Otp

  /** The database the handlers share. */
  class Database {
    var users: map<Id, Doc>
    var posts: map<Id, Doc>
    var otps: seq<OtpRecord>
    /** The id the next inserted post receives; the model hands ids out in
        increasing order, so every stored post has a smaller one. */
    var nextPostId: Id

    ghost predicate Valid()
      reads this
    {
      forall id :: id in posts ==> id < nextPostId
    }

    constructor (users0: map<Id, Doc>, posts0: map<Id, Doc>, otps0: seq<OtpRecord>, nextPostId0: Id)
      requires forall id :: id in posts0 ==> id < nextPostId0
      ensures Valid()
      ensures users == users0 && posts == posts0 && otps == otps0 && nextPostId == nextPostId0
    {
      users := users0;
      posts := posts0;
      otps := otps0;
      nextPostId := nextPostId0;
    }

    /** `PUT /update-user/:id`: 404 for an unknown user; 500 when the body
        has no `data`; otherwise the update object of `data` is `$set` into
        the user's document, and nothing else changes. The reply's `updateOne`
        result matches the one user, and counts it as modified exactly when
        its document changed. */
    method UpdateUser(id: Id, data: Option<Doc>) returns (status: int, matchedCount: int, modifiedCount: int)
      modifies this`users
      ensures id !in old(users) ==> status == 404 && users == old(users)
      ensures id in old(users) && data.None? ==> status == 500 && users == old(users)
      ensures id in old(users) && data.Some? ==>
        && status == 200
        && users == old(users)[id := SetFields(old(users)[id], UpdateObject(USER_FIELDS, data.value))]
        && matchedCount == 1
        && modifiedCount == if users[id] != old(users)[id] then 1 else 0
      ensures status != 200 ==> matchedCount == 0 && modifiedCount == 0
    {
      if id !in users {
        return 404, 0, 0;
      }
      if data.None? {
        return 500, 0, 0;
      }
      var updateObject := UpdateObject(USER_FIELDS, data.value);
      var updated := SetFields(users[id], updateObject);
      modifiedCount := if updated != users[id] then 1 else 0;
      users := users[id := updated];
      status, matchedCount := 200, 1;
    }

    /** `DELETE /delete-user/:id`: the reply is always 200; the user with
        that id, if any, is removed (`deletedCount` 1) and no other. */
    method DeleteUser(id: Id) returns (status: int, deletedCount: int)
      modifies this`users
      ensures status == 200
      ensures users == old(users) - {id}
      ensures deletedCount == if id in old(users) then 1 else 0
    {
      deletedCount := if id in users then 1 else 0;
      users := users - {id};
      status := 200;
    }

    /** `POST /getVerificationCode`: the code drawn is stored with the email
        and the time before the mail is sent, so a failed send (500) still
        leaves it stored. */
    method GetVerificationCode(email: Field, draw: int, now: int, mailSent: bool) returns (status: int)
      requires 0 <= draw < 9000
      modifies this`otps
      ensures otps == old(otps) + [OtpRecord(Stored(email), OtpCode(draw), now)]
      ensures status == if mailSent then 200 else 500
    {
      var otp := OtpCode(draw);
      otps := otps + [OtpRecord(Stored(email), otp, now)];
      status := if mailSent then 200 else 500;
    }

    /** `POST /verifyOTP` reads the stored codes and changes nothing. */
    function VerifyRequest(email: Field, userOtp: Field): (r: VerifyReply)
      reads this
      ensures r == NoOtpFound <==> Latest(otps, Stored(email)).None?
      ensures r == Verified <==>
        Latest(otps, Stored(email)).Some? && userOtp == Some(Str(otps[Latest(otps, Stored(email)).value].otp))
    {
      VerifyOtp(otps, email, userOtp)
    }

    /** `PUT /reset-password/:id`: 404 for an unknown user; 500 when the body
        has no `data`; otherwise only the user's password changes, to the
        request's `data.password` as the driver writes it (null when it is
        undefined). The reply's `updateOne` result matches the one user, and
        counts it as modified exactly when the password changed. */
    method ResetPassword(id: Id, data: Option<Doc>) returns (status: int, matchedCount: int, modifiedCount: int)
      modifies this`users
      ensures id !in old(users) ==> status == 404 && users == old(users)
      ensures id in old(users) && data.None? ==> status == 500 && users == old(users)
      ensures id in old(users) && data.Some? ==>
        && status == 200
        && users == old(users)[id := old(users)[id][Password := Stored(Lookup(data.value, Password))]]
        && matchedCount == 1
        && modifiedCount == if Lookup(old(users)[id], Password) != Some(Stored(Lookup(data.value, Password))) then 1 else 0
      ensures status != 200 ==> matchedCount == 0 && modifiedCount == 0
    {
      if id !in users {
        return 404, 0, 0;
      }
      if data.None? {
        return 500, 0, 0;
      }
      var password := Stored(Lookup(data.value, Password));
      var updated := SetFields(users[id], map[Password := password]);
      assert updated == users[id][Password := password];
      modifiedCount := if updated != users[id] then 1 else 0;
      users := users[id := updated];
      status, matchedCount := 200, 1;
    }

    /** `POST /create-post` as written: `data` is inserted under a fresh id
        and the reply is 200. When there is no `data` the insert throws,
        nothing is stored, and the `catch` replies 200 as well, so a 200
        reply does not mean that a post was stored. */
    method CreatePost(data: Option<Doc>) returns (status: int, id: Option<Id>)
      requires Valid()
      modifies this`posts, this`nextPostId
      ensures Valid()
      ensures data.None? ==> status == 200 && id.None? && posts == old(posts) && nextPostId == old(nextPostId)
      ensures data.Some? ==>
        && status == 200 && id == Some(old(nextPostId)) && id.value !in old(posts)
        && posts == old(posts)[id.value := data.value] && nextPostId == old(nextPostId) + 1
    {
      if data.None? {
        status, id := 200, None;
        return;
      }
      id := Some(nextPostId);
      posts := posts[nextPostId := data.value];
      nextPostId := nextPostId + 1;
      status := 200;
    }

    /** `POST /create-post` with the failure status every other handler
        uses: 200 exactly when a post was stored, 500 when the insert threw. */
    method CreatePostCorrected(data: Option<Doc>) returns (status: int, id: Option<Id>)
      requires Valid()
      modifies this`posts, this`nextPostId
      ensures Valid()
      ensures status == 200 <==> posts != old(posts)
      ensures status == 200 || status == 500
      ensures data.None? ==> status == 500 && id.None? && posts == old(posts) && nextPostId == old(nextPostId)
      ensures data.Some? ==>
        && status == 200 && id == Some(old(nextPostId)) && id.value !in old(posts)
        && posts == old(posts)[id.value := data.value] && nextPostId == old(nextPostId) + 1
    {
      if data.None? {
        status, id := 500, None;
        return;
      }
      id := Some(nextPostId);
      assert nextPostId !in posts;
      posts := posts[nextPostId := data.value];
      assert nextPostId in posts;
      nextPostId := nextPostId + 1;
      status := 200;
    }

    /** `PUT /update-post/:id`: 404 for an unknown post; 500 when the body
        has no `data`; otherwise the update object of `data` is `$set` into
        the post's document, and nothing else changes. The reply's
        `updateOne` result matches the one post, and counts it as modified
        exactly when its document changed. */
    method UpdatePost(id: Id, data: Option<Doc>) returns (status: int, matchedCount: int, modifiedCount: int)
      requires Valid()
      modifies this`posts
      ensures Valid()
      ensures id !in old(posts) ==> status == 404 && posts == old(posts)
      ensures id in old(posts) && data.None? ==> status == 500 && posts == old(posts)
      ensures id in old(posts) && data.Some? ==>
        && status == 200
        && posts == old(posts)[id := SetFields(old(posts)[id], UpdateObject(POST_FIELDS, data.value))]
        && matchedCount == 1
        && modifiedCount == if posts[id] != old(posts)[id] then 1 else 0
      ensures status != 200 ==> matchedCount == 0 && modifiedCount == 0
    {
      if id !in posts {
        return 404, 0, 0;
      }
      if data.None? {
        return 500, 0, 0;
      }
      var updateObject := UpdateObject(POST_FIELDS, data.value);
      var updated := SetFields(posts[id], updateObject);
      modifiedCount := if updated != posts[id] then 1 else 0;
      posts := posts[id := updated];
      status, matchedCount := 200, 1;
    }

    /** `DELETE /delete-post/:id`: the reply is always 200; the post with
        that id, if any, is removed (`deletedCount` 1) and no other. */
    method DeletePost(id: Id) returns (status: int, deletedCount: int)
      requires Valid()
      modifies this`posts
      ensures Valid()
      ensures status == 200
      ensures posts == old(posts) - {id}
      ensures deletedCount == if id in old(posts) then 1 else 0
    {
      deletedCount := if id in posts then 1 else 0;
      posts := posts - {id};
      status := 200;
    }
  }

  /** After `update-user`, a field of the user holds the request value when
      its gate admits it and keeps its old value (or absence) otherwise; the
      other users are untouched. */
  lemma UpdateUserFields(users: map<Id, Doc>, id: Id, data: Doc, k: Key, other: Id)
    requires id in users && other != id
    ensures var users' := users[id := SetFields(users[id], UpdateObject(USER_FIELDS, data))];
      && Lookup(users'[id], k) == (if Admits(USER_FIELDS, data, k) then Lookup(data, k) else Lookup(users[id], k))
      && (other in users' <==> other in users)
      && (other in users ==> users'[other] == users[other])
  {
    SetUpdateField(users[id], USER_FIELDS, data, k);
  }

  /** After `update-post`, every field outside the post whitelist keeps its
      stored value (or stays absent): `isAds`, the owner fields, and the
      user fields such as `image` (not the post's `img`) and `name`. */
  lemma UpdatePostKeepsUnlistedFields(d: Doc, data: Doc, k: Key)
    requires k !in POST_FIELDS.whenTruthy + POST_FIELDS.whenDefined
    ensures Lookup(SetFields(d, UpdateObject(POST_FIELDS, data)), k) == Lookup(d, k)
  {
    SetUpdateField(d, POST_FIELDS, data, k);
  }

  /** After `reset-password`, a user whose email and new password are plain
      strings, and who is the only user the email query matches (another
      user's email may be any other value, an array without it included),
      can log in with them unless they are unverified. */
  lemma ResetThenLogin(users: map<Id, Doc>, id: Id, email: string, password: string)
    requires id in users && Lookup(users[id], Email) == Some(Str(email))
    requires !BlocksLogin(users[id])
    requires forall j :: j in users && j != id ==> !QueryMatches(users[j], Email, Some(Str(email)))
    ensures var users' := users[id := users[id][Password := Str(password)]];
      Login(users', Some(Str(email)), Some(Str(password))) == LoggedIn(users'[id], Token(id))
  {
    var users' := users[id := users[id][Password := Str(password)]];
    StoredCredentialsMatch(users'[id], email, password);
    SoleMatchLogsIn(users', Some(Str(email)), Some(Str(password)), id);
  }

  /** A `reset-password` request whose `data` has no `password` stores null,
      and the login query without a password, `{ email, password: null }`,
      then matches that user. */
  lemma ResetWithoutPasswordMatchesEmptyLogin(d: Doc, data: Doc, email: Field)
    requires Password !in data
    requires QueryMatches(d, Email, email)
    ensures HasCredentials(d[Password := Stored(Lookup(data, Password))], email, None)
  {
  }
}
