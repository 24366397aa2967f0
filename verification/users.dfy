/** The user controller: registration, the refresh-token session (login stores the issued
    token, refresh rotates it only when the presented token is the stored one, logout clears
    it), password change, and the channel profile. Signing and verifying tokens is done by a
    library: the issued tokens and the id a presented token decodes to are parameters. */
module Users {
  import opened Common
  import opened Text
  import opened Query
  import opened Database
  import opened Subscriptions

  /** Changing a user's fields other than the e-mail keeps e-mail addresses unique. */
  lemma SameEmailUpdate(users: map<Id, User>, n: Id, u: User)
    requires UniqueBy(users, Email) && n in users && u.email == users[n].email
    ensures UniqueBy(users[n := u], Email)
  {
    var m := users[n := u];
    forall i, j | i in m && j in m && Email(m[i]) == Email(m[j]) ensures i == j {
      assert Email(m[i]) == Email(users[i]) && Email(m[j]) == Email(users[j]);
    }
  }

  /** registerUser: a supplied field that trims to nothing 400; an e-mail already registered
      409; no uploaded avatar 400; a field that was not supplied at all makes creation fail
      (500). Otherwise the user is created with the username lower-cased, the cover image URL
      or "", and no refresh token (201). `avatar` and `coverImage` are the URLs the uploads
      produced, absent when the file was missing or the upload failed. */
  method RegisterUser(db: Store, fullName: Option<string>, email: Option<string>,
                      username: Option<string>, password: Option<string>,
                      avatar: Option<string>, coverImage: Option<string>) returns (r: Reply<Id>)
    requires db.Valid()
    modifies db`users, db`nextId
    ensures db.Valid()
    ensures Blank(fullName) || Blank(email) || Blank(username) || Blank(password) ==> r == Err(BadRequest)
    ensures !Blank(fullName) && !Blank(email) && !Blank(username) && !Blank(password) ==>
      var taken := email.Some? && email.value in Image(old(db.users), Email);
      var missing := fullName.None? || email.None? || username.None? || password.None?;
      && (taken ==> r == Err(Conflict))
      && (!taken && avatar.None? ==> r == Err(BadRequest))
      && (!taken && avatar.Some? && missing ==> r == Err(ServerError))
      && (!taken && avatar.Some? && !missing ==>
            && r == Ok(Created, old(db.nextId)) && r.body !in old(db.users)
            && db.users == old(db.users)[r.body := User(ToLower(username.value), email.value, fullName.value,
                                                        avatar.value, if coverImage.Some? then coverImage.value else "",
                                                        password.value, None)])
    ensures r.Err? ==> db.users == old(db.users) && db.nextId == old(db.nextId)
  {
    if Blank(fullName) || Blank(email) || Blank(username) || Blank(password) {
      return Err(BadRequest);
    }
    if email.Some? {
      WithKeyImage(db.users, Email, email.value);
      if WithKey(db.users, Email, email.value) != {} {
        return Err(Conflict);
      }
    }
    if avatar.None? {
      return Err(BadRequest);
    }
    if fullName.None? || email.None? || username.None? || password.None? {
      return Err(ServerError);
    }
    var u := User(ToLower(username.value), email.value, fullName.value, avatar.value,
                  if coverImage.Some? then coverImage.value else "", password.value, None);
    var id := InsertUser(db, u);
    r := Ok(Created, id);
  }

  /** `User.create` for an e-mail nobody has registered: the user is stored under a fresh id. */
  method InsertUser(db: Store, u: User) returns (id: Id)
    requires db.Valid() && u.email !in Image(db.users, Email)
    modifies db`users, db`nextId
    ensures db.Valid()
    ensures id == old(db.nextId) && id !in old(db.users)
    ensures db.users == old(db.users)[id := u]
  {
    id := db.nextId;
    ImageInsert(db.users, Email, id, u);
    db.users := db.users[id := u];
    db.nextId := db.nextId + 1;
  }

  /** The users `findOne({ $or: [{ email }, { username }] })` can match; an absent field
      matches nobody. */
  function LoginMatches(users: map<Id, User>, email: Option<string>, username: Option<string>): set<Id>
  {
    set i | i in users && ((email.Some? && users[i].email == email.value)
                           || (username.Some? && users[i].username == username.value))
  }

  /** With unique e-mails, a login by e-mail alone matches at most one user. */
  lemma EmailLoginUnique(users: map<Id, User>, email: string)
    requires UniqueBy(users, Email)
    ensures |LoginMatches(users, Some(email), None)| <= 1
    ensures forall i :: i in LoginMatches(users, Some(email), None) <==> i in users && users[i].email == email
  {
    var m := LoginMatches(users, Some(email), None);
    if m != {} {
      var i :| i in m;
      forall j | j in m ensures j == i {
        assert Email(users[i]) == Email(users[j]);
      }
      assert m == {i};
    }
  }

  /** The tokens a successful login or refresh hands out. */
  datatype Session = Session(user: Id, accessToken: string, refreshToken: string)

  /** generateAcessTokenAndRefreshToken: the newly signed refresh token becomes the user's
      stored one; nothing else changes. */
  method StoreRefreshToken(db: Store, user: Id, refreshToken: string)
    requires db.Valid() && user in db.users
    modifies db`users
    ensures db.Valid()
    ensures db.users == old(db.users)[user := old(db.users)[user].(refreshToken := Some(refreshToken))]
  {
    SameEmailUpdate(db.users, user, db.users[user].(refreshToken := Some(refreshToken)));
    db.users := db.users[user := db.users[user].(refreshToken := Some(refreshToken))];
  }

  /** userLogin: neither e-mail nor username 400; no matching user 400; a password that does
      not match the first matching user's 400. Otherwise the issued refresh token is stored for
      that user and both tokens are returned (200). */
  method Login(db: Store, email: Option<string>, username: Option<string>, password: string,
               accessToken: string, refreshToken: string) returns (r: Reply<Session>)
    requires db.Valid()
    modifies db`users
    ensures db.Valid()
    ensures !Present(email) && !Present(username) ==> r == Err(BadRequest)
    ensures Present(email) || Present(username) ==>
      var (before, found) := (old(db.users), First(LoginMatches(old(db.users), email, username)));
      && (found.None? ==> r == Err(BadRequest))
      && (found.Some? && before[found.value].password != password ==> r == Err(BadRequest))
      && (found.Some? && before[found.value].password == password ==>
            && r == Ok(Success, Session(found.value, accessToken, refreshToken))
            && db.users == before[found.value := before[found.value].(refreshToken := Some(refreshToken))])
    ensures r.Ok? ==> r.body.user in db.users && db.users[r.body.user].refreshToken == Some(r.body.refreshToken)
    ensures r.Err? ==> db.users == old(db.users)
  {
    if !Present(email) && !Present(username) {
      return Err(BadRequest);
    }
    var matches := LoginMatches(db.users, email, username);
    if matches == {} {
      return Err(BadRequest);
    }
    FirstExists(matches);
    var uid :| IsFirst(uid, matches);
    if db.users[uid].password != password {
      return Err(BadRequest);
    }
    StoreRefreshToken(db, uid, refreshToken);
    r := Ok(Success, Session(uid, accessToken, refreshToken));
  }

  /** The token the refresh handler reads: the cookie, or the body field when the cookie is
      missing or empty. */
  function IncomingToken(cookie: Option<string>, body: Option<string>): (r: Option<string>)
    ensures Present(r) <==> Present(cookie) || Present(body)
    ensures Present(cookie) ==> r == cookie
  {
    if Present(cookie) then cookie else body
  }

  /** acessRefreshToken: no token 400; a token that does not verify (`decoded` absent) 400; a
      token for an unknown user 400; a token other than the user's stored one 400. Otherwise a
      new pair is issued and the stored token is replaced by the new refresh token (200). */
  method RefreshAccessToken(db: Store, cookie: Option<string>, body: Option<string>, decoded: Option<Id>,
                            accessToken: string, refreshToken: string) returns (r: Reply<Session>)
    requires db.Valid()
    modifies db`users
    ensures db.Valid()
    ensures r.Ok? <==>
      var token := IncomingToken(cookie, body);
      && Present(token) && decoded.Some? && decoded.value in old(db.users)
      && old(db.users)[decoded.value].refreshToken == Some(token.value)
    ensures r.Err? ==> r == Err(BadRequest) && db.users == old(db.users)
    ensures r.Ok? ==>
      && r == Ok(Success, Session(decoded.value, accessToken, refreshToken))
      && db.users == old(db.users)[decoded.value := old(db.users)[decoded.value].(refreshToken := Some(refreshToken))]
  {
    var token := IncomingToken(cookie, body);
    if !Present(token) {
      return Err(BadRequest);
    }
    if decoded.None? {
      return Err(BadRequest);
    }
    var uid := decoded.value;
    if uid !in db.users {
      return Err(BadRequest);
    }
    if db.users[uid].refreshToken != Some(token.value) {
      return Err(BadRequest);
    }
    StoreRefreshToken(db, uid, refreshToken);
    r := Ok(Success, Session(uid, accessToken, refreshToken));
  }

  /** userLogout: the caller's stored refresh token is removed; the reply is always 200. */
  method Logout(db: Store, caller: Id) returns (r: Reply<()>)
    requires db.Valid()
    modifies db`users
    ensures db.Valid()
    ensures r == Ok(Success, ())
    ensures caller in old(db.users) ==>
      db.users == old(db.users)[caller := old(db.users)[caller].(refreshToken := None)]
    ensures caller !in old(db.users) ==> db.users == old(db.users)
    ensures caller in db.users ==> db.users[caller].refreshToken.None?
  {
    if caller in db.users {
      SameEmailUpdate(db.users, caller, db.users[caller].(refreshToken := None));
      db.users := db.users[caller := db.users[caller].(refreshToken := None)];
    }
    r := Ok(Success, ());
  }

  /** After a logout, no token of the caller's refreshes the session, whatever it is. */
  method LogoutThenRefresh(db: Store, caller: Id, cookie: Option<string>, body: Option<string>,
                           accessToken: string, refreshToken: string) returns (r: Reply<Session>)
    requires db.Valid()
    modifies db`users
    ensures db.Valid()
    ensures r == Err(BadRequest)
  {
    var _ := Logout(db, caller);
    r := RefreshAccessToken(db, cookie, body, Some(caller), accessToken, refreshToken);
  }

  /** A refresh succeeds at most once per issued token: the rotated token replaces it, so
      presenting the old one again fails unless the library issued the same string. */
  method RefreshTwice(db: Store, cookie: Option<string>, body: Option<string>, decoded: Option<Id>,
                      accessToken: string, refreshToken: string, laterAccess: string, laterRefresh: string)
    returns (first: Reply<Session>, second: Reply<Session>)
    requires db.Valid()
    modifies db`users
    ensures db.Valid()
    ensures first.Ok? && second.Ok? ==> IncomingToken(cookie, body) == Some(refreshToken)
  {
    first := RefreshAccessToken(db, cookie, body, decoded, accessToken, refreshToken);
    second := RefreshAccessToken(db, cookie, body, decoded, laterAccess, laterRefresh);
  }

  /** changeCurrentPassword: a caller whose account is gone fails (500); a wrong old password
      400; otherwise the password becomes `newPassword` and nothing else changes (200). */
  method ChangeCurrentPassword(db: Store, caller: Id, oldPassword: string, newPassword: string)
    returns (r: Reply<()>)
    requires db.Valid()
    modifies db`users
    ensures db.Valid()
    ensures caller !in old(db.users) ==> r == Err(ServerError)
    ensures caller in old(db.users) && old(db.users)[caller].password != oldPassword ==> r == Err(BadRequest)
    ensures caller in old(db.users) && old(db.users)[caller].password == oldPassword ==>
      && r == Ok(Success, ())
      && db.users == old(db.users)[caller := old(db.users)[caller].(password := newPassword)]
    ensures r.Err? ==> db.users == old(db.users)
  {
    if caller !in db.users {
      return Err(ServerError);
    }
    if db.users[caller].password != oldPassword {
      return Err(BadRequest);
    }
    SameEmailUpdate(db.users, caller, db.users[caller].(password := newPassword));
    db.users := db.users[caller := db.users[caller].(password := newPassword)];
    r := Ok(Success, ());
  }

  /** The fields getUserChannelProfile computes for a channel. */
  datatype Profile = Profile(channel: Id, subscribersCount: nat, channelsSubscribedToCount: nat,
                             isSubscribed: bool)

  /** The users the `$match: { username: username.toLowerCase() }` stage selects. */
  ghost function UsersNamed(users: map<Id, User>, name: string): set<Id>
  {
    set i | i in users && users[i].username == ToLower(name)
  }

  /** getUserChannelProfile: a username that is missing or trims to nothing 400; no user with
      the lower-cased name (untrimmed) 404. Otherwise the first such user with its subscriber
      count, the number of channels it subscribes to, and whether the viewer subscribes to it. */
  ghost function ChannelProfile(users: map<Id, User>, subs: map<Id, Subscription>,
                                username: Option<string>, viewer: Id): (r: Reply<Profile>)
    ensures username.None? || Trim(username.value) == "" ==> r == Err(BadRequest)
    ensures username.Some? && Trim(username.value) != "" && UsersNamed(users, username.value) == {} ==> r == Err(NotFound)
    ensures r.Ok? ==>
      var p := r.body;
      && r.status == Success
      && username.Some? && First(UsersNamed(users, username.value)) == Some(p.channel)
      && p.subscribersCount == |SubscribersOf(subs, p.channel)|
      && p.channelsSubscribedToCount == |SubscriptionsBy(subs, p.channel)|
      && (p.isSubscribed <==> (viewer, p.channel) in Image(subs, SubscriptionKey))
  {
    if username.None? || Trim(username.value) == "" then Err(BadRequest)
    else
      var found := First(UsersNamed(users, username.value));
      if found.None? then Err(NotFound)
      else
        var c := found.value;
        var subscribed := exists i :: i in subs && subs[i].channel == c && subs[i].subscriber == viewer;
        assert subscribed <==> (viewer, c) in Image(subs, SubscriptionKey) by {
          if (viewer, c) in Image(subs, SubscriptionKey) {
            var i :| i in subs && SubscriptionKey(subs[i]) == (viewer, c);
            assert subs[i].channel == c && subs[i].subscriber == viewer;
          }
        }
        Ok(Success, Profile(c, |SubscribersOf(subs, c)|, |SubscriptionsBy(subs, c)|, subscribed))
  }

  /** Lower-casing never turns a character into whitespace or whitespace into something else. */
  lemma LowerKeepsWhitespace(s: string)
    ensures AllWhitespace(ToLower(s)) <==> AllWhitespace(s)
  {
    if AllWhitespace(ToLower(s)) {
      forall i | 0 <= i < |s| ensures IsWhitespace(s[i]) {
        assert IsWhitespace(ToLower(s)[i]);
      }
    }
  }

  /** A name is blank exactly when its lower-cased form is. */
  lemma LowerKeepsBlank(name: string)
    ensures Trim(ToLower(name)) == "" <==> Trim(name) == ""
  {
    LowerKeepsWhitespace(name);
    TrimEmptyIff(name);
    TrimEmptyIff(ToLower(name));
  }

  /** The lookup by name lower-cases it, so a name and its lower-cased form select the same users. */
  lemma UsersNamedLower(users: map<Id, User>, name: string)
    ensures UsersNamed(users, ToLower(name)) == UsersNamed(users, name)
  {
    ToLowerIdempotent(name);
  }

  /** The profile lookup ignores the case of the requested name. */
  lemma ProfileIgnoresCase(users: map<Id, User>, subs: map<Id, Subscription>, name: string, viewer: Id)
    ensures ChannelProfile(users, subs, Some(name), viewer) == ChannelProfile(users, subs, Some(ToLower(name)), viewer)
  {
    LowerKeepsBlank(name);
    UsersNamedLower(users, name);
  }

  /** A subscription toggle by the viewer flips the channel profile's `isSubscribed` and moves
      its subscriber count by one. */
  method ToggleFromProfile(db: Store, channel: Id, viewer: Id, now: int) returns (r: Reply<Option<Id>>)
    requires db.Valid() && channel in db.users && channel != viewer
    modifies db`subscriptions, db`nextId
    ensures db.Valid()
    ensures r.Ok?
    ensures var name := db.users[channel].username;
      var (before, after) := (old(ChannelProfile(db.users, db.subscriptions, Some(name), viewer)),
                              ChannelProfile(db.users, db.subscriptions, Some(name), viewer));
      before.Ok? && before.body.channel == channel ==>
        && after.Ok? && after.body.channel == channel
        && after.body.isSubscribed == !before.body.isSubscribed
        && after.body.subscribersCount == (if before.body.isSubscribed then before.body.subscribersCount - 1
                                           else before.body.subscribersCount + 1)
  {
    r := ToggleSubscription(db, Cast(channel, true), Some(viewer), now);
  }
}
