/** The authentication middleware (src/middleware/auth.middleware.js): it reads
    the bearer token, has the identity provider verify it, finds or creates
    the local user keyed by the provider's uid, keeps the user's display name
    in step with the provider, and puts `{id, email, name}` on `req.user`.

    The identity provider is two parameters: `verify` (`verifyIdToken`) and
    `profile` (`getUser`); each yields None where the call throws. A database
    that throws on every call is `storeUp == false`. */
module AuthMiddleware {

  import opened Common
  import opened Text
  import opened Store

  /** What a verified ID token yields. */
  datatype DecodedToken = DecodedToken(uid: string, email: string)

  /** The provider's profile of a user; "" stands for an absent display name. */
  datatype ProviderUser = ProviderUser(displayName: string)

  /** `req.user` as this middleware sets it. */
  datatype ReqUser = ReqUser(id: Id, email: string, name: string)

  /** `next()` with `req.user` set, or a 401 response carrying its message. */
  datatype AuthOutcome = Authenticated(user: ReqUser) | Unauthorized(message: string)

  const MissingToken: string := "Authorization token missing"
  const InvalidToken: string := "Invalid or expired token"

  /** The token of an `Authorization` header: present exactly when the header
      starts with "Bearer ", and then the text after that prefix up to the
      next space (`authHeader.split(" ")[1]`). */
  function BearerToken(header: Option<string>): (token: Option<string>)
    ensures token.Some? <==> header.Some? && StartsWith(header.value, "Bearer ")
    ensures token.Some? ==> token.value == FirstField(header.value[7..], ' ')
    ensures token.Some? ==> ' ' !in token.value
  {
    if header.Some? && StartsWith(header.value, "Bearer ") then
      var h := header.value;
      assert h == "Bearer" + [' '] + h[7..];
      SecondFieldAfter("Bearer", h[7..], ' ');
      Some(SecondField(h, ' ').value)
    else
      None
  }

  /** Name given to a user seen for the first time: the provider's display
      name, or else the part of the email before the first '@'. */
  function NewUserName(displayName: string, email: string): (name: string)
    ensures displayName != "" ==> name == displayName
    ensures displayName == "" ==> name <= email && '@' !in name
    ensures displayName == "" ==> |name| == |email| || email[|name|] == '@'
  {
    if displayName != "" then displayName else FirstField(email, '@')
  }

  /** Name a known user ends up with: the provider's display name when it is
      non-empty, otherwise the stored one. */
  function SyncedName(displayName: string, current: string): string
  {
    if displayName != "" then displayName else current
  }

  /** `User.findOne({ firebaseUid: uid })`. */
  function UserByUid(users: seq<User>, uid: string): (r: Option<nat>)
    ensures r.Some? ==> r.value < |users| && users[r.value].firebaseUid == Some(uid)
    ensures r.None? <==> forall i :: 0 <= i < |users| ==> users[i].firebaseUid != Some(uid)
  {
    FindIndex(users, (u: User) => u.firebaseUid == Some(uid))
  }

  /** A stored user already has this email (the unique index on `email`). */
  predicate EmailTaken(users: seq<User>, email: string)
  {
    exists i :: 0 <= i < |users| && users[i].email == email
  }

  /** No two users share an email (the unique index on `email`). */
  predicate EmailsUnique(users: seq<User>)
  {
    forall i, j :: 0 <= i < |users| && 0 <= j < |users| && i != j ==> users[i].email != users[j].email
  }

  /** No two users share a provider uid (the unique index on `firebaseUid`). */
  predicate UidsUnique(users: seq<User>)
  {
    forall i, j :: 0 <= i < |users| && 0 <= j < |users| && i != j && users[i].firebaseUid.Some? ==>
      users[i].firebaseUid != users[j].firebaseUid
  }

  /** The whole middleware as a function of the user collection: the outcome
      and the collection afterwards. `newId` is the id the database gives a
      created user. */
  function Resolve(users: seq<User>, header: Option<string>,
                   verify: string -> Option<DecodedToken>, profile: string -> Option<ProviderUser>,
                   storeUp: bool, newId: Id): (AuthOutcome, seq<User>)
  {
    match BearerToken(header)
    case None => (Unauthorized(MissingToken), users)
    case Some(token) =>
      match verify(token)
      case None => (Unauthorized(InvalidToken), users)
      case Some(decoded) =>
        match profile(decoded.uid)
        case None => (Unauthorized(InvalidToken), users)
        case Some(provider) =>
          if !storeUp then (Unauthorized(InvalidToken), users)
          else
            match UserByUid(users, decoded.uid)
            case None =>
              // `User.create` violates the unique email index and throws
              if EmailTaken(users, decoded.email) then (Unauthorized(InvalidToken), users)
              else
                var created := User(newId, Some(decoded.uid), decoded.email,
                                    NewUserName(provider.displayName, decoded.email), None, None);
                (Authenticated(ReqUser(created.id, created.email, created.name)), users + [created])
            case Some(i) =>
              var name := SyncedName(provider.displayName, users[i].name);
              var users' := if users[i].name != name then users[i := users[i].(name := name)] else users;
              (Authenticated(ReqUser(users[i].id, users[i].email, name)), users')
  }

  /** A missing header, or one without the "Bearer " prefix, is rejected with
      "Authorization token missing" whatever the provider and the database
      would have answered: neither is consulted and nothing is written. */
  lemma MissingHeaderRejected(users: seq<User>, header: Option<string>,
                              verify: string -> Option<DecodedToken>, profile: string -> Option<ProviderUser>,
                              storeUp: bool, newId: Id,
                              verify': string -> Option<DecodedToken>, profile': string -> Option<ProviderUser>,
                              storeUp': bool, newId': Id)
    requires header.None? || !StartsWith(header.value, "Bearer ")
    ensures Resolve(users, header, verify, profile, storeUp, newId) == (Unauthorized(MissingToken), users)
    ensures Resolve(users, header, verify, profile, storeUp, newId)
         == Resolve(users, header, verify', profile', storeUp', newId')
  {
  }

  /** The verifier is only ever asked about the second space-separated field
      of the header: two verifiers that agree on it give the same outcome. */
  lemma OnlyBearerTokenVerified(users: seq<User>, header: string,
                                verify: string -> Option<DecodedToken>, verify': string -> Option<DecodedToken>,
                                profile: string -> Option<ProviderUser>, storeUp: bool, newId: Id)
    requires StartsWith(header, "Bearer ")
    requires verify(FirstField(header[7..], ' ')) == verify'(FirstField(header[7..], ' '))
    ensures Resolve(users, Some(header), verify, profile, storeUp, newId)
         == Resolve(users, Some(header), verify', profile, storeUp, newId)
  {
  }

  /** Any failure of the provider or of the database is a 401 "Invalid or
      expired token" that leaves the users unchanged and never reaches `next`. */
  lemma FailureIsInvalidToken(users: seq<User>, header: string,
                              verify: string -> Option<DecodedToken>, profile: string -> Option<ProviderUser>,
                              storeUp: bool, newId: Id)
    requires StartsWith(header, "Bearer ")
    requires var token := FirstField(header[7..], ' ');
             verify(token).None? || profile(verify(token).value.uid).None? || !storeUp
    ensures Resolve(users, Some(header), verify, profile, storeUp, newId) == (Unauthorized(InvalidToken), users)
  {
  }

  /** A uid seen for the first time creates exactly one user, appended, with
      that uid, the verified email and the chosen name, and no role or team;
      `req.user` describes that user. When another user already has that
      email, the creation throws: 401 "Invalid or expired token", nothing
      written. */
  lemma FirstSightCreatesOneUser(users: seq<User>, header: Option<string>,
                                 verify: string -> Option<DecodedToken>, profile: string -> Option<ProviderUser>,
                                 newId: Id)
    requires BearerToken(header).Some? && verify(BearerToken(header).value).Some?
    requires profile(verify(BearerToken(header).value).value.uid).Some?
    requires UserByUid(users, verify(BearerToken(header).value).value.uid).None?
    ensures var decoded := verify(BearerToken(header).value).value;
            var display := profile(decoded.uid).value.displayName;
            var (outcome, users') := Resolve(users, header, verify, profile, true, newId);
            && (EmailTaken(users, decoded.email) ==> outcome == Unauthorized(InvalidToken) && users' == users)
            && (!EmailTaken(users, decoded.email) ==>
            && |users'| == |users| + 1 && users'[..|users|] == users
            && users'[|users|] == User(newId, Some(decoded.uid), decoded.email,
                                       NewUserName(display, decoded.email), None, None)
            && outcome == Authenticated(ReqUser(newId, decoded.email, NewUserName(display, decoded.email))))
  {
  }

  /** A known uid creates nobody: only that user's name may change, to the
      provider's display name when one is given; the collection is written
      only when the name actually changes; role, team, email and uid stay. */
  lemma KnownUserOnlyRenamed(users: seq<User>, header: Option<string>,
                             verify: string -> Option<DecodedToken>, profile: string -> Option<ProviderUser>,
                             newId: Id)
    requires BearerToken(header).Some? && verify(BearerToken(header).value).Some?
    requires profile(verify(BearerToken(header).value).value.uid).Some?
    requires UserByUid(users, verify(BearerToken(header).value).value.uid).Some?
    ensures var decoded := verify(BearerToken(header).value).value;
            var display := profile(decoded.uid).value.displayName;
            var i := UserByUid(users, decoded.uid).value;
            var (outcome, users') := Resolve(users, header, verify, profile, true, newId);
            && |users'| == |users|
            && (forall j :: 0 <= j < |users| && j != i ==> users'[j] == users[j])
            && users'[i] == users[i].(name := SyncedName(display, users[i].name))
            && (users' == users <==> users[i].name == SyncedName(display, users[i].name))
            && outcome == Authenticated(ReqUser(users[i].id, users[i].email, users'[i].name))
  {
  }

  /** The middleware keeps provider uids unique. */
  lemma ResolveKeepsUidsUnique(users: seq<User>, header: Option<string>,
                               verify: string -> Option<DecodedToken>, profile: string -> Option<ProviderUser>,
                               storeUp: bool, newId: Id)
    requires UidsUnique(users)
    ensures UidsUnique(Resolve(users, header, verify, profile, storeUp, newId).1)
  {
    var (outcome, users') := Resolve(users, header, verify, profile, storeUp, newId);
    if outcome.Authenticated? {
      var decoded := verify(BearerToken(header).value).value;
      if UserByUid(users, decoded.uid).None? {
        assert users' == users + [users'[|users|]];
        forall i, j | 0 <= i < |users'| && 0 <= j < |users'| && i != j && users'[i].firebaseUid.Some?
          ensures users'[i].firebaseUid != users'[j].firebaseUid
        {
          if i < |users| && j < |users| {
            assert users'[i] == users[i] && users'[j] == users[j];
          }
        }
      } else {
        var k := UserByUid(users, decoded.uid).value;
        assert forall j :: 0 <= j < |users| ==> users'[j].firebaseUid == users[j].firebaseUid;
      }
    }
  }

  /** The middleware keeps emails unique: it creates a user only under an
      email nobody has, and a rename keeps every email. */
  lemma ResolveKeepsEmailsUnique(users: seq<User>, header: Option<string>,
                                 verify: string -> Option<DecodedToken>, profile: string -> Option<ProviderUser>,
                                 storeUp: bool, newId: Id)
    requires EmailsUnique(users)
    ensures EmailsUnique(Resolve(users, header, verify, profile, storeUp, newId).1)
  {
    var (outcome, users') := Resolve(users, header, verify, profile, storeUp, newId);
    if outcome.Authenticated? {
      var decoded := verify(BearerToken(header).value).value;
      if UserByUid(users, decoded.uid).None? {
        assert users' == users + [users'[|users|]];
        forall i, j | 0 <= i < |users'| && 0 <= j < |users'| && i != j
          ensures users'[i].email != users'[j].email
        {
          if i < |users| && j < |users| {
            assert users'[i] == users[i] && users'[j] == users[j];
          } else if i < |users| {
            assert users'[i] == users[i];
          } else {
            assert users'[j] == users[j];
          }
        }
      } else {
        assert forall j :: 0 <= j < |users| ==> users'[j].email == users[j].email;
      }
    }
  }

  /** Resolving the same credential twice yields the same user id, and the
      second resolution writes nothing: one record per uid. */
  lemma {:induction false} ResolveTwiceSameUser(users: seq<User>, header: Option<string>,
                                                verify: string -> Option<DecodedToken>,
                                                profile: string -> Option<ProviderUser>,
                                                newId: Id, newId': Id)
    requires UidsUnique(users)
    requires Resolve(users, header, verify, profile, true, newId).0.Authenticated?
    ensures var (first, users1) := Resolve(users, header, verify, profile, true, newId);
            var (second, users2) := Resolve(users1, header, verify, profile, true, newId');
            && second.Authenticated? && second.user.id == first.user.id
            && users2 == users1
  {
    var (first, users1) := Resolve(users, header, verify, profile, true, newId);
    var decoded := verify(BearerToken(header).value).value;
    var display := profile(decoded.uid).value.displayName;
    ResolveKeepsUidsUnique(users, header, verify, profile, true, newId);
    // the position of the user that the first call found or created
    var k := if UserByUid(users, decoded.uid).Some? then UserByUid(users, decoded.uid).value else |users|;
    assert k < |users1| && users1[k].firebaseUid == Some(decoded.uid);
    assert users1[k].id == first.user.id;
    assert users1[k].name == SyncedName(display, users1[k].name);
    var k' := UserByUid(users1, decoded.uid).value;
    assert k' == k;
  }

  /** The middleware over the database: the user collection is updated as
      `Resolve` describes, nothing else is touched. */
  method Authenticate(db: Db, header: Option<string>,
                      verify: string -> Option<DecodedToken>, profile: string -> Option<ProviderUser>,
                      storeUp: bool, newId: Id)
    returns (outcome: AuthOutcome)
    requires FreshUserId(db.users, newId)
    modifies db`users
    ensures (outcome, db.users) == Resolve(old(db.users), header, verify, profile, storeUp, newId)
    ensures outcome.Authenticated? ==> exists i :: 0 <= i < |db.users| && db.users[i].id == outcome.user.id
  {
    var token := BearerToken(header);
    if token.None? {
      return Unauthorized(MissingToken);
    }
    var decoded := verify(token.value);
    if decoded.None? {
      return Unauthorized(InvalidToken);
    }
    var provider := profile(decoded.value.uid);
    if provider.None? || !storeUp {
      return Unauthorized(InvalidToken);
    }
    var found := UserByUid(db.users, decoded.value.uid);
    if found.None? {
      if EmailTaken(db.users, decoded.value.email) {
        return Unauthorized(InvalidToken);
      }
      var created := User(newId, Some(decoded.value.uid), decoded.value.email,
                          NewUserName(provider.value.displayName, decoded.value.email), None, None);
      db.users := db.users + [created];
      assert db.users[|db.users| - 1].id == created.id;
      outcome := Authenticated(ReqUser(created.id, created.email, created.name));
    } else {
      var i := found.value;
      var user := db.users[i];
      var name := SyncedName(provider.value.displayName, user.name);
      if user.name != name {
        db.users := db.users[i := user.(name := name)];
      }
      assert db.users[i].id == user.id;
      outcome := Authenticated(ReqUser(user.id, user.email, name));
    }
  }
}
