/**
 * The account views: registration, activation, the password-reset request and
 * confirmation, and logout. The user and profile tables are the fields of an
 * AccountStore the state-changing views update; each such view is proved against
 * a specification function of the tables before the request. Token making and
 * checking, uid decoding and refresh-token blacklisting are collaborators passed
 * in as functions.
 */
module AccountViews {
  import opened Wrappers
  import opened AccountSerializers

  /** The JSON body of a response. */
  datatype Body =
    | Error(message: string)                              // {'error': message}, serializer errors included
    | Detail(message: string)                             // {'detail': message}
    | Note(message: string)                               // {'message': message}
    | Registered(id: nat, email: string, token: string)   // {'user': {'id', 'email'}, 'token'}
    | ServerError                                         // an exception escaped the view

  datatype Response = Response(status: int, body: Body)

  const ServerFault := Response(500, ServerError)

  /** A row of the profile table: the user it belongs to and its email. */
  datatype Profile = Profile(user: nat, email: string)

  /** `default_token_generator`: `make_token(user)` and `check_token(user, token)`,
      each given the user's key and record. */
  datatype TokenGenerator = TokenGenerator(make: (nat, User) -> string, check: (nat, User, string) -> bool)

  // ---------------------------------------------------------------------------
  // Specification of the state-changing views
  // ---------------------------------------------------------------------------

  /** The user a registration request creates, if any. */
  function RegisteredUser(users: map<nat, User>, data: Registration): (u: Option<User>)
    ensures u.Some? ==> data.email.Some? && u.value == NewUser(data.email.value, data.password)
  {
    match ValidateRegistration(users, data)
    case Valid(d) =>
      if CreateUserFails(users, d.email.value) then None else Some(NewUser(d.email.value, d.password))
    case _ => None
  }

  /** The answer of `RegistrationView.post`; the new user gets key `nextId`. */
  function RegisterResponse(users: map<nat, User>, nextId: nat, data: Registration, tokens: TokenGenerator): (r: Response)
    ensures r.status == 201 <==> RegisteredUser(users, data).Some?
    ensures r.status == 201 ==> r.body == Registered(nextId, data.email.value, tokens.make(nextId, RegisteredUser(users, data).value))
    ensures r.status in {201, 400, 500}
  {
    match ValidateRegistration(users, data)
    case Rejected(e) => Response(400, Error(e))
    case Crashed => ServerFault
    case Valid(d) =>
      if CreateUserFails(users, d.email.value) then ServerFault
      else
        var u := NewUser(d.email.value, d.password);
        Response(201, Registered(nextId, u.email, tokens.make(nextId, u)))
  }

  /** The user a uid names: decoding fails, or names no user, or names one. */
  function UserOfUid(users: map<nat, User>, uidb64: string, decodeUid: string -> Option<nat>): (r: Option<nat>)
    ensures r.Some? ==> r.value in users && decodeUid(uidb64) == r
    ensures r.None? ==> decodeUid(uidb64).None? || decodeUid(uidb64).value !in users
  {
    match decodeUid(uidb64)
    case None => None
    case Some(id) => if id in users then Some(id) else None
  }

  /** The answer of `ActivateAccountView.get` and the user table after it. */
  function Activation(users: map<nat, User>, uidb64: string, token: string,
                      decodeUid: string -> Option<nat>, tokens: TokenGenerator): (r: (Response, map<nat, User>))
    ensures r.1.Keys == users.Keys
    ensures forall id :: id in users ==> r.1[id] == users[id].(isActive := r.1[id].isActive)
    ensures forall id :: id in users && users[id].isActive ==> r.1[id].isActive
  {
    match UserOfUid(users, uidb64, decodeUid)
    case None => (Response(400, Error("Invalid activation link.")), users)
    case Some(id) =>
      if !tokens.check(id, users[id], token) then (Response(400, Error("Invalid or expired activation token.")), users)
      else if !users[id].isActive then
        (Response(200, Note("Account successfully activated.")), users[id := users[id].(isActive := true)])
      else (Response(200, Note("Account is already activated.")), users)
  }

  /** The answer of `PasswordResetConfirmView.post` and the user table after it. */
  function ResetConfirmation(users: map<nat, User>, data: ResetConfirm, uidb64: string, token: string,
                             decodeUid: string -> Option<nat>, tokens: TokenGenerator): (r: (Response, map<nat, User>))
    ensures r.1.Keys == users.Keys
    ensures forall id :: id in users ==> r.1[id] == users[id].(password := r.1[id].password)
    ensures r.1 != users ==> r.0 == Response(200, Detail("Your Password has been successfully reset."))
  {
    var checked := ValidateResetConfirm(data);
    if !checked.Valid? then (Response(400, Error(checked.error)), users)
    else
      match UserOfUid(users, uidb64, decodeUid)
      case None => (Response(400, Error("Invalid reset link.")), users)
      case Some(id) =>
        if tokens.check(id, users[id], token) then
          (Response(200, Detail("Your Password has been successfully reset.")), users[id := users[id].(password := checked.value.newPassword)])
        else (Response(400, Error("Invalid or expired reset token.")), users)
  }

  // ---------------------------------------------------------------------------
  // The tables and the state-changing views
  // ---------------------------------------------------------------------------

  class AccountStore {
    var users: map<nat, User>
    var profiles: seq<Profile>
    var nextId: nat   // the key the next created user gets

    /** Every key in use lies below the next one. */
    predicate Valid()
      reads this
    {
      forall id :: id in users ==> id < nextId
    }

    constructor (users: map<nat, User>, nextId: nat)
      requires forall id :: id in users ==> id < nextId
      ensures Valid() && this.users == users && profiles == [] && this.nextId == nextId
    {
      this.users := users;
      profiles := [];
      this.nextId := nextId;
    }

    /** `User.objects.create_user(username, email, password, is_active=False)`: the key
        of the new user, or None when the insert raises. */
    method CreateUser(username: string, email: string, password: string) returns (id: Option<nat>)
      requires Valid()
      modifies this
      ensures Valid()
      ensures id.None? <==> CreateUserFails(old(users), username)
      ensures id.None? ==> users == old(users) && nextId == old(nextId)
      ensures id.Some? ==> id.value == old(nextId) && nextId == old(nextId) + 1
                           && users == old(users)[id.value := User(username, email, password, false)]
      ensures id.Some? ==> id.value !in old(users)
      ensures profiles == old(profiles)
    {
      if CreateUserFails(users, username) {
        return None;
      }
      id := Some(nextId);
      users := users[nextId := User(username, email, password, false)];
      nextId := nextId + 1;
    }

    /** `RegistrationView.post`: validate, create the user and its profile, answer
        201 with the key, the email and an activation token. */
    method Register(data: Registration, tokens: TokenGenerator) returns (resp: Response)
      requires Valid()
      modifies this
      ensures Valid()
      ensures resp == RegisterResponse(old(users), old(nextId), data, tokens)
      ensures users == if RegisteredUser(old(users), data).Some?
                       then old(users)[old(nextId) := RegisteredUser(old(users), data).value]
                       else old(users)
      ensures profiles == old(profiles) +
                          if RegisteredUser(old(users), data).Some?
                          then [Profile(old(nextId), RegisteredUser(old(users), data).value.email)]
                          else []
      ensures nextId == if RegisteredUser(old(users), data).Some? then old(nextId) + 1 else old(nextId)
    {
      var checked := ValidateRegistration(users, data);
      match checked
      case Rejected(e) => return Response(400, Error(e));
      case Crashed => return ServerFault;
      case Valid(d) =>
        var email := d.email.value;
        var id := CreateUser(email, email, d.password);
        if id.None? {
          return ServerFault;
        }
        var user := users[id.value];
        profiles := profiles + [Profile(id.value, user.email)];
        resp := Response(201, Registered(id.value, user.email, tokens.make(id.value, user)));
    }

    /** `ActivateAccountView.get(uidb64, token)`. */
    method Activate(uidb64: string, token: string, decodeUid: string -> Option<nat>, tokens: TokenGenerator)
      returns (resp: Response)
      requires Valid()
      modifies this
      ensures Valid()
      ensures (resp, users) == Activation(old(users), uidb64, token, decodeUid, tokens)
      ensures profiles == old(profiles) && nextId == old(nextId)
    {
      var uid := UserOfUid(users, uidb64, decodeUid);
      if uid.None? {
        return Response(400, Error("Invalid activation link."));
      }
      var id := uid.value;
      var user := users[id];
      if tokens.check(id, user, token) {
        if !user.isActive {
          users := users[id := user.(isActive := true)];
          resp := Response(200, Note("Account successfully activated."));
        } else {
          resp := Response(200, Note("Account is already activated."));
        }
      } else {
        resp := Response(400, Error("Invalid or expired activation token."));
      }
    }

    /** `PasswordResetConfirmView.post(uidb64, token)`. */
    method ConfirmPasswordReset(data: ResetConfirm, uidb64: string, token: string,
                                decodeUid: string -> Option<nat>, tokens: TokenGenerator) returns (resp: Response)
      requires Valid()
      modifies this
      ensures Valid()
      ensures (resp, users) == ResetConfirmation(old(users), data, uidb64, token, decodeUid, tokens)
      ensures profiles == old(profiles) && nextId == old(nextId)
    {
      var checked := ValidateResetConfirm(data);
      if !checked.Valid? {
        return Response(400, Error(checked.error));
      }
      var uid := UserOfUid(users, uidb64, decodeUid);
      if uid.None? {
        return Response(400, Error("Invalid reset link."));
      }
      var id := uid.value;
      if tokens.check(id, users[id], token) {
        users := users[id := users[id].(password := checked.value.newPassword)];
        resp := Response(200, Detail("Your Password has been successfully reset."));
      } else {
        resp := Response(400, Error("Invalid or expired reset token."));
      }
    }
  }

  // ---------------------------------------------------------------------------
  // The views that change nothing
  // ---------------------------------------------------------------------------

  const ResetMailSent := "An email has been sent to reset your password."

  /** `PasswordResetView.post`: a missing email is refused; otherwise the same answer
      whether a user has the email or not (more than one such user raises). */
  function PasswordResetRequest(users: map<nat, User>, email: string): (r: Response)
    ensures email == "" ==> r == Response(400, Error("Email is required."))
    ensures email != "" && GetByEmail(users, email) != SeveralUsers ==> r == Response(200, Detail(ResetMailSent))
    ensures email != "" && GetByEmail(users, email) == SeveralUsers ==> r == ServerFault
  {
    if email == "" then Response(400, Error("Email is required."))
    else
      match GetByEmail(users, email)
      case SeveralUsers => ServerFault
      case _ => Response(200, Detail(ResetMailSent))
  }

  /** What `LogoutView.post` answers, and whether it deletes the two token cookies. */
  datatype LogoutReply = LogoutReply(resp: Response, clearsCookies: bool)

  /** `LogoutView.post`: no `refresh_token` cookie is refused before anything else;
      otherwise the token is blacklisted (`blacklist` says whether that succeeds). */
  function Logout(cookies: map<string, string>, blacklist: string -> bool): (r: LogoutReply)
    ensures "refresh_token" !in cookies ==> r.resp == Response(400, Error("Refresh token not found"))
    ensures r.clearsCookies <==> "refresh_token" in cookies && blacklist(cookies["refresh_token"])
    ensures r.clearsCookies <==> r.resp.status == 200
  {
    if "refresh_token" !in cookies then LogoutReply(Response(400, Error("Refresh token not found")), false)
    else if blacklist(cookies["refresh_token"]) then
      LogoutReply(Response(200, Detail("Logout successful! All tokens will be deleted. Refresh token is now invalid.")), true)
    else LogoutReply(Response(400, Error("Invalid refresh token")), false)
  }

  // ---------------------------------------------------------------------------
  // Properties
  // ---------------------------------------------------------------------------

  /** Registration answers 201 exactly when it creates a user; that user is inactive, its
      username is its email, and the answer carries its key and email. Invalid input
      gets 400 with the serializer's error and creates nothing. */
  lemma RegisterOutcomes(users: map<nat, User>, nextId: nat, data: Registration, tokens: TokenGenerator)
    ensures var resp := RegisterResponse(users, nextId, data, tokens);
            && (resp.status == 201 <==> RegisteredUser(users, data).Some?)
            && (resp.status == 201 ==>
                  var u := RegisteredUser(users, data).value;
                  && u.username == u.email == data.email.value && !u.isActive && u.password == data.password
                  && resp.body == Registered(nextId, u.email, tokens.make(nextId, u)))
            && (ValidateRegistration(users, data).Rejected? ==>
                  resp == Response(400, Error(ValidateRegistration(users, data).error)))
  {
  }

  /** Activating twice leaves the table as activating once did; when the token still
      checks, the second answer is "already activated". */
  lemma ActivationIdempotent(users: map<nat, User>, uidb64: string, token: string,
                             decodeUid: string -> Option<nat>, tokens: TokenGenerator)
    ensures var once := Activation(users, uidb64, token, decodeUid, tokens).1;
            var twice := Activation(once, uidb64, token, decodeUid, tokens);
            && twice.1 == once
            && (twice.0.status == 200 ==> twice.0 == Response(200, Note("Account is already activated.")))
  {
    var once := Activation(users, uidb64, token, decodeUid, tokens).1;
    match UserOfUid(users, uidb64, decodeUid)
    case None =>
    case Some(id) =>
      assert UserOfUid(once, uidb64, decodeUid) == Some(id);
  }

  /** Activation changes the table only by setting `is_active` of the decoded user, and
      only for a valid token on an inactive account; every 400 leaves it alone. */
  lemma ActivationChangesOnlyActiveFlag(users: map<nat, User>, uidb64: string, token: string,
                                        decodeUid: string -> Option<nat>, tokens: TokenGenerator)
    ensures var (resp, after) := Activation(users, uidb64, token, decodeUid, tokens);
            && (resp.status == 400 ==> after == users)
            && (after != users ==>
                  var id := decodeUid(uidb64).value;
                  && decodeUid(uidb64).Some? && id in users
                  && tokens.check(id, users[id], token) && !users[id].isActive
                  && after == users[id := users[id].(isActive := true)]
                  && resp == Response(200, Note("Account successfully activated.")))
  {
  }

  /** Every answer of the activation view, from the decoded uid and the token check:
      a uid that does not decode to a user is an invalid link, a failing token is
      refused, and a checking token activates an inactive user or reports an active
      one; only the activating answer changes the table. */
  lemma ActivationOutcomes(users: map<nat, User>, uidb64: string, token: string,
                           decodeUid: string -> Option<nat>, tokens: TokenGenerator)
    ensures decodeUid(uidb64).None? || decodeUid(uidb64).value !in users ==>
              Activation(users, uidb64, token, decodeUid, tokens) == (Response(400, Error("Invalid activation link.")), users)
    ensures decodeUid(uidb64).Some? && decodeUid(uidb64).value in users ==>
              var id := decodeUid(uidb64).value;
              var result := Activation(users, uidb64, token, decodeUid, tokens);
              && (!tokens.check(id, users[id], token) ==>
                    result == (Response(400, Error("Invalid or expired activation token.")), users))
              && (tokens.check(id, users[id], token) && !users[id].isActive ==>
                    result == (Response(200, Note("Account successfully activated.")), users[id := users[id].(isActive := true)]))
              && (tokens.check(id, users[id], token) && users[id].isActive ==>
                    result == (Response(200, Note("Account is already activated.")), users))
  {
  }

  /** The password changes only when the payload is valid, the uid names a user and the
      token checks, and then only that user's password, to the new one. */
  lemma PasswordChangesOnlyOnValidToken(users: map<nat, User>, data: ResetConfirm, uidb64: string, token: string,
                                        decodeUid: string -> Option<nat>, tokens: TokenGenerator)
    ensures var (resp, after) := ResetConfirmation(users, data, uidb64, token, decodeUid, tokens);
            && (resp.status != 200 ==> after == users)
            && (resp.status == 200 <==>
                  ValidateResetConfirm(data).Valid? && UserOfUid(users, uidb64, decodeUid).Some?
                  && tokens.check(decodeUid(uidb64).value, users[decodeUid(uidb64).value], token))
            && (resp.status == 200 ==>
                  after == users[decodeUid(uidb64).value := users[decodeUid(uidb64).value].(password := data.newPassword)])
  {
  }

  /** An invalid payload is refused before the uid is decoded: the link plays no part. */
  lemma PayloadCheckedBeforeLink(users: map<nat, User>, data: ResetConfirm, uidb64: string, token: string,
                                 decodeUid: string -> Option<nat>, tokens: TokenGenerator,
                                 otherUid: string, otherToken: string, otherDecode: string -> Option<nat>)
    requires !ValidateResetConfirm(data).Valid?
    ensures ResetConfirmation(users, data, uidb64, token, decodeUid, tokens) ==
            ResetConfirmation(users, data, otherUid, otherToken, otherDecode, tokens)
    ensures ResetConfirmation(users, data, uidb64, token, decodeUid, tokens).0.status == 400
  {
  }

  /** The reset request does not reveal whether an account has the email: the answer is
      the one for an empty table exactly when the email is missing or at most one account
      has it (several accounts sharing it give a server error instead). */
  lemma ResetRequestRevealsNothing(users: map<nat, User>, email: string)
    ensures PasswordResetRequest(users, email) == PasswordResetRequest(map[], email)
            <==> email == "" || GetByEmail(users, email) != SeveralUsers
  {
    assert UsersWithEmail(map[], email) == {};
  }

  /** Register, try to log in before activating (refused as inactive), activate with a
      token that checks, then log in: the new account's key is accepted. */
  lemma RegisterActivateLogin(users: map<nat, User>, nextId: nat, data: Registration,
                              uidb64: string, token: string, decodeUid: string -> Option<nat>, tokens: TokenGenerator)
    requires forall id :: id in users ==> id < nextId
    requires RegisteredUser(users, data).Some? && data.password != ""
    requires decodeUid(uidb64) == Some(nextId)
    requires tokens.check(nextId, RegisteredUser(users, data).value, token)
    ensures var u := RegisteredUser(users, data).value;
            var registered := users[nextId := u];
            var login := Login(u.email, data.password);
            var (resp, activated) := Activation(registered, uidb64, token, decodeUid, tokens);
            && ValidateLogin(registered, login) == Rejected(NotActive)
            && resp == Response(200, Note("Account successfully activated."))
            && ValidateLogin(activated, login) == Valid(nextId)
  {
    var u := RegisteredUser(users, data).value;
    var email := data.email.value;
    RegistrationOutcomes(users, data);
    var registered := users[nextId := u];
    assert email != "";
    forall other | other in registered && registered[other].email == email ensures other == nextId {
      assert other == nextId || other in UsersWithEmail(users, email);
    }
    LoginOutcomes(registered, Login(email, data.password), nextId);
    var activated := registered[nextId := u.(isActive := true)];
    assert Activation(registered, uidb64, token, decodeUid, tokens).1 == activated;
    forall other | other in activated && activated[other].email == email ensures other == nextId {
      assert other == nextId || other in UsersWithEmail(users, email);
    }
    LoginOutcomes(activated, Login(email, data.password), nextId);
  }
}
