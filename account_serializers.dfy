/**
 * The account serializers: the cross-field checks of registration, login and
 * password-reset confirmation, and the user record registration creates. The
 * user table is a map from primary key to record; a password check compares
 * with the stored secret (hashing is not modelled).
 */
module AccountSerializers {
  import opened Wrappers

  /** The columns of `auth_user` the account views read and write. */
  datatype User = User(username: string, email: string, password: string, isActive: bool)

  /** What a `validate` method does: return the (possibly extended) data, raise a
      `ValidationError` carrying `{'error': message}`, or raise anything else. */
  datatype Checked<T> = Valid(value: T) | Rejected(error: string) | Crashed

  /** `User.objects.get(email=...)`: no match, the one match, or more than one. */
  datatype Lookup = NoUser | OneUser(id: nat) | SeveralUsers

  /** The keys of the users with this exact email. */
  function UsersWithEmail(users: map<nat, User>, email: string): set<nat> {
    set id | id in users && users[id].email == email
  }

  /** A set of one element has no two different members. */
  lemma SingletonUnique(s: set<nat>)
    requires |s| == 1
    ensures forall x, y :: x in s && y in s ==> x == y
  {
    forall x, y | x in s && y in s ensures x == y {
      if x != y {
        assert {x, y} <= s;
        assert |{x, y}| == 2;
        SubsetCard({x, y}, s);
      }
    }
  }

  /** A subset is no larger than the set. */
  lemma {:induction false} SubsetCard(a: set<nat>, b: set<nat>)
    requires a <= b
    ensures |a| <= |b|
    decreases |b|
  {
    if b != {} {
      var x :| x in b;
      SubsetCard(a - {x}, b - {x});
    }
  }

  /** `User.objects.get(email=email)`. */
  function GetByEmail(users: map<nat, User>, email: string): (r: Lookup)
    ensures r == NoUser <==> UsersWithEmail(users, email) == {}
    ensures r.OneUser? <==> |UsersWithEmail(users, email)| == 1
    ensures r.OneUser? ==> r.id in users && users[r.id].email == email
    ensures r.OneUser? ==> forall id :: id in users && users[id].email == email ==> id == r.id
  {
    var ids := UsersWithEmail(users, email);
    if ids == {} then NoUser
    else if |ids| == 1 then
      SingletonUnique(ids);
      var id :| id in ids;
      assert forall other :: other in users && users[other].email == email ==> other in ids;
      OneUser(id)
    else SeveralUsers
  }

  // ---------------------------------------------------------------------------
  // Registration
  // ---------------------------------------------------------------------------

  /** The registration payload after field validation. The email field of the user
      model is optional, so its key may be absent (None). */
  datatype Registration = Registration(email: Option<string>, password: string, confirmedPassword: string)

  /** `RegistrationSerializer.validate(data)`: the password pair is compared first,
      then the email is looked up (a missing email key raises `KeyError`). */
  function ValidateRegistration(users: map<nat, User>, data: Registration): (r: Checked<Registration>)
    ensures r.Valid? ==> r.value == data
  {
    if data.password != data.confirmedPassword then Rejected("Passwords do not match.")
    else if data.email.None? then Crashed
    else if UsersWithEmail(users, data.email.value) != {} then Rejected("Email is already in use.")
    else Valid(data)
  }

  /** The record `create` asks `create_user` for: the email doubles as username and
      the account starts inactive. */
  function NewUser(email: string, password: string): (u: User)
    ensures u.username == u.email == email && u.password == password && !u.isActive
  {
    User(email, email, password, false)
  }

  /** Whether `create_user` raises: an empty username is refused, and usernames are unique. */
  predicate CreateUserFails(users: map<nat, User>, username: string) {
    username == "" || exists id :: id in users && users[id].username == username
  }

  /** Mismatched passwords are reported before the email is even looked at. */
  lemma MismatchReportedFirst(users: map<nat, User>, data: Registration)
    requires data.password != data.confirmedPassword
    ensures forall others: map<nat, User>, email: Option<string> ::
              ValidateRegistration(others, data.(email := email)) == Rejected("Passwords do not match.")
  {
  }

  /** Registration data passes exactly when the passwords match and the email is given
      and unused; otherwise the error says which. */
  lemma RegistrationOutcomes(users: map<nat, User>, data: Registration)
    ensures ValidateRegistration(users, data).Valid? <==>
            data.password == data.confirmedPassword && data.email.Some?
            && forall id :: id in users ==> users[id].email != data.email.value
    ensures data.password == data.confirmedPassword && data.email.Some?
            && (exists id :: id in users && users[id].email == data.email.value) ==>
              ValidateRegistration(users, data) == Rejected("Email is already in use.")
  {
    if data.password == data.confirmedPassword && data.email.Some? {
      var e := data.email.value;
      if exists id :: id in users && users[id].email == e {
        var id :| id in users && users[id].email == e;
        assert id in UsersWithEmail(users, e);
      }
    }
  }

  // ---------------------------------------------------------------------------
  // Login
  // ---------------------------------------------------------------------------

  /** The login payload as `validate` reads it; "" stands for a missing or empty value. */
  datatype Login = Login(email: string, password: string)

  const InvalidCredentials := "Invalid credentials."
  const NotActive := "Account is not active. Please check your email for activation link."

  /** `LoginSerializer.validate(data)`: email present, password present, user found,
      password matches, account active, in that order; on success the data gains the
      user, here its key. More than one user with the email raises. */
  function ValidateLogin(users: map<nat, User>, data: Login): (r: Checked<nat>)
    ensures r.Valid? ==> r.value in users && users[r.value].email == data.email
    ensures data.email == "" ==> r == Rejected("Email is required.")
    ensures data.email != "" && data.password == "" ==> r == Rejected("Password is required.")
    ensures r.Crashed? <==> data.email != "" && data.password != "" && GetByEmail(users, data.email) == SeveralUsers
  {
    if data.email == "" then Rejected("Email is required.")
    else if data.password == "" then Rejected("Password is required.")
    else
      match GetByEmail(users, data.email)
      case NoUser => Rejected(InvalidCredentials)
      case SeveralUsers => Crashed
      case OneUser(id) =>
        if users[id].password != data.password then Rejected(InvalidCredentials)
        else if !users[id].isActive then Rejected(NotActive)
        else Valid(id)
  }

  /** Login succeeds exactly for the one user with that email when the password matches
      and the account is active; an unknown email and a wrong password get the same
      error, and only a correct password learns that the account is inactive. */
  lemma LoginOutcomes(users: map<nat, User>, data: Login, id: nat)
    requires data.email != "" && data.password != ""
    requires id in users && users[id].email == data.email
    requires forall other :: other in users && users[other].email == data.email ==> other == id
    ensures ValidateLogin(users, data) == Valid(id) <==> users[id].password == data.password && users[id].isActive
    ensures users[id].password != data.password ==> ValidateLogin(users, data) == Rejected(InvalidCredentials)
    ensures users[id].password == data.password && !users[id].isActive ==> ValidateLogin(users, data) == Rejected(NotActive)
  {
    assert UsersWithEmail(users, data.email) == {id};
  }

  /** An email nobody has is answered exactly like a wrong password. */
  lemma UnknownEmailLooksLikeWrongPassword(users: map<nat, User>, data: Login)
    requires data.email != "" && data.password != ""
    requires forall id :: id in users ==> users[id].email != data.email
    ensures ValidateLogin(users, data) == Rejected(InvalidCredentials)
  {
    assert UsersWithEmail(users, data.email) == {};
  }

  // ---------------------------------------------------------------------------
  // Password reset confirmation
  // ---------------------------------------------------------------------------

  /** The reset payload as `validate` reads it; "" stands for a missing or empty value. */
  datatype ResetConfirm = ResetConfirm(newPassword: string, confirmPassword: string)

  /** `PasswordResetConfirmSerializer.validate(data)`: new password present, confirmation
      present, the two equal, in that order; the data is returned unchanged. */
  function ValidateResetConfirm(data: ResetConfirm): (r: Checked<ResetConfirm>)
    ensures r.Valid? <==> data.newPassword != "" && data.newPassword == data.confirmPassword
    ensures r.Valid? ==> r.value == data
    ensures !r.Crashed?
  {
    if data.newPassword == "" then Rejected("New password is required.")
    else if data.confirmPassword == "" then Rejected("Password confirmation is required.")
    else if data.newPassword != data.confirmPassword then Rejected("Passwords do not match.")
    else Valid(data)
  }

  /** The checks report the first problem in the fixed order. */
  lemma ResetConfirmOrder(data: ResetConfirm)
    ensures data.newPassword == "" ==> ValidateResetConfirm(data) == Rejected("New password is required.")
    ensures data.newPassword != "" && data.confirmPassword == "" ==>
              ValidateResetConfirm(data) == Rejected("Password confirmation is required.")
    ensures data.newPassword != "" && data.confirmPassword != "" && data.newPassword != data.confirmPassword ==>
              ValidateResetConfirm(data) == Rejected("Passwords do not match.")
  {
  }
}
