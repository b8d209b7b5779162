/**
 * User registration (app/actions/auth.actions.ts): schema validation, the
 * email-uniqueness check and the insert into the user table. Email-format
 * validity and password hashing are foreign code and come in as parameters.
 */
module Registration {
  import opened Wrappers
  import opened EventTypes

  /** A stored user; `password` holds whatever the hash function produced. */
  datatype User = User(id: UserId, name: string, email: string, password: string)

  /** The user table, by id. */
  type UserTable = map<UserId, User>

  /** A submitted registration form; `None` is a field the form did not carry. */
  datatype RegisterInput = RegisterInput(name: Option<string>, email: Option<string>, password: Option<string>)

  /** What a successful registration hands back: no password of any kind. */
  datatype PublicUser = PublicUser(id: UserId, email: string, name: string)

  /** The action's answer; it never throws, every failure is an error message. */
  datatype Response = Registered(user: PublicUser) | Error(message: string)

  /** The answer together with the user table after the call. */
  datatype Outcome = Outcome(response: Response, users: UserTable)

  const MissingField: string := "Expected string, received null"
  const NameTooShort: string := "Name must be at least 2 characters"
  const InvalidEmail: string := "Invalid email format"
  const PasswordTooShort: string := "Password must be at least 6 characters"
  const EmailTaken: string := "User with this email already exists"
  const RegistrationFailed: string := "Registration failed"

  /** No two users share an email. */
  predicate EmailsUnique(users: UserTable) {
    forall a, b :: a in users && b in users && users[a].email == users[b].email ==> a == b
  }

  /** Some user already has this email. */
  predicate HasEmail(users: UserTable, email: string) {
    exists k :: k in users && users[k].email == email
  }

  /** The issue a string field raises, if any: a missing field, or one the check refuses. */
  function FieldIssue(field: Option<string>, ok: string -> bool, message: string): seq<string> {
    if field.None? then [MissingField] else if ok(field.value) then [] else [message]
  }

  /** The schema's issues in key order: a name of at least 2 characters, a
      well-formed email, a password of at least 6 characters. */
  function RegisterIssues(input: RegisterInput, isEmail: string -> bool): (issues: seq<string>)
    ensures issues == [] <==>
      && input.name.Some? && |input.name.value| >= 2
      && input.email.Some? && isEmail(input.email.value)
      && input.password.Some? && |input.password.value| >= 6
    ensures input.name.None? ==> issues[0] == MissingField
    ensures input.name.Some? && |input.name.value| < 2 ==> issues[0] == NameTooShort
    ensures input.name.Some? && |input.name.value| >= 2 && input.email.None? ==> issues[0] == MissingField
    ensures input.name.Some? && |input.name.value| >= 2 && input.email.Some? && !isEmail(input.email.value) ==>
      issues[0] == InvalidEmail
    ensures input.name.Some? && |input.name.value| >= 2 && input.email.Some? && isEmail(input.email.value) ==>
      && (input.password.None? ==> issues == [MissingField])
      && (input.password.Some? && |input.password.value| < 6 ==> issues == [PasswordTooShort])
  {
    FieldIssue(input.name, s => |s| >= 2, NameTooShort)
    + FieldIssue(input.email, isEmail, InvalidEmail)
    + FieldIssue(input.password, s => |s| >= 6, PasswordTooShort)
  }

  /** registerUser. `newId` is the id the database assigns; a write the database
      refuses (an id it already holds) is caught as the generic failure. */
  function RegisterUser(input: RegisterInput, users: UserTable, newId: UserId,
                        isEmail: string -> bool, hash: string -> string): (o: Outcome)
    ensures o.response.Error? ==> o.users == users
    ensures o.response.Registered? <==>
      RegisterIssues(input, isEmail) == [] && !HasEmail(users, input.email.value) && newId !in users
    ensures RegisterIssues(input, isEmail) != [] ==> o.response == Error(RegisterIssues(input, isEmail)[0])
    ensures RegisterIssues(input, isEmail) == [] && HasEmail(users, input.email.value) ==>
      o.response == Error(EmailTaken)
    ensures RegisterIssues(input, isEmail) == [] && !HasEmail(users, input.email.value) && newId in users ==>
      o.response == Error(RegistrationFailed)
    ensures o.response.Registered? ==>
      && o.users.Keys == users.Keys + {newId}
      && |o.users| == |users| + 1
      && (forall k :: k in users ==> o.users[k] == users[k])
      && o.users[newId] == User(newId, input.name.value, input.email.value, hash(input.password.value))
      && o.response.user == PublicUser(newId, input.email.value, input.name.value)
  {
    var issues := RegisterIssues(input, isEmail);
    if issues != [] then Outcome(Error(issues[0]), users)
    else if HasEmail(users, input.email.value) then Outcome(Error(EmailTaken), users)
    else if newId in users then Outcome(Error(RegistrationFailed), users)
    else
      var user := User(newId, input.name.value, input.email.value, hash(input.password.value));
      Outcome(Registered(PublicUser(user.id, user.email, user.name)), users[newId := user])
  }

  /** A short name or a short password is answered with its message, and nobody is added. */
  lemma ShortNameOrPasswordRejected(input: RegisterInput, users: UserTable, newId: UserId,
                                    isEmail: string -> bool, hash: string -> string)
    requires input.name.Some? && input.password.Some?
    requires |input.name.value| < 2 || |input.password.value| < 6
    ensures var o := RegisterUser(input, users, newId, isEmail, hash);
      && o.users == users
      && o.response == Error(if |input.name.value| < 2 then NameTooShort
                             else if input.email.Some? && isEmail(input.email.value) then PasswordTooShort
                             else if input.email.None? then MissingField
                             else InvalidEmail)
  {
  }

  /** Registration keeps emails unique, whatever the outcome. */
  lemma RegisterKeepsEmailsUnique(input: RegisterInput, users: UserTable, newId: UserId,
                                  isEmail: string -> bool, hash: string -> string)
    requires EmailsUnique(users)
    ensures EmailsUnique(RegisterUser(input, users, newId, isEmail, hash).users)
  {
  }

  /** A registration with an email already on file adds nobody. */
  lemma DuplicateEmailRejected(input: RegisterInput, users: UserTable, newId: UserId,
                               isEmail: string -> bool, hash: string -> string, other: UserId)
    requires RegisterIssues(input, isEmail) == []
    requires other in users && users[other].email == input.email.value
    ensures RegisterUser(input, users, newId, isEmail, hash) == Outcome(Error(EmailTaken), users)
  {
  }
}
