/**
 * The user controller: profile and password updates and the e-mail
 * verification-code lifecycle (issue, then validate or expire, then reset).
 * The user collection is a sequence of records in insertion order; a lookup
 * returns the first match, as a store query without a sort does. Time is an
 * explicit millisecond count `now`.
 */
module Users {
  import opened Wrappers
  import opened JsNumbers

  datatype VerificationCode = VerificationCode(code: Option<string>, expiresAt: Option<int>)

  datatype User = User(
    id: string,
    name: string,
    email: string,
    password: string,
    role: string,
    verification: VerificationCode)

  /** Ten minutes, in milliseconds. */
  const CodeLifetime: int := 10 * 60 * 1000

  /** The state a verification code is reset to once it has been used: code `"default"`, expiry at epoch 0. */
  const Consumed: VerificationCode := VerificationCode(Some("default"), Some(0))

  datatype FieldReport = FieldReport(name: string, present: bool)

  /** The responses the handlers send. */
  datatype Reply =
    | Success                                   // { message: 'success' }
    | ProfileUpdated(user: User)                // { message: 'success', user }
    | EmailRequired                             // 'Email is required'
    | MissingFields(fields: seq<FieldReport>)   // { missingFields: { ...: 'missing' | 'present' } }
    | InvalidEmail                              // 404 on an unknown e-mail (the text varies by handler)
    | CodeExpired                               // { expired: true }
    | CodeInvalid                               // { invalidCode: true }
    | InvalidCredentials
    | Unauthorized
    | SendFailed                                // 'Failed to send verification code'
    | InternalError                             // 'Internal server error'

  function StatusCode(r: Reply): (code: int)
    ensures code in {200, 400, 401, 404, 500}
  {
    match r
    case Success => 200
    case ProfileUpdated(_) => 200
    case EmailRequired => 400
    case MissingFields(_) => 400
    case InvalidEmail => 404
    case CodeExpired => 400
    case CodeInvalid => 400
    case InvalidCredentials => 400
    case Unauthorized => 401
    case SendFailed => 500
    case InternalError => 500
  }

  /** The index of the first record whose `key` is `value`: a store query without a sort. */
  function FindFirst(users: seq<User>, key: User -> string, value: string): (r: Option<nat>)
    ensures r.Some? ==> r.value < |users| && key(users[r.value]) == value
    ensures r.Some? ==> forall j :: 0 <= j < r.value ==> key(users[j]) != value
    ensures r.None? ==> forall j :: 0 <= j < |users| ==> key(users[j]) != value
    decreases |users|
  {
    if users == [] then None
    else if key(users[0]) == value then Some(0)
    else match FindFirst(users[1..], key, value)
      case None => None
      case Some(i) => Some(i + 1)
  }

  /** `User.findOne({ email })`: the first record with that e-mail. */
  function FindByEmail(users: seq<User>, email: string): (r: Option<nat>)
    ensures r.Some? ==> r.value < |users| && users[r.value].email == email
    ensures r.Some? ==> forall j :: 0 <= j < r.value ==> users[j].email != email
    ensures r.None? ==> forall j :: 0 <= j < |users| ==> users[j].email != email
  {
    FindFirst(users, (u: User) => u.email, email)
  }

  /** `findById(id)`: the record with that id. */
  function FindById(users: seq<User>, id: string): (r: Option<nat>)
    ensures r.Some? ==> r.value < |users| && users[r.value].id == id
    ensures r.Some? ==> forall j :: 0 <= j < r.value ==> users[j].id != id
    ensures r.None? ==> forall j :: 0 <= j < |users| ==> users[j].id != id
  {
    FindFirst(users, (u: User) => u.id, id)
  }

  /** Changing a record without changing its e-mail changes no e-mail lookup. */
  lemma FindByEmailAfterUpdate(users: seq<User>, i: nat, u: User, email: string)
    requires i < |users| && u.email == users[i].email
    ensures FindByEmail(users[i := u], email) == FindByEmail(users, email)
  {
    assert forall j :: 0 <= j < |users| ==> users[i := u][j].email == users[j].email;
  }

  // ---------------------------------------------------------------------
  // The verification code of one record
  // ---------------------------------------------------------------------

  /** The code issued at `now`: the generated number as a decimal string, valid for ten minutes. */
  function Issue(generated: nat, now: int): (v: VerificationCode)
    ensures v.expiresAt == Some(now + CodeLifetime)
    ensures v.code.Some? && ParseInt(v.code.value) == Some(generated)
  {
    ParseIntOfDecimal(generated, "");
    assert DecimalString(generated) + "" == DecimalString(generated);
    VerificationCode(Some(DecimalString(generated)), Some(now + CodeLifetime))
  }

  datatype CodeCheck = NoExpiry | Expired | WrongCode | Accepted

  /**
   * The checks of `validateVerificationCode`, in order: no expiry date at all
   * (`getTime` of `undefined` throws), expiry strictly before `now`, then the code.
   */
  function CheckCode(v: VerificationCode, code: string, now: int): (c: CodeCheck)
    ensures c == NoExpiry <==> v.expiresAt.None?
    ensures c == Accepted ==> v.code == Some(code) && now <= v.expiresAt.value
  {
    if v.expiresAt.None? then NoExpiry
    else if v.expiresAt.value < now then Expired
    else if v.code != Some(code) then WrongCode
    else Accepted
  }

  /** A check accepts exactly the stored code, up to and including the expiry instant. */
  lemma CheckCodeAccepts(v: VerificationCode, code: string, now: int)
    ensures CheckCode(v, code, now) == Accepted <==>
      v.expiresAt.Some? && now <= v.expiresAt.value && v.code == Some(code)
    ensures v.expiresAt.Some? && v.expiresAt.value < now ==> CheckCode(v, code, now) == Expired
  {
  }

  // ---------------------------------------------------------------------
  // The handlers, as functions of the store before the request
  // ---------------------------------------------------------------------

  /** A handler's reply together with the store after it. */
  datatype Step = Step(reply: Reply, users: seq<User>)

  /** `sendVerificationCode`: the code is saved before the e-mail is sent, so a failed dispatch still leaves it issued. */
  function SendCodeStep(users: seq<User>, email: string, generated: nat, sent: bool, now: int): (r: Step)
    ensures |r.users| == |users|
    ensures forall j :: 0 <= j < |users| ==> r.users[j].id == users[j].id
    ensures r.users != users ==> r.reply == Success || r.reply == SendFailed
  {
    if email == "" then Step(EmailRequired, users)
    else match FindByEmail(users, email)
      case None => Step(InvalidEmail, users)
      case Some(i) =>
        Step(if sent then Success else SendFailed,
             users[i := users[i].(verification := Issue(generated, now))])
  }

  /** `validateVerificationCode`. */
  function ValidateCodeStep(users: seq<User>, code: string, email: string, now: int): (r: Step)
    ensures |r.users| == |users|
    ensures forall j :: 0 <= j < |users| ==> r.users[j].id == users[j].id
    ensures r.reply != Success ==> r.users == users
  {
    if code == "" || email == "" then
      Step(MissingFields([FieldReport("code", code != ""), FieldReport("email", email != "")]), users)
    else match FindByEmail(users, email)
      case None => Step(InvalidEmail, users)
      case Some(i) =>
        match CheckCode(users[i].verification, code, now)
        case NoExpiry => Step(InternalError, users)
        case Expired => Step(CodeExpired, users)
        case WrongCode => Step(CodeInvalid, users)
        case Accepted => Step(Success, users[i := users[i].(verification := Consumed)])
  }

  /**
   * `updateProfile`: the session token comes from the cookie; a token that
   * `verifyToken` does not decode fails the destructuring and answers 500.
   */
  function UpdateProfileStep(users: seq<User>, token: string, name: string, email: string,
                             verify: string -> Option<string>): (r: Step)
    ensures |r.users| == |users|
    ensures forall j :: 0 <= j < |users| ==> r.users[j].id == users[j].id
    ensures !r.reply.ProfileUpdated? ==> r.users == users
  {
    if token == "" then Step(Unauthorized, users)
    else match verify(token)
      case None => Step(InternalError, users)
      case Some(id) =>
        match FindById(users, id)
        case None => Step(Unauthorized, users)
        case Some(i) =>
          var u := users[i].(name := if name != "" then name else users[i].name,
                             email := if email != "" then email else users[i].email);
          Step(ProfileUpdated(u), users[i := u])
  }

  /**
   * `updatePassword`: the current password must match; the new one is hashed
   * on save, and an empty one fails the schema's `required` rule (500).
   */
  function UpdatePasswordStep(users: seq<User>, token: string, currentPassword: string, newPassword: string,
                              verify: string -> Option<string>, matches: (string, string) -> bool,
                              hash: string -> string): (r: Step)
    ensures |r.users| == |users|
    ensures forall j :: 0 <= j < |users| ==> r.users[j].id == users[j].id
    ensures r.reply != Success ==> r.users == users
  {
    if token == "" then Step(Unauthorized, users)
    else match verify(token)
      case None => Step(InternalError, users)
      case Some(id) =>
        match FindById(users, id)
        case None => Step(Unauthorized, users)
        case Some(i) =>
          if !matches(currentPassword, users[i].password) then Step(InvalidCredentials, users)
          else if newPassword == "" then Step(InternalError, users)
          else Step(Success, users[i := users[i].(password := hash(newPassword))])
  }

  /** `resetPassword`: sets the password of the account with that e-mail. */
  function ResetPasswordStep(users: seq<User>, email: string, password: string, hash: string -> string): (r: Step)
    ensures |r.users| == |users|
    ensures forall j :: 0 <= j < |users| ==> r.users[j].id == users[j].id
    ensures r.reply != Success ==> r.users == users
  {
    if email == "" || password == "" then
      Step(MissingFields([FieldReport("email", email != ""), FieldReport("password", password != "")]), users)
    else match FindByEmail(users, email)
      case None => Step(InvalidEmail, users)
      case Some(i) => Step(Success, users[i := users[i].(password := hash(password))])
  }

  // ---------------------------------------------------------------------
  // Properties of the handlers
  // ---------------------------------------------------------------------

  /** Without an e-mail the answer is 400, for an unknown e-mail 404; neither touches the store. */
  lemma SendCodeRejections(users: seq<User>, email: string, generated: nat, sent: bool, now: int)
    requires email == "" || FindByEmail(users, email).None?
    ensures var s := SendCodeStep(users, email, generated, sent, now);
      s.users == users && StatusCode(s.reply) == (if email == "" then 400 else 404)
  {
  }

  /**
   * Issuing changes exactly the verification code of the first account with that e-mail:
   * the generated number in decimal, expiring ten minutes after `now`; the saved state
   * does not depend on whether the e-mail went out, only the reply does (200 or 500).
   */
  lemma SendCodeIssues(users: seq<User>, email: string, generated: nat, sent: bool, now: int)
    requires email != "" && FindByEmail(users, email).Some?
    ensures var i := FindByEmail(users, email).value;
      var s := SendCodeStep(users, email, generated, sent, now);
      && |s.users| == |users|
      && s.users[i].verification.code == Some(DecimalString(generated))
      && s.users[i].verification.expiresAt == Some(now + 600000)
      && s.users[i] == users[i].(verification := s.users[i].verification)
      && (forall j :: 0 <= j < |users| && j != i ==> s.users[j] == users[j])
      && s.users == SendCodeStep(users, email, generated, !sent, now).users
      && StatusCode(s.reply) == (if sent then 200 else 500)
  {
  }

  /** A missing code or e-mail is answered 400, reporting each of the two fields as missing or present. */
  lemma ValidateMissingFields(users: seq<User>, code: string, email: string, now: int)
    requires code == "" || email == ""
    ensures var s := ValidateCodeStep(users, code, email, now);
      && s.users == users && StatusCode(s.reply) == 400
      && s.reply.MissingFields?
      && s.reply.fields == [FieldReport("code", code != ""), FieldReport("email", email != "")]
  {
  }

  /**
   * Expiry is checked before the code: an expired code is reported expired even
   * when it is wrong; an unexpired wrong code is reported invalid; neither changes
   * the store.
   */
  lemma ValidateRejections(users: seq<User>, code: string, email: string, now: int)
    requires code != "" && email != "" && FindByEmail(users, email).Some?
    requires var v := users[FindByEmail(users, email).value].verification;
      v.expiresAt.Some? && (v.expiresAt.value < now || v.code != Some(code))
    ensures var s := ValidateCodeStep(users, code, email, now);
      var v := users[FindByEmail(users, email).value].verification;
      && s.users == users && StatusCode(s.reply) == 400
      && (s.reply == CodeExpired <==> v.expiresAt.value < now)
      && (s.reply == CodeInvalid <==> now <= v.expiresAt.value)
  {
  }

  /**
   * A successful validation consumes the code: the matching account's code becomes
   * `"default"` and its expiry epoch 0; nothing else in the store changes.
   */
  lemma ValidateAcceptResets(users: seq<User>, code: string, email: string, now: int)
    requires code != "" && email != "" && FindByEmail(users, email).Some?
    requires CheckCode(users[FindByEmail(users, email).value].verification, code, now) == Accepted
    ensures var i := FindByEmail(users, email).value;
      var s := ValidateCodeStep(users, code, email, now);
      && s.reply == Success && StatusCode(s.reply) == 200 && |s.users| == |users|
      && s.users[i] == users[i].(verification := VerificationCode(Some("default"), Some(0)))
      && (forall j :: 0 <= j < |users| && j != i ==> s.users[j] == users[j])
  {
  }

  /**
   * The whole lifecycle: a code issued at `issuedAt` is accepted at any `now` up to
   * and including ten minutes later, which resets it, and from then on every
   * validation at a positive time reports it expired, whatever code is given.
   */
  lemma {:induction false} IssuedCodeIsSingleUse(users: seq<User>, email: string, generated: nat, sent: bool,
                                                 issuedAt: int, now: int, laterCode: string, later: int)
    requires email != "" && FindByEmail(users, email).Some?
    requires now <= issuedAt + CodeLifetime
    requires laterCode != "" && later > 0
    ensures var issued := SendCodeStep(users, email, generated, sent, issuedAt);
      var used := ValidateCodeStep(issued.users, DecimalString(generated), email, now);
      && used.reply == Success
      && ValidateCodeStep(used.users, laterCode, email, later).reply == CodeExpired
  {
    var i := FindByEmail(users, email).value;
    var issued := SendCodeStep(users, email, generated, sent, issuedAt);
    var u1 := users[i].(verification := Issue(generated, issuedAt));
    assert issued.users == users[i := u1];
    FindByEmailAfterUpdate(users, i, u1, email);
    var used := ValidateCodeStep(issued.users, DecimalString(generated), email, now);
    var u2 := u1.(verification := Consumed);
    assert used.users == users[i := u1][i := u2];
    FindByEmailAfterUpdate(users[i := u1], i, u2, email);
  }

  /** A code presented more than ten minutes after it was issued is expired, even the right one. */
  lemma {:induction false} IssuedCodeExpires(users: seq<User>, email: string, generated: nat, sent: bool,
                                             issuedAt: int, now: int)
    requires email != "" && FindByEmail(users, email).Some?
    requires now > issuedAt + CodeLifetime
    ensures var issued := SendCodeStep(users, email, generated, sent, issuedAt);
      var s := ValidateCodeStep(issued.users, DecimalString(generated), email, now);
      s.reply == CodeExpired && s.users == issued.users
  {
    var i := FindByEmail(users, email).value;
    var u1 := users[i].(verification := Issue(generated, issuedAt));
    FindByEmailAfterUpdate(users, i, u1, email);
  }

  /** A profile update overwrites the name and the e-mail only where non-empty values are given. */
  lemma UpdateProfileFields(users: seq<User>, token: string, name: string, email: string,
                            verify: string -> Option<string>)
    requires token != "" && verify(token).Some? && FindById(users, verify(token).value).Some?
    ensures var i := FindById(users, verify(token).value).value;
      var s := UpdateProfileStep(users, token, name, email, verify);
      && |s.users| == |users| && s.reply == ProfileUpdated(s.users[i])
      && s.users[i].name == (if name != "" then name else users[i].name)
      && s.users[i].email == (if email != "" then email else users[i].email)
      && s.users[i].id == users[i].id && s.users[i].password == users[i].password
      && s.users[i].role == users[i].role && s.users[i].verification == users[i].verification
      && (forall j :: 0 <= j < |users| && j != i ==> s.users[j] == users[j])
  {
  }

  /**
   * A password change for a signed-in account: a current password that does not
   * match is answered 400 and changes nothing; a matching one with a non-empty new
   * password changes only that account's password, to the hash of the new one.
   */
  lemma UpdatePasswordOutcomes(users: seq<User>, token: string, currentPassword: string, newPassword: string,
                               verify: string -> Option<string>, matches: (string, string) -> bool,
                               hash: string -> string)
    requires token != "" && verify(token).Some? && FindById(users, verify(token).value).Some?
    ensures var i := FindById(users, verify(token).value).value;
      var s := UpdatePasswordStep(users, token, currentPassword, newPassword, verify, matches, hash);
      && (!matches(currentPassword, users[i].password) ==>
            s.reply == InvalidCredentials && StatusCode(s.reply) == 400 && s.users == users)
      && (matches(currentPassword, users[i].password) && newPassword != "" ==>
            && s.reply == Success && |s.users| == |users|
            && s.users[i] == users[i].(password := hash(newPassword))
            && (forall j :: 0 <= j < |users| && j != i ==> s.users[j] == users[j]))
  {
  }

  /** Without a session token, or with one naming no account, the answer is 401 and the store is unchanged. */
  lemma UpdatePasswordUnauthorized(users: seq<User>, token: string, currentPassword: string, newPassword: string,
                                   verify: string -> Option<string>, matches: (string, string) -> bool,
                                   hash: string -> string)
    requires token == "" || (verify(token).Some? && FindById(users, verify(token).value).None?)
    ensures var s := UpdatePasswordStep(users, token, currentPassword, newPassword, verify, matches, hash);
      s.reply == Unauthorized && StatusCode(s.reply) == 401 && s.users == users
  {
  }

  /** A password reset changes only the password of the account with that e-mail. */
  lemma ResetPasswordChangesOnlyPassword(users: seq<User>, email: string, password: string, hash: string -> string)
    requires email != "" && password != "" && FindByEmail(users, email).Some?
    ensures var i := FindByEmail(users, email).value;
      var s := ResetPasswordStep(users, email, password, hash);
      && s.reply == Success && |s.users| == |users|
      && s.users[i] == users[i].(password := hash(password))
      && (forall j :: 0 <= j < |users| && j != i ==> s.users[j] == users[j])
  {
  }

  // ---------------------------------------------------------------------
  // The controller over the store
  // ---------------------------------------------------------------------

  class UserController {
    /** The user collection, in insertion order. */
    var users: seq<User>

    constructor (users: seq<User>)
      ensures this.users == users
    {
      this.users := users;
    }

    method SendVerificationCode(email: string, generated: nat, sent: bool, now: int) returns (reply: Reply)
      modifies this
      ensures Step(reply, users) == SendCodeStep(old(users), email, generated, sent, now)
    {
      if email == "" {
        return EmailRequired;
      }
      var found := FindByEmail(users, email);
      if found.None? {
        return InvalidEmail;
      }
      var i := found.value;
      var user := users[i];
      user := user.(verification := Issue(generated, now));
      users := users[i := user];
      if sent {
        reply := Success;
      } else {
        reply := SendFailed;
      }
    }

    method ValidateVerificationCode(code: string, email: string, now: int) returns (reply: Reply)
      modifies this
      ensures Step(reply, users) == ValidateCodeStep(old(users), code, email, now)
    {
      if code == "" || email == "" {
        return MissingFields([FieldReport("code", code != ""), FieldReport("email", email != "")]);
      }
      var found := FindByEmail(users, email);
      if found.None? {
        return InvalidEmail;
      }
      var i := found.value;
      var v := users[i].verification;
      if v.expiresAt.None? {
        return InternalError;
      }
      if v.expiresAt.value < now {
        return CodeExpired;
      }
      if v.code != Some(code) {
        return CodeInvalid;
      }
      users := users[i := users[i].(verification := Consumed)];
      reply := Success;
    }

    method UpdateProfile(token: string, name: string, email: string, verify: string -> Option<string>)
      returns (reply: Reply)
      modifies this
      ensures Step(reply, users) == UpdateProfileStep(old(users), token, name, email, verify)
    {
      if token == "" {
        return Unauthorized;
      }
      var payload := verify(token);
      if payload.None? {
        return InternalError;
      }
      var found := FindById(users, payload.value);
      if found.None? {
        return Unauthorized;
      }
      var i := found.value;
      var user := users[i];
      if name != "" {
        user := user.(name := name);
      }
      if email != "" {
        user := user.(email := email);
      }
      users := users[i := user];
      reply := ProfileUpdated(user);
    }

    method UpdatePassword(token: string, currentPassword: string, newPassword: string,
                          verify: string -> Option<string>, matches: (string, string) -> bool,
                          hash: string -> string)
      returns (reply: Reply)
      modifies this
      ensures Step(reply, users) ==
        UpdatePasswordStep(old(users), token, currentPassword, newPassword, verify, matches, hash)
    {
      if token == "" {
        return Unauthorized;
      }
      var payload := verify(token);
      if payload.None? {
        return InternalError;
      }
      var found := FindById(users, payload.value);
      if found.None? {
        return Unauthorized;
      }
      var i := found.value;
      if !matches(currentPassword, users[i].password) {
        return InvalidCredentials;
      }
      if newPassword == "" {
        return InternalError;
      }
      users := users[i := users[i].(password := hash(newPassword))];
      reply := Success;
    }

    method ResetPassword(email: string, password: string, hash: string -> string) returns (reply: Reply)
      modifies this
      ensures Step(reply, users) == ResetPasswordStep(old(users), email, password, hash)
    {
      if email == "" || password == "" {
        return MissingFields([FieldReport("email", email != ""), FieldReport("password", password != "")]);
      }
      var found := FindByEmail(users, email);
      if found.None? {
        return InvalidEmail;
      }
      var i := found.value;
      users := users[i := users[i].(password := hash(password))];
      reply := Success;
    }
  }
}
