/** Account registration and login (POST /api/register and POST /api/login of the
    API server), over an in-memory USERS table. */
module Accounts {
  import opened Options
  import opened JsText
  import opened Credentials

  /** A string field of a JSON request body: `None` when the key is absent or null. */
  type Field = Option<string>

  /** JavaScript truthiness of a string field: present and not empty. */
  predicate Present(f: Field) {
    f.Some? && f.value != ""
  }

  datatype Role = Customer | Admin

  /** A row of the USERS table. */
  datatype UserRow = UserRow(userId: nat, firstName: string, lastName: string, email: string,
                             passwordHash: Digest, phone: Option<string>, role: Role)

  /** The body of a registration request. */
  datatype RegisterRequest = RegisterRequest(firstName: Field, lastName: Field, email: Field,
                                             password: Field, phone: Field)

  /** The `user` object of a 201 answer to a registration. */
  datatype Account = Account(userId: nat, firstName: string, lastName: string, email: string,
                             role: Role)

  /** The `user` object of a successful login: every column of the row but the hash. */
  datatype Profile = Profile(userId: nat, firstName: string, lastName: string, email: string,
                             phone: Option<string>, role: Role)

  /** The answers the two handlers give, other than a database failure (500). */
  datatype Response =
    | Created(account: Account)
    | LoggedIn(profile: Profile)
    | BadRequest(error: string)
    | Unauthorized(error: string)
    | Conflict(error: string)
  {
    function Status(): int {
      match this
      case Created(_) => 201
      case LoggedIn(_) => 200
      case BadRequest(_) => 400
      case Unauthorized(_) => 401
      case Conflict(_) => 409
    }
  }

  const MsgRequired := "All fields are required (first_name, last_name, email, password)"
  const MsgBadEmail := "Invalid email format"
  const MsgShortPassword := "Password must be at least 6 characters long"
  const MsgDuplicate := "Email already registered"
  const MsgLoginRequired := "Email and password are required"
  const MsgBadCredentials := "Invalid email or password"

  const MinPasswordLength: nat := 6

  // ---------------------------------------------------------------------------
  // The e-mail pattern /^[^\s@]+@[^\s@]+\.[^\s@]+$/

  /** A character of the class `[^\s@]`. */
  predicate PlainChar(c: char) {
    !IsWhitespace(c) && c != '@'
  }

  predicate AllPlain(s: string) {
    forall i | 0 <= i < |s| :: PlainChar(s[i])
  }

  /** `s` is `local "@" host "." tld` with the '@' at `at`, the '.' at `dot`, and the
      three parts non-empty runs of `[^\s@]`. */
  predicate SplitsAsEmail(s: string, at: nat, dot: nat) {
    0 < at && at + 1 < dot && dot + 1 < |s| &&
    s[at] == '@' && s[dot] == '.' &&
    AllPlain(s[..at]) && AllPlain(s[at + 1..dot]) && AllPlain(s[dot + 1..])
  }

  /** `emailRegex.test(s)`: the pattern matches when some choice of the '@' and the '.'
      splits `s` as the pattern describes. */
  predicate MatchesEmailPattern(s: string)
    ensures MatchesEmailPattern(s) ==> |s| >= 5
  {
    exists at: nat, dot: nat | at < |s| && dot < |s| :: SplitsAsEmail(s, at, dot)
  }

  /** The domain part has a '.' with text on both sides. */
  predicate HasInnerDot(domain: string) {
    exists k | 0 < k < |domain| - 1 :: domain[k] == '.'
  }

  /** The plain description of an acceptable address: no whitespace, exactly one '@',
      a non-empty local part before it, and a domain after it holding a '.' with text
      on both sides. */
  predicate WellFormedEmail(s: string) {
    NoWhitespace(s) && multiset(s)['@'] == 1 &&
    exists at | 0 < at < |s| :: s[at] == '@' && HasInnerDot(s[at + 1..])
  }

  lemma TwoAts(s: string, i: nat, j: nat)
    requires i < j < |s| && s[i] == '@' && s[j] == '@'
    ensures multiset(s)['@'] >= 2
  {
    assert s == s[..i] + [s[i]] + s[i + 1..j] + [s[j]] + s[j + 1..];
  }

  lemma PlainHasNoAt(x: string)
    requires AllPlain(x)
    ensures multiset(x)['@'] == 0
  {
  }

  lemma PatternMatchIsWellFormed(s: string, at: nat, dot: nat)
    requires SplitsAsEmail(s, at, dot)
    ensures WellFormedEmail(s)
  {
    var local, host, tld := s[..at], s[at + 1..dot], s[dot + 1..];
    assert s == local + [s[at]] + host + [s[dot]] + tld;
    PlainHasNoAt(local);
    PlainHasNoAt(host);
    PlainHasNoAt(tld);
    forall i | 0 <= i < |s|
      ensures !IsWhitespace(s[i])
    {
      if i < at {
        assert s[i] == local[i];
      } else if at < i < dot {
        assert s[i] == host[i - at - 1];
      } else if dot < i {
        assert s[i] == tld[i - dot - 1];
      }
    }
    assert s[at + 1..][dot - at - 1] == '.';
  }

  lemma WellFormedMatchesPattern(s: string)
    requires WellFormedEmail(s)
    ensures MatchesEmailPattern(s)
  {
    var at :| 0 < at < |s| && s[at] == '@' && HasInnerDot(s[at + 1..]);
    var k :| 0 < k < |s[at + 1..]| - 1 && s[at + 1..][k] == '.';
    var dot := at + 1 + k;
    forall j | 0 <= j < |s| && j != at
      ensures s[j] != '@'
    {
      if s[j] == '@' {
        if j < at { TwoAts(s, j, at); } else { TwoAts(s, at, j); }
      }
    }
    assert SplitsAsEmail(s, at, dot);
  }

  /** The regular expression accepts exactly the well-formed addresses. */
  lemma EmailPatternIsWellFormed(s: string)
    ensures MatchesEmailPattern(s) <==> WellFormedEmail(s)
  {
    if MatchesEmailPattern(s) {
      var at: nat, dot: nat :| at < |s| && dot < |s| && SplitsAsEmail(s, at, dot);
      PatternMatchIsWellFormed(s, at, dot);
    }
    if WellFormedEmail(s) {
      WellFormedMatchesPattern(s);
    }
  }

  // ---------------------------------------------------------------------------
  // The registration checks, in the order the handler runs them

  predicate RequiredFieldsPresent(req: RegisterRequest) {
    Present(req.firstName) && Present(req.lastName) && Present(req.email) && Present(req.password)
  }

  /** `password.length >= 6`, counted in UTF-16 code units as JavaScript does. */
  predicate PasswordLongEnough(password: string)
    ensures |password| >= MinPasswordLength ==> PasswordLongEnough(password)
    ensures PasswordLongEnough(password) ==> 2 * |password| >= MinPasswordLength
  {
    Utf16Length(password) >= MinPasswordLength
  }

  /** `SELECT USER_ID FROM USERS WHERE UPPER(EMAIL) = UPPER(:email)` finds a row. */
  predicate EmailTaken(users: seq<UserRow>, email: string)
    ensures EmailTaken(users, email) ==> exists u | u in users :: |u.email| == |email|
  {
    exists u | u in users :: SameIgnoringCase(u.email, email)
  }

  /** Whether an address is taken does not depend on the letter case it is given in. */
  lemma EmailTakenIgnoresCase(users: seq<UserRow>, email: string)
    ensures EmailTaken(users, email) <==> EmailTaken(users, Upper(email))
  {
    UpperTwice(email);
  }

  /** Every check that does not need the table passes. */
  predicate FormatAcceptable(req: RegisterRequest) {
    RequiredFieldsPresent(req) && MatchesEmailPattern(req.email.value) &&
    PasswordLongEnough(req.password.value)
  }

  /** The answer of the first registration check that fails, or `None` when the
      request passes all four. */
  function Screen(users: seq<UserRow>, req: RegisterRequest): (r: Option<Response>)
    ensures r.None? <==> FormatAcceptable(req) && !EmailTaken(users, req.email.value)
    ensures r.Some? ==> r.value.Status() == 400 || r.value.Status() == 409
    ensures !RequiredFieldsPresent(req) ==> r == Some(BadRequest(MsgRequired))
    ensures RequiredFieldsPresent(req) && !WellFormedEmail(req.email.value) ==>
              r == Some(BadRequest(MsgBadEmail))
    ensures RequiredFieldsPresent(req) && WellFormedEmail(req.email.value) &&
            Utf16Length(req.password.value) < MinPasswordLength ==>
              r == Some(BadRequest(MsgShortPassword))
    ensures r.Some? && r.value.Conflict? <==> FormatAcceptable(req) && EmailTaken(users, req.email.value)
    ensures r.Some? && r.value.Conflict? ==> r.value.error == MsgDuplicate
  {
    if !RequiredFieldsPresent(req) then Some(BadRequest(MsgRequired))
    else
      EmailPatternIsWellFormed(req.email.value);
      if !MatchesEmailPattern(req.email.value) then Some(BadRequest(MsgBadEmail))
      else if !PasswordLongEnough(req.password.value) then Some(BadRequest(MsgShortPassword))
      else if EmailTaken(users, req.email.value) then Some(Conflict(MsgDuplicate))
      else None
  }

  /** The checks that run before the database is consulted decide the answer on
      their own: a request they reject is rejected alike whatever the table holds. */
  lemma FormatRejectionIgnoresTable(users1: seq<UserRow>, users2: seq<UserRow>, req: RegisterRequest)
    requires !FormatAcceptable(req)
    ensures Screen(users1, req) == Screen(users2, req)
    ensures Screen(users1, req).Some? && Screen(users1, req).value.BadRequest?
  {
  }

  /** The row a successful registration inserts. */
  function NewUser(req: RegisterRequest, id: nat): (u: UserRow)
    requires RequiredFieldsPresent(req)
    ensures u.userId == id && u.role == Customer
    ensures u.firstName == req.firstName.value && u.lastName == req.lastName.value
    ensures u.email == req.email.value
    ensures Compare(req.password.value, u.passwordHash)
    ensures u.phone.None? <==> !Present(req.phone)
    ensures u.phone.Some? ==> u.phone == req.phone
  {
    UserRow(id, req.firstName.value, req.lastName.value, req.email.value,
            Hash(req.password.value), if Present(req.phone) then req.phone else None, Customer)
  }

  function AccountOf(u: UserRow): Account {
    Account(u.userId, u.firstName, u.lastName, u.email, u.role)
  }

  function ProfileOf(u: UserRow): Profile {
    Profile(u.userId, u.firstName, u.lastName, u.email, u.phone, u.role)
  }

  /** No two rows hold e-mail addresses equal ignoring case. */
  ghost predicate UniqueEmails(users: seq<UserRow>) {
    forall i, j | 0 <= i < j < |users| :: !SameIgnoringCase(users[i].email, users[j].email)
  }

  /** Inserting the row of an accepted registration keeps the addresses unique. */
  lemma AcceptedRegistrationKeepsEmailsUnique(users: seq<UserRow>, req: RegisterRequest, id: nat)
    requires UniqueEmails(users)
    requires Screen(users, req).None?
    ensures UniqueEmails(users + [NewUser(req, id)])
  {
  }

  // ---------------------------------------------------------------------------
  // Login

  /** The first row whose e-mail equals `email` ignoring case. */
  function FindByEmail(users: seq<UserRow>, email: string): (r: Option<nat>)
    ensures r.Some? ==> r.value < |users| && SameIgnoringCase(users[r.value].email, email)
    ensures r.Some? ==> forall j | 0 <= j < r.value :: !SameIgnoringCase(users[j].email, email)
    ensures r.None? <==> !EmailTaken(users, email)
    decreases |users|
  {
    if users == [] then None
    else if SameIgnoringCase(users[0].email, email) then Some(0)
    else
      assert forall u | u in users :: u == users[0] || u in users[1..];
      match FindByEmail(users[1..], email)
      case None => None
      case Some(i) => Some(i + 1)
  }

  /** The login decision: required fields, lookup ignoring case, password check. */
  function Authenticate(users: seq<UserRow>, email: Field, password: Field): (r: Response)
    ensures r.LoggedIn? || r.BadRequest? || r.Unauthorized?
    ensures r.BadRequest? <==> !Present(email) || !Present(password)
    ensures r.BadRequest? ==> r.error == MsgLoginRequired
    ensures r.Unauthorized? ==> r.error == MsgBadCredentials
    ensures r.LoggedIn? ==>
              Present(email) && Present(password) &&
              exists i | 0 <= i < |users| ::
                SameIgnoringCase(users[i].email, email.value) &&
                Compare(password.value, users[i].passwordHash) &&
                r.profile == ProfileOf(users[i])
    ensures Present(email) && Present(password) && !EmailTaken(users, email.value) ==>
              r == Unauthorized(MsgBadCredentials)
  {
    if !Present(email) || !Present(password) then BadRequest(MsgLoginRequired)
    else match FindByEmail(users, email.value)
      case None => Unauthorized(MsgBadCredentials)
      case Some(i) =>
        if Compare(password.value, users[i].passwordHash) then LoggedIn(ProfileOf(users[i]))
        else Unauthorized(MsgBadCredentials)
  }

  /** With unique addresses, a login with both fields given succeeds exactly when some
      account has that address, ignoring case, and the password matches its digest. */
  lemma LoginSucceedsExactlyForStoredPassword(users: seq<UserRow>, email: Field, password: Field)
    requires UniqueEmails(users)
    requires Present(email) && Present(password)
    ensures Authenticate(users, email, password).LoggedIn? <==>
            exists i | 0 <= i < |users| ::
              SameIgnoringCase(users[i].email, email.value) &&
              Compare(password.value, users[i].passwordHash)
  {
  }

  /** An unknown address and a wrong password for a known one get the very same
      answer, so the response does not tell which of the two happened. */
  lemma UnknownEmailAndWrongPasswordLookAlike(users: seq<UserRow>, unknown: Field, p1: Field,
                                              known: Field, p2: Field, i: nat)
    requires UniqueEmails(users)
    requires Present(unknown) && Present(p1) && !EmailTaken(users, unknown.value)
    requires Present(known) && Present(p2) && i < |users|
    requires SameIgnoringCase(users[i].email, known.value)
    requires !Compare(p2.value, users[i].passwordHash)
    ensures Authenticate(users, unknown, p1) == Authenticate(users, known, p2)
    ensures Authenticate(users, known, p2) == Unauthorized(MsgBadCredentials)
  {
  }

  /** Registering and then logging in with the same password and the address in any
      letter case succeeds, and returns the new account without its hash. */
  lemma RegisterThenLogin(users: seq<UserRow>, req: RegisterRequest, id: nat, email: string)
    requires Screen(users, req).None?
    requires SameIgnoringCase(email, req.email.value)
    ensures Authenticate(users + [NewUser(req, id)], Some(email), req.password) ==
            LoggedIn(Profile(id, req.firstName.value, req.lastName.value, req.email.value,
                             NewUser(req, id).phone, Customer))
  {
  }

  // ---------------------------------------------------------------------------
  // The USERS table

  /** The USERS table and the identity sequence that numbers its rows. */
  class UserTable {
    var users: seq<UserRow>
    var nextUserId: nat

    ghost predicate Valid()
      reads this
    {
      UniqueEmails(users) &&
      (forall i, j | 0 <= i < j < |users| :: users[i].userId < users[j].userId) &&
      (forall i | 0 <= i < |users| :: users[i].userId < nextUserId)
    }

    constructor ()
      ensures Valid() && users == [] && nextUserId == 1
    {
      users := [];
      nextUserId := 1;
    }

    /** POST /api/register: run the checks in order; on success hash the password and
        insert one customer row. */
    method Register(req: RegisterRequest) returns (r: Response)
      requires Valid()
      modifies this
      ensures Valid()
      ensures Screen(old(users), req).Some? ==>
                r == Screen(old(users), req).value &&
                users == old(users) && nextUserId == old(nextUserId)
      ensures Screen(old(users), req).None? ==>
                users == old(users) + [NewUser(req, old(nextUserId))] &&
                nextUserId == old(nextUserId) + 1 &&
                r == Created(Account(old(nextUserId), req.firstName.value, req.lastName.value,
                                     req.email.value, Customer))
    {
      var rejection := Screen(users, req);
      if rejection.Some? {
        return rejection.value;
      }
      var row := NewUser(req, nextUserId);
      AcceptedRegistrationKeepsEmailsUnique(users, req, nextUserId);
      users := users + [row];
      nextUserId := nextUserId + 1;
      r := Created(AccountOf(row));
    }

    /** POST /api/login: look the address up ignoring case and check the password. */
    method Login(email: Field, password: Field) returns (r: Response)
      requires Valid()
      ensures r == Authenticate(users, email, password)
      ensures Present(email) && Present(password) ==>
                (r.LoggedIn? <==>
                 exists i | 0 <= i < |users| ::
                   SameIgnoringCase(users[i].email, email.value) &&
                   Compare(password.value, users[i].passwordHash))
    {
      r := Authenticate(users, email, password);
      if Present(email) && Present(password) {
        LoginSucceedsExactlyForStoredPassword(users, email, password);
      }
    }
  }
}
