/** The users app's tables: the custom User with its field rules and unique
    columns, and Subscribe, a (subscriber, author) table with a unique
    constraint and a check constraint against following oneself. Both
    tables are values here; the view layer keeps them as fields. */
module Users {
  import opened Wrappers
  import opened Text
  import opened Patterns

  type UserId = nat

  datatype User = User(
    id: UserId,
    username: string,
    email: string,
    firstName: string,
    lastName: string,
    isStaff: bool)

  /** max_length of username, first_name and last_name. */
  const MaxNameLength := 150
  /** Django's default max_length of an EmailField. */
  const MaxEmailLength := 254

  /** `\w`, restricted to ASCII letters, digits and underscore. */
  predicate IsWordChar(c: char) {
    IsAsciiLower(c) || IsAsciiUpper(c) || IsAsciiDigit(c) || c == '_'
  }

  predicate IsUsernameChar(c: char) {
    IsWordChar(c) || c == '.' || c == '@' || c == '+' || c == '-'
  }

  /** `^[\w.@+-]+\Z` */
  const UsernamePattern: seq<Piece> := [Run(IsUsernameChar, 1, Unbounded), EndOfString]

  ghost predicate IsUsernameText(s: string) {
    |s| > 0 && forall i :: 0 <= i < |s| ==> IsUsernameChar(s[i])
  }

  lemma {:induction false} UsernameLanguage(s: string)
    ensures Matches(UsernamePattern, s) <==> IsUsernameText(s)
  {
    var k := RunLength(s, IsUsernameChar);
    assert Taken(s, IsUsernameChar, Unbounded) == k;
    assert UsernamePattern[1..] == [EndOfString];
    assert Matches(UsernamePattern[1..], s[k..]) == (|s[k..]| == 0);
    if IsUsernameText(s) {
      assert k == |s|;
    }
  }

  /** One violated field rule, as the field's validation reports it. A
      required field left empty reports only its blank error: the framework
      checks blankness before it runs the field's validators. */
  datatype FieldError =
    | UsernameBlank
    | UsernameTooLong
    | UsernameInvalid
    | UsernameTaken
    | FirstNameBlank
    | FirstNameTooLong
    | LastNameBlank
    | LastNameTooLong
    | EmailBlank
    | EmailTooLong
    | EmailTaken

  ghost predicate UsernameTakenIn(users: map<UserId, User>, name: string) {
    exists k :: k in users && users[k].username == name
  }

  ghost predicate EmailTakenIn(users: map<UserId, User>, email: string) {
    exists k :: k in users && users[k].email == email
  }

  /** Every rule the declared fields put on one user's own values. */
  ghost predicate FieldsValid(u: User) {
    && 0 < |u.username| <= MaxNameLength && IsUsernameText(u.username)
    && 0 < |u.firstName| <= MaxNameLength
    && 0 < |u.lastName| <= MaxNameLength
    && 0 < |u.email| <= MaxEmailLength
  }

  /** The User table: keyed by id, every row valid, username and email unique. */
  ghost predicate UsersValid(users: map<UserId, User>) {
    && (forall k :: k in users ==> users[k].id == k && FieldsValid(users[k]))
    && (forall a, b :: a in users && b in users && a != b ==>
          users[a].username != users[b].username && users[a].email != users[b].email)
  }

  /** The username field's errors: blank; otherwise length, pattern and
      uniqueness, each reported on its own. */
  function UsernameErrors(users: map<UserId, User>, name: string): (errs: set<FieldError>)
    ensures errs <= {UsernameBlank, UsernameTooLong, UsernameInvalid, UsernameTaken}
    ensures errs == {} <==>
      0 < |name| <= MaxNameLength && IsUsernameText(name) && !UsernameTakenIn(users, name)
    ensures |name| == 0 ==> errs == {UsernameBlank}
    ensures UsernameBlank in errs <==> |name| == 0
    ensures UsernameTooLong in errs <==> |name| > MaxNameLength
    ensures UsernameInvalid in errs <==> |name| > 0 && !IsUsernameText(name)
    ensures UsernameTaken in errs <==> |name| > 0 && UsernameTakenIn(users, name)
  {
    UsernameLanguage(name);
    if |name| == 0 then {UsernameBlank}
    else
      (if |name| > MaxNameLength then {UsernameTooLong} else {})
      + (if !Matches(UsernamePattern, name) then {UsernameInvalid} else {})
      + (if exists k :: k in users && users[k].username == name then {UsernameTaken} else {})
  }

  /** A first or last name's errors: blank, or too long. */
  function NameErrors(name: string, blank: FieldError, tooLong: FieldError): (errs: set<FieldError>)
    ensures errs <= {blank, tooLong}
    ensures errs == {} <==> 0 < |name| <= MaxNameLength
    ensures |name| == 0 ==> errs == {blank}
    ensures |name| > MaxNameLength ==> errs == {tooLong}
  {
    if |name| == 0 then {blank} else if |name| > MaxNameLength then {tooLong} else {}
  }

  /** The email field's errors: blank; otherwise length and uniqueness. */
  function EmailErrors(users: map<UserId, User>, email: string): (errs: set<FieldError>)
    ensures errs <= {EmailBlank, EmailTooLong, EmailTaken}
    ensures errs == {} <==> 0 < |email| <= MaxEmailLength && !EmailTakenIn(users, email)
    ensures |email| == 0 ==> errs == {EmailBlank}
    ensures EmailBlank in errs <==> |email| == 0
    ensures EmailTooLong in errs <==> |email| > MaxEmailLength
    ensures EmailTaken in errs <==> |email| > 0 && EmailTakenIn(users, email)
  {
    if |email| == 0 then {EmailBlank}
    else
      (if |email| > MaxEmailLength then {EmailTooLong} else {})
      + (if exists k :: k in users && users[k].email == email then {EmailTaken} else {})
  }

  /** All field errors of a new row `u` against the existing table. */
  function UserErrors(users: map<UserId, User>, u: User): (errs: set<FieldError>)
    ensures errs == {} <==>
      FieldsValid(u) && !UsernameTakenIn(users, u.username) && !EmailTakenIn(users, u.email)
    ensures UsernameTaken in errs <==> |u.username| > 0 && UsernameTakenIn(users, u.username)
    ensures EmailTaken in errs <==> |u.email| > 0 && EmailTakenIn(users, u.email)
  {
    UsernameErrors(users, u.username)
    + NameErrors(u.firstName, FirstNameBlank, FirstNameTooLong)
    + NameErrors(u.lastName, LastNameBlank, LastNameTooLong)
    + EmailErrors(users, u.email)
  }

  /** A row with no field errors can be added without breaking the table's rules. */
  lemma InsertUserKeepsValid(users: map<UserId, User>, u: User)
    requires UsersValid(users)
    requires u.id !in users
    requires UserErrors(users, u) == {}
    ensures UsersValid(users[u.id := u])
  {
  }

  /** Email is the login field: in a valid table it picks out at most one user. */
  lemma EmailIdentifiesUser(users: map<UserId, User>, a: UserId, b: UserId)
    requires UsersValid(users)
    requires a in users && b in users && users[a].email == users[b].email
    ensures a == b
  {
  }

  /** One row of the Subscribe table: `user` follows `author`. */
  datatype Follow = Follow(user: UserId, author: UserId)

  /** The Subscribe table's rules. Holding the rows in a set makes the
      unique (user, author) constraint hold by construction; the check
      constraint and both foreign keys are stated here. */
  ghost predicate SubscriptionsValid(users: map<UserId, User>, subs: set<Follow>) {
    forall f :: f in subs ==> f.user != f.author && f.user in users && f.author in users
  }

  /** The constraint a failed INSERT reports, reduced to its kind. */
  datatype IntegrityKind = UniqueViolation | CheckViolation | OtherViolation

  /** What inserting `f` into the Subscribe table violates, if anything:
      the check constraint, then the unique constraint, then the foreign keys. */
  function InsertViolation(users: map<UserId, User>, subs: set<Follow>, f: Follow): (v: Option<IntegrityKind>)
    ensures v == None <==> f.user != f.author && f !in subs && f.user in users && f.author in users
    ensures f.user == f.author ==> v == Some(CheckViolation)
    ensures v == Some(UniqueViolation) <==> f.user != f.author && f in subs
  {
    if f.user == f.author then Some(CheckViolation)
    else if f in subs then Some(UniqueViolation)
    else if f.user !in users || f.author !in users then Some(OtherViolation)
    else None
  }

  lemma InsertKeepsSubscriptionsValid(users: map<UserId, User>, subs: set<Follow>, f: Follow)
    requires SubscriptionsValid(users, subs)
    requires InsertViolation(users, subs, f) == None
    ensures SubscriptionsValid(users, subs + {f})
  {
  }

  /** Deleting a user cascades (on_delete=CASCADE on both foreign keys) to
      every subscription the user takes part in, either as subscriber or author. */
  function SubscriptionsAfterUserDeleted(subs: set<Follow>, id: UserId): (r: set<Follow>)
    ensures r <= subs
    ensures forall f :: f in r ==> f.user != id && f.author != id
    ensures forall f :: f in subs && f.user != id && f.author != id ==> f in r
  {
    set f | f in subs && f.user != id && f.author != id
  }

  lemma DeleteUserKeepsValid(users: map<UserId, User>, subs: set<Follow>, id: UserId)
    requires UsersValid(users) && SubscriptionsValid(users, subs)
    ensures UsersValid(users - {id})
    ensures SubscriptionsValid(users - {id}, SubscriptionsAfterUserDeleted(subs, id))
  {
  }
}
