/** The account and session tables of src/services/AuthService.ts. The SHA-256
    digest is fixed when the service is built; generated ids and the clock are
    parameters of the operations that need them. */
module Auth {
  import opened Wrappers
  import opened Types
  import Seqs
  import Security

  /** The reasons `register` and `login` raise. */
  datatype AuthError =
    | InvalidUsername
    | InvalidEmail
    | InvalidPassword
    | EmailTaken
    | UsernameTaken
    | InvalidCredentials

  /** The message each error is raised with. */
  function Message(e: AuthError): string {
    match e
    case InvalidUsername => "Uživatelské jméno musí obsahovat 3-20 znaků (písmena, čísla a podtržítko)"
    case InvalidEmail => "Neplatný formát emailu"
    case InvalidPassword => "Heslo musí obsahovat minimálně 8 znaků, včetně velkého písmene, malého písmene a čísla"
    case EmailTaken => "Email je již registrován"
    case UsernameTaken => "Uživatelské jméno je již použito"
    case InvalidCredentials => "Neplatný email nebo heslo"
  }

  /** A session lasts 24 hours, in milliseconds. */
  const SessionLifetime: int := 24 * 60 * 60 * 1000

  /** The account the constructor always creates. */
  function TestUser(digest: Security.Digest): (u: User)
    ensures u.id == "1" && u.email == "test@example.com" && u.username == "test"
    ensures Security.VerifyPassword(digest, "Test123456", u.password)
  {
    User("1", "test", "test@example.com", Security.HashPassword(digest, "Test123456"))
  }

  predicate EmailInUse(users: seq<User>, email: string) {
    exists i :: 0 <= i < |users| && users[i].email == email
  }

  predicate UsernameInUse(users: seq<User>, username: string) {
    exists i :: 0 <= i < |users| && users[i].username == username
  }

  /** No two accounts share an email or a username. */
  predicate DistinctAccounts(users: seq<User>) {
    forall i, j :: 0 <= i < j < |users| ==> users[i].email != users[j].email && users[i].username != users[j].username
  }

  /** The outcome of `register` on the user table: the inputs are sanitised,
      then validated (username, email, password, in that order), then checked
      for a taken email and then a taken username; a new account stores the
      hash of the sanitised password. `newId` is the generated UUID. */
  function Registration(users: seq<User>, digest: Security.Digest, username: string, email: string, password: string, newId: string): (r: Result<User, AuthError>)
    ensures r.Ok? <==>
              && Security.ValidateUsername(Security.SanitizeInput(username))
              && Security.ValidateEmail(Security.SanitizeInput(email))
              && Security.ValidatePassword(Security.SanitizeInput(password))
              && !EmailInUse(users, Security.SanitizeInput(email))
              && !UsernameInUse(users, Security.SanitizeInput(username))
    ensures r.Ok? ==> r.value.id == newId && r.value.email == Security.SanitizeInput(email) && r.value.username == Security.SanitizeInput(username)
    ensures r.Ok? ==> Security.VerifyPassword(digest, Security.SanitizeInput(password), r.value.password)
    ensures !Security.ValidateUsername(Security.SanitizeInput(username)) ==> r == Err(InvalidUsername)
    ensures Security.ValidateUsername(Security.SanitizeInput(username)) && !Security.ValidateEmail(Security.SanitizeInput(email)) ==>
              r == Err(InvalidEmail)
    ensures (Security.ValidateUsername(Security.SanitizeInput(username)) && Security.ValidateEmail(Security.SanitizeInput(email))
             && !Security.ValidatePassword(Security.SanitizeInput(password))) ==> r == Err(InvalidPassword)
    ensures (Security.ValidateUsername(Security.SanitizeInput(username)) && Security.ValidateEmail(Security.SanitizeInput(email))
             && Security.ValidatePassword(Security.SanitizeInput(password)) && EmailInUse(users, Security.SanitizeInput(email))) ==>
              r == Err(EmailTaken)
    ensures (Security.ValidateUsername(Security.SanitizeInput(username)) && Security.ValidateEmail(Security.SanitizeInput(email))
             && Security.ValidatePassword(Security.SanitizeInput(password)) && !EmailInUse(users, Security.SanitizeInput(email))
             && UsernameInUse(users, Security.SanitizeInput(username))) ==> r == Err(UsernameTaken)
  {
    var u := Security.SanitizeInput(username);
    var e := Security.SanitizeInput(email);
    var p := Security.SanitizeInput(password);
    if !Security.ValidateUsername(u) then Err(InvalidUsername)
    else if !Security.ValidateEmail(e) then Err(InvalidEmail)
    else if !Security.ValidatePassword(p) then Err(InvalidPassword)
    else if EmailInUse(users, e) then Err(EmailTaken)
    else if UsernameInUse(users, u) then Err(UsernameTaken)
    else Ok(User(newId, u, e, Security.HashPassword(digest, p)))
  }

  /** A registered username and password are stored as given: the validators
      admit no character the sanitiser would rewrite. */
  lemma RegisteredAsTyped(users: seq<User>, digest: Security.Digest, username: string, email: string, password: string, newId: string)
    requires Registration(users, digest, username, email, password, newId).Ok?
    ensures Registration(users, digest, username, email, password, newId).value.username == username
    ensures Registration(users, digest, username, email, password, newId).value.password == Security.HashPassword(digest, password)
  {
    var u := Security.SanitizeInput(username);
    var p := Security.SanitizeInput(password);
    forall k | 0 <= k < |u| ensures u[k] != '&' {
      assert Security.IsWordChar(u[k]);
    }
    Security.SanitizedWithoutAmp(username);
    forall k | 0 <= k < |p| ensures p[k] != '&' {
      assert Security.IsAlnum(p[k]);
    }
    Security.SanitizedWithoutAmp(password);
  }

  /** A successful registration keeps emails and usernames distinct. */
  lemma RegistrationKeepsDistinct(users: seq<User>, digest: Security.Digest, username: string, email: string, password: string, newId: string)
    requires DistinctAccounts(users)
    requires Registration(users, digest, username, email, password, newId).Ok?
    ensures DistinctAccounts(users + [Registration(users, digest, username, email, password, newId).value])
  {
  }

  function UserHasEmail(email: string): User -> bool {
    (u: User) => u.email == email
  }

  function UserHasId(id: string): User -> bool {
    (u: User) => u.id == id
  }

  /** The account check of `login`: a malformed (sanitised) email is its own
      error; an unknown email and a wrong password share one error. The
      account is the first one with the email. */
  function Authenticate(users: seq<User>, digest: Security.Digest, email: string, password: string): (r: Result<User, AuthError>)
    ensures r.Err? ==> r.error == if Security.ValidateEmail(Security.SanitizeInput(email)) then InvalidCredentials else InvalidEmail
    ensures r.Ok? ==> r.value in users && r.value.email == Security.SanitizeInput(email)
    ensures r.Ok? ==> Security.VerifyPassword(digest, Security.SanitizeInput(password), r.value.password)
    ensures Security.ValidateEmail(Security.SanitizeInput(email)) && !EmailInUse(users, Security.SanitizeInput(email)) ==> r == Err(InvalidCredentials)
    ensures var k := Seqs.FirstIndex(users, UserHasEmail(Security.SanitizeInput(email)));
            r.Ok? <==> Security.ValidateEmail(Security.SanitizeInput(email)) && k >= 0
                       && Security.VerifyPassword(digest, Security.SanitizeInput(password), users[k].password)
    ensures r.Ok? ==> r.value == users[Seqs.FirstIndex(users, UserHasEmail(Security.SanitizeInput(email)))]
  {
    var e := Security.SanitizeInput(email);
    var p := Security.SanitizeInput(password);
    if !Security.ValidateEmail(e) then Err(InvalidEmail)
    else match Seqs.FindFirst(users, UserHasEmail(e))
      case None => Err(InvalidCredentials)
      case Some(u) =>
        if Security.VerifyPassword(digest, p, u.password) then Ok(u) else Err(InvalidCredentials)
  }

  /** The account just registered can log in with the same email and password. */
  lemma RegisterThenLogin(users: seq<User>, digest: Security.Digest, username: string, email: string, password: string, newId: string)
    requires Registration(users, digest, username, email, password, newId).Ok?
    ensures Authenticate(users + [Registration(users, digest, username, email, password, newId).value], digest, email, password)
            == Ok(Registration(users, digest, username, email, password, newId).value)
  {
    var u := Registration(users, digest, username, email, password, newId).value;
    var all := users + [u];
    var e := Security.SanitizeInput(email);
    assert forall i :: 0 <= i < |users| ==> !UserHasEmail(e)(all[i]);
    assert UserHasEmail(e)(all[|users|]);
    assert Seqs.FindFirst(all, UserHasEmail(e)) == Some(u);
  }

  /** Registering the same email again is refused, whatever the other fields. */
  lemma RegisterTwiceRefused(users: seq<User>, digest: Security.Digest, username: string, email: string, password: string, newId: string,
                             username2: string, password2: string, newId2: string)
    requires Registration(users, digest, username, email, password, newId).Ok?
    ensures Registration(users + [Registration(users, digest, username, email, password, newId).value], digest, username2, email, password2, newId2).Err?
  {
    var u := Registration(users, digest, username, email, password, newId).value;
    assert (users + [u])[|users|].email == Security.SanitizeInput(email);
  }

  function SessionHasId(id: string): Session -> bool {
    (s: Session) => s.id == id
  }

  function SessionLacksId(id: string): Session -> bool {
    (s: Session) => s.id != id
  }

  /** `getSession`: the first session with the id, re-joined to the current
      record of its user; nothing when the session or its user is missing. */
  function SessionLookup(users: seq<User>, sessions: seq<Session>, sessionId: string): (r: Option<Session>)
    ensures (forall i :: 0 <= i < |sessions| ==> sessions[i].id != sessionId) ==> r.None?
    ensures r.Some? ==> Coherent(r.value) && r.value.user in users && r.value.id == sessionId
    ensures r.Some? ==> exists i :: 0 <= i < |sessions| && r.value == sessions[i].(user := r.value.user)
    ensures var k := Seqs.FirstIndex(sessions, SessionHasId(sessionId));
            k >= 0 ==>
              var j := Seqs.FirstIndex(users, UserHasId(sessions[k].userId));
              && (j >= 0 ==> r == Some(sessions[k].(user := users[j])))
              && (j == -1 ==> r.None?)
  {
    match Seqs.FindFirst(sessions, SessionHasId(sessionId))
    case None => None
    case Some(s) =>
      match Seqs.FindFirst(users, UserHasId(s.userId))
      case None => None
      case Some(u) => Some(s.(user := u))
  }

  /** A session issued by `login` whose id was not in use is found again,
      joined to the account it was issued to, while that account exists. */
  lemma LoginThenLookup(users: seq<User>, sessions: seq<Session>, u: User, sessionId: string, now: Time)
    requires u in users
    requires forall i :: 0 <= i < |sessions| ==> sessions[i].id != sessionId
    ensures SessionLookup(users, sessions + [Session(sessionId, u.id, u, now, now + SessionLifetime)], sessionId).Some?
    ensures SessionLookup(users, sessions + [Session(sessionId, u.id, u, now, now + SessionLifetime)], sessionId).value.userId == u.id
  {
    var s := Session(sessionId, u.id, u, now, now + SessionLifetime);
    var all := sessions + [s];
    assert forall i :: 0 <= i < |sessions| ==> !SessionHasId(sessionId)(all[i]);
    assert SessionHasId(sessionId)(all[|sessions|]);
    var k :| 0 <= k < |users| && users[k] == u;
    assert UserHasId(u.id)(users[k]);
  }

  /** `sessions.filter(s => s.id !== sessionId)` */
  function WithoutSession(sessions: seq<Session>, sessionId: string): seq<Session> {
    Seqs.Filter(sessions, SessionLacksId(sessionId))
  }

  /** After logout no session with the id remains, every other one does, and
      an unknown id changes nothing. */
  lemma LogoutSpec(users: seq<User>, sessions: seq<Session>, sessionId: string)
    ensures SessionLookup(users, WithoutSession(sessions, sessionId), sessionId).None?
    ensures forall i :: 0 <= i < |sessions| && sessions[i].id != sessionId ==> sessions[i] in WithoutSession(sessions, sessionId)
    ensures (forall i :: 0 <= i < |sessions| ==> sessions[i].id != sessionId) ==> WithoutSession(sessions, sessionId) == sessions
  {
    var r := WithoutSession(sessions, sessionId);
    forall i | 0 <= i < |r| ensures r[i].id != sessionId {
      assert SessionLacksId(sessionId)(r[i]);
    }
    forall i | 0 <= i < |sessions| && sessions[i].id != sessionId ensures sessions[i] in r {
      assert SessionLacksId(sessionId)(sessions[i]);
    }
    if forall i :: 0 <= i < |sessions| ==> sessions[i].id != sessionId {
      assert forall i :: 0 <= i < |sessions| ==> SessionLacksId(sessionId)(sessions[i]);
      Seqs.FilterKeepsAll(sessions, SessionLacksId(sessionId));
    }
  }

  class AuthService {
    const digest: Security.Digest
    var users: seq<User>
    var sessions: seq<Session>

    /** Emails and usernames are distinct. */
    predicate Valid()
      reads this
    {
      DistinctAccounts(users)
    }

    /** The user table is reset to the test account alone; the sessions are
        those stored earlier (`stored`, absent when nothing was stored). */
    constructor (digest: Security.Digest, stored: Option<seq<Session>>)
      ensures this.digest == digest
      ensures users == [TestUser(digest)]
      ensures sessions == stored.GetOr([])
      ensures Valid()
    {
      this.digest := digest;
      users := [TestUser(digest)];
      sessions := if stored.Some? then stored.value else [];
    }

    /** `register`: on success the new account is appended and returned; on
        failure the table is unchanged. */
    method Register(username: string, email: string, password: string, newId: string) returns (r: Result<User, AuthError>)
      requires Valid()
      modifies this`users
      ensures r == Registration(old(users), digest, username, email, password, newId)
      ensures r.Ok? ==> users == old(users) + [r.value]
      ensures r.Err? ==> users == old(users)
      ensures Valid()
    {
      r := Registration(users, digest, username, email, password, newId);
      if r.Ok? {
        RegistrationKeepsDistinct(users, digest, username, email, password, newId);
        users := users + [r.value];
      }
    }

    /** `login`: on success one session, valid for 24 hours from `now`, is
        appended and returned with the account embedded; the account table is
        never touched. */
    method Login(email: string, password: string, sessionId: string, now: Time) returns (r: Result<Session, AuthError>)
      modifies this`sessions
      ensures Authenticate(users, digest, email, password).Err? ==>
                r == Err(Authenticate(users, digest, email, password).error) && sessions == old(sessions)
      ensures Authenticate(users, digest, email, password).Ok? ==>
                && r == Ok(Session(sessionId, Authenticate(users, digest, email, password).value.id,
                                   Authenticate(users, digest, email, password).value, now, now + SessionLifetime))
                && sessions == old(sessions) + [r.value]
      ensures r.Ok? ==> Coherent(r.value)
    {
      var auth := Authenticate(users, digest, email, password);
      if auth.Err? {
        return Err(auth.error);
      }
      var user := auth.value;
      var session := Session(sessionId, user.id, user, now, now + SessionLifetime);
      sessions := sessions + [session];
      r := Ok(session);
    }

    method Logout(sessionId: string)
      modifies this`sessions
      ensures sessions == WithoutSession(old(sessions), sessionId)
    {
      sessions := WithoutSession(sessions, sessionId);
    }

    function GetSession(sessionId: string): (r: Option<Session>)
      reads this
      ensures r == SessionLookup(users, sessions, sessionId)
      ensures r.Some? ==> Coherent(r.value) && r.value.user in users
    {
      SessionLookup(users, sessions, sessionId)
    }

    /** `getUser`: the first account with the id. */
    function GetUser(userId: string): (r: Option<User>)
      reads this
      ensures r.None? <==> forall i :: 0 <= i < |users| ==> users[i].id != userId
      ensures r.Some? ==> r.value in users && r.value.id == userId
      ensures r.Some? ==> r.value == users[Seqs.FirstIndex(users, UserHasId(userId))]
    {
      Seqs.FindFirst(users, UserHasId(userId))
    }
  }
}
