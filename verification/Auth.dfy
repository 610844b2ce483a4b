/** Accounts, login lockout and sessions: the state and what each call does to it. */
module Auth {
  import opened Wrappers
  import opened Text
  import Cookies

  /** Nanoseconds on the system clock. */
  type Time = int

  const NANOS := 1_000_000_000
  const SESSION_TTL := Cookies.SESSION_TTL_SECS * NANOS
  const LOGIN_FAILURE_LIMIT := 5
  const LOGIN_LOCKOUT := 15 * 60 * NANOS

  datatype PublicUser = PublicUser(id: string, username: string, trustLevel: nat)

  datatype LoginSession = LoginSession(user: PublicUser, secret: string)

  datatype Error =
    | InvalidUsername | InvalidEmail | Password | DuplicateUsername | DuplicateEmail | InvalidCredentials
    | LoginRateLimited(retryAfterSecs: nat) | InvalidSession | Token(text: string)

  datatype StoredUser = StoredUser(id: string, username: string, usernameNormalized: string, emailHash: string,
                                   passwordHash: string, trustLevel: nat)

  datatype StoredSession = StoredSession(userId: string, tokenHash: string, expiresAt: Time, revokedAt: Option<Time>)

  datatype LoginFailure = LoginFailure(count: u32, lockedUntil: Option<Time>)

  /** SHA-256 in hexadecimal, and password verification; both never change. */
  datatype Crypto = Crypto(hash: string -> string, verifies: (string, string) -> bool)

  datatype State = State(
    nextUserId: nat,
    users: map<string, StoredUser>,
    usernameIndex: map<string, string>,
    emailHashIndex: map<string, string>,
    sessions: map<string, StoredSession>,
    loginFailures: map<string, LoginFailure>
  )

  const INITIAL := State(1, map[], map[], map[], map[], map[])

  // ----- normal forms -----

  predicate IsNameByte(b: byte) {
    48 <= b <= 57 || 65 <= b <= 90 || 97 <= b <= 122 || b == 95 || b == 45
  }

  function NormalizeUsername(username: string): Result<string, Error> {
    var trimmed := Trim(username);
    var bytes := Bytes(trimmed);
    if 3 <= |bytes| <= 32 && forall b | b in bytes :: IsNameByte(b) then Success(AsciiLower(trimmed))
    else Failure(InvalidUsername)
  }

  function NormalizeEmail(email: string): Result<string, Error> {
    var trimmed := AsciiLower(Trim(email));
    if |Bytes(trimmed)| <= 254 && '@' in trimmed && trimmed[0] != '@' && trimmed[|trimmed| - 1] != '@'
       && forall c | c in trimmed :: !IsWhitespace(c)
    then Success(trimmed)
    else Failure(InvalidEmail)
  }

  function NormalizeLogin(login: string): Result<string, Error> {
    var trimmed := Trim(login);
    if '@' in trimmed then NormalizeEmail(trimmed) else NormalizeUsername(trimmed)
  }

  function LookupKey(crypto: Crypto, login: string): string {
    if '@' in login then "email:" + crypto.hash(login) else "username:" + login
  }

  // ----- registration -----

  function Public(u: StoredUser): PublicUser {
    PublicUser(u.id, u.username, u.trustLevel)
  }

  function AddUser(s: State, u: StoredUser): State {
    s.(nextUserId := s.nextUserId + 1,
       usernameIndex := s.usernameIndex[u.usernameNormalized := u.id],
       emailHashIndex := s.emailHashIndex[u.emailHash := u.id],
       users := s.users[u.id := u])
  }

  /** `hashed` is the password hash, or nothing when the password policy refuses the password. */
  function DoRegister(crypto: Crypto, s: State, username: string, email: string, hashed: Option<string>)
    : Result<State, Error>
  {
    var name :- NormalizeUsername(username);
    var address :- NormalizeEmail(email);
    var emailHash := crypto.hash(address);
    if hashed.None? then Failure(Password)
    else if name in s.usernameIndex then Failure(DuplicateUsername)
    else if emailHash in s.emailHashIndex then Failure(DuplicateEmail)
    else
      Success(AddUser(s, StoredUser(Id("user", s.nextUserId), Trim(username), name, emailHash, hashed.value, 0)))
  }

  // ----- lockout -----

  /** `reject_locked_login`: how long to wait, while the lock lasts (its last instant included). */
  function RetryAfter(failures: map<string, LoginFailure>, key: string, now: Time): Option<nat> {
    if key in failures && failures[key].lockedUntil.Some? && now <= failures[key].lockedUntil.value then
      var seconds := (failures[key].lockedUntil.value - now) / NANOS;
      Some(if seconds < 1 then 1 else seconds)
    else None
  }

  function FailuresOf(failures: map<string, LoginFailure>, key: string): LoginFailure {
    if key in failures then failures[key] else LoginFailure(0, None)
  }

  /** `record_failed_login` */
  function RecordFailure(failures: map<string, LoginFailure>, key: string, now: Time): map<string, LoginFailure> {
    var before := FailuresOf(failures, key);
    var count := SaturatingIncrement(before.count);
    failures[key := LoginFailure(count, if count >= LOGIN_FAILURE_LIMIT then Some(now + LOGIN_LOCKOUT)
                                        else before.lockedUntil)]
  }

  // ----- login -----

  function FindUser(crypto: Crypto, s: State, login: string): Option<string> {
    if login in s.usernameIndex then Some(s.usernameIndex[login])
    else if crypto.hash(login) in s.emailHashIndex then Some(s.emailHashIndex[crypto.hash(login)])
    else None
  }

  /** What the first section of a login works on; the clock is read before the lock is taken. */
  datatype Attempt = Attempt(login: string, password: string, now: Time)

  /** What the first section and the password check decide. */
  datatype Verdict = Rejected(error: Error) | Failed(key: string) | Accepted(key: string, user: StoredUser)

  function Judge(crypto: Crypto, s: State, a: Attempt): Verdict {
    match NormalizeLogin(a.login)
    case Failure(e) => Rejected(e)
    case Success(login) =>
      var key := LookupKey(crypto, login);
      var retry := RetryAfter(s.loginFailures, key, a.now);
      if retry.Some? then Rejected(LoginRateLimited(retry.value))
      else
        var id := FindUser(crypto, s, login);
        if id.None? then Failed(key)
        else if id.value !in s.users then Rejected(InvalidCredentials)
        else if crypto.verifies(a.password, s.users[id.value].passwordHash) then Accepted(key, s.users[id.value])
        else Failed(key)
  }

  /** The section of a failed login. */
  function AfterRecord(s: State, key: string, now: Time): State {
    s.(loginFailures := RecordFailure(s.loginFailures, key, now))
  }

  /** The section of a successful login; `drawn` is the new token, or the error of the generator. */
  function AfterIssue(crypto: Crypto, s: State, key: string, userId: string, now: Time, drawn: Result<string, string>)
    : State
  {
    if drawn.Failure? then s
    else
      var tokenHash := crypto.hash(drawn.value);
      s.(loginFailures := s.loginFailures - {key},
         sessions := s.sessions[tokenHash := StoredSession(userId, tokenHash, now + SESSION_TTL, None)])
  }

  /** A whole login: the attempt, the later clock readings and the token drawn for it. */
  datatype Login = Login(attempt: Attempt, record: Time, issue: Time, drawn: Result<string, string>)

  /** A login with nothing in between its sections. */
  function AfterLogin(crypto: Crypto, s: State, l: Login): State {
    match Judge(crypto, s, l.attempt)
    case Rejected(_) => s
    case Failed(key) => AfterRecord(s, key, l.record)
    case Accepted(key, user) => AfterIssue(crypto, s, key, user.id, l.issue, l.drawn)
  }

  // ----- sessions -----

  function Authenticate(crypto: Crypto, s: State, secret: string, now: Time): Result<PublicUser, Error> {
    var tokenHash := crypto.hash(secret);
    if tokenHash !in s.sessions then Failure(InvalidSession)
    else
      var session := s.sessions[tokenHash];
      if session.revokedAt.Some? || now >= session.expiresAt || crypto.hash(secret) != session.tokenHash then
        Failure(InvalidSession)
      else if session.userId !in s.users then Failure(InvalidSession)
      else Success(Public(s.users[session.userId]))
  }

  function DoLogout(crypto: Crypto, s: State, secret: string, now: Time): Result<State, Error> {
    var tokenHash := crypto.hash(secret);
    if tokenHash !in s.sessions then Failure(InvalidSession)
    else Success(s.(sessions := s.sessions[tokenHash := s.sessions[tokenHash].(revokedAt := Some(now))]))
  }

  // ----- schedules: any interleaving of the sections of any number of callers -----

  /** A login between its check and its last section: what it is about to do, and what clock reading it checked with. */
  datatype Waiting = Waiting(verdict: Verdict, checked: Time)

  datatype System = System(state: State, waiting: map<nat, Waiting>)

  datatype Event =
    | Check(client: nat, attempt: Attempt)
    | Record(client: nat, now: Time)
    | Issue(client: nat, now: Time, drawn: Result<string, string>)
    | Register(username: string, email: string, hashed: Option<string>)
    | LogOut(secret: string, now: Time)

  function Next(crypto: Crypto, y: System, e: Event): System {
    match e
    case Check(client, attempt) =>
      var verdict := Judge(crypto, y.state, attempt);
      if client in y.waiting || verdict.Rejected? then y
      else y.(waiting := y.waiting[client := Waiting(verdict, attempt.now)])
    case Record(client, now) =>
      if client in y.waiting && y.waiting[client].verdict.Failed? then
        System(AfterRecord(y.state, y.waiting[client].verdict.key, now), y.waiting - {client})
      else y
    case Issue(client, now, drawn) =>
      if client in y.waiting && y.waiting[client].verdict.Accepted? then
        var verdict := y.waiting[client].verdict;
        System(AfterIssue(crypto, y.state, verdict.key, verdict.user.id, now, drawn), y.waiting - {client})
      else y
    case Register(username, email, hashed) =>
      var r := DoRegister(crypto, y.state, username, email, hashed);
      if r.Success? then y.(state := r.value) else y
    case LogOut(secret, now) =>
      var r := DoLogout(crypto, y.state, secret, now);
      if r.Success? then y.(state := r.value) else y
  }

  /** The system after a schedule of events from the empty service. */
  function Trace(crypto: Crypto, events: seq<Event>): System {
    if events == [] then System(INITIAL, map[])
    else Next(crypto, Trace(crypto, events[..|events| - 1]), events[|events| - 1])
  }
}
