/** The in-memory authentication service. */
module AuthEngine {
  import opened Wrappers
  import opened Text
  import opened Auth

  class AuthService {
    const crypto: Crypto
    var nextUserId: nat
    var users: map<string, StoredUser>
    var usernameIndex: map<string, string>
    var emailHashIndex: map<string, string>
    var sessions: map<string, StoredSession>
    var loginFailures: map<string, LoginFailure>

    ghost function Snapshot(): State
      reads this
    {
      State(nextUserId, users, usernameIndex, emailHashIndex, sessions, loginFailures)
    }

    constructor (crypto: Crypto)
      ensures Snapshot() == INITIAL && this.crypto == crypto
    {
      this.crypto := crypto;
      nextUserId, users, usernameIndex, emailHashIndex := 1, map[], map[], map[];
      sessions, loginFailures := map[], map[];
    }

    method Register(username: string, email: string, hashed: Option<string>) returns (r: Result<PublicUser, Error>)
      modifies this
      ensures Reflects(old(Snapshot()), DoRegister(crypto, old(Snapshot()), username, email, hashed), Snapshot(), r)
      ensures r.Success? ==> r.value.id in users && r.value == Public(users[r.value.id])
    {
      hide NormalizeUsername, NormalizeEmail, Trim, Id;
      var name :- NormalizeUsername(username);
      var address :- NormalizeEmail(email);
      var emailHash := crypto.hash(address);
      if hashed.None? {
        return Failure(Password);
      }
      if name in usernameIndex {
        return Failure(DuplicateUsername);
      }
      if emailHash in emailHashIndex {
        return Failure(DuplicateEmail);
      }
      var id := Id("user", nextUserId);
      nextUserId := nextUserId + 1;
      var user := StoredUser(id, Trim(username), name, emailHash, hashed.value, 0);
      usernameIndex := usernameIndex[name := id];
      emailHashIndex := emailHashIndex[emailHash := id];
      users := users[id := user];
      return Success(Public(user));
    }

    method RecordFailedLogin(key: string, now: Time)
      modifies this`loginFailures
      ensures loginFailures == RecordFailure(old(loginFailures), key, now)
    {
      if key !in loginFailures {
        loginFailures := loginFailures[key := LoginFailure(0, None)];
      }
      var failure := loginFailures[key];
      failure := failure.(count := SaturatingIncrement(failure.count));
      if failure.count >= LOGIN_FAILURE_LIMIT {
        failure := failure.(lockedUntil := Some(now + LOGIN_LOCKOUT));
      }
      loginFailures := loginFailures[key := failure];
    }

    /** The first section of a login and its password check. */
    method CheckLogin(a: Attempt) returns (verdict: Verdict)
      ensures verdict == Judge(crypto, Snapshot(), a)
    {
      hide NormalizeLogin, RetryAfter, LookupKey;
      var normal := NormalizeLogin(a.login);
      if normal.Failure? {
        return Rejected(normal.error);
      }
      var login := normal.value;
      var key := LookupKey(crypto, login);
      var retry := RetryAfter(loginFailures, key, a.now);
      if retry.Some? {
        return Rejected(LoginRateLimited(retry.value));
      }
      var id: Option<string> := None;
      if login in usernameIndex {
        id := Some(usernameIndex[login]);
      } else if crypto.hash(login) in emailHashIndex {
        id := Some(emailHashIndex[crypto.hash(login)]);
      }
      if id.None? {
        return Failed(key);
      }
      if id.value !in users {
        return Rejected(InvalidCredentials);
      }
      var user := users[id.value];
      return if crypto.verifies(a.password, user.passwordHash) then Accepted(key, user) else Failed(key);
    }

    /** The last section of a successful login: a token is drawn, old failures go and a session opens. */
    method IssueSession(key: string, user: StoredUser, now: Time, drawn: Result<string, string>)
      returns (r: Result<LoginSession, Error>)
      modifies this`loginFailures, this`sessions
      ensures Snapshot() == AfterIssue(crypto, old(Snapshot()), key, user.id, now, drawn)
      ensures r == if drawn.Success? then Success(LoginSession(Public(user), drawn.value))
                   else Failure(Token(drawn.error))
    {
      if drawn.Failure? {
        return Failure(Token(drawn.error));
      }
      var tokenHash := crypto.hash(drawn.value);
      loginFailures := loginFailures - {key};
      sessions := sessions[tokenHash := StoredSession(user.id, tokenHash, now + SESSION_TTL, None)];
      return Success(LoginSession(Public(user), drawn.value));
    }

    /** The sections of a login one after the other; a wrong password and an unknown name look the same. */
    method LogIn(l: Login) returns (r: Result<LoginSession, Error>)
      modifies this`loginFailures, this`sessions
      ensures Snapshot() == AfterLogin(crypto, old(Snapshot()), l)
      ensures r == match Judge(crypto, old(Snapshot()), l.attempt)
                   case Rejected(e) => Failure(e)
                   case Failed(_) => Failure(InvalidCredentials)
                   case Accepted(_, user) =>
                     match l.drawn
                     case Success(secret) => Success(LoginSession(Public(user), secret))
                     case Failure(e) => Failure(Token(e))
    {
      hide Judge, RecordFailure;
      var verdict := CheckLogin(l.attempt);
      match verdict
      case Rejected(e) =>
        return Failure(e);
      case Failed(key) =>
        RecordFailedLogin(key, l.record);
        return Failure(InvalidCredentials);
      case Accepted(key, user) =>
        r := IssueSession(key, user, l.issue, l.drawn);
    }

    method LogOut(secret: string, now: Time) returns (r: Result<(), Error>)
      modifies this`sessions
      ensures Reflects(old(Snapshot()), DoLogout(crypto, old(Snapshot()), secret, now), Snapshot(), r)
    {
      var tokenHash := crypto.hash(secret);
      if tokenHash !in sessions {
        return Failure(InvalidSession);
      }
      sessions := sessions[tokenHash := sessions[tokenHash].(revokedAt := Some(now))];
      return Success(());
    }
  }
}
