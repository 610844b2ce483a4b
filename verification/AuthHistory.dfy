/** Who gets in: accounts from the registrations made, and logins from the password and the failures before them. */
module AuthHistory {
  import opened Wrappers
  import opened Text
  import opened Indexes
  import opened Auth
  import opened AuthTheorems

  // ----- normal forms -----

  predicate IsNameChar(c: char) {
    '0' <= c <= '9' || 'A' <= c <= 'Z' || 'a' <= c <= 'z' || c == '_' || c == '-'
  }

  lemma NameByteIsNameChar(c: char)
    ensures (forall b | b in Utf8(c) :: IsNameByte(b)) <==> IsNameChar(c)
    ensures IsNameChar(c) ==> |Utf8(c)| == 1
  {
    assert Utf8(c)[0] in Utf8(c);
  }

  lemma {:induction false} NameBytesAreNameChars(s: string)
    ensures (forall b | b in Bytes(s) :: IsNameByte(b)) <==> (forall c | c in s :: IsNameChar(c))
    ensures (forall c | c in s :: IsNameChar(c)) ==> |Bytes(s)| == |s|
  {
    hide IsNameByte, IsNameChar, Utf8;
    if s == [] {
    } else {
      NameBytesAreNameChars(s[1..]);
      NameByteIsNameChar(s[0]);
      assert s == [s[0]] + s[1..];
      assert forall c :: c in s <==> c == s[0] || c in s[1..];
      assert forall b :: b in Bytes(s) <==> b in Utf8(s[0]) || b in Bytes(s[1..]);
    }
  }

  /** A user name is valid iff it has, trimmed, 3 to 32 letters, digits, underscores or dashes; two valid ones have one
      normal form iff they differ in case only. */
  lemma UsernameNormalForm(a: string, b: string)
    ensures NormalizeUsername(a).Success? <==> 3 <= |Trim(a)| <= 32 && forall c | c in Trim(a) :: IsNameChar(c)
    ensures NormalizeUsername(a).Success? && NormalizeUsername(b).Success? ==>
      (NormalizeUsername(a) == NormalizeUsername(b) <==> SameUpToAsciiCase(Trim(a), Trim(b)))
  {
    hide Trim, Bytes, SameUpToAsciiCase, IsNameByte, IsNameChar;
    NameBytesAreNameChars(Trim(a));
    LowerIff(Trim(a), Trim(b));
  }

  /** Two valid e-mail addresses have one normal form iff they differ in case only. */
  lemma EmailNormalForm(a: string, b: string)
    requires NormalizeEmail(a).Success? && NormalizeEmail(b).Success?
    ensures NormalizeEmail(a) == NormalizeEmail(b) <==> SameUpToAsciiCase(Trim(a), Trim(b))
  {
    hide Trim, Bytes, SameUpToAsciiCase;
    LowerIff(Trim(a), Trim(b));
  }

  lemma {:induction false} LowerKeepsAt(s: string)
    ensures '@' in AsciiLower(s) <==> '@' in s
  {
    if s == [] {
    } else {
      LowerKeepsAt(s[1..]);
      assert s == [s[0]] + s[1..];
    }
  }

  lemma NamesHaveNoAt(name: string)
    requires NormalizeUsername(name).Success?
    ensures '@' !in Trim(name) && '@' !in NormalizeUsername(name).value
  {
    hide Trim, Bytes, IsNameByte;
    NameBytesAreNameChars(Trim(name));
    LowerKeepsAt(Trim(name));
  }

  /** A registered name or address is a login that means the same. */
  lemma LoginMeansName(name: string)
    requires NormalizeUsername(name).Success?
    ensures NormalizeLogin(name) == NormalizeUsername(name)
  {
    hide Trim, NormalizeUsername;
    NamesHaveNoAt(name);
    StoredNameIsNormal(name);
  }

  lemma LoginMeansEmail(email: string)
    requires NormalizeEmail(email).Success?
    ensures NormalizeLogin(email) == NormalizeEmail(email) && '@' in NormalizeEmail(email).value
  {
    hide Trim, Bytes;
    LowerKeepsAt(Trim(email));
    TrimIdempotent(email);
  }

  // ----- accounts from the registrations -----

  type Registration = e: Event | e.Register? witness Register("", "", None)

  /** Why a registration is refused, given those accepted before. */
  ghost function Refusal(crypto: Crypto, joined: seq<Registration>, e: Registration): Option<Error> {
    var name, address := NormalizeUsername(e.username), NormalizeEmail(e.email);
    if name.Failure? then Some(InvalidUsername)
    else if address.Failure? then Some(InvalidEmail)
    else if e.hashed.None? then Some(Password)
    else if exists j :: j in joined && NormalizeUsername(j.username) == name then Some(DuplicateUsername)
    else if exists j :: j in joined && NormalizeEmail(j.email).Success?
                        && crypto.hash(NormalizeEmail(j.email).value) == crypto.hash(address.value)
    then Some(DuplicateEmail)
    else None
  }

  /** The registrations accepted, in order. */
  ghost function Joined(crypto: Crypto, events: seq<Event>): seq<Registration> {
    if events == [] then []
    else
      var before, e := Joined(crypto, events[..|events| - 1]), events[|events| - 1];
      before + if e.Register? && Refusal(crypto, before, e).None? then [e] else []
  }

  ghost predicate Valid(e: Registration) {
    NormalizeUsername(e.username).Success? && NormalizeEmail(e.email).Success? && e.hashed.Some?
  }

  ghost function AccountOf(crypto: Crypto, n: nat, e: Registration): StoredUser
    requires Valid(e)
  {
    StoredUser(Id("user", n), Trim(e.username), NormalizeUsername(e.username).value,
               crypto.hash(NormalizeEmail(e.email).value), e.hashed.value, 0)
  }

  /** Account n is the one the n-th accepted registration asked for. */
  ghost predicate UsersTold(crypto: Crypto, users: map<string, StoredUser>, next: nat, joined: seq<Registration>) {
    && next == |joined| + 1 && Numbered(users, "user", next)
    && (forall e | e in joined :: Valid(e))
    && (forall n | 1 <= n <= |joined| ::
          joined[n - 1] in joined && users[Id("user", n)] == AccountOf(crypto, n, joined[n - 1]))
  }

  lemma UserTold(crypto: Crypto, users: map<string, StoredUser>, next: nat, joined: seq<Registration>, id: string)
    requires UsersTold(crypto, users, next, joined) && id in users
    ensures var n := Number("user", id);
            1 <= n <= |joined| && Valid(joined[n - 1]) && users[id] == AccountOf(crypto, n, joined[n - 1])
  {
    hide Id, Number, Valid, AccountOf;
    KnownIffPresent(users, "user", next, id);
    assert joined[Number("user", id) - 1] in joined;
  }

  lemma NamesTold(crypto: Crypto, s: State, joined: seq<Registration>, name: string)
    requires AccountsInv(s) && UsersTold(crypto, s.users, s.nextUserId, joined)
    ensures name in s.usernameIndex <==> exists j :: j in joined && NormalizeUsername(j.username) == Success(name)
  {
    hide Number, Id, NormalizeUsername, NormalizeEmail, Trim;
    NumberedHas(s.users, "user", s.nextUserId);
    if name in s.usernameIndex {
      var id := s.usernameIndex[name];
      UserTold(crypto, s.users, s.nextUserId, joined, id);
      assert joined[Number("user", id) - 1] in joined;
    }
    if j :| j in joined && NormalizeUsername(j.username) == Success(name) {
      var n :| 0 <= n < |joined| && joined[n] == j;
      var id := Id("user", n + 1);
      assert s.users[id] == AccountOf(crypto, n + 1, joined[n]);
      assert Usernames(s.users)[id] == name;
    }
  }

  lemma EmailsTold(crypto: Crypto, s: State, joined: seq<Registration>, h: string)
    requires AccountsInv(s) && UsersTold(crypto, s.users, s.nextUserId, joined)
    ensures h in s.emailHashIndex <==>
      exists j :: j in joined && NormalizeEmail(j.email).Success? && crypto.hash(NormalizeEmail(j.email).value) == h
  {
    hide Number, Id, NormalizeUsername, NormalizeEmail, Trim;
    NumberedHas(s.users, "user", s.nextUserId);
    if h in s.emailHashIndex {
      var id := s.emailHashIndex[h];
      UserTold(crypto, s.users, s.nextUserId, joined, id);
      assert joined[Number("user", id) - 1] in joined;
    }
    if j :| j in joined && NormalizeEmail(j.email).Success? && crypto.hash(NormalizeEmail(j.email).value) == h {
      var n :| 0 <= n < |joined| && joined[n] == j;
      var id := Id("user", n + 1);
      assert s.users[id] == AccountOf(crypto, n + 1, joined[n]);
      assert EmailHashes(s.users)[id] == h;
    }
  }

  lemma JoinedTold(crypto: Crypto, users: map<string, StoredUser>, next: nat, joined: seq<Registration>,
                   e: Registration)
    requires UsersTold(crypto, users, next, joined) && Valid(e)
    ensures var u := AccountOf(crypto, next, e); UsersTold(crypto, users[u.id := u], next + 1, joined + [e])
  {
    hide Numbered, Id, NormalizeUsername, NormalizeEmail, Trim;
    var u := AccountOf(crypto, next, e);
    NumberedHas(users, "user", next);
    NumberedInsert(users, "user", next, u);
    forall n | 1 <= n <= next
      ensures (joined + [e])[n - 1] in joined + [e] && Valid((joined + [e])[n - 1])
              && Id("user", n) in users[u.id := u]
              && users[u.id := u][Id("user", n)] == AccountOf(crypto, n, (joined + [e])[n - 1])
    {
      if n < next {
        assert joined[n - 1] in joined;
        if Id("user", n) == Id("user", next) {
          IdInjective("user", n, next);
        }
      }
    }
  }

  /** A registration is answered as those before it call for: refused with that error, or a new account as asked. */
  lemma RegisterTold(crypto: Crypto, s: State, joined: seq<Registration>, e: Registration)
    requires AccountsInv(s) && UsersTold(crypto, s.users, s.nextUserId, joined)
    ensures var r := DoRegister(crypto, s, e.username, e.email, e.hashed);
            match Refusal(crypto, joined, e)
            case Some(error) => r == Failure(error)
            case None => r.Success? && UsersTold(crypto, r.value.users, r.value.nextUserId, joined + [e])
  {
    hide AccountsInv, UsersTold, Id, Trim, Bytes, AsciiLower, IsNameByte, IsWhitespace;
    var name, address := NormalizeUsername(e.username), NormalizeEmail(e.email);
    if Valid(e) {
      NamesTold(crypto, s, joined, name.value);
      EmailsTold(crypto, s, joined, crypto.hash(address.value));
      hide NormalizeUsername, NormalizeEmail;
      JoinedTold(crypto, s.users, s.nextUserId, joined, e);
      assert UsersNext(crypto, s, joined) by { NextTold(crypto, s, joined); }
    }
  }

  ghost predicate UsersNext(crypto: Crypto, s: State, joined: seq<Registration>) {
    s.nextUserId == |joined| + 1
  }

  lemma NextTold(crypto: Crypto, s: State, joined: seq<Registration>)
    requires UsersTold(crypto, s.users, s.nextUserId, joined)
    ensures UsersNext(crypto, s, joined)
  {
  }

  lemma OtherEventsKeepUsers(crypto: Crypto, y: System, e: Event)
    requires !e.Register?
    ensures Next(crypto, y, e).state.users == y.state.users && Next(crypto, y, e).state.nextUserId == y.state.nextUserId
  {
    hide Judge, RecordFailure;
  }

  /** Over any schedule the accounts are exactly those the accepted registrations asked for. */
  lemma {:induction false} AccountsFollowRegistrations(crypto: Crypto, events: seq<Event>)
    ensures var s := Trace(crypto, events).state; UsersTold(crypto, s.users, s.nextUserId, Joined(crypto, events))
  {
    if events == [] {
      assert UsersTold(crypto, map[], 1, []);
    } else {
      hide UsersTold, Refusal, AccountsInv, DoRegister;
      var before, e := events[..|events| - 1], events[|events| - 1];
      AccountsFollowRegistrations(crypto, before);
      TraceKeepsAccounts(crypto, before);
      if e.Register? {
        RegisterTold(crypto, Trace(crypto, before).state, Joined(crypto, before), e);
      } else {
        hide Next;
        OtherEventsKeepUsers(crypto, Trace(crypto, before), e);
      }
    }
  }

  /** After any schedule a registration is refused with the error the earlier ones call for, or accepted. */
  lemma RegistrationFollows(crypto: Crypto, events: seq<Event>, e: Registration)
    ensures var r := DoRegister(crypto, Trace(crypto, events).state, e.username, e.email, e.hashed);
            match Refusal(crypto, Joined(crypto, events), e)
            case Some(error) => r == Failure(error)
            case None => r.Success?
  {
    hide UsersTold, Refusal, AccountsInv, DoRegister, Trace, Joined;
    AccountsFollowRegistrations(crypto, events);
    TraceKeepsAccounts(crypto, events);
    RegisterTold(crypto, Trace(crypto, events).state, Joined(crypto, events), e);
  }

  // ----- the answer of a check -----

  /** Five or more failures stand, and the last one is at most 900 seconds old. */
  predicate Locked(times: seq<Time>, now: Time) {
    |times| >= 5 && now <= times[|times| - 1] + 900 * NANOS
  }

  /** The account a login means: the one of that name, or else the one of that e-mail hash. */
  ghost predicate Means(crypto: Crypto, s: State, login: string, u: StoredUser) {
    && u.id in s.users && s.users[u.id] == u
    && (u.usernameNormalized == login
        || (u.emailHash == crypto.hash(login)
            && forall x | x in s.users :: s.users[x].usernameNormalized != login))
  }

  /** The login is that account's, the password its password, and its key not locked at that reading. */
  ghost predicate Deserves(crypto: Crypto, events: seq<Event>, a: Attempt, login: string, u: StoredUser) {
    && NormalizeLogin(a.login) == Success(login)
    && !Locked(Failures(crypto, events, LookupKey(crypto, login)), a.now)
    && Means(crypto, Trace(crypto, events).state, login, u)
    && crypto.verifies(a.password, u.passwordHash)
  }

  lemma FoundIsMeant(crypto: Crypto, s: State, login: string)
    requires AccountsInv(s)
    ensures FindUser(crypto, s, login).Some? ==>
      && FindUser(crypto, s, login).value in s.users
      && Means(crypto, s, login, s.users[FindUser(crypto, s, login).value])
    ensures forall u | Means(crypto, s, login, u) :: FindUser(crypto, s, login) == Some(u.id)
  {
    hide Numbered, NormalizeUsername;
    forall id | id in s.users
      ensures Usernames(s.users)[id] == s.users[id].usernameNormalized
              && EmailHashes(s.users)[id] == s.users[id].emailHash
    {
    }
  }

  lemma LockedIffRetry(crypto: Crypto, events: seq<Event>, key: string, now: Time)
    ensures RetryAfter(Trace(crypto, events).state.loginFailures, key, now).Some? <==>
      Locked(Failures(crypto, events, key), now)
  {
    hide Trace, Failures;
    EntryFollowsFailures(crypto, events, key);
  }

  /** What a check of a well-formed login leads to. */
  ghost predicate Decided(crypto: Crypto, events: seq<Event>, client: nat, a: Attempt, login: string, u: StoredUser) {
    var y, key := Trace(crypto, events), LookupKey(crypto, login);
    var y1 := Next(crypto, y, Check(client, a));
    if Locked(Failures(crypto, events, key), a.now) then y1 == y
    else
      && client in y1.waiting && y1.waiting[client].checked == a.now
      && y1 == y.(waiting := y.waiting[client := y1.waiting[client]])
      && (y1.waiting[client].verdict == Accepted(key, u) <==> Deserves(crypto, events, a, login, u))
      && (y1.waiting[client].verdict == Failed(key) <==> !exists x :: Deserves(crypto, events, a, login, x))
      && (y1.waiting[client].verdict.Failed? || y1.waiting[client].verdict.Accepted?)
      && y1.waiting[client].verdict.key == key
  }

  /** A check of a malformed login or a locked key changes nothing; any other leaves the caller about to get a session
      for exactly the account that deserves it, and about to record a failure for the key if none does. */
  lemma CheckDecides(crypto: Crypto, events: seq<Event>, client: nat, a: Attempt, u: StoredUser)
    requires client !in Trace(crypto, events).waiting
    ensures NormalizeLogin(a.login).Failure? ==>
      Next(crypto, Trace(crypto, events), Check(client, a)) == Trace(crypto, events)
    ensures NormalizeLogin(a.login).Success? ==>
      Decided(crypto, events, client, a, NormalizeLogin(a.login).value, u)
  {
    hide Trace, Failures, NormalizeLogin, LookupKey, AccountsInv, FindUser, RetryAfter, Means, Locked, Deserves;
    if NormalizeLogin(a.login).Success? {
      var login := NormalizeLogin(a.login).value;
      LockedIffRetry(crypto, events, LookupKey(crypto, login), a.now);
      VerdictIsDeserved(crypto, events, a, login, u);
      forall x {
        VerdictIsDeserved(crypto, events, a, login, x);
      }
    }
  }

  lemma VerdictIsDeserved(crypto: Crypto, events: seq<Event>, a: Attempt, login: string, u: StoredUser)
    requires NormalizeLogin(a.login) == Success(login)
    ensures var verdict, key := Judge(crypto, Trace(crypto, events).state, a), LookupKey(crypto, login);
            && (Deserves(crypto, events, a, login, u) <==> verdict == Accepted(key, u))
            && (!Locked(Failures(crypto, events, key), a.now) ==> verdict == Failed(key) || verdict.Accepted?)
            && (verdict.Accepted? ==> verdict.key == key)
  {
    hide Trace, Failures, NormalizeLogin, LookupKey, AccountsInv, FindUser, RetryAfter, Means, Locked;
    var s := Trace(crypto, events).state;
    TraceKeepsAccounts(crypto, events);
    LockedIffRetry(crypto, events, LookupKey(crypto, login), a.now);
    FoundIsMeant(crypto, s, login);
    MeantIsStored(crypto, s, login);
  }

  lemma MeantIsStored(crypto: Crypto, s: State, login: string)
    ensures forall u | Means(crypto, s, login, u) :: u.id in s.users && s.users[u.id] == u
  {
  }

  lemma MalformedIsRejected(crypto: Crypto, s: State, a: Attempt)
    ensures NormalizeLogin(a.login).Failure? ==> Judge(crypto, s, a).Rejected?
  {
  }

  /** Whoever is about to get a session made a check that deserved it. */
  lemma {:induction false} AcceptedDeserved(crypto: Crypto, events: seq<Event>, client: nat)
    returns (i: nat, a: Attempt, login: string)
    requires client in Trace(crypto, events).waiting && Trace(crypto, events).waiting[client].verdict.Accepted?
    ensures var verdict := Trace(crypto, events).waiting[client].verdict;
            && i < |events| && events[i] == Check(client, a)
            && Deserves(crypto, events[..i], a, login, verdict.user) && verdict.key == LookupKey(crypto, login)
  {
    hide Deserves, NormalizeLogin, LookupKey, DoRegister, DoLogout, AfterRecord, AfterIssue, Judge, Locked;
    var n := |events| - 1;
    var before, e := events[..n], events[n];
    if client in Trace(crypto, before).waiting {
      i, a, login := AcceptedDeserved(crypto, before, client);
      assert events[..i] == before[..i];
    } else {
      i, a := n, e.attempt;
      MalformedIsRejected(crypto, Trace(crypto, before).state, a);
      login := NormalizeLogin(a.login).value;
      VerdictIsDeserved(crypto, before, a, login, Trace(crypto, events).waiting[client].verdict.user);
      assert events[..i] == before;
    }
  }

  /** Every session was opened, for two weeks, for the account of a check that deserved it. */
  lemma {:induction false} SessionDeserved(crypto: Crypto, events: seq<Event>, tokenHash: string)
    returns (i: nat, j: nat, client: nat, a: Attempt, login: string, u: StoredUser, now: Time, secret: string)
    requires tokenHash in Trace(crypto, events).state.sessions
    ensures var session := Trace(crypto, events).state.sessions[tokenHash];
            && i < j < |events| && events[i] == Check(client, a) && events[j] == Issue(client, now, Success(secret))
            && Deserves(crypto, events[..i], a, login, u)
            && session.userId == u.id && crypto.hash(secret) == tokenHash
            && session.expiresAt == now + 14 * 24 * 60 * 60 * NANOS
  {
    hide Deserves, NormalizeLogin, LookupKey, DoRegister, Judge, AfterRecord;
    var n := |events| - 1;
    var before, e := events[..n], events[n];
    var y := Trace(crypto, before);
    SessionsChange(crypto, y, e);
    if e.Issue? && e.client in y.waiting && y.waiting[e.client].verdict.Accepted? && e.drawn.Success?
       && crypto.hash(e.drawn.value) == tokenHash {
      j, client, now, secret := n, e.client, e.now, e.drawn.value;
      u := y.waiting[client].verdict.user;
      i, a, login := AcceptedDeserved(crypto, before, client);
      assert events[..i] == before[..i];
    } else {
      i, j, client, a, login, u, now, secret := SessionDeserved(crypto, before, tokenHash);
      assert events[..i] == before[..i];
    }
  }

  /** Sessions change by being opened and by logging out only. */
  lemma SessionsChange(crypto: Crypto, y: System, e: Event)
    ensures var after := Next(crypto, y, e).state.sessions;
            forall h | h in after ::
              || (h in y.state.sessions && after[h].userId == y.state.sessions[h].userId
                  && after[h].expiresAt == y.state.sessions[h].expiresAt)
              || (e.Issue? && e.client in y.waiting && y.waiting[e.client].verdict.Accepted? && e.drawn.Success?
                  && crypto.hash(e.drawn.value) == h && after[h].userId == y.waiting[e.client].verdict.user.id
                  && after[h].expiresAt == e.now + 14 * 24 * 60 * 60 * NANOS)
    ensures e.Issue? && e.client in y.waiting && y.waiting[e.client].verdict.Accepted? && e.drawn.Success? ==>
      var h, after := crypto.hash(e.drawn.value), Next(crypto, y, e).state.sessions;
      h in after && after[h].userId == y.waiting[e.client].verdict.user.id
      && after[h].expiresAt == e.now + 14 * 24 * 60 * 60 * NANOS
  {
    hide Judge, RecordFailure, NormalizeUsername, NormalizeEmail, Trim;
  }

  /** Logins with one lockout key mean one account, so no account shares its lockout with another. */
  lemma KeyDeterminesAccount(crypto: Crypto, events: seq<Event>, a: string, b: string)
    requires LookupKey(crypto, a) == LookupKey(crypto, b)
    ensures var s := Trace(crypto, events).state;
            forall u, v | Means(crypto, s, a, u) && Means(crypto, s, b, v) :: u == v
    ensures a == b || ('@' in a && '@' in b && crypto.hash(a) == crypto.hash(b))
  {
    hide Trace, Numbered, NormalizeUsername, LookupKey;
    var s := Trace(crypto, events).state;
    KeysDiffer(crypto, a, b);
    TraceKeepsAccounts(crypto, events);
    forall u, v | Means(crypto, s, a, u) && Means(crypto, s, b, v) ensures u == v {
      FoundIsMeant(crypto, s, a);
      FoundIsMeant(crypto, s, b);
      if a != b {
        StoredNamesHaveNoAt(s, a);
        StoredNamesHaveNoAt(s, b);
        assert EmailHashes(s.users)[u.id] == u.emailHash && EmailHashes(s.users)[v.id] == v.emailHash;
      }
    }
  }

  lemma KeysDiffer(crypto: Crypto, a: string, b: string)
    requires LookupKey(crypto, a) == LookupKey(crypto, b)
    ensures a == b || ('@' in a && '@' in b && crypto.hash(a) == crypto.hash(b))
  {
    var key := LookupKey(crypto, a);
    if '@' in a {
      assert key[0] == 'e' && key[6..] == crypto.hash(a);
    } else {
      assert key[0] == 'u' && key[9..] == a;
    }
    if '@' in b {
      assert key[0] == 'e' && key[6..] == crypto.hash(b);
    } else {
      assert key[0] == 'u' && key[9..] == b;
    }
  }

  lemma StoredNamesHaveNoAt(s: State, login: string)
    requires AccountsInv(s) && '@' in login
    ensures forall x | x in s.users :: s.users[x].usernameNormalized != login
  {
    hide Numbered, NormalizeUsername, Inverts;
    forall x | x in s.users ensures s.users[x].usernameNormalized != login {
      NamesHaveNoAt(s.users[x].username);
    }
  }

  /** Whoever registered gets in with the name or the address registered and a password that fits, unless locked out. */
  lemma RegisteredGetsIn(crypto: Crypto, events: seq<Event>, n: nat, a: Attempt)
    requires 1 <= n <= |Joined(crypto, events)|
    requires var e := Joined(crypto, events)[n - 1];
             && (a.login == e.username || a.login == e.email)
             && e.hashed.Some? && crypto.verifies(a.password, e.hashed.value)
    ensures Id("user", n) in Trace(crypto, events).state.users && NormalizeLogin(a.login).Success?
    ensures var login, u := NormalizeLogin(a.login).value, Trace(crypto, events).state.users[Id("user", n)];
            !Locked(Failures(crypto, events, LookupKey(crypto, login)), a.now) ==>
              Deserves(crypto, events, a, login, u)
  {
    hide Trace, Joined, Failures, Numbered, NormalizeUsername, NormalizeEmail, NormalizeLogin, Trim, Id, Inverts;
    AccountsFollowRegistrations(crypto, events);
    TraceKeepsAccounts(crypto, events);
    var s, e := Trace(crypto, events).state, Joined(crypto, events)[n - 1];
    NumberedHas(s.users, "user", s.nextUserId);
    assert e in Joined(crypto, events);
    var u := s.users[Id("user", n)];
    assert u == AccountOf(crypto, n, e);
    if a.login == e.username {
      LoginMeansName(e.username);
    } else {
      LoginMeansEmail(e.email);
      StoredNamesHaveNoAt(s, NormalizeEmail(e.email).value);
    }
  }
}
