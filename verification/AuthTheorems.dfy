/** Lockout over time, sessions against their history, and the account indexes, over all schedules. */
module AuthTheorems {
  import opened Wrappers
  import opened Text
  import opened Order
  import opened Indexes
  import opened Auth

  /** A login made on its own is its sections in a row. */
  lemma LoginIsItsSections(crypto: Crypto, y: System, client: nat, l: Login)
    requires client !in y.waiting
    ensures var checked := Next(crypto, y, Check(client, l.attempt));
            var recorded := Next(crypto, checked, Record(client, l.record));
            Next(crypto, recorded, Issue(client, l.issue, l.drawn))
            == y.(state := AfterLogin(crypto, y.state, l))
  {
    hide Judge, AfterRecord, AfterIssue;
    var checked := Next(crypto, y, Check(client, l.attempt));
    assert checked.waiting - {client} == y.waiting;
  }

  // ----- lockout -----

  /** The clock reading an event brings along. */
  function Reading(e: Event): Option<Time> {
    match e
    case Check(_, attempt) => Some(attempt.now)
    case Record(_, now) => Some(now)
    case _ => None
  }

  ghost predicate ReadBy(events: seq<Event>, latest: Time) {
    forall i | 0 <= i < |events| && Reading(events[i]).Some? :: Reading(events[i]).value <= latest
  }

  /** Failures are recorded at the current time. Checks may lag: their clock is read before the lock is taken. */
  ghost predicate ClockRuns(events: seq<Event>) {
    forall i, j | 0 <= i < j < |events| && Reading(events[i]).Some? && events[j].Record? ::
      Reading(events[i]).value <= events[j].now
  }

  predicate IsFor(w: Waiting, key: string) {
    !w.verdict.Rejected? && w.verdict.key == key
  }

  /** The logins of a key that have passed their check and not finished. */
  ghost function InFlight(y: System, key: string): set<nat> {
    set client | client in y.waiting && IsFor(y.waiting[client], key)
  }

  /** At no time are more than `c` logins of the key in flight. */
  ghost predicate AtMost(crypto: Crypto, events: seq<Event>, key: string, c: nat) {
    |InFlight(Trace(crypto, events), key)| <= c
    && (events != [] ==> AtMost(crypto, events[..|events| - 1], key, c))
  }

  /** When an event records a failure for the key, the time it does so. */
  function Recorded(y: System, e: Event, key: string): seq<Time> {
    if e.Record? && e.client in y.waiting && y.waiting[e.client].verdict == Failed(key) then [e.now] else []
  }

  predicate Succeeds(y: System, e: Event, key: string) {
    e.Issue? && e.client in y.waiting && IsFor(y.waiting[e.client], key) && y.waiting[e.client].verdict.Accepted?
    && e.drawn.Success?
  }

  /** The times of the failures recorded for a key since its last success, if any. */
  function Failures(crypto: Crypto, events: seq<Event>, key: string): seq<Time> {
    if events == [] then []
    else
      var before, e := events[..|events| - 1], events[|events| - 1];
      var y := Trace(crypto, before);
      if Succeeds(y, e, key) then [] else Failures(crypto, before, key) + Recorded(y, e, key)
  }

  /** The table entry of a key, told from the times its failures were recorded. */
  ghost predicate EntryMatches(failures: map<string, LoginFailure>, key: string, times: seq<Time>) {
    if times == [] then key !in failures
    else
      && key in failures
      && failures[key].count == (if |times| > U32_MAX then U32_MAX else |times|)
      && failures[key].lockedUntil
         == if |times| >= LOGIN_FAILURE_LIMIT then Some(times[|times| - 1] + LOGIN_LOCKOUT) else None
  }

  lemma RegisterKeepsFailures(crypto: Crypto, s: State, username: string, email: string, hashed: Option<string>)
    requires DoRegister(crypto, s, username, email, hashed).Success?
    ensures DoRegister(crypto, s, username, email, hashed).value.loginFailures == s.loginFailures
  {
    hide NormalizeUsername, NormalizeEmail, Trim;
  }

  lemma NextKeepsEntry(crypto: Crypto, y: System, e: Event, key: string, times: seq<Time>)
    requires EntryMatches(y.state.loginFailures, key, times)
    ensures EntryMatches(Next(crypto, y, e).state.loginFailures, key,
                         if Succeeds(y, e, key) then [] else times + Recorded(y, e, key))
  {
    hide Judge, DoRegister;
    assert times + [] == times;
    if e.Register? && DoRegister(crypto, y.state, e.username, e.email, e.hashed).Success? {
      RegisterKeepsFailures(crypto, y.state, e.username, e.email, e.hashed);
    }
  }

  lemma {:induction false} EntryFollowsFailures(crypto: Crypto, events: seq<Event>, key: string)
    ensures EntryMatches(Trace(crypto, events).state.loginFailures, key, Failures(crypto, events, key))
  {
    if events == [] {
      assert EntryMatches(map[], key, []);
    } else {
      hide Next, EntryMatches, Recorded;
      var before := events[..|events| - 1];
      EntryFollowsFailures(crypto, before, key);
      NextKeepsEntry(crypto, Trace(crypto, before), events[|events| - 1], key, Failures(crypto, before, key));
    }
  }

  ghost predicate InOrder(times: seq<Time>) {
    forall i, j | 0 <= i < j < |times| :: times[i] <= times[j]
  }

  ghost predicate TimesBy(times: seq<Time>, latest: Time) {
    forall i | 0 <= i < |times| :: times[i] <= latest
  }

  ghost predicate ChecksBy(y: System, latest: Time) {
    forall client | client in y.waiting :: y.waiting[client].checked <= latest
  }

  lemma {:induction false} ReadingsBound(crypto: Crypto, events: seq<Event>, key: string, latest: Time)
    requires ReadBy(events, latest)
    ensures TimesBy(Failures(crypto, events, key), latest) && ChecksBy(Trace(crypto, events), latest)
  {
    if events == [] {
      assert Failures(crypto, events, key) == [];
    } else {
      hide Judge, DoRegister, AfterIssue, AfterRecord, DoLogout;
      var e := events[|events| - 1];
      ReadingsBound(crypto, events[..|events| - 1], key, latest);
      assert Reading(e).Some? ==> Reading(e).value <= latest;
    }
  }

  lemma ClockOfPrefix(events: seq<Event>)
    requires ClockRuns(events) && events != []
    ensures ClockRuns(events[..|events| - 1])
    ensures events[|events| - 1].Record? ==> ReadBy(events[..|events| - 1], events[|events| - 1].now)
  {
  }

  lemma {:induction false} FailuresInOrder(crypto: Crypto, events: seq<Event>, key: string)
    requires ClockRuns(events)
    ensures InOrder(Failures(crypto, events, key))
  {
    if events == [] {
      assert Failures(crypto, events, key) == [];
    } else {
      hide ClockRuns, Trace;
      ClockOfPrefix(events);
      var before, e := events[..|events| - 1], events[|events| - 1];
      FailuresInOrder(crypto, before, key);
      if e.Record? {
        ReadingsBound(crypto, before, key, e.now);
      }
    }
  }

  /** The logins in flight that checked before the lock set at `start` ran out. */
  ghost function Early(y: System, key: string, start: Time): set<nat> {
    set client | client in InFlight(y, key) && y.waiting[client].checked <= start + LOGIN_LOCKOUT
  }

  /** From the fifth failure on, until one comes after the lock it set, only logins already in flight record more. */
  ghost predicate LocksHold(y: System, key: string, times: seq<Time>, c: nat) {
    forall i | LOGIN_FAILURE_LIMIT - 1 <= i < |times| ::
      times[|times| - 1] - times[i] > LOGIN_LOCKOUT || |Early(y, key, times[i])| + |times| - i <= c
  }

  /** From the fifth failure on, of the next `c` the last one comes after the lock has run out. */
  ghost predicate Spaced(times: seq<Time>, c: nat) {
    forall i | LOGIN_FAILURE_LIMIT - 1 <= i < |times| - c :: times[i + c] - times[i] > LOGIN_LOCKOUT
  }

  /** A login that passes its check has read the clock after every lock so far. */
  lemma CheckKeepsLocks(crypto: Crypto, y: System, client: nat, attempt: Attempt, key: string, times: seq<Time>, c: nat)
    requires EntryMatches(y.state.loginFailures, key, times) && InOrder(times) && LocksHold(y, key, times, c)
    ensures LocksHold(Next(crypto, y, Check(client, attempt)), key, times, c)
  {
    hide NormalizeLogin, LookupKey, FindUser;
    var y1 := Next(crypto, y, Check(client, attempt));
    forall i | LOGIN_FAILURE_LIMIT - 1 <= i < |times|
      ensures Early(y1, key, times[i]) == Early(y, key, times[i])
    {
      assert times[i] <= times[|times| - 1];
    }
  }

  lemma OthersKeepLocks(y: System, y1: System, key: string, times: seq<Time>, c: nat)
    requires LocksHold(y, key, times, c)
    requires forall client | client in y1.waiting :: client in y.waiting && y1.waiting[client] == y.waiting[client]
    ensures LocksHold(y1, key, times, c)
  {
    forall i | LOGIN_FAILURE_LIMIT - 1 <= i < |times|
      ensures |Early(y1, key, times[i])| <= |Early(y, key, times[i])|
    {
      SubsetSize(Early(y1, key, times[i]), Early(y, key, times[i]));
    }
  }

  /** A recorded failure either comes after the lock, or uses up one of the logins that were in flight. */
  lemma RecordKeepsLocks(crypto: Crypto, y: System, client: nat, now: Time, key: string, times: seq<Time>, c: nat)
    requires client in y.waiting && y.waiting[client].verdict == Failed(key)
    requires InOrder(times) && TimesBy(times, now) && y.waiting[client].checked <= now
    requires |InFlight(y, key)| <= c && LocksHold(y, key, times, c)
    ensures LocksHold(Next(crypto, y, Record(client, now)), key, times + [now], c)
  {
    hide AfterRecord;
    var y1, all := Next(crypto, y, Record(client, now)), times + [now];
    forall i | LOGIN_FAILURE_LIMIT - 1 <= i < |all|
      ensures all[|all| - 1] - all[i] > LOGIN_LOCKOUT || |Early(y1, key, all[i])| + |all| - i <= c
    {
      assert client in InFlight(y, key);
      if i == |times| {
        SubsetSize(Early(y1, key, now), InFlight(y, key) - {client});
      } else if y.waiting[client].checked <= times[i] + LOGIN_LOCKOUT {
        assert client in Early(y, key, times[i]);
        assert Early(y1, key, times[i]) == Early(y, key, times[i]) - {client};
      }
    }
  }

  lemma LocksGiveSpacing(y: System, key: string, times: seq<Time>, last: Time, c: nat)
    requires Spaced(times, c) && LocksHold(y, key, times + [last], c)
    ensures Spaced(times + [last], c)
  {
    var all := times + [last];
    if |times| - c >= LOGIN_FAILURE_LIMIT - 1 {
      assert all[|times| - c] == if c == 0 then last else times[|times| - c];
    }
  }

  /** One event: `times` and `times1` are the failures before and after it. */
  lemma NextKeepsSpacing(crypto: Crypto, y: System, e: Event, key: string, times: seq<Time>, c: nat)
    requires EntryMatches(y.state.loginFailures, key, times) && InOrder(times)
    requires e.Record? ==> TimesBy(times, e.now) && ChecksBy(y, e.now)
    requires |InFlight(y, key)| <= c && LocksHold(y, key, times, c) && Spaced(times, c)
    ensures var times1 := if Succeeds(y, e, key) then [] else times + Recorded(y, e, key);
            LocksHold(Next(crypto, y, e), key, times1, c) && Spaced(times1, c)
  {
    hide EntryMatches, InOrder, LocksHold, Spaced, TimesBy, InFlight, Judge, AfterRecord, AfterIssue, DoRegister,
         DoLogout;
    var y1 := Next(crypto, y, e);
    assert times + [] == times;
    if e.Check? {
      CheckKeepsLocks(crypto, y, e.client, e.attempt, key, times, c);
    } else if Succeeds(y, e, key) {
      NothingSpaced(y1, key, c);
    } else if Recorded(y, e, key) != [] {
      RecordKeepsLocks(crypto, y, e.client, e.now, key, times, c);
      LocksGiveSpacing(y1, key, times, e.now, c);
    } else {
      OthersKeepLocks(y, y1, key, times, c);
    }
  }

  lemma NothingSpaced(y: System, key: string, c: nat)
    ensures LocksHold(y, key, [], c) && Spaced([], c)
  {
  }

  /** The locks hold after any schedule, however many logins are in flight. */
  lemma {:induction false} FailuresAreSpaced(crypto: Crypto, events: seq<Event>, key: string, c: nat)
    requires ClockRuns(events) && AtMost(crypto, events, key, c)
    ensures var times := Failures(crypto, events, key);
            LocksHold(Trace(crypto, events), key, times, c) && Spaced(times, c)
  {
    hide Next, LocksHold, Spaced, ClockRuns, InFlight, Recorded, ReadBy;
    if events == [] {
      NothingSpaced(Trace(crypto, events), key, c);
    } else {
      var before, e := events[..|events| - 1], events[|events| - 1];
      ClockOfPrefix(events);
      FailuresAreSpaced(crypto, before, key, c);
      EntryFollowsFailures(crypto, before, key);
      FailuresInOrder(crypto, before, key);
      if e.Record? {
        ReadingsBound(crypto, before, key, e.now);
      }
      assert |InFlight(Trace(crypto, before), key)| <= c;
      NextKeepsSpacing(crypto, Trace(crypto, before), e, key, Failures(crypto, before, key), c);
    }
  }

  lemma {:induction false} SpacingAddsUp(times: seq<Time>, c: nat, k: nat)
    requires Spaced(times, c) && LOGIN_FAILURE_LIMIT - 1 + k * c < |times|
    ensures times[LOGIN_FAILURE_LIMIT - 1 + k * c] - times[LOGIN_FAILURE_LIMIT - 1] >= k * LOGIN_LOCKOUT
  {
    if k == 0 {
      assert 0 * c == 0;
    } else {
      assert (k - 1) * c + c == k * c;
      SpacingAddsUp(times, c, k - 1);
      var i := LOGIN_FAILURE_LIMIT - 1 + (k - 1) * c;
      assert times[i + c] - times[i] > LOGIN_LOCKOUT;
    }
  }

  /** The most failures a span of time allows with `c` logins in flight. */
  function Allowed(c: nat, span: int): int {
    LOGIN_FAILURE_LIMIT - 1 + c * (1 + span / LOGIN_LOCKOUT)
  }

  function Span(times: seq<Time>): int
    requires times != []
  {
    times[|times| - 1] - times[0]
  }

  lemma SpanBoundsLength(times: seq<Time>, c: nat)
    requires times != [] && c >= 1 && Spaced(times, c) && InOrder(times)
    ensures |times| <= Allowed(c, Span(times))
  {
    var periods := Span(times) / LOGIN_LOCKOUT;
    assert periods >= 0;
    assert c * (1 + periods) >= c by { Multiples(c, 1, 1 + periods); }
    if |times| > LOGIN_FAILURE_LIMIT {
      var k := (|times| - LOGIN_FAILURE_LIMIT) / c;
      Rest(|times| - LOGIN_FAILURE_LIMIT, c);
      SpacingAddsUp(times, c, k);
      assert times[0] <= times[LOGIN_FAILURE_LIMIT - 1];
      Quotient(Span(times), k);
      Multiples(c, 1 + k, 1 + periods);
    }
  }

  lemma Rest(n: nat, c: nat)
    requires c >= 1
    ensures n / c * c <= n < c * (1 + n / c)
  {
  }

  lemma Multiples(c: nat, a: nat, b: nat)
    requires a <= b
    ensures c * a <= c * b
  {
  }

  lemma Quotient(span: int, n: nat)
    requires span >= n * LOGIN_LOCKOUT
    ensures span / LOGIN_LOCKOUT >= n
  {
  }

  /** With at most `c` logins of a key in flight, four failures are free and each lockout period begun
      allows `c` more. */
  lemma LockoutBoundsFailures(crypto: Crypto, events: seq<Event>, key: string, c: nat)
    requires ClockRuns(events) && AtMost(crypto, events, key, c)
    ensures var times := Failures(crypto, events, key); times != [] ==> |times| <= Allowed(c, Span(times))
  {
    hide Spaced, ClockRuns, Failures, Trace, InOrder, LocksHold, AtMost, Allowed, Span;
    FailuresAreSpaced(crypto, events, key, c);
    FailuresInOrder(crypto, events, key);
    var times := Failures(crypto, events, key);
    if times != [] {
      FailureWasInFlight(crypto, events, key, c);
      SpanBoundsLength(times, c);
    }
  }

  lemma {:induction false} FailureWasInFlight(crypto: Crypto, events: seq<Event>, key: string, c: nat)
    requires AtMost(crypto, events, key, c) && Failures(crypto, events, key) != []
    ensures c >= 1
  {
    var before, e := events[..|events| - 1], events[|events| - 1];
    hide Next;
    if Failures(crypto, before, key) != [] {
      FailureWasInFlight(crypto, before, key, c);
    } else {
      assert e.client in InFlight(Trace(crypto, before), key);
      assert AtMost(crypto, before, key, c);
    }
  }

  /** The seconds are the whole ones of that span, or 1 if there are none. */
  predicate WholeSeconds(span: int, seconds: int) {
    if span < NANOS then seconds == 1 else seconds * NANOS <= span < (seconds + 1) * NANOS
  }

  /** A caller is turned away iff the last of five or more failures is at most 900 seconds older than the caller's
      reading; the wait is 1 to 900 seconds unless that reading lags a full second behind the failure. */
  lemma RetryTimeExactly(crypto: Crypto, events: seq<Event>, client: nat, a: Attempt, login: string)
    requires NormalizeLogin(a.login) == Success(login)
    ensures var y, key := Trace(crypto, events), LookupKey(crypto, login);
            var times, retry := Failures(crypto, events, key), RetryAfter(y.state.loginFailures, key, a.now);
            && (retry.Some? <==>
                |times| >= LOGIN_FAILURE_LIMIT && a.now <= times[|times| - 1] + LOGIN_LOCKOUT)
            && (retry.Some? ==>
                && WholeSeconds(times[|times| - 1] + LOGIN_LOCKOUT - a.now, retry.value)
                && retry.value >= 1 && (retry.value <= 900 <==> times[|times| - 1] - a.now < NANOS)
                && Next(crypto, y, Check(client, a)) == y)
  {
    hide Trace, Failures, NormalizeLogin, FindUser, LookupKey;
    EntryFollowsFailures(crypto, events, LookupKey(crypto, login));
  }

  // ----- accounts -----

  function Usernames(users: map<string, StoredUser>): map<string, string> {
    map id | id in users :: users[id].usernameNormalized
  }

  function EmailHashes(users: map<string, StoredUser>): map<string, string> {
    map id | id in users :: users[id].emailHash
  }

  ghost predicate AccountsInv(s: State) {
    && Numbered(s.users, "user", s.nextUserId)
    && (forall id | id in s.users :: s.users[id].id == id)
    && Inverts(s.usernameIndex, Usernames(s.users))
    && Inverts(s.emailHashIndex, EmailHashes(s.users))
    && (forall id | id in s.users ::
          NormalizeUsername(s.users[id].username) == Success(s.users[id].usernameNormalized))
    && (forall h | h in s.sessions :: s.sessions[h].tokenHash == h && s.sessions[h].userId in s.users)
  }

  lemma UserAdded(s: State, u: StoredUser)
    requires AccountsInv(s) && u.id == Id("user", s.nextUserId)
    requires u.usernameNormalized !in s.usernameIndex && u.emailHash !in s.emailHashIndex
    requires NormalizeUsername(u.username) == Success(u.usernameNormalized)
    ensures AccountsInv(AddUser(s, u))
  {
    hide Numbered, Inverts, Id, NormalizeUsername;
    NumberedInsert(s.users, "user", s.nextUserId, u);
    InvertsAdd(s.usernameIndex, Usernames(s.users), u.id, u.usernameNormalized);
    InvertsAdd(s.emailHashIndex, EmailHashes(s.users), u.id, u.emailHash);
    assert Usernames(s.users[u.id := u]) == Usernames(s.users)[u.id := u.usernameNormalized];
    assert EmailHashes(s.users[u.id := u]) == EmailHashes(s.users)[u.id := u.emailHash];
  }

  lemma StoredNameIsNormal(username: string)
    ensures NormalizeUsername(Trim(username)) == NormalizeUsername(username)
  {
    hide Trim, Bytes, IsNameByte;
    TrimIdempotent(username);
  }

  lemma RegisterKeepsAccounts(crypto: Crypto, s: State, username: string, email: string, hashed: Option<string>)
    requires AccountsInv(s) && DoRegister(crypto, s, username, email, hashed).Success?
    ensures AccountsInv(DoRegister(crypto, s, username, email, hashed).value)
    ensures s.users.Keys <= DoRegister(crypto, s, username, email, hashed).value.users.Keys
  {
    hide AccountsInv, NormalizeUsername, NormalizeEmail, Id, Trim;
    var name := NormalizeUsername(username).value;
    var emailHash := crypto.hash(NormalizeEmail(email).value);
    StoredNameIsNormal(username);
    UserAdded(s, StoredUser(Id("user", s.nextUserId), Trim(username), name, emailHash, hashed.value, 0));
  }

  /** The accounts are in order, and whoever is about to get a session has one. */
  ghost predicate SystemInv(y: System) {
    AccountsInv(y.state)
    && forall c | c in y.waiting && y.waiting[c].verdict.Accepted? :: y.waiting[c].verdict.user.id in y.state.users
  }

  lemma NextKeepsAccounts(crypto: Crypto, y: System, e: Event)
    requires SystemInv(y)
    ensures SystemInv(Next(crypto, y, e))
  {
    hide DoRegister, NormalizeLogin, NormalizeUsername, RetryAfter, RecordFailure, Inverts, Numbered, Usernames,
         EmailHashes, FindUser;
    if e.Register? && DoRegister(crypto, y.state, e.username, e.email, e.hashed).Success? {
      RegisterKeepsAccounts(crypto, y.state, e.username, e.email, e.hashed);
      hide AccountsInv;
    }
  }

  lemma {:induction false} TraceKeepsAccounts(crypto: Crypto, events: seq<Event>)
    ensures SystemInv(Trace(crypto, events))
  {
    if events == [] {
      assert AccountsInv(INITIAL);
    } else {
      hide SystemInv, Next;
      TraceKeepsAccounts(crypto, events[..|events| - 1]);
      NextKeepsAccounts(crypto, Trace(crypto, events[..|events| - 1]), events[|events| - 1]);
    }
  }

  /** User names that normalize alike, and e-mail hashes, belong to one account; both indexes find exactly that one. */
  lemma AccountsAreUnique(crypto: Crypto, events: seq<Event>, a: string, b: string)
    requires a in Trace(crypto, events).state.users && b in Trace(crypto, events).state.users
    ensures var s := Trace(crypto, events).state;
            var ua, ub := s.users[a], s.users[b];
            && NormalizeUsername(ua.username) == Success(ua.usernameNormalized)
            && (NormalizeUsername(ua.username) == NormalizeUsername(ub.username) ==> a == b)
            && (ua.emailHash == ub.emailHash ==> a == b)
            && (forall name :: name in s.usernameIndex && s.usernameIndex[name] == a <==> name == ua.usernameNormalized)
            && (forall h :: h in s.emailHashIndex && s.emailHashIndex[h] == a <==> h == ua.emailHash)
  {
    hide Trace, Numbered, NormalizeUsername;
    TraceKeepsAccounts(crypto, events);
    var s := Trace(crypto, events).state;
    assert Usernames(s.users)[a] == s.users[a].usernameNormalized;
    assert Usernames(s.users)[b] == s.users[b].usernameNormalized;
    assert EmailHashes(s.users)[a] == s.users[a].emailHash;
    assert EmailHashes(s.users)[b] == s.users[b].emailHash;
  }

  // ----- sessions -----

  datatype Grant = Grant(userId: string, expiresAt: Time)

  /** What one event makes of the session a token hash stands for. */
  function GrantAfter(crypto: Crypto, y: System, e: Event, tokenHash: string, before: Option<Grant>): Option<Grant> {
    match e
    case Issue(client, now, drawn) =>
      if client in y.waiting && y.waiting[client].verdict.Accepted?
         && drawn.Success? && crypto.hash(drawn.value) == tokenHash
      then Some(Grant(y.waiting[client].verdict.user.id, now + SESSION_TTL))
      else before
    case LogOut(secret, _) => if crypto.hash(secret) == tokenHash then None else before
    case _ => before
  }

  /** The session a token hash stands for, told from the schedule: the last login that drew it, if not logged out. */
  function GrantFor(crypto: Crypto, events: seq<Event>, tokenHash: string): Option<Grant> {
    if events == [] then None
    else
      var before := events[..|events| - 1];
      GrantAfter(crypto, Trace(crypto, before), events[|events| - 1], tokenHash, GrantFor(crypto, before, tokenHash))
  }

  ghost predicate SessionMatches(s: State, tokenHash: string, grant: Option<Grant>) {
    match grant
    case None => tokenHash in s.sessions ==> s.sessions[tokenHash].revokedAt.Some?
    case Some(g) =>
      tokenHash in s.sessions && s.sessions[tokenHash] == StoredSession(g.userId, tokenHash, g.expiresAt, None)
  }

  lemma NextKeepsSessions(crypto: Crypto, y: System, e: Event, tokenHash: string, before: Option<Grant>)
    requires SessionMatches(y.state, tokenHash, before)
    ensures SessionMatches(Next(crypto, y, e).state, tokenHash, GrantAfter(crypto, y, e, tokenHash, before))
  {
    hide Judge, RecordFailure, NormalizeUsername, NormalizeEmail;
  }

  lemma {:induction false} SessionsFollowHistory(crypto: Crypto, events: seq<Event>, tokenHash: string)
    ensures SessionMatches(Trace(crypto, events).state, tokenHash, GrantFor(crypto, events, tokenHash))
  {
    if events == [] {
      assert SessionMatches(INITIAL, tokenHash, None);
    } else {
      hide Next, SessionMatches, GrantAfter;
      var before := events[..|events| - 1];
      SessionsFollowHistory(crypto, before, tokenHash);
      NextKeepsSessions(crypto, Trace(crypto, before), events[|events| - 1], tokenHash,
                        GrantFor(crypto, before, tokenHash));
    }
  }

  /** A token authenticates exactly the user of the last login that drew it, until logout or two weeks later. */
  lemma AuthenticateIffGranted(crypto: Crypto, events: seq<Event>, secret: string, now: Time)
    ensures var grant := GrantFor(crypto, events, crypto.hash(secret));
            var r := Authenticate(crypto, Trace(crypto, events).state, secret, now);
            && (r.Success? <==> grant.Some? && now < grant.value.expiresAt)
            && (r.Success? ==>
                  && grant.value.userId in Trace(crypto, events).state.users
                  && var u := Trace(crypto, events).state.users[grant.value.userId];
                     r.value == PublicUser(grant.value.userId, u.username, u.trustLevel))
  {
    hide Trace, GrantFor, Numbered, Inverts, NormalizeUsername;
    SessionsFollowHistory(crypto, events, crypto.hash(secret));
    TraceKeepsAccounts(crypto, events);
  }
}
