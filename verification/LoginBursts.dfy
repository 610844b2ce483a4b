/** Schedules that record as many failed logins as the lockout allows. */
module LoginBursts {
  import opened Wrappers
  import opened Text
  import opened Auth
  import opened AuthTheorems

  function Checks(a: Attempt, n: nat): seq<Event> {
    if n == 0 then [] else Checks(a, n - 1) + [Check(n - 1, a)]
  }

  function Records(n: nat, now: Time): seq<Event> {
    if n == 0 then [] else [Record(n - 1, now)] + Records(n - 1, now)
  }

  /** Callers 0 up to `n`, all about to record a failure. */
  function AllWaiting(n: nat, w: Waiting): map<nat, Waiting> {
    if n == 0 then map[] else AllWaiting(n - 1, w)[n - 1 := w]
  }

  lemma {:induction false} AllWaitingNumbers(n: nat, w: Waiting)
    ensures forall client: nat :: client in AllWaiting(n, w) <==> client < n
  {
    if n == 0 {
    } else {
      AllWaitingNumbers(n - 1, w);
    }
  }

  lemma {:induction false} InFlightCount(y: System, key: string, n: nat, w: Waiting)
    requires y.waiting == AllWaiting(n, w) && w.verdict == Failed(key)
    ensures |InFlight(y, key)| == n
    decreases n
  {
    if n == 0 {
      assert InFlight(y, key) == {};
    } else {
      var y1 := y.(waiting := AllWaiting(n - 1, w));
      InFlightCount(y1, key, n - 1, w);
      AllWaitingNumbers(n - 1, w);
      assert InFlight(y, key) == InFlight(y1, key) + {n - 1};
    }
  }

  lemma Prefix(events: seq<Event>, more: seq<Event>, e: Event)
    ensures var all := events + (more + [e]);
            all != [] && all[..|all| - 1] == events + more && all[|all| - 1] == e
  {
  }

  lemma OneMoreCheck(crypto: Crypto, events: seq<Event>, a: Attempt, n: nat, key: string, c: nat)
    requires n < c && AtMost(crypto, events, key, c) && Judge(crypto, Trace(crypto, events).state, a) == Failed(key)
    requires Trace(crypto, events).waiting == AllWaiting(n, Waiting(Failed(key), a.now))
    ensures var all := events + [Check(n, a)];
            && Trace(crypto, all)
               == Trace(crypto, events).(waiting := AllWaiting(n + 1, Waiting(Failed(key), a.now)))
            && Failures(crypto, all, key) == Failures(crypto, events, key)
            && AtMost(crypto, all, key, c)
  {
    hide Judge, InFlight;
    Prefix(events, [], Check(n, a));
    assert [] + [Check(n, a)] == [Check(n, a)] && events + [] == events;
    AllWaitingNumbers(n, Waiting(Failed(key), a.now));
    InFlightCount(Trace(crypto, events + [Check(n, a)]), key, n + 1, Waiting(Failed(key), a.now));
  }

  /** All callers check before any of them records. */
  lemma {:induction false} ChecksPass(crypto: Crypto, events: seq<Event>, a: Attempt, n: nat, key: string, c: nat)
    requires n <= c && AtMost(crypto, events, key, c)
    requires Trace(crypto, events).waiting == map[] && Judge(crypto, Trace(crypto, events).state, a) == Failed(key)
    ensures var all := events + Checks(a, n);
            && Trace(crypto, all)
               == Trace(crypto, events).(waiting := AllWaiting(n, Waiting(Failed(key), a.now)))
            && Failures(crypto, all, key) == Failures(crypto, events, key)
            && AtMost(crypto, all, key, c)
  {
    hide Judge, Trace, Failures, AtMost;
    if n == 0 {
      assert events + Checks(a, 0) == events;
    } else {
      ChecksPass(crypto, events, a, n - 1, key, c);
      OneMoreCheck(crypto, events + Checks(a, n - 1), a, n - 1, key, c);
      assert events + Checks(a, n) == events + Checks(a, n - 1) + [Check(n - 1, a)];
    }
  }

  ghost predicate SameAccounts(s: State, s1: State) {
    s1 == s.(loginFailures := s1.loginFailures)
  }

  function Copies(t: Time, n: nat): seq<Time> {
    seq(n, _ => t)
  }

  lemma OneMoreRecord(crypto: Crypto, events: seq<Event>, n: nat, now: Time, w: Waiting, key: string, c: nat)
    requires n < c && AtMost(crypto, events, key, c)
    requires Trace(crypto, events).waiting == AllWaiting(n + 1, w) && w.verdict == Failed(key)
    ensures var all := events + [Record(n, now)];
            && Trace(crypto, all).waiting == AllWaiting(n, w)
            && SameAccounts(Trace(crypto, events).state, Trace(crypto, all).state)
            && Failures(crypto, all, key) == Failures(crypto, events, key) + [now]
            && AtMost(crypto, all, key, c)
  {
    hide InFlight, RecordFailure;
    Prefix(events, [], Record(n, now));
    assert [] + [Record(n, now)] == [Record(n, now)] && events + [] == events;
    AllWaitingNumbers(n, w);
    assert AllWaiting(n + 1, w) - {n} == AllWaiting(n, w);
    InFlightCount(Trace(crypto, events + [Record(n, now)]), key, n, w);
  }

  lemma {:induction false} RecordsCount(crypto: Crypto, events: seq<Event>, n: nat, now: Time, w: Waiting, key: string,
                                        c: nat)
    requires n <= c && AtMost(crypto, events, key, c)
    requires Trace(crypto, events).waiting == AllWaiting(n, w) && w.verdict == Failed(key)
    ensures var all := events + Records(n, now);
            && Trace(crypto, all).waiting == map[]
            && SameAccounts(Trace(crypto, events).state, Trace(crypto, all).state)
            && Failures(crypto, all, key) == Failures(crypto, events, key) + Copies(now, n)
            && AtMost(crypto, all, key, c)
    decreases n
  {
    hide Trace, Failures, AtMost;
    if n == 0 {
      assert events + Records(0, now) == events;
      assert Failures(crypto, events, key) + Copies(now, 0) == Failures(crypto, events, key);
    } else {
      var first := events + [Record(n - 1, now)];
      OneMoreRecord(crypto, events, n - 1, now, w, key, c);
      RecordsCount(crypto, first, n - 1, now, w, key, c);
      assert first + Records(n - 1, now) == events + Records(n, now);
      assert Copies(now, n) == [now] + Copies(now, n - 1);
    }
  }

  /** `n` callers that all check and then all record, at one time. */
  function Round(login: string, n: nat, now: Time): seq<Event> {
    Checks(Attempt(login, "", now), n) + Records(n, now)
  }

  /** A schedule of rounds so far: nobody is registered or in flight, and `n` failures span the time up to `t`. */
  ghost predicate Bursts(crypto: Crypto, events: seq<Event>, key: string, c: nat, n: nat, t: Time) {
    && ClockRuns(events) && ReadBy(events, t) && AtMost(crypto, events, key, c)
    && Trace(crypto, events).waiting == map[] && Trace(crypto, events).state.usernameIndex == map[]
    && Trace(crypto, events).state.emailHashIndex == map[]
    && var times := Failures(crypto, events, key);
       |times| == n && (n > 0 ==> times[0] == 0 && times[n - 1] == t)
  }

  ghost predicate ReadAt(events: seq<Event>, now: Time) {
    forall i | 0 <= i < |events| :: Reading(events[i]) == Some(now)
  }

  lemma {:induction false} RoundReadAt(login: string, n: nat, now: Time)
    ensures ReadAt(Checks(Attempt(login, "", now), n), now) && ReadAt(Records(n, now), now)
  {
    if n == 0 {
      assert ReadAt([], now);
    } else {
      RoundReadAt(login, n - 1, now);
    }
  }

  lemma ClockOfRound(events: seq<Event>, t: Time, login: string, m: nat, now: Time)
    requires ClockRuns(events) && ReadBy(events, t) && t <= now
    ensures ClockRuns(events + Round(login, m, now)) && ReadBy(events + Round(login, m, now), now)
  {
    hide Checks, Records;
    RoundReadAt(login, m, now);
  }

  lemma RoundPasses(crypto: Crypto, s: State, login: string, normal: string, now: Time, times: seq<Time>)
    requires NormalizeLogin(login) == Success(normal) && s.usernameIndex == map[] && s.emailHashIndex == map[]
    requires EntryMatches(s.loginFailures, LookupKey(crypto, normal), times)
    requires |times| >= LOGIN_FAILURE_LIMIT ==> now - times[|times| - 1] > LOGIN_LOCKOUT
    ensures Judge(crypto, s, Attempt(login, "", now)) == Failed(LookupKey(crypto, normal))
  {
    hide NormalizeLogin, LookupKey;
  }

  /** One more round, once the lock has run out. */
  lemma RoundExtends(crypto: Crypto, events: seq<Event>, login: string, normal: string, c: nat, n: nat, t: Time, m: nat,
                     now: Time)
    requires NormalizeLogin(login) == Success(normal) && Bursts(crypto, events, LookupKey(crypto, normal), c, n, t)
    requires 1 <= m <= c && t <= now && (n == 0 ==> now == 0)
    requires n >= LOGIN_FAILURE_LIMIT ==> now - t > LOGIN_LOCKOUT
    ensures Bursts(crypto, events + Round(login, m, now), LookupKey(crypto, normal), c, n + m, now)
  {
    hide NormalizeLogin, LookupKey, Trace, AtMost, EntryMatches, ClockRuns, ReadBy, Failures, Checks, Records, Judge;
    var key, a := LookupKey(crypto, normal), Attempt(login, "", now);
    EntryFollowsFailures(crypto, events, key);
    RoundPasses(crypto, Trace(crypto, events).state, login, normal, now, Failures(crypto, events, key));
    ChecksPass(crypto, events, a, m, key, c);
    RecordsCount(crypto, events + Checks(a, m), m, now, Waiting(Failed(key), now), key, c);
    assert events + Round(login, m, now) == events + Checks(a, m) + Records(m, now);
    ClockOfRound(events, t, login, m, now);
  }

  /** Single failures while they are free. */
  lemma {:induction false} FreeFailures(crypto: Crypto, login: string, normal: string, c: nat, n: nat)
    returns (events: seq<Event>)
    requires NormalizeLogin(login) == Success(normal) && c >= 1 && n < LOGIN_FAILURE_LIMIT
    ensures Bursts(crypto, events, LookupKey(crypto, normal), c, n, 0)
  {
    hide NormalizeLogin, LookupKey;
    if n == 0 {
      events := [];
      assert InFlight(Trace(crypto, []), LookupKey(crypto, normal)) == {};
    } else {
      hide Bursts;
      var before := FreeFailures(crypto, login, normal, c, n - 1);
      RoundExtends(crypto, before, login, normal, c, n - 1, 0, 1, 0);
      events := before + Round(login, 1, 0);
    }
  }

  /** A round of `c` callers each time the lock has run out. */
  lemma {:induction false} Rounds(crypto: Crypto, login: string, normal: string, c: nat, k: nat)
    returns (events: seq<Event>)
    requires NormalizeLogin(login) == Success(normal) && c >= 1
    ensures Bursts(crypto, events, LookupKey(crypto, normal), c, LOGIN_FAILURE_LIMIT - 1 + c * (1 + k),
                   k * (LOGIN_LOCKOUT + 1))
  {
    hide NormalizeLogin, LookupKey, Bursts, Round;
    if k == 0 {
      var before := FreeFailures(crypto, login, normal, c, LOGIN_FAILURE_LIMIT - 1);
      RoundExtends(crypto, before, login, normal, c, LOGIN_FAILURE_LIMIT - 1, 0, c, 0);
      events := before + Round(login, c, 0);
    } else {
      var before := Rounds(crypto, login, normal, c, k - 1);
      var n, t := LOGIN_FAILURE_LIMIT - 1 + c * (1 + (k - 1)), (k - 1) * (LOGIN_LOCKOUT + 1);
      assert c * (1 + k) == c * k + c && k * (LOGIN_LOCKOUT + 1) == t + LOGIN_LOCKOUT + 1;
      RoundExtends(crypto, before, login, normal, c, n, t, c, t + LOGIN_LOCKOUT + 1);
      events := before + Round(login, c, t + LOGIN_LOCKOUT + 1);
    }
  }

  /** The bound is attained for any number of callers over any number of lockout periods, up to as many periods as
      one has nanoseconds: each round needs one more for the lock to run out. */
  lemma BoundIsReached(crypto: Crypto, login: string, normal: string, c: nat, k: nat) returns (events: seq<Event>)
    requires NormalizeLogin(login) == Success(normal) && c >= 1 && k < LOGIN_LOCKOUT
    ensures var times := Failures(crypto, events, LookupKey(crypto, normal));
            && ClockRuns(events) && AtMost(crypto, events, LookupKey(crypto, normal), c)
            && times != [] && Span(times) / LOGIN_LOCKOUT == k && |times| == Allowed(c, Span(times))
  {
    hide NormalizeLogin, LookupKey, ClockRuns, AtMost, Trace, Failures, ReadBy;
    events := Rounds(crypto, login, normal, c, k);
    assert c * (1 + k) >= 1 by { Multiples(c, 1, 1 + k); }
    assert k * (LOGIN_LOCKOUT + 1) == k * LOGIN_LOCKOUT + k;
  }

  /** "Five failures, then one every 15 minutes", for every schedule with at most `c` logins of the key in flight. */
  ghost predicate FiveThenOnePerPeriod(crypto: Crypto, key: string, c: nat) {
    forall events :: ClockRuns(events) && AtMost(crypto, events, key, c) ==>
      var times := Failures(crypto, events, key);
      times != [] ==> |times| <= LOGIN_FAILURE_LIMIT + Span(times) / LOGIN_LOCKOUT
  }

  /** The advertised bound holds iff no two logins of the key overlap. */
  lemma AdvertisedBoundIffNoOverlap(crypto: Crypto, login: string, normal: string, c: nat)
    requires NormalizeLogin(login) == Success(normal)
    ensures FiveThenOnePerPeriod(crypto, LookupKey(crypto, normal), c) <==> c <= 1
  {
    hide NormalizeLogin, LookupKey, ClockRuns, AtMost, Failures, Trace;
    var key := LookupKey(crypto, normal);
    if c <= 1 {
      forall events | ClockRuns(events) && AtMost(crypto, events, key, c) && Failures(crypto, events, key) != []
        ensures |Failures(crypto, events, key)|
                <= LOGIN_FAILURE_LIMIT + Span(Failures(crypto, events, key)) / LOGIN_LOCKOUT
      {
        LockoutBoundsFailures(crypto, events, key, c);
        FailureWasInFlight(crypto, events, key, c);
      }
    } else {
      var events := BoundIsReached(crypto, login, normal, c, 0);
    }
  }

  /** The names this module's schedules speak of exist. */
  lemma SomeNameIsAccepted()
    ensures NormalizeLogin("abc") == Success("abc")
  {
    assert TrimStart("abc") == "abc" && TrimEnd("abc") == "abc";
    AsciiBytes("abc");
    assert AsciiLower("abc") == "abc" by {
      assert "abc"[1..] == "bc" && "bc"[1..] == "c" && "c"[1..] == "";
      assert AsciiLower("c") == "c" && AsciiLower("bc") == "bc";
    }
    assert forall i | 0 <= i < 3 :: "abc"[i] != '@';
  }

  /** A caller that read the clock one second before the fifth failure was recorded is told to wait 901 seconds. */
  lemma LaggingCheckWaitsLonger(crypto: Crypto, login: string, normal: string) returns (events: seq<Event>)
    requires NormalizeLogin(login) == Success(normal)
    ensures var a := Attempt(login, "", -NANOS);
            && ClockRuns(events + [Check(0, a)])
            && Judge(crypto, Trace(crypto, events).state, a) == Rejected(LoginRateLimited(901))
  {
    hide NormalizeLogin, LookupKey, FindUser, Trace, Failures, Reading, AtMost;
    var before := FreeFailures(crypto, login, normal, 1, LOGIN_FAILURE_LIMIT - 1);
    RoundExtends(crypto, before, login, normal, 1, LOGIN_FAILURE_LIMIT - 1, 0, 1, 0);
    events := before + Round(login, 1, 0);
    EntryFollowsFailures(crypto, events, LookupKey(crypto, normal));
  }
}
