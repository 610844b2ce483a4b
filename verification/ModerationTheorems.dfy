/** What the moderation service promises, stated over all runs. */
module ModerationTheorems {
  import opened Wrappers
  import opened Text
  import opened Order
  import opened IdOrder
  import opened Moderation
  import opened ModerationLog
  import opened ModerationPoints
  import opened ModerationTally
  import opened ModerationRuns

  // ----- the audit log -----

  /** The log alone rebuilds the user table, and every event tells the truth about its own change. */
  lemma AuditReplay(s: State)
    requires IsReachable(s)
    ensures && Replay(s.auditEvents) == s.users
            && (forall u :: UserOf(s.users, u) == LastKnown(s.auditEvents, u))
            && (forall i | 0 <= i < |s.auditEvents| :: EventFaithful(s.auditEvents, i))
  {
    hide PointsInv, Balanced, EventFaithful;
    ReachableInv(s);
    forall u ensures UserOf(s.users, u) == LastKnown(s.auditEvents, u) {
      ReplayGivesLastKnown(s.auditEvents, u);
    }
  }

  /** Continuing a run only appends to the log; nothing resolved, expired or finished is ever undone. */
  lemma HistoryOnlyGrows(commands: seq<Command>, more: seq<Command>)
    ensures Evolves(Run(INITIAL, commands), Run(INITIAL, commands + more))
  {
    hide Inv, Evolves;
    Reachable(commands);
    RunAppend(INITIAL, commands, more);
    RunSound(Run(INITIAL, commands), more);
  }

  /** The shadowban flag the last shadowban change set; false if there was none. */
  function LastShadowban(log: seq<AuditEvent>, user: string): bool {
    if log == [] then false
    else
      var e := log[|log| - 1];
      if e.action == UserShadowbanSet && e.targetId == user && e.newState.Some? then e.newState.value.shadowbanned
      else LastShadowban(log[..|log| - 1], user)
  }

  lemma {:induction false} FlagFollowsShadowbans(log: seq<AuditEvent>, user: string)
    requires forall i | 0 <= i < |log| :: EventFaithful(log, i)
    ensures LastKnown(log, user).shadowbanned == LastShadowban(log, user)
  {
    if log == [] {
    } else {
      var init := log[..|log| - 1];
      assert EventFaithful(log, |log| - 1);
      forall i | 0 <= i < |init| ensures EventFaithful(init, i) {
        assert EventFaithful(log, i);
        assert init[..i] == log[..i];
      }
      FlagFollowsShadowbans(init, user);
    }
  }

  /** Warnings never change who is shadowbanned: the flag is the one the last shadowban change set. */
  lemma ShadowbanUntouchedByWarnings(s: State, user: string)
    requires IsReachable(s)
    ensures UserOf(s.users, user).shadowbanned == LastShadowban(s.auditEvents, user)
  {
    hide EventFaithful;
    AuditReplay(s);
    FlagFollowsShadowbans(s.auditEvents, user);
  }

  // ----- the warning points -----

  /** The cached state of every user is the one their active warnings call for, modulo 2^32. */
  lemma PointCache(s: State, user: string)
    requires IsReachable(s)
    ensures var state := UserOf(s.users, user);
            && state == UserStateFor(Wrap(ActivePoints(s.warnings, user)), state.shadowbanned)
            && PartitionedByUser(s)
            && (user !in s.users ==> forall id | id in s.warnings :: s.warnings[id].targetUserId != user)
  {
    hide LogFaithful, Balanced, Numbered;
    ReachableInv(s);
    if user in s.users {
      assert CacheAgrees(s.warnings, s.users, user);
    } else {
      NoWarningsNoPoints(s, user);
    }
  }

  /** The cached points are exact iff the sum fits a u32; mutes at 5 and bans at 10 points are right iff it does or the
      sum is past the threshold even after wrapping. */
  lemma CacheExactIffBelowModulus(s: State, user: string)
    requires IsReachable(s)
    ensures var state, points := UserOf(s.users, user), ActivePoints(s.warnings, user);
            && (state.activeWarningPoints == points <==> points < U32_MODULUS)
            && ((state.muted <==> points >= 5) <==> (points < U32_MODULUS || points % U32_MODULUS >= 5))
            && ((state.banned <==> points >= 10) <==> (points < U32_MODULUS || points % U32_MODULUS >= 10))
  {
    hide PartitionedByUser, IsReachable, ActivePoints;
    PointCache(s, user);
  }

  /** Two warnings of 2^31 points each leave the user with no points and no mute. */
  lemma WrapUnmutes()
    ensures var issue := Act("mod", IssueWarning("u", None, "spam", 0x8000_0000));
            var s := Run(INITIAL, [issue, issue]);
            ActivePoints(s.warnings, "u") == U32_MODULUS && UserOf(s.users, "u") == DEFAULT_USER
  {
    hide Inv, DoIssueWarning, CleanText, ActivePoints;
    var issue := Act("mod", IssueWarning("u", None, "spam", 0x8000_0000));
    RunOfTwo(INITIAL, issue, issue);
    SpamIsClean();
    IssueSucceeds(INITIAL);
    IssueSucceeds(Step(INITIAL, issue));
    Reachable([issue, issue]);
    TwoWarnings(Step(INITIAL, issue), Run(INITIAL, [issue, issue]));
  }

  lemma RunOfTwo(s: State, c: Command, d: Command)
    ensures Run(s, [c, d]) == Step(Step(s, c), d)
  {
    hide Step;
    assert [c, d][..1] == [c] && [c][..0] == [];
    assert Run(s, []) == s;
    assert Run(s, [c]) == Step(s, c);
  }

  lemma SpamIsClean()
    ensures CleanReason("spam") == Success("spam")
  {
    AsciiBytes("spam");
  }

  lemma IssueSucceeds(s: State)
    requires CleanReason("spam") == Success("spam")
    ensures DoIssueWarning(s, "mod", "u", None, "spam", 0x8000_0000).Success?
  {
    hide CleanReason;
  }

  lemma TwoWarnings(s1: State, s2: State)
    requires Inv(s2) && CleanReason("spam") == Success("spam")
    requires DoIssueWarning(INITIAL, "mod", "u", None, "spam", 0x8000_0000) == Success(s1)
    requires DoIssueWarning(s1, "mod", "u", None, "spam", 0x8000_0000) == Success(s2)
    ensures ActivePoints(s2.warnings, "u") == U32_MODULUS && UserOf(s2.users, "u") == DEFAULT_USER
  {
    hide LogFaithful, Balanced, QueuesNumbered, JobsInv, MacrosInv, Numbered, CleanReason, SumPoints,
         PartitionedByUser;
    var a, b := Id("warning", 1), Id("warning", 2);
    if a == b {
      IdInjective("warning", 1, 2);
    }
    var w1 := Warning(a, "mod", "u", None, "spam", 0x8000_0000, true);
    var w2 := w1.(id := b);
    assert s1.warnings == map[a := w1];
    assert s2.warnings == map[a := w1, b := w2];
    assert ActiveFor(s2.warnings, "u") == {a, b};
    SumOfTwo(s2.warnings, a, b);
    assert CacheAgrees(s2.warnings, s2.users, "u");
  }

  lemma SumOfTwo(warnings: map<string, Warning>, a: string, b: string)
    requires a in warnings && b in warnings && a != b
    ensures SumPoints(warnings, {a, b}) == warnings[a].points + warnings[b].points
  {
    SumPointsRemove(warnings, {a, b}, a);
    assert {a, b} - {a} == {b};
    SumPointsRemove(warnings, {b}, b);
    assert {b} - {b} == {};
  }

  // ----- conservation -----

  /** For every kind of item and every target, the log and the tables hold the same number. */
  lemma Conservation(s: State)
    requires IsReachable(s)
    ensures && (forall k, t | k != UserShadowbanSet :: CountEvents(s.auditEvents, k, t) == |Items(s, k, t)|)
            && |s.auditEvents| == |s.reports.Keys| + |Items(s, ReportResolved, None)|
                                  + |s.approvals.Keys| + |Items(s, ApprovalResolved, None)|
                                  + |s.warnings.Keys| + |Items(s, WarningExpired, None)|
                                  + CountEvents(s.auditEvents, UserShadowbanSet, None)
  {
    hide LogFaithful, PointsInv, Items;
    ReachableInv(s);
    LogLength(s);
  }

  ghost function OpenOn(reports: map<string, Report>, t: Option<string>): set<string> {
    set id | id in reports && Matches(t, reports[id].targetId) && reports[id].status == Open
  }

  lemma OpenAndResolved(reports: map<string, Report>, t: Option<string>)
    ensures |OpenOn(reports, t)| == |ReportsOn(reports, t, false)| - |ReportsOn(reports, t, true)|
  {
    assert ReportsOn(reports, t, false) == OpenOn(reports, t) + ReportsOn(reports, t, true);
    assert OpenOn(reports, t) !! ReportsOn(reports, t, true);
  }

  /** The open report queue of a target is what was filed on it less what was resolved. */
  lemma OpenReportsFromLog(s: State, t: Option<string>)
    requires IsReachable(s)
    ensures |OpenOn(s.reports, t)|
            == CountEvents(s.auditEvents, ReportCreated, t) - CountEvents(s.auditEvents, ReportResolved, t)
  {
    hide LogFaithful, PointsInv, QueuesNumbered, JobsInv, MacrosInv, IsReachable, CountEvents, ReportsOn, OpenOn;
    ReachableInv(s);
    OpenAndResolved(s.reports, t);
    assert Items(s, ReportCreated, t) == ReportsOn(s.reports, t, false);
    assert Items(s, ReportResolved, t) == ReportsOn(s.reports, t, true);
  }

  // ----- macros are transactions -----

  function Acts(actor: string, actions: seq<Action>): seq<Command> {
    if actions == [] then [] else Acts(actor, actions[..|actions| - 1]) + [Act(actor, actions[|actions| - 1])]
  }

  /** Each single-action call of the list succeeds when they are made one after the other. */
  ghost predicate AllSucceed(s: State, actor: string, actions: seq<Action>) {
    forall i | 0 <= i < |actions| :: Perform(Run(s, Acts(actor, actions[..i])), Act(actor, actions[i])).Success?
  }

  lemma AllSucceedLast(s: State, actor: string, actions: seq<Action>)
    requires actions != []
    ensures var n := |actions| - 1;
            AllSucceed(s, actor, actions) <==>
            AllSucceed(s, actor, actions[..n])
            && Perform(Run(s, Acts(actor, actions[..n])), Act(actor, actions[n])).Success?
  {
    hide Perform, Run, Acts;
    var n := |actions| - 1;
    var init := actions[..n];
    forall i | 0 <= i < n
      ensures Perform(Run(s, Acts(actor, init[..i])), Act(actor, init[i]))
              == Perform(Run(s, Acts(actor, actions[..i])), Act(actor, actions[i]))
    {
      assert init[..i] == actions[..i];
    }
  }

  lemma {:induction false} ApplyAllIsRun(s: State, actor: string, actions: seq<Action>)
    ensures ApplyAll(s, actor, actions).Success? <==> AllSucceed(s, actor, actions)
    ensures ApplyAll(s, actor, actions).Success? ==> ApplyAll(s, actor, actions).value == Run(s, Acts(actor, actions))
  {
    if actions == [] {
    } else {
      hide Apply, AllSucceed;
      var init := actions[..|actions| - 1];
      ApplyAllIsRun(s, actor, init);
      AllSucceedLast(s, actor, actions);
      assert Acts(actor, actions)[..|Acts(actor, actions)| - 1] == Acts(actor, init);
    }
  }

  /** A macro succeeds iff its actions, called on their own one after the other, all would, and then does the same. */
  lemma MacroIsSequenceOfCalls(s: State, actor: string, actions: seq<Action>)
    ensures DoMacro(s, actor, actions).Success? <==> actions != [] && AllSucceed(s, actor, actions)
    ensures DoMacro(s, actor, actions).Success? ==>
      Step(s, ExecuteMacro(actor, actions)) == Run(s, Acts(actor, actions))
    ensures DoMacro(s, actor, actions).Failure? ==> Step(s, ExecuteMacro(actor, actions)) == s
  {
    hide AllSucceed;
    ApplyAllIsRun(s, actor, actions);
  }

  lemma {:induction false} ApplyAllAppend(s: State, actor: string, xs: seq<Action>, ys: seq<Action>)
    ensures ApplyAll(s, actor, xs + ys) ==
            match ApplyAll(s, actor, xs)
            case Success(mid) => ApplyAll(mid, actor, ys)
            case Failure(e) => Failure(e)
  {
    hide Apply;
    if ys == [] {
      assert xs + ys == xs;
    } else {
      assert (xs + ys)[..|xs + ys| - 1] == xs + ys[..|ys| - 1];
      ApplyAllAppend(s, actor, xs, ys[..|ys| - 1]);
    }
  }

  /** A macro can be split anywhere: the whole succeeds iff both parts do in turn, and ends in the same state. */
  lemma MacroConcatenation(s: State, actor: string, xs: seq<Action>, ys: seq<Action>)
    requires xs != [] && ys != []
    ensures DoMacro(s, actor, xs + ys).Success? <==>
      DoMacro(s, actor, xs).Success? && DoMacro(DoMacro(s, actor, xs).value, actor, ys).Success?
    ensures DoMacro(s, actor, xs + ys).Success? ==>
      DoMacro(s, actor, xs + ys).value == DoMacro(DoMacro(s, actor, xs).value, actor, ys).value
  {
    hide ApplyAll;
    ApplyAllAppend(s, actor, xs, ys);
  }

  /** No two stored macros have the same trimmed name up to ASCII case. */
  lemma MacroNamesUnique(s: State, a: string, b: string)
    requires IsReachable(s) && a in s.macros && b in s.macros
    ensures SameUpToAsciiCase(Trim(s.macros[a].name), Trim(s.macros[b].name)) <==> a == b
  {
    hide LogFaithful, PointsInv, Balanced, QueuesNumbered, JobsInv, Trim, AsciiLower;
    ReachableInv(s);
    LowerIff(Trim(s.macros[a].name), Trim(s.macros[b].name));
  }

  /** A macro that is fine in itself is refused iff one is stored under the same trimmed name up to ASCII case. */
  lemma DuplicateMacroIff(s: State, actor: string, name: string, description: Option<string>, actions: seq<Action>)
    requires IsReachable(s)
    requires CleanMacroName(name).Success? && CleanOptionalReason(description).Success? && actions != []
    ensures DoCreateMacro(s, actor, name, description, actions) == Failure(DuplicateMacroName) <==>
      exists id :: id in s.macros && SameUpToAsciiCase(Trim(name), Trim(s.macros[id].name))
    ensures DoCreateMacro(s, actor, name, description, actions).Failure? ==>
      DoCreateMacro(s, actor, name, description, actions).error == DuplicateMacroName
  {
    hide LogFaithful, PointsInv, Balanced, QueuesNumbered, JobsInv, Trim, AsciiLower, SameUpToAsciiCase, Numbered,
         CleanReason, Bytes;
    ReachableInv(s);
    TrimIdempotent(name);
    forall id | id in s.macros {
      LowerIff(Trim(name), Trim(s.macros[id].name));
    }
    var key := MacroNameKey(Trim(name));
    if key in s.macroIdsByName {
      assert MacroNameKey(s.macros[s.macroIdsByName[key]].name) == key;
    }
  }

  /** Case beyond ASCII counts: upper-case and lower-case umlaut A are two names. */
  lemma UmlautNamesBothStored()
    ensures var actions := [SetShadowban("u", true)];
            var s := Run(INITIAL, [CreateMacro("mod", "\U{C4}", None, actions),
                                   CreateMacro("mod", "\U{E4}", None, actions)]);
            && Id("macro", 1) in s.macros && s.macros[Id("macro", 1)].name == "\U{C4}"
            && Id("macro", 2) in s.macros && s.macros[Id("macro", 2)].name == "\U{E4}"
  {
    hide Id, CleanText;
    var actions := [SetShadowban("u", true)];
    var c, d := CreateMacro("mod", "\U{C4}", None, actions), CreateMacro("mod", "\U{E4}", None, actions);
    RunOfTwo(INITIAL, c, d);
    UmlautIsClean('\U{C4}');
    UmlautIsClean('\U{E4}');
    NumberOfId("macro", 1);
    NumberOfId("macro", 2);
  }

  lemma UmlautIsClean(c: char)
    requires c == '\U{C4}' || c == '\U{E4}'
    ensures CleanText([c], MAX_MACRO_NAME_LEN) == Some([c]) && MacroNameKey([c]) == [c]
  {
    assert [c][1..] == [] && [c][..0] == [];
    assert TrimStart([c]) == [c] && TrimEnd([c]) == [c];
    assert Bytes([c]) == Utf8(c) + Bytes([]);
    assert AsciiLower([c]) == [LowerChar(c)] + AsciiLower([]);
  }

  // ----- jobs -----

  lemma FirstIsMember(ids: seq<string>)
    ensures ids != [] ==> ids[0] in ids
  {
  }

  /** After a pass no due job is pending, and a further pass at any tick not later does nothing. */
  lemma JobPassDrains(commands: seq<Command>, now: nat, later: nat)
    requires later <= now
    ensures var s := Run(INITIAL, commands + [RunDueJobs(now)]);
            DueIds(s, later) == [] && Step(s, RunDueJobs(later)) == s
  {
    hide Inv, Evolves, RunJob;
    Reachable(commands);
    var s := Run(INITIAL, commands);
    assert (commands + [RunDueJobs(now)])[..|commands|] == commands;
    FinishesEveryDueJob(s, now);
    FirstIsMember(DueIds(Step(s, RunDueJobs(now)), later));
  }

  /** A pass turns exactly the due pending jobs into finished ones. */
  lemma FinishesEveryDueJob(s: State, now: nat)
    requires Inv(s)
    ensures var s1 := Step(s, RunDueJobs(now));
            && s1.jobs.Keys == s.jobs.Keys
            && (forall id | id in s.jobs && Due(s.jobs[id], now) :: s1.jobs[id].status != Pending)
            && (forall id | id in s.jobs && !Due(s.jobs[id], now) :: s1.jobs[id] == s.jobs[id])
  {
    hide Inv, Evolves, RunJob;
    RunJobsSound(s, DueIds(s, now));
  }

  ghost function CompletedAmong(s: State, ids: seq<string>): set<string> {
    set id | id in ids && id in s.jobs && s.jobs[id].status == Completed
  }

  /** The completed count of a pass is the number of due jobs that end up completed. */
  lemma SummaryCountsCompleted(s: State, now: nat)
    requires IsReachable(s)
    ensures CommittedIn(s, DueIds(s, now)) == |CompletedAmong(Step(s, RunDueJobs(now)), DueIds(s, now))|
  {
    hide Inv, IsReachable, CommittedIn, RunJobs, CompletedAmong;
    ReachableInv(s);
    CommittedAreCompleted(s, DueIds(s, now));
  }

  lemma CompletedGrows(mid: State, end: State, init: seq<string>, last: string, committed: bool)
    requires last !in init && end.jobs.Keys == mid.jobs.Keys && last in mid.jobs
    requires forall id | id in mid.jobs && id != last :: end.jobs[id] == mid.jobs[id]
    requires committed <==> end.jobs[last].status == Completed
    ensures |CompletedAmong(end, init + [last])| == |CompletedAmong(mid, init)| + if committed then 1 else 0
  {
    assert CompletedAmong(end, init + [last]) == CompletedAmong(mid, init) + if committed then {last} else {};
  }

  lemma LastJobOfPass(s: State, ids: seq<string>)
    requires Inv(s) && NoDup(ids) && ids != []
    requires forall id | id in ids :: id in s.jobs && s.jobs[id].status == Pending
    ensures var init, last := ids[..|ids| - 1], ids[|ids| - 1];
            var mid := RunJobs(s, init);
            && last !in init && Inv(mid) && last in mid.jobs && mid.jobs[last].status == Pending
  {
    hide Inv, Evolves, RunJob;
    var init, last := ids[..|ids| - 1], ids[|ids| - 1];
    assert last in ids && last !in init && forall id | id in init :: id in ids;
    RunJobsSound(s, init);
  }

  lemma {:induction false} CommittedAreCompleted(s: State, ids: seq<string>)
    requires Inv(s) && NoDup(ids)
    requires forall id | id in ids :: id in s.jobs && s.jobs[id].status == Pending
    ensures CommittedIn(s, ids) == |CompletedAmong(RunJobs(s, ids), ids)|
  {
    hide Inv, Evolves, RunJob, Commits;
    if ids == [] {
      assert CompletedAmong(s, ids) == {};
    } else {
      hide CompletedAmong;
      var init, last := ids[..|ids| - 1], ids[|ids| - 1];
      LastJobOfPass(s, ids);
      var mid := RunJobs(s, init);
      RunJobSound(mid, last);
      JobOutcome(mid, last);
      CompletedGrows(mid, RunJob(mid, last), init, last, Commits(mid, last));
      assert ids == init + [last];
      assert forall id | id in init :: id in ids;
      CommittedAreCompleted(s, init);
    }
  }

  lemma JobOutcome(s: State, id: string)
    requires Inv(s) && id in s.jobs && s.jobs[id].status == Pending
    ensures id in RunJob(s, id).jobs
    ensures RunJob(s, id).jobs[id].status == if Commits(s, id) then Completed else Failed
  {
    hide Inv, Evolves, ApplyAll;
    if Commits(s, id) {
      ApplyAllSound(s, s.jobs[id].actorId, s.jobs[id].actions);
    }
  }

  /** A pending job either performs its whole action list, as single calls would, or changes nothing but itself. */
  lemma JobIsAllOrNothing(s: State, id: string)
    requires IsReachable(s) && id in s.jobs && s.jobs[id].status == Pending
    ensures var job := s.jobs[id];
            if AllSucceed(s, job.actorId, job.actions) then
              var done := Run(s, Acts(job.actorId, job.actions));
              && done.jobs == s.jobs
              && RunJob(s, id) == done.(jobs := s.jobs[id := job.(status := Completed, lastError := None)])
            else
              && ApplyAll(s, job.actorId, job.actions).Failure?
              && var error := ErrorText(ApplyAll(s, job.actorId, job.actions).error);
                 RunJob(s, id) == s.(jobs := s.jobs[id := job.(status := Failed, lastError := Some(error))])
  {
    hide LogFaithful, PointsInv, Balanced, QueuesNumbered, MacrosInv, Evolves, AllSucceed, ApplyAll,
         IsReachable, Run, Acts;
    ReachableInv(s);
    var job := s.jobs[id];
    ApplyAllIsRun(s, job.actorId, job.actions);
    if AllSucceed(s, job.actorId, job.actions) {
      ApplyAllSound(s, job.actorId, job.actions);
    }
  }

  /** The ids in the order the jobs were created. */
  ghost predicate InCreationOrder(ids: seq<string>) {
    forall i, j | 0 <= i < j < |ids| :: Number("job", ids[i]) < Number("job", ids[j])
  }

  ghost predicate DueNumber(s: State, now: nat, n: nat) {
    Id("job", n) in s.jobs && Due(s.jobs[Id("job", n)], now)
  }

  /** No due job is passed by a later one: filled up with zeros to the length of the later number, none exceeds it. */
  ghost predicate NoneOvertaken(s: State, now: nat) {
    forall m, n | m < n && DueNumber(s, now, m) && DueNumber(s, now, n) :: StaysAhead(m, n)
  }

  lemma DueJobsNumbered(s: State, now: nat, id: string)
    requires IsReachable(s) && id in DueIds(s, now)
    ensures id == Id("job", Number("job", id)) && DueNumber(s, now, Number("job", id))
  {
    hide LogFaithful, PointsInv, Balanced, QueuesNumbered, MacrosInv, IsReachable, Id, Number;
    ReachableInv(s);
  }

  /** A pass runs its due jobs in the order they were created iff no due job is passed by a later one. */
  lemma PassInCreationOrderIff(s: State, now: nat)
    requires IsReachable(s)
    ensures InCreationOrder(DueIds(s, now)) <==> NoneOvertaken(s, now)
  {
    hide IsReachable, Id, Number, Le, StaysAhead, DueNumber, Due;
    var ids := DueIds(s, now);
    if InCreationOrder(ids) {
      forall m, n | m < n && DueNumber(s, now, m) && DueNumber(s, now, n)
        ensures StaysAhead(m, n)
      {
        InOrderOvertakesNone(s, now, m, n);
      }
    }
    if NoneOvertaken(s, now) {
      forall i, j | 0 <= i < j < |ids| ensures Number("job", ids[i]) < Number("job", ids[j]) {
        DueJobsNumbered(s, now, ids[i]);
        DueJobsNumbered(s, now, ids[j]);
        var m, n := Number("job", ids[j]), Number("job", ids[i]);
        if m < n {
          IdOrderIff("job", m, n);
          LeAntisymmetric(ids[i], ids[j]);
        }
      }
    }
  }

  lemma InOrderOvertakesNone(s: State, now: nat, m: nat, n: nat)
    requires InCreationOrder(DueIds(s, now)) && m < n && DueNumber(s, now, m) && DueNumber(s, now, n)
    ensures StaysAhead(m, n)
  {
    hide Id, Number, Le, StaysAhead, Due;
    var ids := DueIds(s, now);
    var i :| 0 <= i < |ids| && ids[i] == Id("job", m);
    var j :| 0 <= j < |ids| && ids[j] == Id("job", n);
    NumberOfId("job", m);
    NumberOfId("job", n);
    assert i < j;
    IdOrderIff("job", m, n);
  }

  lemma OneMoreJob(s: State, actions: seq<Action>)
    requires actions != []
    ensures var s1 := Step(s, ScheduleJob("mod", 0, actions));
            && s1.nextJobId == s.nextJobId + 1
            && forall i | DueNumber(s, 0, i) || i == s.nextJobId :: DueNumber(s1, 0, i)
  {
    hide Id;
  }

  /** Scheduling `n` jobs for one tick makes the numbers 1 to `n` due. */
  lemma {:induction false} ScheduledJobs(n: nat) returns (commands: seq<Command>)
    ensures var s := Run(INITIAL, commands);
            s.nextJobId == n + 1 && forall i | 1 <= i <= n :: DueNumber(s, 0, i)
  {
    hide Id;
    if n == 0 {
      commands := [];
    } else {
      var before := ScheduledJobs(n - 1);
      var c := ScheduleJob("mod", 0, [SetShadowban("u", true)]);
      commands := before + [c];
      assert commands[..|before|] == before;
      OneMoreJob(Run(INITIAL, before), c.actions);
      var s := Run(INITIAL, before);
      assert Run(INITIAL, commands) == Step(s, c);
      forall i | 1 <= i <= n ensures DueNumber(Step(s, c), 0, i) {
        assert i < n ==> DueNumber(s, 0, i);
      }
    }
  }

  /** The failing side is reached: the pass over ten jobs scheduled for one tick runs the tenth before the second. */
  lemma TenJobsRunOutOfOrder() returns (commands: seq<Command>)
    ensures var ids := DueIds(Run(INITIAL, commands), 0);
            && !InCreationOrder(ids)
            && exists i, j :: 0 <= i < j < |ids| && ids[i] == Id("job", 10) && ids[j] == Id("job", 2)
  {
    hide Run, Le, Id, Due;
    commands := ScheduledJobs(10);
    var s := Run(INITIAL, commands);
    assert DueNumber(s, 0, 2) && DueNumber(s, 0, 10);
    var i :| 0 <= i < |DueIds(s, 0)| && DueIds(s, 0)[i] == Id("job", 10);
    var j :| 0 <= j < |DueIds(s, 0)| && DueIds(s, 0)[j] == Id("job", 2);
    assert !StaysAhead(2, 10) by { TwoOvertakesTen(); }
    IdOrderIff("job", 2, 10);
    LeTotal(Id("job", 10), Id("job", 2));
    NumberOfId("job", 2);
    NumberOfId("job", 10);
  }

  lemma TwoOvertakesTen()
    ensures !StaysAhead(2, 10)
  {
  }

  datatype Execution = Execution(jobId: string, tick: nat)

  function Tag(ids: seq<string>, tick: nat): (r: seq<Execution>)
    ensures |r| == |ids| && forall i | 0 <= i < |ids| :: r[i] == Execution(ids[i], tick)
  {
    seq(|ids|, i requires 0 <= i < |ids| => Execution(ids[i], tick))
  }

  /** The job executions of a run, in order, each with the tick of its pass. */
  ghost function Executions(s: State, commands: seq<Command>): seq<Execution> {
    if commands == [] then []
    else
      var before, c := commands[..|commands| - 1], commands[|commands| - 1];
      Executions(s, before) + if c.RunDueJobs? then Tag(DueIds(Run(s, before), c.now), c.now) else []
  }

  /** Executions and finished jobs correspond one to one, none before its tick. */
  ghost predicate ExecutionsMatch(runs: seq<Execution>, jobs: map<string, Job>) {
    && (forall i, j | 0 <= i < j < |runs| :: runs[i].jobId != runs[j].jobId)
    && (forall i | 0 <= i < |runs| ::
          runs[i].jobId in jobs && jobs[runs[i].jobId].status != Pending
          && jobs[runs[i].jobId].runAtTick <= runs[i].tick)
    && (forall id | id in jobs && jobs[id].status != Pending :: exists i :: 0 <= i < |runs| && runs[i].jobId == id)
  }

  /** Only a job pass changes the status of a job. */
  lemma OnlyPassesFinishJobs(s: State, c: Command)
    requires Inv(s) && !c.RunDueJobs?
    ensures var s1 := Step(s, c);
            forall id | id in s1.jobs && s1.jobs[id].status != Pending :: id in s.jobs && s1.jobs[id] == s.jobs[id]
  {
    hide LogFaithful, PointsInv, Balanced, QueuesNumbered, MacrosInv, JobsInv, Evolves, Apply;
    if Perform(s, c).Success? {
      match c
      case Act(actor, action) => ApplyFrame(s, actor, action);
      case ExecuteMacro(actor, actions) => ApplyAllSound(s, actor, actions);
      case ExecuteStoredMacro(actor, id) => ApplyAllSound(s, actor, s.macros[id].actions);
      case _ =>
    }
  }

  /** Appending one pass: new executions are of due pending jobs, which none of the earlier ones were. */
  lemma PassExtendsExecutions(jobs: map<string, Job>, jobs1: map<string, Job>, ids: seq<string>, now: nat,
                              runs: seq<Execution>)
    requires ExecutionsMatch(runs, jobs) && NoDup(ids) && JobsEvolve(jobs, jobs1) && jobs1.Keys == jobs.Keys
    requires forall id :: id in ids <==> id in jobs && Due(jobs[id], now)
    requires forall id | id in ids :: jobs1[id].status != Pending
    requires forall id | id in jobs && id !in ids :: jobs1[id] == jobs[id]
    ensures ExecutionsMatch(runs + Tag(ids, now), jobs1)
  {
    var more := Tag(ids, now);
    forall i | 0 <= i < |ids| ensures more[i].jobId in jobs && Due(jobs[more[i].jobId], now) {
      assert ids[i] in ids;
    }
    forall id | id in jobs1 && jobs1[id].status != Pending
      ensures exists i :: 0 <= i < |runs + more| && (runs + more)[i].jobId == id
    {
      if id in ids {
        var i :| 0 <= i < |ids| && ids[i] == id;
        assert (runs + more)[|runs| + i].jobId == id;
      } else {
        var i :| 0 <= i < |runs| && runs[i].jobId == id;
        assert (runs + more)[i].jobId == id;
      }
    }
  }

  lemma OtherStepsKeepExecutions(s: State, c: Command, runs: seq<Execution>)
    requires Inv(s) && !c.RunDueJobs? && ExecutionsMatch(runs, s.jobs)
    ensures ExecutionsMatch(runs, Step(s, c).jobs)
  {
    hide Inv, Step;
    OnlyPassesFinishJobs(s, c);
    StepSound(s, c);
  }

  /** Over any run every job is executed at most once, never before its tick, and is finished exactly by that. */
  lemma {:induction false} JobsRunAtMostOnce(commands: seq<Command>)
    ensures ExecutionsMatch(Executions(INITIAL, commands), Run(INITIAL, commands).jobs)
  {
    if commands == [] {
    } else {
      hide Inv, Evolves, ExecutionsMatch, Perform, DoRunDueJobs, JobsEvolve;
      var before, c := commands[..|commands| - 1], commands[|commands| - 1];
      JobsRunAtMostOnce(before);
      Reachable(before);
      var s := Run(INITIAL, before);
      if c.RunDueJobs? {
        FinishesEveryDueJob(s, c.now);
        JobTableEvolves(s, c);
        PassExtendsExecutions(s.jobs, Step(s, c).jobs, DueIds(s, c.now), c.now, Executions(INITIAL, before));
      } else {
        OtherStepsKeepExecutions(s, c, Executions(INITIAL, before));
        assert Executions(INITIAL, commands) == Executions(INITIAL, before);
      }
    }
  }

  lemma JobTableEvolves(s: State, c: Command)
    requires Inv(s)
    ensures JobsEvolve(s.jobs, Step(s, c).jobs)
  {
    hide Inv, Step, JobsEvolve;
    StepSound(s, c);
  }
}
