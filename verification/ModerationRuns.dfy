/** Whole runs of the moderation service: what every reachable state satisfies. */
module ModerationRuns {
  import opened Wrappers
  import opened Text
  import opened Order
  import opened Moderation
  import opened ModerationLog
  import opened ModerationPoints
  import opened ModerationTally

  ghost predicate JobsInv(jobs: map<string, Job>, next: nat) {
    && Numbered(jobs, "job", next)
    && (forall id | id in jobs :: jobs[id].id == id && jobs[id].actions != [])
    && (forall id | id in jobs :: jobs[id].lastError.Some? <==> jobs[id].status == Failed)
  }

  /** Stored macros and their names correspond one to one, names compared without ASCII case. */
  ghost predicate MacrosInv(macros: map<string, StoredMacro>, next: nat, idsByName: map<string, string>) {
    && Numbered(macros, "macro", next)
    && (forall id | id in macros :: macros[id].id == id && macros[id].actions != [])
    && (forall id | id in macros ::
          MacroNameKey(macros[id].name) in idsByName && idsByName[MacroNameKey(macros[id].name)] == id)
    && (forall key | key in idsByName :: idsByName[key] in macros && MacroNameKey(macros[idsByName[key]].name) == key)
  }

  ghost predicate Inv(s: State) {
    && LogFaithful(s) && PointsInv(s) && Balanced(s) && QueuesNumbered(s)
    && JobsInv(s.jobs, s.nextJobId) && MacrosInv(s.macros, s.nextMacroId, s.macroIdsByName)
  }

  // ----- the step relation every operation respects -----

  ghost predicate ReportsEvolve(m: map<string, Report>, m1: map<string, Report>) {
    forall id | id in m :: id in m1 && m1[id] == m[id].(status := m1[id].status)
                           && (m[id].status == Resolved ==> m1[id].status == Resolved)
  }

  ghost predicate ApprovalsEvolve(m: map<string, ApprovalItem>, m1: map<string, ApprovalItem>) {
    forall id | id in m :: id in m1 && m1[id] == m[id].(status := m1[id].status)
                           && (m[id].status == Resolved ==> m1[id].status == Resolved)
  }

  ghost predicate WarningsEvolve(m: map<string, Warning>, m1: map<string, Warning>) {
    forall id | id in m :: id in m1 && m1[id] == m[id].(active := m1[id].active) && (m1[id].active ==> m[id].active)
  }

  ghost predicate JobsEvolve(m: map<string, Job>, m1: map<string, Job>) {
    forall id | id in m :: id in m1 && m1[id] == m[id].(status := m1[id].status, lastError := m1[id].lastError)
                           && (m[id].status != Pending ==> m1[id] == m[id])
  }

  ghost predicate MacrosEvolve(m: map<string, StoredMacro>, m1: map<string, StoredMacro>) {
    forall id | id in m :: id in m1 && m1[id] == m[id]
  }

  /** The log only grows; resolved, expired and finished items stay so; nothing disappears. */
  ghost predicate Evolves(s: State, s1: State) {
    && s.auditEvents <= s1.auditEvents
    && ReportsEvolve(s.reports, s1.reports)
    && ApprovalsEvolve(s.approvals, s1.approvals)
    && WarningsEvolve(s.warnings, s1.warnings)
    && JobsEvolve(s.jobs, s1.jobs)
    && MacrosEvolve(s.macros, s1.macros)
  }

  lemma EvolvesReflexive(s: State)
    ensures Evolves(s, s)
  {
  }

  lemma EvolvesTransitive(a: State, b: State, c: State)
    requires Evolves(a, b) && Evolves(b, c)
    ensures Evolves(a, c)
  {
  }

  // ----- single actions, macros, jobs -----

  lemma ApplyFrame(s: State, actor: string, action: Action)
    requires Apply(s, actor, action).Success?
    ensures var s1 := Apply(s, actor, action).value;
            && s1.jobs == s.jobs && s1.nextJobId == s.nextJobId && s1.macros == s.macros
            && s1.nextMacroId == s.nextMacroId && s1.macroIdsByName == s.macroIdsByName
            && s.auditEvents <= s1.auditEvents && |s1.auditEvents| == |s.auditEvents| + 1
  {
    hide CleanReason, PointsIn, UserStateFor;
  }

  lemma ApplyEvolvesQueues(s: State, actor: string, action: Action)
    requires Apply(s, actor, action).Success?
    ensures var s1 := Apply(s, actor, action).value;
            ReportsEvolve(s.reports, s1.reports) && ApprovalsEvolve(s.approvals, s1.approvals)
  {
    hide CleanReason, PointsIn, UserStateFor;
  }

  lemma ApplyEvolvesWarnings(s: State, actor: string, action: Action)
    requires Id("warning", s.nextWarningId) !in s.warnings
    requires Apply(s, actor, action).Success?
    ensures WarningsEvolve(s.warnings, Apply(s, actor, action).value.warnings)
  {
    hide CleanReason, PointsIn, UserStateFor;
  }

  lemma ApplyEvolves(s: State, actor: string, action: Action)
    requires PointsInv(s)
    requires Apply(s, actor, action).Success?
    ensures Evolves(s, Apply(s, actor, action).value)
  {
    hide Apply, CacheAgrees, PartitionedByUser;
    ApplyFrame(s, actor, action);
    ApplyEvolvesQueues(s, actor, action);
    if Id("warning", s.nextWarningId) in s.warnings {
      NumberOfId("warning", s.nextWarningId);
    }
    ApplyEvolvesWarnings(s, actor, action);
  }

  lemma ApplyKeepsInv(s: State, actor: string, action: Action)
    requires Inv(s)
    requires Apply(s, actor, action).Success?
    ensures Inv(Apply(s, actor, action).value)
  {
    hide LogFaithful, Balanced, Apply, JobsInv, MacrosInv, QueuesNumbered, Numbered, PartitionedByUser, CacheAgrees;
    ApplyKeepsLog(s, actor, action);
    ApplyKeepsPoints(s, actor, action);
    ApplyBalances(s, actor, action);
    ApplyFrame(s, actor, action);
  }

  lemma {:induction false} ApplyAllSound(s: State, actor: string, actions: seq<Action>)
    requires Inv(s)
    requires ApplyAll(s, actor, actions).Success?
    ensures var s1 := ApplyAll(s, actor, actions).value;
            Inv(s1) && Evolves(s, s1) && s1.jobs == s.jobs && |s1.auditEvents| == |s.auditEvents| + |actions|
  {
    hide LogFaithful, PointsInv, Balanced, QueuesNumbered, JobsInv, MacrosInv, Apply, Evolves;
    EvolvesReflexive(s);
    if actions == [] {
    } else {
      var init, last := actions[..|actions| - 1], actions[|actions| - 1];
      ApplyAllSound(s, actor, init);
      var mid := ApplyAll(s, actor, init).value;
      ApplyKeepsInv(mid, actor, last);
      ApplyEvolves(mid, actor, last);
      ApplyFrame(mid, actor, last);
      EvolvesTransitive(s, mid, Apply(mid, actor, last).value);
    }
  }

  /** Changing only the job and macro tables keeps what the other tables satisfy. */
  lemma TablesFrame(s: State, s1: State)
    requires LogFaithful(s) && PointsInv(s) && Balanced(s) && QueuesNumbered(s)
    requires s1 == s.(jobs := s1.jobs, nextJobId := s1.nextJobId, macros := s1.macros,
                      nextMacroId := s1.nextMacroId, macroIdsByName := s1.macroIdsByName)
    ensures LogFaithful(s1) && PointsInv(s1) && Balanced(s1) && QueuesNumbered(s1)
  {
    hide Replay, CountEvents, Numbered, CacheAgrees, PartitionedByUser, EventFaithful, ReportsOn, ApprovalsOn,
         WarningsOn;
    PointsFrame(s, s1);
    assert forall k, t :: Items(s1, k, t) == Items(s, k, t);
  }

  lemma FinishEvolves(s: State, id: string, status: JobStatus, error: Option<string>)
    requires id in s.jobs && s.jobs[id].status == Pending
    ensures Evolves(s, Finish(s, id, status, error))
  {
  }

  /** Marking a pending job finished keeps everything. */
  lemma FinishSound(s: State, id: string, status: JobStatus, error: Option<string>)
    requires Inv(s) && id in s.jobs && s.jobs[id].status == Pending
    requires status == if error.Some? then Failed else Completed
    ensures Inv(Finish(s, id, status, error)) && Evolves(s, Finish(s, id, status, error))
  {
    hide LogFaithful, PointsInv, Balanced, QueuesNumbered, MacrosInv, Evolves;
    TablesFrame(s, Finish(s, id, status, error));
    FinishEvolves(s, id, status, error);
  }

  lemma RunJobSound(s: State, id: string)
    requires Inv(s) && id in s.jobs && s.jobs[id].status == Pending
    ensures var s1 := RunJob(s, id);
            && Inv(s1) && Evolves(s, s1)
            && s1.jobs == s.jobs[id := s1.jobs[id]] && s1.jobs[id].status != Pending
  {
    hide LogFaithful, PointsInv, Balanced, QueuesNumbered, MacrosInv, ApplyAll, Evolves;
    var actor, actions := s.jobs[id].actorId, s.jobs[id].actions;
    match DoMacro(s, actor, actions)
    case Success(mid) =>
      ApplyAllSound(s, actor, actions);
      FinishSound(mid, id, Completed, None);
      EvolvesTransitive(s, mid, RunJob(s, id));
    case Failure(e) =>
      FinishSound(s, id, Failed, Some(ErrorText(e)));
  }

  /** Running a list of pending jobs: each listed job finishes, every other job is untouched. */
  lemma {:induction false} RunJobsSound(s: State, ids: seq<string>)
    requires Inv(s) && NoDup(ids)
    requires forall id | id in ids :: id in s.jobs && s.jobs[id].status == Pending
    ensures var s1 := RunJobs(s, ids);
            && Inv(s1) && Evolves(s, s1) && s1.jobs.Keys == s.jobs.Keys
            && (forall id | id in ids :: s1.jobs[id].status != Pending)
            && (forall id | id in s.jobs && id !in ids :: s1.jobs[id] == s.jobs[id])
  {
    hide LogFaithful, PointsInv, Balanced, QueuesNumbered, JobsInv, MacrosInv, RunJob, Evolves;
    EvolvesReflexive(s);
    if ids == [] {
    } else {
      var init, last := ids[..|ids| - 1], ids[|ids| - 1];
      RunJobsSound(s, init);
      var mid := RunJobs(s, init);
      assert last in ids && last !in init;
      RunJobSound(mid, last);
      EvolvesTransitive(s, mid, RunJobs(s, ids));
    }
  }

  /** The ids collected up front stay valid: each job is met by the loop exactly as it was collected. */
  lemma SnapshotStaysValid(s: State, now: nat, i: nat)
    requires Inv(s) && i < |DueIds(s, now)|
    ensures var id := DueIds(s, now)[i];
            var met := RunJobs(s, DueIds(s, now)[..i]);
            id in met.jobs && met.jobs[id] == s.jobs[id] && Due(met.jobs[id], now)
  {
    hide LogFaithful, PointsInv, Balanced, QueuesNumbered, JobsInv, MacrosInv, RunJob, Evolves;
    var ids := DueIds(s, now);
    assert forall id | id in ids[..i] :: id in ids;
    assert ids[i] in ids && ids[i] !in ids[..i];
    RunJobsSound(s, ids[..i]);
  }

  // ----- runs -----

  lemma StoringKeepsMacros(macros: map<string, StoredMacro>, next: nat, idsByName: map<string, string>, m: StoredMacro)
    requires MacrosInv(macros, next, idsByName)
    requires m.id == Id("macro", next) && m.actions != [] && MacroNameKey(m.name) !in idsByName
    ensures MacrosInv(macros[m.id := m], next + 1, idsByName[MacroNameKey(m.name) := m.id])
    ensures MacrosEvolve(macros, macros[m.id := m])
  {
    hide MacroNameKey;
    NumberedInsert(macros, "macro", next, m);
  }

  lemma CreateMacroSound(s: State, actor: string, name: string, description: Option<string>, actions: seq<Action>)
    requires Inv(s) && DoCreateMacro(s, actor, name, description, actions).Success?
    ensures var s1 := DoCreateMacro(s, actor, name, description, actions).value; Inv(s1) && Evolves(s, s1)
  {
    hide LogFaithful, PointsInv, Balanced, QueuesNumbered, JobsInv, MacrosInv, MacrosEvolve, CleanText, MacroNameKey;
    var s1 := DoCreateMacro(s, actor, name, description, actions).value;
    StoringKeepsMacros(s.macros, s.nextMacroId, s.macroIdsByName, s1.macros[Id("macro", s.nextMacroId)]);
    TablesFrame(s, s1);
  }

  lemma SchedulingKeepsJobs(jobs: map<string, Job>, next: nat, job: Job)
    requires JobsInv(jobs, next)
    requires job.id == Id("job", next) && job.actions != [] && job.status == Pending && job.lastError == None
    ensures JobsInv(jobs[job.id := job], next + 1) && JobsEvolve(jobs, jobs[job.id := job])
  {
    NumberedInsert(jobs, "job", next, job);
  }

  lemma ScheduleSound(s: State, actor: string, tick: nat, actions: seq<Action>)
    requires Inv(s) && DoScheduleJob(s, actor, tick, actions).Success?
    ensures var s1 := DoScheduleJob(s, actor, tick, actions).value; Inv(s1) && Evolves(s, s1)
  {
    hide LogFaithful, PointsInv, Balanced, QueuesNumbered, MacrosInv, JobsInv, JobsEvolve;
    var s1 := DoScheduleJob(s, actor, tick, actions).value;
    SchedulingKeepsJobs(s.jobs, s.nextJobId, s1.jobs[Id("job", s.nextJobId)]);
    TablesFrame(s, s1);
  }

  lemma FilingEvolves(s: State, reporter: string, target: string, reason: string)
    requires QueuesNumbered(s) && DoFileReport(s, reporter, target, reason).Success?
    ensures Evolves(s, DoFileReport(s, reporter, target, reason).value)
  {
    hide CleanText;
    var s1 := DoFileReport(s, reporter, target, reason).value;
    NumberedInsert(s.reports, "report", s.nextReportId, s1.reports[Id("report", s.nextReportId)]);
  }

  lemma FilingSound(s: State, reporter: string, target: string, reason: string)
    requires Inv(s) && DoFileReport(s, reporter, target, reason).Success?
    ensures var s1 := DoFileReport(s, reporter, target, reason).value; Inv(s1) && Evolves(s, s1)
  {
    hide LogFaithful, PointsInv, Balanced, QueuesNumbered, JobsInv, MacrosInv, CleanText, Evolves;
    FilingEvolves(s, reporter, target, reason);
    FilingKeepsLog(s, reporter, target, reason);
    FilingBalances(s, reporter, target, reason);
    PointsFrame(s, DoFileReport(s, reporter, target, reason).value);
  }

  lemma QueueingEvolves(s: State, actor: string, author: string, target: string, reason: string)
    requires QueuesNumbered(s) && DoQueueApproval(s, actor, author, target, reason).Success?
    ensures Evolves(s, DoQueueApproval(s, actor, author, target, reason).value)
  {
    hide CleanText;
    var s1 := DoQueueApproval(s, actor, author, target, reason).value;
    NumberedInsert(s.approvals, "approval", s.nextApprovalId, s1.approvals[Id("approval", s.nextApprovalId)]);
  }

  lemma QueueingSound(s: State, actor: string, author: string, target: string, reason: string)
    requires Inv(s) && DoQueueApproval(s, actor, author, target, reason).Success?
    ensures var s1 := DoQueueApproval(s, actor, author, target, reason).value; Inv(s1) && Evolves(s, s1)
  {
    hide LogFaithful, PointsInv, Balanced, QueuesNumbered, JobsInv, MacrosInv, CleanText, Evolves;
    QueueingEvolves(s, actor, author, target, reason);
    QueueingKeepsLog(s, actor, author, target, reason);
    QueueingBalances(s, actor, author, target, reason);
    PointsFrame(s, DoQueueApproval(s, actor, author, target, reason).value);
  }

  lemma StepSound(s: State, c: Command)
    requires Inv(s)
    ensures Inv(Step(s, c)) && Evolves(s, Step(s, c))
  {
    hide LogFaithful, PointsInv, Balanced, QueuesNumbered, JobsInv, MacrosInv, Evolves, Apply;
    EvolvesReflexive(s);
    if Perform(s, c).Success? {
      match c
      case FileReport(reporter, target, reason) => FilingSound(s, reporter, target, reason);
      case QueueApproval(actor, author, target, reason) => QueueingSound(s, actor, author, target, reason);
      case Act(actor, action) =>
        ApplyKeepsInv(s, actor, action);
        ApplyEvolves(s, actor, action);
      case ExecuteMacro(actor, actions) => ApplyAllSound(s, actor, actions);
      case CreateMacro(actor, name, description, actions) => CreateMacroSound(s, actor, name, description, actions);
      case ExecuteStoredMacro(actor, id) => ApplyAllSound(s, actor, s.macros[id].actions);
      case ScheduleJob(actor, tick, actions) => ScheduleSound(s, actor, tick, actions);
      case RunDueJobs(now) => RunJobsSound(s, DueIds(s, now));
    }
  }

  lemma {:induction false} RunSound(s: State, commands: seq<Command>)
    requires Inv(s)
    ensures Inv(Run(s, commands)) && Evolves(s, Run(s, commands))
  {
    hide LogFaithful, PointsInv, Balanced, QueuesNumbered, JobsInv, MacrosInv, Evolves, Step;
    EvolvesReflexive(s);
    if commands == [] {
    } else {
      var init, last := commands[..|commands| - 1], commands[|commands| - 1];
      RunSound(s, init);
      StepSound(Run(s, init), last);
      EvolvesTransitive(s, Run(s, init), Run(s, commands));
    }
  }

  /** The invariant holds in every state a run can reach. */
  lemma Reachable(commands: seq<Command>)
    ensures Inv(Run(INITIAL, commands))
  {
    assert Balanced(INITIAL) by {
      forall k, t ensures CountEvents(INITIAL.auditEvents, k, t) == |Items(INITIAL, k, t)| {
        assert Items(INITIAL, k, t) == {};
      }
    }
    RunSound(INITIAL, commands);
  }

  ghost predicate IsReachable(s: State) {
    exists commands :: s == Run(INITIAL, commands)
  }

  lemma ReachableInv(s: State)
    requires IsReachable(s)
    ensures Inv(s)
  {
    hide Inv, Run;
    var commands :| s == Run(INITIAL, commands);
    Reachable(commands);
  }

  lemma {:induction false} RunAppend(s: State, xs: seq<Command>, ys: seq<Command>)
    ensures Run(s, xs + ys) == Run(Run(s, xs), ys)
  {
    if ys == [] {
      assert xs + ys == xs;
    } else {
      assert (xs + ys)[..|xs + ys| - 1] == xs + ys[..|ys| - 1];
      RunAppend(s, xs, ys[..|ys| - 1]);
    }
  }
}
