/** The in-memory moderation service: mutable state, single actions, macros and the job runner. */
module ModerationEngine {
  import opened Wrappers
  import opened Text
  import opened Order
  import opened Indexes
  import opened Moderation

  class ModerationState {
    var nextReportId: nat
    var nextApprovalId: nat
    var nextWarningId: nat
    var nextMacroId: nat
    var nextJobId: nat
    var nextAuditId: nat
    var reports: map<string, Report>
    var approvals: map<string, ApprovalItem>
    var warnings: map<string, Warning>
    var warningIdsByUser: map<string, seq<string>>
    var users: map<string, UserState>
    var macros: map<string, StoredMacro>
    var macroIdsByName: map<string, string>
    var jobs: map<string, Job>
    var auditEvents: seq<AuditEvent>

    /** The value the fields hold together. */
    ghost function Snapshot(): State
      reads this
    {
      State(nextReportId, nextApprovalId, nextWarningId, nextMacroId, nextJobId, nextAuditId, reports, approvals,
            warnings, warningIdsByUser, users, macros, macroIdsByName, jobs, auditEvents)
    }

    constructor ()
      ensures Snapshot() == INITIAL
    {
      nextReportId, nextApprovalId, nextWarningId := 1, 1, 1;
      nextMacroId, nextJobId, nextAuditId := 1, 1, 1;
      reports, approvals, warnings, warningIdsByUser, users := map[], map[], map[], map[], map[];
      macros, macroIdsByName, jobs, auditEvents := map[], map[], map[], [];
    }

    constructor CloneOf(other: ModerationState)
      ensures Snapshot() == other.Snapshot()
    {
      nextReportId, nextApprovalId, nextWarningId := other.nextReportId, other.nextApprovalId, other.nextWarningId;
      nextMacroId, nextJobId, nextAuditId := other.nextMacroId, other.nextJobId, other.nextAuditId;
      reports, approvals, warnings := other.reports, other.approvals, other.warnings;
      warningIdsByUser, users := other.warningIdsByUser, other.users;
      macros, macroIdsByName, jobs := other.macros, other.macroIdsByName, other.jobs;
      auditEvents := other.auditEvents;
    }

    method AssignCounters(candidate: ModerationState)
      requires candidate != this
      modifies this`nextReportId, this`nextApprovalId, this`nextWarningId, this`nextMacroId, this`nextJobId,
               this`nextAuditId
      ensures nextReportId == candidate.nextReportId && nextApprovalId == candidate.nextApprovalId
      ensures nextWarningId == candidate.nextWarningId && nextMacroId == candidate.nextMacroId
      ensures nextJobId == candidate.nextJobId && nextAuditId == candidate.nextAuditId
    {
      nextReportId, nextApprovalId := candidate.nextReportId, candidate.nextApprovalId;
      nextWarningId, nextMacroId := candidate.nextWarningId, candidate.nextMacroId;
      nextJobId, nextAuditId := candidate.nextJobId, candidate.nextAuditId;
    }

    method AssignUserTables(candidate: ModerationState)
      requires candidate != this
      modifies this`warnings, this`warningIdsByUser, this`users, this`auditEvents
      ensures warnings == candidate.warnings && warningIdsByUser == candidate.warningIdsByUser
      ensures users == candidate.users && auditEvents == candidate.auditEvents
    {
      warnings, warningIdsByUser := candidate.warnings, candidate.warningIdsByUser;
      users, auditEvents := candidate.users, candidate.auditEvents;
    }

    /** `*self = candidate`. */
    method Assign(candidate: ModerationState)
      requires candidate != this
      modifies this
      ensures Snapshot() == candidate.Snapshot() == old(candidate.Snapshot())
    {
      AssignCounters(candidate);
      AssignUserTables(candidate);
      reports, approvals := candidate.reports, candidate.approvals;
      macros, macroIdsByName, jobs := candidate.macros, candidate.macroIdsByName, candidate.jobs;
    }

    method AppendAudit(actor: string, action: AuditAction, target: string, previous: Option<UserState>,
                       next: Option<UserState>, detail: string)
      modifies this
      ensures Snapshot() == PushAudit(old(Snapshot()), actor, action, target, previous, next, detail)
    {
      var event := AuditEvent(Id("audit", nextAuditId), actor, action, target, previous, next, detail);
      nextAuditId := nextAuditId + 1;
      auditEvents := auditEvents + [event];
    }

    /** `recompute_user_state`: the sum wraps at 2^32. */
    method RecomputeUserState(user: string)
      modifies this
      ensures Snapshot() == RecomputeUser(old(Snapshot()), user)
    {
      var shadowbanned := user in users && users[user].shadowbanned;
      var ids := if user in warningIdsByUser then warningIdsByUser[user] else [];
      var points: u32 := 0;
      for i := 0 to |ids|
        invariant points == Wrap(PointsIn(warnings, ids[..i]))
        invariant unchanged(this)
      {
        assert ids[..i + 1][..i] == ids[..i];
        hide Wrap;
        if ids[i] in warnings && warnings[ids[i]].active {
          WrapStep(PointsIn(warnings, ids[..i]), warnings[ids[i]].points);
          points := Wrap(points + warnings[ids[i]].points);
        }
      }
      assert ids[..|ids|] == ids;
      users := users[user := UserState(points, points >= MUTE_WARNING_POINTS, points >= BAN_WARNING_POINTS,
                                       shadowbanned)];
    }

    // ----- the single actions as macros perform them -----

    method ResolveReportInState(actor: string, id: string, rawResolution: string) returns (r: Result<Report, Error>)
      modifies this
      ensures Reflects(old(Snapshot()), DoResolveReport(old(Snapshot()), actor, id, rawResolution), Snapshot(), r)
      ensures r.Success? ==> id in reports && r.value == reports[id]
    {
      var resolution :- CleanReason(rawResolution);
      if id !in reports {
        return Failure(ReportNotFound);
      }
      if reports[id].status == Resolved {
        return Failure(AlreadyResolved);
      }
      var resolved := reports[id].(status := Resolved);
      reports := reports[id := resolved];
      AppendAudit(actor, ReportResolved, resolved.targetId, None, None, "report resolved: " + resolution);
      return Success(resolved);
    }

    method ResolveApprovalInState(actor: string, id: string, rawResolution: string)
      returns (r: Result<ApprovalItem, Error>)
      modifies this
      ensures Reflects(old(Snapshot()), DoResolveApproval(old(Snapshot()), actor, id, rawResolution), Snapshot(), r)
      ensures r.Success? ==> id in approvals && r.value == approvals[id]
    {
      var resolution :- CleanReason(rawResolution);
      if id !in approvals {
        return Failure(ApprovalNotFound);
      }
      if approvals[id].status == Resolved {
        return Failure(AlreadyResolved);
      }
      var resolved := approvals[id].(status := Resolved);
      approvals := approvals[id := resolved];
      AppendAudit(actor, ApprovalResolved, resolved.targetId, None, None, "approval resolved: " + resolution);
      return Success(resolved);
    }

    method IssueWarningInState(actor: string, user: string, target: Option<string>, rawReason: string, points: u32)
      returns (r: Result<Warning, Error>)
      modifies this
      ensures Reflects(old(Snapshot()), DoIssueWarning(old(Snapshot()), actor, user, target, rawReason, points),
                       Snapshot(), r)
      ensures r.Success? ==> r.value.id in warnings && r.value == warnings[r.value.id]
    {
      hide CleanText, PointsIn;
      if points == 0 {
        return Failure(InvalidPoints);
      }
      var reason :- CleanReason(rawReason);
      ghost var start := Snapshot();
      var previous := UserOf(users, user);
      var warning := Warning(Id("warning", nextWarningId), actor, user, target, reason, points, true);
      nextWarningId := nextWarningId + 1;
      warningIdsByUser := warningIdsByUser[user := ListOf(warningIdsByUser, user) + [warning.id]];
      warnings := warnings[warning.id := warning];
      assert Snapshot() == AddWarning(start, warning);
      RecomputeUserState(user);
      var next := UserOf(users, user);
      AppendAudit(actor, WarningIssued, user, Some(previous), Some(next), "warning issued");
      return Success(warning);
    }

    method ExpireWarningInState(actor: string, id: string, rawReason: string)
      returns (r: Result<(Warning, UserState), Error>)
      modifies this
      ensures Reflects(old(Snapshot()), DoExpireWarning(old(Snapshot()), actor, id, rawReason), Snapshot(), r)
      ensures r.Success? ==> id in warnings && r.value == (warnings[id], UserOf(users, warnings[id].targetUserId))
    {
      var reason :- CleanReason(rawReason);
      if id !in warnings {
        return Failure(WarningNotFound);
      }
      if !warnings[id].active {
        return Failure(WarningInactive);
      }
      var user := warnings[id].targetUserId;
      var previous := UserOf(users, user);
      var expired := warnings[id].(active := false);
      warnings := warnings[id := expired];
      RecomputeUserState(user);
      var next := UserOf(users, user);
      AppendAudit(actor, WarningExpired, user, Some(previous), Some(next), "warning expired: " + reason);
      return Success((expired, next));
    }

    method SetShadowbannedInState(actor: string, user: string, shadowbanned: bool) returns (r: UserState)
      modifies this
      ensures Snapshot() == DoSetShadowban(old(Snapshot()), actor, user, shadowbanned)
      ensures user in users && r == users[user]
    {
      var previous := UserOf(users, user);
      var next := previous.(shadowbanned := shadowbanned);
      users := users[user := next];
      AppendAudit(actor, UserShadowbanSet, user, Some(previous), Some(next), "shadowban changed");
      return next;
    }

    /** Dispatch on a macro action; the item an action returns is dropped. */
    method PerformInState(actor: string, action: Action) returns (r: Result<(), Error>)
      modifies this
      ensures Reflects(old(Snapshot()), Apply(old(Snapshot()), actor, action), Snapshot(), r)
    {
      match action
      case ResolveReport(id, resolution) =>
        var _ :- ResolveReportInState(actor, id, resolution);
        return Success(());
      case ResolveApproval(id, resolution) =>
        var _ :- ResolveApprovalInState(actor, id, resolution);
        return Success(());
      case IssueWarning(user, target, reason, points) =>
        var _ :- IssueWarningInState(actor, user, target, reason, points);
        return Success(());
      case ExpireWarning(id, reason) =>
        var _ :- ExpireWarningInState(actor, id, reason);
        return Success(());
      case SetShadowban(user, shadowbanned) =>
        var _ := SetShadowbannedInState(actor, user, shadowbanned);
        return Success(());
    }

    /** Clone, apply every action to the clone, commit only at the end. */
    method ExecuteMacroInState(actor: string, actions: seq<Action>) returns (r: Result<MacroExecution, Error>)
      modifies this
      ensures Reflects(old(Snapshot()), DoMacro(old(Snapshot()), actor, actions), Snapshot(), r)
      ensures r.Success? ==> r.value == MacroExecution(|actions|, |actions|)
      ensures r.Success? ==> |auditEvents| == old(|auditEvents|) + |actions|
    {
      if actions == [] {
        return Failure(EmptyMacro);
      }
      ghost var start := Snapshot();
      var candidate := new ModerationState.CloneOf(this);
      var auditStart := |candidate.auditEvents|;
      for i := 0 to |actions|
        invariant fresh(candidate) && unchanged(this)
        invariant ApplyAll(start, actor, actions[..i]) == Success(candidate.Snapshot())
        invariant |candidate.auditEvents| == auditStart + i
      {
        assert actions[..i + 1][..i] == actions[..i];
        ghost var before := candidate.Snapshot();
        var done := candidate.PerformInState(actor, actions[i]);
        if done.Failure? {
          ApplyAllStopsAtFirstError(start, actor, actions, i + 1);
          return Failure(done.error);
        }
        ApplyAddsOneEvent(before, actor, actions[i]);
      }
      assert actions[..|actions|] == actions;
      var auditEventCount := |candidate.auditEvents| - auditStart;
      Assign(candidate);
      return Success(MacroExecution(|actions|, auditEventCount));
    }
  }

  lemma ApplyAddsOneEvent(s: State, actor: string, action: Action)
    requires Apply(s, actor, action).Success?
    ensures |Apply(s, actor, action).value.auditEvents| == |s.auditEvents| + 1
  {
  }

  /** Once a prefix of the list has failed, the whole list fails with the same error. */
  lemma {:induction false} ApplyAllStopsAtFirstError(s: State, actor: string, actions: seq<Action>, k: nat)
    requires k <= |actions|
    requires ApplyAll(s, actor, actions[..k]).Failure?
    ensures ApplyAll(s, actor, actions) == ApplyAll(s, actor, actions[..k])
    decreases |actions| - k
  {
    if k == |actions| {
      assert actions[..k] == actions;
    } else {
      assert actions[..k + 1][..k] == actions[..k];
      ApplyAllStopsAtFirstError(s, actor, actions, k + 1);
    }
  }

  class ModerationService {
    const inner: ModerationState

    constructor ()
      ensures fresh(inner) && inner.Snapshot() == INITIAL
    {
      inner := new ModerationState();
    }

    method Report(reporter: string, target: string, rawReason: string) returns (r: Result<Report, Error>)
      modifies inner
      ensures Reflects(old(inner.Snapshot()), DoFileReport(old(inner.Snapshot()), reporter, target, rawReason),
                       inner.Snapshot(), r)
      ensures r.Success? ==> r.value.id in inner.reports && r.value == inner.reports[r.value.id]
    {
      hide CleanText;
      var reason :- CleanReason(rawReason);
      var report := Moderation.Report.Report(Id("report", inner.nextReportId), reporter, target, reason, Open);
      inner.nextReportId := inner.nextReportId + 1;
      inner.reports := inner.reports[report.id := report];
      inner.AppendAudit(reporter, ReportCreated, target, None, None, "report created");
      return Success(report);
    }

    method EnqueueApproval(actor: string, author: string, target: string, rawReason: string)
      returns (r: Result<ApprovalItem, Error>)
      modifies inner
      ensures Reflects(old(inner.Snapshot()),
                       DoQueueApproval(old(inner.Snapshot()), actor, author, target, rawReason),
                       inner.Snapshot(), r)
      ensures r.Success? ==> r.value.id in inner.approvals && r.value == inner.approvals[r.value.id]
    {
      hide CleanText;
      var reason :- CleanReason(rawReason);
      var item := ApprovalItem(Id("approval", inner.nextApprovalId), author, target, reason, Open);
      inner.nextApprovalId := inner.nextApprovalId + 1;
      inner.approvals := inner.approvals[item.id := item];
      inner.AppendAudit(actor, ApprovalQueued, target, None, None, "approval queued");
      return Success(item);
    }

    method ResolveReport(actor: string, id: string, rawResolution: string) returns (r: Result<Report, Error>)
      modifies inner
      ensures Reflects(old(inner.Snapshot()),
                       Apply(old(inner.Snapshot()), actor, Action.ResolveReport(id, rawResolution)),
                       inner.Snapshot(), r)
      ensures r.Success? ==> id in inner.reports && r.value == inner.reports[id]
    {
      var resolution :- CleanReason(rawResolution);
      if id !in inner.reports {
        return Failure(ReportNotFound);
      }
      if inner.reports[id].status == Resolved {
        return Failure(AlreadyResolved);
      }
      inner.reports := inner.reports[id := inner.reports[id].(status := Resolved)];
      var resolved := inner.reports[id];
      inner.AppendAudit(actor, ReportResolved, resolved.targetId, None, None, "report resolved: " + resolution);
      return Success(resolved);
    }

    method ResolveApproval(actor: string, id: string, rawResolution: string) returns (r: Result<ApprovalItem, Error>)
      modifies inner
      ensures Reflects(old(inner.Snapshot()),
                       Apply(old(inner.Snapshot()), actor, Action.ResolveApproval(id, rawResolution)),
                       inner.Snapshot(), r)
      ensures r.Success? ==> id in inner.approvals && r.value == inner.approvals[id]
    {
      var resolution :- CleanReason(rawResolution);
      if id !in inner.approvals {
        return Failure(ApprovalNotFound);
      }
      if inner.approvals[id].status == Resolved {
        return Failure(AlreadyResolved);
      }
      inner.approvals := inner.approvals[id := inner.approvals[id].(status := Resolved)];
      var resolved := inner.approvals[id];
      inner.AppendAudit(actor, ApprovalResolved, resolved.targetId, None, None, "approval resolved: " + resolution);
      return Success(resolved);
    }

    method IssueWarning(actor: string, user: string, target: Option<string>, rawReason: string, points: u32)
      returns (r: Result<Warning, Error>)
      modifies inner
      ensures Reflects(old(inner.Snapshot()),
                       Apply(old(inner.Snapshot()), actor, Action.IssueWarning(user, target, rawReason, points)),
                       inner.Snapshot(), r)
      ensures r.Success? ==> r.value.id in inner.warnings && r.value == inner.warnings[r.value.id]
    {
      hide CleanText, PointsIn;
      if points == 0 {
        return Failure(InvalidPoints);
      }
      var reason :- CleanReason(rawReason);
      ghost var start := inner.Snapshot();
      var previous := UserOf(inner.users, user);
      var warning := Warning(Id("warning", inner.nextWarningId), actor, user, target, reason, points, true);
      inner.nextWarningId := inner.nextWarningId + 1;
      inner.warningIdsByUser := inner.warningIdsByUser[user := ListOf(inner.warningIdsByUser, user) + [warning.id]];
      inner.warnings := inner.warnings[warning.id := warning];
      assert inner.Snapshot() == AddWarning(start, warning);
      inner.RecomputeUserState(user);
      var next := UserOf(inner.users, user);
      inner.AppendAudit(actor, WarningIssued, user, Some(previous), Some(next), "warning issued");
      return Success(warning);
    }

    method ExpireWarning(actor: string, id: string, rawReason: string) returns (r: Result<(Warning, UserState), Error>)
      modifies inner
      ensures Reflects(old(inner.Snapshot()),
                       Apply(old(inner.Snapshot()), actor, Action.ExpireWarning(id, rawReason)), inner.Snapshot(), r)
      ensures r.Success? ==>
        id in inner.warnings && r.value == (inner.warnings[id], UserOf(inner.users, inner.warnings[id].targetUserId))
    {
      var reason :- CleanReason(rawReason);
      if id !in inner.warnings {
        return Failure(WarningNotFound);
      }
      if !inner.warnings[id].active {
        return Failure(WarningInactive);
      }
      var user := inner.warnings[id].targetUserId;
      var previous := UserOf(inner.users, user);
      inner.warnings := inner.warnings[id := inner.warnings[id].(active := false)];
      var expired := inner.warnings[id];
      inner.RecomputeUserState(user);
      var next := UserOf(inner.users, user);
      inner.AppendAudit(actor, WarningExpired, user, Some(previous), Some(next), "warning expired: " + reason);
      return Success((expired, next));
    }

    method SetShadowbanned(actor: string, user: string, shadowbanned: bool) returns (r: UserState)
      modifies inner
      ensures Apply(old(inner.Snapshot()), actor, SetShadowban(user, shadowbanned)) == Success(inner.Snapshot())
      ensures user in inner.users && r == inner.users[user]
    {
      var previous := UserOf(inner.users, user);
      var next := previous.(shadowbanned := shadowbanned);
      inner.users := inner.users[user := next];
      inner.AppendAudit(actor, UserShadowbanSet, user, Some(previous), Some(next), "shadowban changed");
      return next;
    }

    method RunMacro(actor: string, actions: seq<Action>) returns (r: Result<MacroExecution, Error>)
      modifies inner
      ensures Reflects(old(inner.Snapshot()), DoMacro(old(inner.Snapshot()), actor, actions),
                       inner.Snapshot(), r)
      ensures r.Success? ==> r.value == MacroExecution(|actions|, |actions|)
    {
      r := inner.ExecuteMacroInState(actor, actions);
    }

    method StoreMacro(actor: string, rawName: string, rawDescription: Option<string>, actions: seq<Action>)
      returns (r: Result<StoredMacro, Error>)
      modifies inner
      ensures Reflects(old(inner.Snapshot()),
                       DoCreateMacro(old(inner.Snapshot()), actor, rawName, rawDescription, actions),
                       inner.Snapshot(), r)
      ensures r.Success? ==> r.value.id in inner.macros && r.value == inner.macros[r.value.id]
    {
      hide CleanText, MacroNameKey;
      var name :- CleanMacroName(rawName);
      var nameKey := MacroNameKey(name);
      var description :- CleanOptionalReason(rawDescription);
      if actions == [] {
        return Failure(EmptyMacro);
      }
      if nameKey in inner.macroIdsByName {
        return Failure(DuplicateMacroName);
      }
      var stored := StoredMacro(Id("macro", inner.nextMacroId), name, description, actor, actions);
      inner.nextMacroId := inner.nextMacroId + 1;
      inner.macroIdsByName := inner.macroIdsByName[nameKey := stored.id];
      inner.macros := inner.macros[stored.id := stored];
      return Success(stored);
    }

    method RunStoredMacro(actor: string, id: string) returns (r: Result<MacroExecution, Error>)
      modifies inner
      ensures Reflects(old(inner.Snapshot()), DoStoredMacro(old(inner.Snapshot()), actor, id),
                       inner.Snapshot(), r)
      ensures r.Success? ==>
        && id in old(inner.macros)
        && var n := |old(inner.macros)[id].actions|; r.value == MacroExecution(n, n)
    {
      if id !in inner.macros {
        return Failure(MacroNotFound);
      }
      r := inner.ExecuteMacroInState(actor, inner.macros[id].actions);
    }

    method Schedule(actor: string, tick: nat, actions: seq<Action>) returns (r: Result<Job, Error>)
      modifies inner
      ensures Reflects(old(inner.Snapshot()), DoScheduleJob(old(inner.Snapshot()), actor, tick, actions),
                       inner.Snapshot(), r)
      ensures r.Success? ==> r.value.id in inner.jobs && r.value == inner.jobs[r.value.id]
    {
      if actions == [] {
        return Failure(EmptyMacro);
      }
      var job := Job(Id("job", inner.nextJobId), actor, tick, Pending, actions, None);
      inner.nextJobId := inner.nextJobId + 1;
      inner.jobs := inner.jobs[job.id := job];
      return Success(job);
    }

    /** The loop body of `run_due_jobs`: the job's actions on a clone, committed or thrown away. */
    method RunOne(id: string) returns (committed: bool)
      requires id in inner.jobs
      modifies inner
      ensures inner.Snapshot() == RunJob(old(inner.Snapshot()), id)
      ensures committed <==> Commits(old(inner.Snapshot()), id)
    {
      var job := inner.jobs[id];
      var candidate := new ModerationState.CloneOf(inner);
      var outcome := candidate.ExecuteMacroInState(job.actorId, job.actions);
      match outcome
      case Success(_) =>
        if id in candidate.jobs {
          candidate.jobs := candidate.jobs[id := candidate.jobs[id].(status := Completed, lastError := None)];
        }
        inner.Assign(candidate);
        return true;
      case Failure(e) =>
        inner.jobs := inner.jobs[id := inner.jobs[id].(status := Failed, lastError := Some(ErrorText(e)))];
        return false;
    }

    method CollectDue(now: nat) returns (due: seq<string>)
      ensures due == DueIds(inner.Snapshot(), now)
    {
      due := CollectSorted(set id | id in inner.jobs && Due(inner.jobs[id], now));
    }

    /** The loop of `run_due_jobs` over the ids collected up front. */
    method RunEach(due: seq<string>) returns (completed: nat, failed: nat)
      requires forall id | id in due :: id in inner.jobs
      modifies inner
      ensures inner.Snapshot() == RunJobs(old(inner.Snapshot()), due)
      ensures completed == CommittedIn(old(inner.Snapshot()), due)
      ensures completed + failed == |due|
    {
      ghost var start := inner.Snapshot();
      completed, failed := 0, 0;
      for i := 0 to |due|
        invariant inner.Snapshot() == RunJobs(start, due[..i])
        invariant completed == CommittedIn(start, due[..i])
        invariant completed + failed == i
      {
        assert due[..i + 1][..i] == due[..i];
        DueIdsStayKnown(start, due[..i], due[i]);
        if due[i] in inner.jobs {
          var committed := RunOne(due[i]);
          if committed {
            completed := completed + 1;
          } else {
            failed := failed + 1;
          }
        }
      }
      assert due[..|due|] == due;
    }

    /** One pass over the due jobs, each in its own transaction on a clone. */
    method RunDue(now: nat) returns (summary: JobRunSummary)
      modifies inner
      ensures inner.Snapshot() == DoRunDueJobs(old(inner.Snapshot()), now)
      ensures summary.checked == |DueIds(old(inner.Snapshot()), now)|
      ensures summary.completed == CommittedIn(old(inner.Snapshot()), DueIds(old(inner.Snapshot()), now))
      ensures summary.checked == summary.completed + summary.failed
    {
      var due := CollectDue(now);
      var completed, failed := RunEach(due);
      return JobRunSummary(|due|, completed, failed);
    }
  }

  lemma ApplyKeepsJobs(s: State, actor: string, action: Action)
    ensures Apply(s, actor, action).Success? ==> Apply(s, actor, action).value.jobs == s.jobs
  {
    hide CleanReason, PointsIn;
  }

  /** Actions never touch the job table. */
  lemma {:induction false} ApplyAllKeepsJobs(s: State, actor: string, actions: seq<Action>)
    ensures ApplyAll(s, actor, actions).Success? ==> ApplyAll(s, actor, actions).value.jobs == s.jobs
  {
    if actions == [] {
    } else {
      hide Apply;
      var init := ApplyAll(s, actor, actions[..|actions| - 1]);
      ApplyAllKeepsJobs(s, actor, actions[..|actions| - 1]);
      if init.Success? {
        ApplyKeepsJobs(init.value, actor, actions[|actions| - 1]);
      }
    }
  }

  /** Running jobs removes no job, so the ids collected up front stay valid through the loop. */
  lemma {:induction false} DueIdsStayKnown(s: State, ids: seq<string>, id: string)
    requires id in s.jobs
    ensures id in RunJobs(s, ids).jobs
  {
    if ids == [] {
    } else {
      var before := RunJobs(s, ids[..|ids| - 1]);
      DueIdsStayKnown(s, ids[..|ids| - 1], id);
      var last := ids[|ids| - 1];
      if last in before.jobs {
        ApplyAllKeepsJobs(before, before.jobs[last].actorId, before.jobs[last].actions);
      }
    }
  }
}
