/** The tables of the moderation service say what its ledger says, after every run. */
module ModerationHistory {
  import opened Wrappers
  import opened Text
  import opened Order
  import opened Indexes
  import opened Moderation
  import opened ModerationPoints
  import opened ModerationRuns
  import opened ModerationTheorems
  import opened ModerationLedger

  // ----- how the tables follow from the ledger -----

  function ReportOf(deeds: seq<Deed>, n: nat): Report
    requires 1 <= n <= |Filed(deeds)|
  {
    var f := Filed(deeds)[n - 1];
    Report(Id("report", n), f.reporterId, f.targetId, Trim(f.reason),
           if Closed(deeds, ReportResolved, Id("report", n)) then Resolved else Open)
  }

  ghost predicate ReportsTold(reports: map<string, Report>, next: nat, deeds: seq<Deed>) {
    && next == |Filed(deeds)| + 1 && Numbered(reports, "report", next)
    && (forall n | 1 <= n <= |Filed(deeds)| :: reports[Id("report", n)] == ReportOf(deeds, n))
    && (forall id | Closed(deeds, ReportResolved, id) :: id in reports)
  }

  function ApprovalOf(deeds: seq<Deed>, n: nat): ApprovalItem
    requires 1 <= n <= |Queued(deeds)|
  {
    var q := Queued(deeds)[n - 1];
    ApprovalItem(Id("approval", n), q.authorId, q.targetId, Trim(q.reason),
                 if Closed(deeds, ApprovalResolved, Id("approval", n)) then Resolved else Open)
  }

  ghost predicate ApprovalsTold(approvals: map<string, ApprovalItem>, next: nat, deeds: seq<Deed>) {
    && next == |Queued(deeds)| + 1 && Numbered(approvals, "approval", next)
    && (forall n | 1 <= n <= |Queued(deeds)| :: approvals[Id("approval", n)] == ApprovalOf(deeds, n))
    && (forall id | Closed(deeds, ApprovalResolved, id) :: id in approvals)
  }

  function WarningOf(deeds: seq<Deed>, n: nat): Warning
    requires 1 <= n <= |Issued(deeds)|
  {
    var c := Issued(deeds)[n - 1];
    Warning(Id("warning", n), c.actorId, c.action.targetUserId, c.action.targetId, Trim(c.action.reason),
            c.action.points, !Closed(deeds, WarningExpired, Id("warning", n)))
  }

  ghost predicate WarningsTold(warnings: map<string, Warning>, next: nat, deeds: seq<Deed>) {
    && next == |Issued(deeds)| + 1 && Numbered(warnings, "warning", next)
    && (forall n | 1 <= n <= |Issued(deeds)| :: warnings[Id("warning", n)] == WarningOf(deeds, n))
    && (forall id | Closed(deeds, WarningExpired, id) :: id in warnings)
  }

  ghost predicate FlagsTold(users: map<string, UserState>, deeds: seq<Deed>) {
    forall u :: UserOf(users, u).shadowbanned == Flag(deeds, u)
  }

  function KindOf(d: Deed): AuditAction {
    match d
    case FileReport(_, _, _) => ReportCreated
    case QueueApproval(_, _, _, _) => ApprovalQueued
    case Act(_, ResolveReport(_, _)) => ReportResolved
    case Act(_, ResolveApproval(_, _)) => ApprovalResolved
    case Act(_, IssueWarning(_, _, _, _)) => WarningIssued
    case Act(_, ExpireWarning(_, _)) => WarningExpired
    case Act(_, SetShadowban(_, _)) => UserShadowbanSet
  }

  function ActorOf(d: Deed): string {
    if d.FileReport? then d.reporterId else d.actorId
  }

  /** What the event of a deed is about: closing an item is about what the item was about. */
  function TargetOf(before: seq<Deed>, d: Deed): string {
    match d
    case FileReport(_, target, _) => target
    case QueueApproval(_, _, target, _) => target
    case Act(_, ResolveReport(id, _)) =>
      if Known("report", |Filed(before)|, id) then Filed(before)[Number("report", id) - 1].targetId else ""
    case Act(_, ResolveApproval(id, _)) =>
      if Known("approval", |Queued(before)|, id) then Queued(before)[Number("approval", id) - 1].targetId else ""
    case Act(_, IssueWarning(user, _, _, _)) => user
    case Act(_, ExpireWarning(id, _)) =>
      if Known("warning", |Issued(before)|, id) then Issued(before)[Number("warning", id) - 1].action.targetUserId
      else ""
    case Act(_, SetShadowban(user, _)) => user
  }

  function DetailOf(d: Deed): string {
    match d
    case FileReport(_, _, _) => "report created"
    case QueueApproval(_, _, _, _) => "approval queued"
    case Act(_, ResolveReport(_, resolution)) => "report resolved: " + Trim(resolution)
    case Act(_, ResolveApproval(_, resolution)) => "approval resolved: " + Trim(resolution)
    case Act(_, IssueWarning(_, _, _, _)) => "warning issued"
    case Act(_, ExpireWarning(_, reason)) => "warning expired: " + Trim(reason)
    case Act(_, SetShadowban(_, _)) => "shadowban changed"
  }

  predicate EventTold(e: AuditEvent, before: seq<Deed>, d: Deed) {
    e.actorId == ActorOf(d) && e.action == KindOf(d) && e.targetId == TargetOf(before, d) && e.detail == DetailOf(d)
  }

  /** The log has one event for each deed, in order, saying who did what to whom and why. */
  ghost predicate LogTold(log: seq<AuditEvent>, deeds: seq<Deed>) {
    |log| == |deeds| && forall i | 0 <= i < |log| :: EventTold(log[i], deeds[..i], deeds[i])
  }

  /** Everything but the jobs and macros. */
  ghost predicate CoreTold(s: State, deeds: seq<Deed>) {
    && ReportsTold(s.reports, s.nextReportId, deeds)
    && ApprovalsTold(s.approvals, s.nextApprovalId, deeds)
    && WarningsTold(s.warnings, s.nextWarningId, deeds)
    && FlagsTold(s.users, deeds)
    && LogTold(s.auditEvents, deeds)
  }

  function JobOf(l: Ledger, n: nat): Job
    requires 1 <= n <= |l.orders|
  {
    var o, id := l.orders[n - 1], Id("job", n);
    if id !in l.outcomes then Job(id, o.actorId, o.runAtTick, Pending, o.actions, None)
    else match l.outcomes[id]
      case None => Job(id, o.actorId, o.runAtTick, Completed, o.actions, None)
      case Some(e) => Job(id, o.actorId, o.runAtTick, Failed, o.actions, Some(ErrorText(e)))
  }

  ghost predicate JobsTold(jobs: map<string, Job>, next: nat, l: Ledger) {
    && next == |l.orders| + 1 && Numbered(jobs, "job", next)
    && (forall n | 1 <= n <= |l.orders| :: jobs[Id("job", n)] == JobOf(l, n))
    && (forall id | id in l.outcomes :: id in jobs)
  }

  function MacroOf(recipes: seq<Recipe>, n: nat): StoredMacro
    requires 1 <= n <= |recipes|
  {
    var r := recipes[n - 1];
    StoredMacro(Id("macro", n), Trim(r.name), if r.description.Some? then Some(Trim(r.description.value)) else None,
                r.actorId, r.actions)
  }

  ghost predicate MacrosTold(macros: map<string, StoredMacro>, next: nat, recipes: seq<Recipe>) {
    && next == |recipes| + 1 && Numbered(macros, "macro", next)
    && (forall n | 1 <= n <= |recipes| :: macros[Id("macro", n)] == MacroOf(recipes, n))
  }

  ghost predicate Told(s: State, l: Ledger) {
    CoreTold(s, l.deeds) && JobsTold(s.jobs, s.nextJobId, l) && MacrosTold(s.macros, s.nextMacroId, l.recipes)
  }

  // ----- one deed -----

  lemma OneMore(deeds: seq<Deed>, d: Deed)
    ensures Filed(deeds + [d]) == Filed(deeds) + if d.FileReport? then [d] else []
    ensures Queued(deeds + [d]) == Queued(deeds) + if d.QueueApproval? then [d] else []
    ensures Issued(deeds + [d]) == Issued(deeds) + if d.Act? && d.action.IssueWarning? then [d] else []
    ensures forall kind, id :: Closed(deeds + [d], kind, id) <==> Closes(d, kind, id) || Closed(deeds, kind, id)
    ensures forall u ::
      Flag(deeds + [d], u)
      == if d.Act? && d.action.SetShadowban? && d.action.targetUserId == u then d.action.shadowbanned
         else Flag(deeds, u)
  {
    assert (deeds + [d])[..|deeds|] == deeds;
    hide Closes;
  }

  lemma LogGrowsTold(log: seq<AuditEvent>, deeds: seq<Deed>, e: AuditEvent, d: Deed)
    requires LogTold(log, deeds) && EventTold(e, deeds, d)
    ensures LogTold(log + [e], deeds + [d])
  {
    hide EventTold;
    forall i | 0 <= i < |log + [e]| ensures EventTold((log + [e])[i], (deeds + [d])[..i], (deeds + [d])[i]) {
      assert (deeds + [d])[..i] == deeds[..i];
      if i == |log| {
        assert deeds[..i] == deeds;
      }
    }
  }

  /** A deed that leaves the reports alone. */
  lemma SameReports(reports: map<string, Report>, next: nat, deeds: seq<Deed>, d: Deed)
    requires ReportsTold(reports, next, deeds) && !d.FileReport? && !(d.Act? && d.action.ResolveReport?)
    ensures ReportsTold(reports, next, deeds + [d])
  {
    hide Numbered, Id, Trim;
    OneMore(deeds, d);
    assert forall id :: !Closes(d, ReportResolved, id);
  }

  lemma SameApprovals(approvals: map<string, ApprovalItem>, next: nat, deeds: seq<Deed>, d: Deed)
    requires ApprovalsTold(approvals, next, deeds) && !d.QueueApproval? && !(d.Act? && d.action.ResolveApproval?)
    ensures ApprovalsTold(approvals, next, deeds + [d])
  {
    hide Numbered, Id, Trim;
    OneMore(deeds, d);
    assert forall id :: !Closes(d, ApprovalResolved, id);
  }

  lemma SameWarnings(warnings: map<string, Warning>, next: nat, deeds: seq<Deed>, d: Deed)
    requires WarningsTold(warnings, next, deeds)
    requires !(d.Act? && (d.action.IssueWarning? || d.action.ExpireWarning?))
    ensures WarningsTold(warnings, next, deeds + [d])
  {
    hide Numbered, Id, Trim;
    OneMore(deeds, d);
    assert forall id :: !Closes(d, WarningExpired, id);
  }

  lemma SameFlags(users: map<string, UserState>, users1: map<string, UserState>, deeds: seq<Deed>, d: Deed)
    requires FlagsTold(users, deeds) && !(d.Act? && d.action.SetShadowban?)
    requires forall u :: UserOf(users1, u).shadowbanned == UserOf(users, u).shadowbanned
    ensures FlagsTold(users1, deeds + [d])
  {
    OneMore(deeds, d);
  }

  lemma FiledTold(reports: map<string, Report>, next: nat, deeds: seq<Deed>, d: Filing)
    requires ReportsTold(reports, next, deeds)
    ensures var r := Report(Id("report", next), d.reporterId, d.targetId, Trim(d.reason), Open);
            ReportsTold(reports[r.id := r], next + 1, deeds + [d])
  {
    hide Numbered, Id, Trim;
    var r := Report(Id("report", next), d.reporterId, d.targetId, Trim(d.reason), Open);
    OneMore(deeds, d);
    NumberedHas(reports, "report", next);
    NumberedInsert(reports, "report", next, r);
    forall n | 1 <= n <= next
      ensures Id("report", n) in reports[r.id := r] && reports[r.id := r][Id("report", n)] == ReportOf(deeds + [d], n)
    {
      if n < next && Id("report", n) == Id("report", next) {
        IdInjective("report", n, next);
      }
    }
  }

  lemma ReportClosedTold(reports: map<string, Report>, next: nat, deeds: seq<Deed>, d: Deed, id: string)
    requires ReportsTold(reports, next, deeds) && id in reports
    requires d.Act? && d.action.ResolveReport? && d.action.reportId == id
    ensures ReportsTold(reports[id := reports[id].(status := Resolved)], next, deeds + [d])
  {
    hide Numbered, Id, Trim;
    OneMore(deeds, d);
    NumberedUpdate(reports, "report", next, id, reports[id].(status := Resolved));
  }

  lemma QueuedTold(approvals: map<string, ApprovalItem>, next: nat, deeds: seq<Deed>, d: Queueing)
    requires ApprovalsTold(approvals, next, deeds)
    ensures var a := ApprovalItem(Id("approval", next), d.authorId, d.targetId, Trim(d.reason), Open);
            ApprovalsTold(approvals[a.id := a], next + 1, deeds + [d])
  {
    hide Numbered, Id, Trim;
    var a := ApprovalItem(Id("approval", next), d.authorId, d.targetId, Trim(d.reason), Open);
    OneMore(deeds, d);
    NumberedHas(approvals, "approval", next);
    NumberedInsert(approvals, "approval", next, a);
    forall n | 1 <= n <= next
      ensures Id("approval", n) in approvals[a.id := a]
              && approvals[a.id := a][Id("approval", n)] == ApprovalOf(deeds + [d], n)
    {
      if n < next && Id("approval", n) == Id("approval", next) {
        IdInjective("approval", n, next);
      }
    }
  }

  lemma ApprovalClosedTold(approvals: map<string, ApprovalItem>, next: nat, deeds: seq<Deed>, d: Deed, id: string)
    requires ApprovalsTold(approvals, next, deeds) && id in approvals
    requires d.Act? && d.action.ResolveApproval? && d.action.approvalId == id
    ensures ApprovalsTold(approvals[id := approvals[id].(status := Resolved)], next, deeds + [d])
  {
    hide Numbered, Id, Trim;
    OneMore(deeds, d);
    NumberedUpdate(approvals, "approval", next, id, approvals[id].(status := Resolved));
  }

  lemma IssuedTold(warnings: map<string, Warning>, next: nat, deeds: seq<Deed>, d: Issue)
    requires WarningsTold(warnings, next, deeds)
    ensures var w := Warning(Id("warning", next), d.actorId, d.action.targetUserId, d.action.targetId,
                             Trim(d.action.reason), d.action.points, true);
            WarningsTold(warnings[w.id := w], next + 1, deeds + [d])
  {
    hide Numbered, Id, Trim;
    var w := Warning(Id("warning", next), d.actorId, d.action.targetUserId, d.action.targetId,
                     Trim(d.action.reason), d.action.points, true);
    OneMore(deeds, d);
    NumberedHas(warnings, "warning", next);
    NumberedInsert(warnings, "warning", next, w);
    forall n | 1 <= n <= next
      ensures Id("warning", n) in warnings[w.id := w]
              && warnings[w.id := w][Id("warning", n)] == WarningOf(deeds + [d], n)
    {
      if n < next && Id("warning", n) == Id("warning", next) {
        IdInjective("warning", n, next);
      }
    }
  }

  lemma ExpiredTold(warnings: map<string, Warning>, next: nat, deeds: seq<Deed>, d: Deed, id: string)
    requires WarningsTold(warnings, next, deeds) && id in warnings
    requires d.Act? && d.action.ExpireWarning? && d.action.warningId == id
    ensures WarningsTold(warnings[id := warnings[id].(active := false)], next, deeds + [d])
  {
    hide Numbered, Id, Trim;
    OneMore(deeds, d);
    NumberedUpdate(warnings, "warning", next, id, warnings[id].(active := false));
  }

  lemma FilingTold(s: State, deeds: seq<Deed>, c: Filing)
    requires CoreTold(s, deeds)
    ensures var r := DoFileReport(s, c.reporterId, c.targetId, c.reason);
            if Acceptable(c.reason, 1_000) then r.Success? && CoreTold(r.value, deeds + [c])
            else r == Failure(InvalidReason)
  {
    hide ReportsTold, ApprovalsTold, WarningsTold, FlagsTold, LogTold, CleanText, Acceptable, Id, Trim;
    CleanIffAcceptable(c.reason, 1_000);
    var r := DoFileReport(s, c.reporterId, c.targetId, c.reason);
    if r.Success? {
      FiledTold(s.reports, s.nextReportId, deeds, c);
      SameApprovals(s.approvals, s.nextApprovalId, deeds, c);
      SameWarnings(s.warnings, s.nextWarningId, deeds, c);
      SameFlags(s.users, s.users, deeds, c);
      LogGrowsTold(s.auditEvents, deeds, r.value.auditEvents[|s.auditEvents|], c);
    }
  }

  lemma QueueingTold(s: State, deeds: seq<Deed>, c: Queueing)
    requires CoreTold(s, deeds)
    ensures var r := DoQueueApproval(s, c.actorId, c.authorId, c.targetId, c.reason);
            if Acceptable(c.reason, 1_000) then r.Success? && CoreTold(r.value, deeds + [c])
            else r == Failure(InvalidReason)
  {
    hide ReportsTold, ApprovalsTold, WarningsTold, FlagsTold, LogTold, CleanText, Acceptable, Id, Trim;
    CleanIffAcceptable(c.reason, 1_000);
    var r := DoQueueApproval(s, c.actorId, c.authorId, c.targetId, c.reason);
    if r.Success? {
      SameReports(s.reports, s.nextReportId, deeds, c);
      QueuedTold(s.approvals, s.nextApprovalId, deeds, c);
      SameWarnings(s.warnings, s.nextWarningId, deeds, c);
      SameFlags(s.users, s.users, deeds, c);
      LogGrowsTold(s.auditEvents, deeds, r.value.auditEvents[|s.auditEvents|], c);
    }
  }

  /** What a call does and what the ledger says it must do. */
  ghost predicate Agrees(s: State, r: Result<State, Error>, refusal: Option<Error>, deeds: seq<Deed>) {
    match refusal
    case Some(e) => r == Failure(e)
    case None => r.Success? && CoreTold(r.value, deeds)
  }

  lemma ReportStatusTold(s: State, deeds: seq<Deed>, id: string)
    requires ReportsTold(s.reports, s.nextReportId, deeds)
    ensures id in s.reports <==> Known("report", |Filed(deeds)|, id)
    ensures id in s.reports ==> s.reports[id] == ReportOf(deeds, Number("report", id))
  {
    hide Trim, Closed;
    KnownIffPresent(s.reports, "report", s.nextReportId, id);
  }

  lemma ApprovalStatusTold(s: State, deeds: seq<Deed>, id: string)
    requires ApprovalsTold(s.approvals, s.nextApprovalId, deeds)
    ensures id in s.approvals <==> Known("approval", |Queued(deeds)|, id)
    ensures id in s.approvals ==> s.approvals[id] == ApprovalOf(deeds, Number("approval", id))
  {
    hide Trim, Closed;
    KnownIffPresent(s.approvals, "approval", s.nextApprovalId, id);
  }

  lemma WarningStatusTold(s: State, deeds: seq<Deed>, id: string)
    requires WarningsTold(s.warnings, s.nextWarningId, deeds)
    ensures id in s.warnings <==> Known("warning", |Issued(deeds)|, id)
    ensures id in s.warnings ==> s.warnings[id] == WarningOf(deeds, Number("warning", id))
  {
    hide Trim, Closed;
    KnownIffPresent(s.warnings, "warning", s.nextWarningId, id);
  }

  lemma ResolvingReportTold(s: State, deeds: seq<Deed>, actor: string, id: string, resolution: string)
    requires CoreTold(s, deeds)
    ensures var action := ResolveReport(id, resolution);
            Agrees(s, DoResolveReport(s, actor, id, resolution), Refusal(deeds, action), deeds + [Act(actor, action)])
  {
    hide ReportsTold, ApprovalsTold, WarningsTold, FlagsTold, LogTold, CleanText, Acceptable, Id, Trim, Number, Closed;
    var d: Deed := Act(actor, ResolveReport(id, resolution));
    CleanIffAcceptable(resolution, 1_000);
    ReportStatusTold(s, deeds, id);
    var r := DoResolveReport(s, actor, id, resolution);
    if r.Success? {
      ReportClosedTold(s.reports, s.nextReportId, deeds, d, id);
      SameApprovals(s.approvals, s.nextApprovalId, deeds, d);
      SameWarnings(s.warnings, s.nextWarningId, deeds, d);
      SameFlags(s.users, s.users, deeds, d);
      LogGrowsTold(s.auditEvents, deeds, r.value.auditEvents[|s.auditEvents|], d);
    }
  }

  lemma ResolvingApprovalTold(s: State, deeds: seq<Deed>, actor: string, id: string, resolution: string)
    requires CoreTold(s, deeds)
    ensures var action := ResolveApproval(id, resolution);
            Agrees(s, DoResolveApproval(s, actor, id, resolution), Refusal(deeds, action),
                   deeds + [Act(actor, action)])
  {
    hide ReportsTold, ApprovalsTold, WarningsTold, FlagsTold, LogTold, CleanText, Acceptable, Id, Trim, Number, Closed;
    var d: Deed := Act(actor, ResolveApproval(id, resolution));
    CleanIffAcceptable(resolution, 1_000);
    ApprovalStatusTold(s, deeds, id);
    var r := DoResolveApproval(s, actor, id, resolution);
    if r.Success? {
      SameReports(s.reports, s.nextReportId, deeds, d);
      ApprovalClosedTold(s.approvals, s.nextApprovalId, deeds, d, id);
      SameWarnings(s.warnings, s.nextWarningId, deeds, d);
      SameFlags(s.users, s.users, deeds, d);
      LogGrowsTold(s.auditEvents, deeds, r.value.auditEvents[|s.auditEvents|], d);
    }
  }

  lemma RecomputeKeepsFlags(s: State, user: string)
    ensures forall u :: UserOf(RecomputeUser(s, user).users, u).shadowbanned == UserOf(s.users, u).shadowbanned
  {
    hide PointsIn, ListOf;
  }

  lemma IssuingTold(s: State, deeds: seq<Deed>, actor: string, user: string, target: Option<string>, reason: string,
                    points: u32)
    requires CoreTold(s, deeds)
    ensures var action := IssueWarning(user, target, reason, points);
            Agrees(s, DoIssueWarning(s, actor, user, target, reason, points), Refusal(deeds, action),
                   deeds + [Act(actor, action)])
  {
    hide ReportsTold, ApprovalsTold, WarningsTold, FlagsTold, LogTold, CleanText, Acceptable, Id, Trim, ListOf,
         PointsIn, UserStateFor;
    var d: Deed := Act(actor, IssueWarning(user, target, reason, points));
    CleanIffAcceptable(reason, 1_000);
    var r := DoIssueWarning(s, actor, user, target, reason, points);
    if r.Success? {
      var w := Warning(Id("warning", s.nextWarningId), actor, user, target, Trim(reason), points, true);
      RecomputeKeepsFlags(AddWarning(s, w), user);
      SameReports(s.reports, s.nextReportId, deeds, d);
      SameApprovals(s.approvals, s.nextApprovalId, deeds, d);
      IssuedTold(s.warnings, s.nextWarningId, deeds, d);
      SameFlags(s.users, r.value.users, deeds, d);
      LogGrowsTold(s.auditEvents, deeds, r.value.auditEvents[|s.auditEvents|], d);
    }
  }

  lemma ExpiringTold(s: State, deeds: seq<Deed>, actor: string, id: string, reason: string)
    requires CoreTold(s, deeds)
    ensures var action := ExpireWarning(id, reason);
            Agrees(s, DoExpireWarning(s, actor, id, reason), Refusal(deeds, action), deeds + [Act(actor, action)])
  {
    hide ReportsTold, ApprovalsTold, WarningsTold, FlagsTold, LogTold, CleanText, Acceptable, Id, Trim, Number, Closed,
         ListOf, PointsIn, UserStateFor;
    var d: Deed := Act(actor, ExpireWarning(id, reason));
    CleanIffAcceptable(reason, 1_000);
    WarningStatusTold(s, deeds, id);
    var r := DoExpireWarning(s, actor, id, reason);
    if r.Success? {
      RecomputeKeepsFlags(Deactivate(s, id), s.warnings[id].targetUserId);
      SameReports(s.reports, s.nextReportId, deeds, d);
      SameApprovals(s.approvals, s.nextApprovalId, deeds, d);
      ExpiredTold(s.warnings, s.nextWarningId, deeds, d, id);
      SameFlags(s.users, r.value.users, deeds, d);
      LogGrowsTold(s.auditEvents, deeds, r.value.auditEvents[|s.auditEvents|], d);
    }
  }

  lemma ShadowbanTold(s: State, deeds: seq<Deed>, actor: string, user: string, shadowbanned: bool)
    requires CoreTold(s, deeds)
    ensures CoreTold(DoSetShadowban(s, actor, user, shadowbanned),
                     deeds + [Act(actor, SetShadowban(user, shadowbanned))])
  {
    hide ReportsTold, ApprovalsTold, WarningsTold, LogTold, Id;
    var d: Deed := Act(actor, SetShadowban(user, shadowbanned));
    var s1 := DoSetShadowban(s, actor, user, shadowbanned);
    SameReports(s.reports, s.nextReportId, deeds, d);
    SameApprovals(s.approvals, s.nextApprovalId, deeds, d);
    SameWarnings(s.warnings, s.nextWarningId, deeds, d);
    LogGrowsTold(s.auditEvents, deeds, s1.auditEvents[|s.auditEvents|], d);
    assert FlagsTold(s1.users, deeds + [d]) by {
      hide Flag;
      OneMore(deeds, d);
    }
  }

  /** Every single action is refused when the ledger says so, with its error, and otherwise becomes its next deed. */
  lemma ApplyTold(s: State, deeds: seq<Deed>, actor: string, action: Action)
    requires CoreTold(s, deeds)
    ensures Agrees(s, Apply(s, actor, action), Refusal(deeds, action), deeds + [Act(actor, action)])
  {
    hide CoreTold, Refusal, DoResolveReport, DoResolveApproval, DoIssueWarning, DoExpireWarning, DoSetShadowban;
    match action
    case ResolveReport(id, resolution) => ResolvingReportTold(s, deeds, actor, id, resolution);
    case ResolveApproval(id, resolution) => ResolvingApprovalTold(s, deeds, actor, id, resolution);
    case IssueWarning(user, target, reason, points) => IssuingTold(s, deeds, actor, user, target, reason, points);
    case ExpireWarning(id, reason) => ExpiringTold(s, deeds, actor, id, reason);
    case SetShadowban(user, shadowbanned) =>
      ShadowbanTold(s, deeds, actor, user, shadowbanned);
      assert Refusal(deeds, action) == None by { NeverRefused(deeds, user, shadowbanned); }
  }

  lemma NeverRefused(deeds: seq<Deed>, user: string, shadowbanned: bool)
    ensures Refusal(deeds, SetShadowban(user, shadowbanned)) == None
  {
  }

  // ----- transactions, jobs and macros -----

  lemma {:induction false} ApplyAllTold(s: State, deeds: seq<Deed>, actor: string, actions: seq<Action>)
    requires CoreTold(s, deeds)
    ensures match Carried(deeds, actor, actions)
            case Failure(e) => ApplyAll(s, actor, actions) == Failure(e)
            case Success(deeds1) =>
              ApplyAll(s, actor, actions).Success? && CoreTold(ApplyAll(s, actor, actions).value, deeds1)
  {
    hide CoreTold, Apply, Refusal;
    if actions == [] {
    } else {
      var init, last := actions[..|actions| - 1], actions[|actions| - 1];
      ApplyAllTold(s, deeds, actor, init);
      if Carried(deeds, actor, init).Success? {
        ApplyTold(ApplyAll(s, actor, init).value, Carried(deeds, actor, init).value, actor, last);
      }
    }
  }

  lemma {:induction false} ApplyAllFrame(s: State, actor: string, actions: seq<Action>)
    requires ApplyAll(s, actor, actions).Success?
    ensures var s1 := ApplyAll(s, actor, actions).value;
            && s1.jobs == s.jobs && s1.nextJobId == s.nextJobId && s1.macros == s.macros
            && s1.nextMacroId == s.nextMacroId && s1.macroIdsByName == s.macroIdsByName
  {
    hide Apply;
    if actions == [] {
    } else {
      ApplyAllFrame(s, actor, actions[..|actions| - 1]);
      ApplyFrame(ApplyAll(s, actor, actions[..|actions| - 1]).value, actor, actions[|actions| - 1]);
    }
  }

  /** A macro or job body, with everything it leaves alone. */
  lemma TransactionTold(s: State, l: Ledger, actor: string, actions: seq<Action>)
    requires Told(s, l)
    ensures match Transaction(l.deeds, actor, actions)
            case Failure(e) => DoMacro(s, actor, actions) == Failure(e)
            case Success(deeds) =>
              && DoMacro(s, actor, actions).Success?
              && Told(DoMacro(s, actor, actions).value, l.(deeds := deeds))
  {
    hide CoreTold, ApplyAll, Carried, JobsTold, MacrosTold;
    if actions != [] {
      ApplyAllTold(s, l.deeds, actor, actions);
      if Carried(l.deeds, actor, actions).Success? {
        ApplyAllFrame(s, actor, actions);
        SameJobs(s.jobs, s.nextJobId, l, Carried(l.deeds, actor, actions).value);
      }
    }
  }

  lemma SameJobs(jobs: map<string, Job>, next: nat, l: Ledger, deeds: seq<Deed>)
    requires JobsTold(jobs, next, l)
    ensures JobsTold(jobs, next, l.(deeds := deeds))
  {
    hide Numbered, Id;
  }

  lemma JobTold(s: State, l: Ledger, id: string)
    requires JobsTold(s.jobs, s.nextJobId, l)
    ensures id in s.jobs <==> Known("job", |l.orders|, id)
    ensures id in s.jobs ==> s.jobs[id] == JobOf(l, Number("job", id))
  {
    hide ErrorText;
    KnownIffPresent(s.jobs, "job", s.nextJobId, id);
  }

  function Finished(job: Job, outcome: Option<Error>): Job {
    match outcome
    case None => job.(status := Completed, lastError := None)
    case Some(e) => job.(status := Failed, lastError := Some(ErrorText(e)))
  }

  lemma FinishTold(jobs: map<string, Job>, next: nat, l: Ledger, id: string, outcome: Option<Error>)
    requires JobsTold(jobs, next, l) && id in jobs
    ensures JobsTold(jobs[id := Finished(jobs[id], outcome)], next, l.(outcomes := l.outcomes[id := outcome]))
  {
    hide ErrorText, Id, Numbered;
    NumberedHas(jobs, "job", next);
    NumberedUpdate(jobs, "job", next, id, Finished(jobs[id], outcome));
    var l1 := l.(outcomes := l.outcomes[id := outcome]);
    forall n | 1 <= n <= |l.orders|
      ensures jobs[id := Finished(jobs[id], outcome)][Id("job", n)] == JobOf(l1, n)
    {
      assert jobs[Id("job", n)] == JobOf(l, n);
    }
  }

  lemma RunJobTold(s: State, l: Ledger, id: string)
    requires Told(s, l)
    ensures Told(RunJob(s, id), Worked(l, id))
  {
    hide ReportsTold, ApprovalsTold, WarningsTold, FlagsTold, LogTold, DoMacro, Transaction, JobsTold, MacrosTold,
         ErrorText, Id, Number;
    JobTold(s, l, id);
    if id in s.jobs {
      var job := s.jobs[id];
      TransactionTold(s, l, job.actorId, job.actions);
      match Transaction(l.deeds, job.actorId, job.actions)
      case Success(deeds) =>
        var mid := DoMacro(s, job.actorId, job.actions).value;
        JobTold(mid, l.(deeds := deeds), id);
        FinishTold(mid.jobs, mid.nextJobId, l.(deeds := deeds), id, None);
      case Failure(e) => FinishTold(s.jobs, s.nextJobId, l, id, Some(e));
    }
  }

  lemma {:induction false} RunJobsTold(s: State, l: Ledger, ids: seq<string>)
    requires Told(s, l)
    ensures Told(RunJobs(s, ids), WorkedAll(l, ids))
  {
    hide Told, RunJob, Worked;
    if ids == [] {
    } else {
      RunJobsTold(s, l, ids[..|ids| - 1]);
      RunJobTold(RunJobs(s, ids[..|ids| - 1]), WorkedAll(l, ids[..|ids| - 1]), ids[|ids| - 1]);
    }
  }

  lemma DueTold(s: State, l: Ledger, now: nat)
    requires JobsTold(s.jobs, s.nextJobId, l)
    ensures DueIds(s, now) == DueOrders(l, now)
  {
    hide ErrorText, Id, Number, Numbered, JobsTold;
    forall id ensures (id in s.jobs && Due(s.jobs[id], now)) <==>
      (id in OrderIds(|l.orders|) && id !in l.outcomes && l.orders[NumberOfJob(l, id) - 1].runAtTick <= now)
    {
      JobTold(s, l, id);
    }
    assert (set id | id in s.jobs && Due(s.jobs[id], now))
        == (set id | id in OrderIds(|l.orders|) && id !in l.outcomes
                     && l.orders[NumberOfJob(l, id) - 1].runAtTick <= now);
  }

  lemma RecipeTold(s: State, recipes: seq<Recipe>, id: string)
    requires MacrosTold(s.macros, s.nextMacroId, recipes)
    ensures id in s.macros <==> Known("macro", |recipes|, id)
    ensures id in s.macros ==> s.macros[id] == MacroOf(recipes, Number("macro", id))
  {
    hide Trim;
    KnownIffPresent(s.macros, "macro", s.nextMacroId, id);
  }

  /** A stored macro has a name iff it was accepted under that name. */
  lemma NamesTold(s: State, recipes: seq<Recipe>, name: string)
    requires MacrosTold(s.macros, s.nextMacroId, recipes)
    ensures (exists id :: id in s.macros && SameUpToAsciiCase(Trim(name), Trim(s.macros[id].name)))
      <==> exists r :: r in recipes && SameUpToAsciiCase(Trim(name), Trim(r.name))
  {
    hide Trim, SameUpToAsciiCase, Id, Number;
    NumberedHas(s.macros, "macro", s.nextMacroId);
    forall n | 1 <= n <= |recipes|
      ensures Id("macro", n) in s.macros && Trim(s.macros[Id("macro", n)].name) == Trim(recipes[n - 1].name)
    {
      assert s.macros[Id("macro", n)] == MacroOf(recipes, n);
      TrimIdempotent(recipes[n - 1].name);
    }
    if id :| id in s.macros && SameUpToAsciiCase(Trim(name), Trim(s.macros[id].name)) {
      RecipeTold(s, recipes, id);
      assert recipes[Number("macro", id) - 1] in recipes;
    }
    if r :| r in recipes && SameUpToAsciiCase(Trim(name), Trim(r.name)) {
      var i :| 0 <= i < |recipes| && recipes[i] == r;
      assert Id("macro", i + 1) in s.macros;
    }
  }

  lemma StoredTold(macros: map<string, StoredMacro>, next: nat, recipes: seq<Recipe>, r: Recipe)
    requires MacrosTold(macros, next, recipes)
    ensures next == |recipes| + 1
    ensures var m := MacroOf(recipes + [r], next); MacrosTold(macros[m.id := m], next + 1, recipes + [r])
  {
    hide Numbered, Id, Trim;
    var m := MacroOf(recipes + [r], next);
    NumberedHas(macros, "macro", next);
    NumberedInsert(macros, "macro", next, m);
    forall n | 1 <= n <= next
      ensures Id("macro", n) in macros[m.id := m] && macros[m.id := m][Id("macro", n)] == MacroOf(recipes + [r], n)
    {
      if n < next && Id("macro", n) == Id("macro", next) {
        IdInjective("macro", n, next);
      }
    }
  }

  lemma OrderedTold(jobs: map<string, Job>, next: nat, l: Ledger, c: JobOrder)
    requires JobsTold(jobs, next, l)
    ensures var job := Job(Id("job", next), c.actorId, c.runAtTick, Pending, c.actions, None);
            JobsTold(jobs[job.id := job], next + 1, l.(orders := l.orders + [c]))
  {
    hide Numbered, Id, ErrorText;
    var job := Job(Id("job", next), c.actorId, c.runAtTick, Pending, c.actions, None);
    var l1 := l.(orders := l.orders + [c]);
    NumberedHas(jobs, "job", next);
    NumberedInsert(jobs, "job", next, job);
    forall n | 1 <= n <= next
      ensures Id("job", n) in jobs[job.id := job] && jobs[job.id := job][Id("job", n)] == JobOf(l1, n)
    {
      if n < next {
        assert jobs[Id("job", n)] == JobOf(l, n);
        if Id("job", n) == Id("job", next) {
          IdInjective("job", n, next);
        }
      }
    }
  }

  /** A call does what the ledger says, or is refused with the error the ledger gives. */
  ghost predicate Follows(s: State, c: Command, l: Ledger) {
    match Entered(l, c)
    case Failure(e) => Perform(s, c) == Failure(e)
    case Success(l1) => Perform(s, c).Success? && Told(Perform(s, c).value, l1)
  }

  lemma CreatingMacroTold(s: State, l: Ledger, c: Recipe)
    requires IsReachable(s) && Told(s, l)
    ensures Follows(s, c, l)
  {
    hide IsReachable, Told, CleanText, Acceptable, Trim, Id, SameUpToAsciiCase, MacroNameKey;
    CleanIffAcceptable(c.name, 120);
    if c.description.Some? {
      CleanIffAcceptable(c.description.value, 1_000);
    }
    if CleanMacroName(c.name).Success? && CleanOptionalReason(c.description).Success? && c.actions != [] {
      DuplicateMacroIff(s, c.actorId, c.name, c.description, c.actions);
      NamesTold(s, l.recipes, c.name) by { MacrosOfTold(s, l); }
      if Perform(s, c).Success? {
        CreatedMacroTold(s, l, c);
      }
    }
  }

  lemma MacrosOfTold(s: State, l: Ledger)
    requires Told(s, l)
    ensures MacrosTold(s.macros, s.nextMacroId, l.recipes)
  {
  }

  lemma CreatedMacroTold(s: State, l: Ledger, c: Recipe)
    requires Told(s, l) && Perform(s, c).Success?
    ensures Told(Perform(s, c).value, l.(recipes := l.recipes + [c]))
  {
    hide ReportsTold, ApprovalsTold, WarningsTold, FlagsTold, LogTold, JobsTold, MacrosTold, CleanText, Trim, Id,
         MacroNameKey, Acceptable;
    CleanIffAcceptable(c.name, 120);
    if c.description.Some? {
      CleanIffAcceptable(c.description.value, 1_000);
    }
    StoredTold(s.macros, s.nextMacroId, l.recipes, c);
    SameRecipes(s.jobs, s.nextJobId, l, c);
  }

  lemma SameRecipes(jobs: map<string, Job>, next: nat, l: Ledger, c: Recipe)
    requires JobsTold(jobs, next, l)
    ensures JobsTold(jobs, next, l.(recipes := l.recipes + [c]))
  {
    hide Numbered, Id, ErrorText;
  }

  lemma SchedulingTold(s: State, l: Ledger, c: JobOrder)
    requires Told(s, l)
    ensures Follows(s, c, l)
  {
    hide ReportsTold, ApprovalsTold, WarningsTold, FlagsTold, LogTold, JobsTold, MacrosTold, Id;
    OrderedTold(s.jobs, s.nextJobId, l, c);
  }

  lemma StoredMacroTold(s: State, l: Ledger, actor: string, id: string)
    requires Told(s, l)
    ensures Follows(s, ExecuteStoredMacro(actor, id), l)
  {
    hide CoreTold, JobsTold, MacrosTold, DoMacro, Transaction, Number, Id;
    RecipeTold(s, l.recipes, id);
    if id in s.macros {
      TransactionTold(s, l, actor, s.macros[id].actions);
    }
  }

  lemma DeedTold(s: State, l: Ledger, deeds: seq<Deed>, s1: State)
    requires Told(s, l) && CoreTold(s1, deeds)
    requires s1.jobs == s.jobs && s1.nextJobId == s.nextJobId && s1.macros == s.macros
    requires s1.nextMacroId == s.nextMacroId
    ensures Told(s1, l.(deeds := deeds))
  {
    hide CoreTold, JobsTold;
    SameJobs(s.jobs, s.nextJobId, l, deeds);
  }

  lemma SingleCallTold(s: State, l: Ledger, c: Deed)
    requires Told(s, l)
    ensures Follows(s, c, l)
  {
    hide CoreTold, JobsTold, MacrosTold, Apply, Refusal, Acceptable, CleanText, Id, Trim;
    if c.FileReport? {
      FilingTold(s, l.deeds, c);
    } else if c.QueueApproval? {
      QueueingTold(s, l.deeds, c);
    } else {
      ApplyTold(s, l.deeds, c.actorId, c.action);
    }
    if Perform(s, c).Success? {
      SingleCallFrame(s, c);
      hide Perform;
      DeedTold(s, l, l.deeds + [c], Perform(s, c).value);
    }
  }

  lemma SingleCallFrame(s: State, c: Deed)
    requires Perform(s, c).Success?
    ensures var s1 := Perform(s, c).value;
            && s1.jobs == s.jobs && s1.nextJobId == s.nextJobId && s1.macros == s.macros
            && s1.nextMacroId == s.nextMacroId
  {
    hide Apply, CleanText, Id;
    if c.Act? {
      ApplyFrame(s, c.actorId, c.action);
    }
  }

  lemma StepTold(s: State, l: Ledger, c: Command)
    requires IsReachable(s) && Told(s, l)
    ensures Follows(s, c, l)
  {
    hide IsReachable, Told, DoFileReport, DoQueueApproval, Apply, DoMacro, DoCreateMacro, DoStoredMacro, DoScheduleJob,
         Transaction, DoRunDueJobs;
    match c
    case ExecuteMacro(actor, actions) => TransactionTold(s, l, actor, actions);
    case CreateMacro(_, _, _, _) => CreatingMacroTold(s, l, c);
    case ExecuteStoredMacro(actor, id) => StoredMacroTold(s, l, actor, id);
    case ScheduleJob(_, _, _) => SchedulingTold(s, l, c);
    case RunDueJobs(now) => PassTold(s, l, now);
    case _ => SingleCallTold(s, l, c);
  }

  lemma PassTold(s: State, l: Ledger, now: nat)
    requires Told(s, l)
    ensures Follows(s, RunDueJobs(now), l)
  {
    hide CoreTold, JobsTold, MacrosTold, RunJobs, WorkedAll, DueIds;
    DueTold(s, l, now);
    RunJobsTold(s, l, DueOrders(l, now));
  }

  // ----- every run -----

  /** After every run all tables, flags and the log say exactly what the ledger of the calls says. */
  lemma {:induction false} TablesFollowLedger(commands: seq<Command>)
    ensures Told(Run(INITIAL, commands), Book(commands))
  {
    if commands == [] {
      NothingTold();
    } else {
      hide Told, Entered, Perform, IsReachable;
      var before := commands[..|commands| - 1];
      TablesFollowLedger(before);
      RunReachable(before);
      StepTold(Run(INITIAL, before), Book(before), commands[|commands| - 1]);
    }
  }

  lemma NothingTold()
    ensures Told(INITIAL, BLANK)
  {
  }

  lemma RunReachable(commands: seq<Command>)
    ensures IsReachable(Run(INITIAL, commands))
  {
    hide Run;
  }

  /** Every call, after every run, is answered as the ledger says: done, or refused with that error. */
  lemma AnswersFollowLedger(commands: seq<Command>, c: Command)
    ensures Follows(Run(INITIAL, commands), c, Book(commands))
  {
    hide Told, Follows, IsReachable, Run, Book;
    TablesFollowLedger(commands);
    RunReachable(commands);
    StepTold(Run(INITIAL, commands), Book(commands), c);
  }

  /** A user is shadowbanned iff the last shadowban change on them that took effect asked for it. */
  lemma FlagFollowsCommands(commands: seq<Command>, user: string)
    ensures UserOf(Run(INITIAL, commands).users, user).shadowbanned == Flag(Book(commands).deeds, user)
    ensures LastShadowban(Run(INITIAL, commands).auditEvents, user) == Flag(Book(commands).deeds, user)
  {
    hide Run, Book, IsReachable, ReportsTold, ApprovalsTold, WarningsTold, LogTold, JobsTold, MacrosTold;
    TablesFollowLedger(commands);
    RunReachable(commands);
    ShadowbanUntouchedByWarnings(Run(INITIAL, commands), user);
  }

  /** A shadowban change sets that user's flag as asked and changes nothing else about anybody. */
  lemma ShadowbanSetsOneFlag(s: State, actor: string, user: string, shadowbanned: bool, other: string)
    ensures var s1 := Step(s, Act(actor, SetShadowban(user, shadowbanned)));
            UserOf(s1.users, other)
            == if other == user then UserOf(s.users, user).(shadowbanned := shadowbanned) else UserOf(s.users, other)
  {
    hide Id;
  }

  // ----- jobs from the commands -----

  /** The job orders that were accepted, in order: those with something to do. */
  function Orders(commands: seq<Command>): seq<JobOrder> {
    if commands == [] then []
    else
      var c := commands[|commands| - 1];
      Orders(commands[..|commands| - 1]) + if c.ScheduleJob? && c.actions != [] then [c] else []
  }

  lemma {:induction false} WorkedKeepsOrders(l: Ledger, ids: seq<string>)
    ensures WorkedAll(l, ids).orders == l.orders
  {
    hide Transaction, Known;
    if ids == [] {
    } else {
      WorkedKeepsOrders(l, ids[..|ids| - 1]);
    }
  }

  lemma {:induction false} BookedOrders(commands: seq<Command>)
    ensures Book(commands).orders == Orders(commands)
  {
    hide Transaction, Refusal, Acceptable, Known, DueOrders;
    if commands == [] {
    } else {
      var before, c := commands[..|commands| - 1], commands[|commands| - 1];
      BookedOrders(before);
      if c.RunDueJobs? {
        WorkedKeepsOrders(Book(before), DueOrders(Book(before), c.now));
      }
    }
  }

  /** Job n is the one the n-th accepted order asked for, and every execution of it comes at or after the tick asked. */
  lemma JobsAsOrdered(commands: seq<Command>, n: nat)
    requires 1 <= n <= |Orders(commands)|
    ensures var s, o := Run(INITIAL, commands), Orders(commands)[n - 1];
            && Id("job", n) in s.jobs
            && s.jobs[Id("job", n)].actorId == o.actorId && s.jobs[Id("job", n)].runAtTick == o.runAtTick
            && s.jobs[Id("job", n)].actions == o.actions
            && (forall x | x in Executions(INITIAL, commands) && x.jobId == Id("job", n) :: o.runAtTick <= x.tick)
    ensures Run(INITIAL, commands).nextJobId == |Orders(commands)| + 1
  {
    hide Run, Book, CoreTold, MacrosTold, ErrorText, Id, Executions;
    TablesFollowLedger(commands);
    BookedOrders(commands);
    JobsRunAtMostOnce(commands);
    var s := Run(INITIAL, commands);
    NumberedHas(s.jobs, "job", s.nextJobId);
    assert s.jobs[Id("job", n)] == JobOf(Book(commands), n);
  }

  lemma {:induction false} CarriedAppends(deeds: seq<Deed>, actor: string, actions: seq<Action>)
    requires Carried(deeds, actor, actions).Success?
    ensures Carried(deeds, actor, actions).value == deeds + Acts(actor, actions)
  {
    hide Refusal;
    if actions == [] {
    } else {
      CarriedAppends(deeds, actor, actions[..|actions| - 1]);
    }
  }

  /** The whole action lists of those of the jobs that completed, one job after the other. */
  function Performed(l: Ledger, ids: seq<string>): seq<Command> {
    if ids == [] then []
    else
      var id := ids[|ids| - 1];
      Performed(l, ids[..|ids| - 1])
      + if Known("job", |l.orders|, id) && id in l.outcomes && l.outcomes[id].None? then
          Acts(l.orders[NumberOfJob(l, id) - 1].actorId, l.orders[NumberOfJob(l, id) - 1].actions)
        else []
  }

  lemma {:induction false} PerformedFrame(l: Ledger, l1: Ledger, ids: seq<string>)
    requires l.orders == l1.orders
    requires forall id | id in ids :: (id in l.outcomes <==> id in l1.outcomes)
                                      && (id in l.outcomes ==> l1.outcomes[id] == l.outcomes[id])
    ensures Performed(l, ids) == Performed(l1, ids)
  {
    hide Known, Acts;
    if ids == [] {
    } else {
      assert ids[|ids| - 1] in ids && forall id | id in ids[..|ids| - 1] :: id in ids;
      PerformedFrame(l, l1, ids[..|ids| - 1]);
    }
  }

  lemma WorkedOne(l: Ledger, id: string)
    requires Known("job", |l.orders|, id)
    ensures var l1 := Worked(l, id);
            && l1.orders == l.orders && l1.outcomes.Keys == l.outcomes.Keys + {id}
            && (forall x | x in l.outcomes && x != id :: l1.outcomes[x] == l.outcomes[x])
            && l1.deeds == l.deeds + if l1.outcomes[id].None? then
                                       Acts(l.orders[NumberOfJob(l, id) - 1].actorId,
                                            l.orders[NumberOfJob(l, id) - 1].actions)
                                     else []
  {
    hide Known, Acts, Refusal, Carried;
    var o := l.orders[NumberOfJob(l, id) - 1];
    if Transaction(l.deeds, o.actorId, o.actions).Success? {
      CarriedAppends(l.deeds, o.actorId, o.actions);
    }
  }

  lemma {:induction false} WorkedOutcomes(l: Ledger, ids: seq<string>)
    ensures forall id | id in WorkedAll(l, ids).outcomes && id !in ids :: id in l.outcomes
  {
    hide Known, Transaction;
    if ids == [] {
    } else {
      assert ids[|ids| - 1] in ids && forall id | id in ids[..|ids| - 1] :: id in ids;
      WorkedOutcomes(l, ids[..|ids| - 1]);
    }
  }

  lemma {:induction false} WorkedDeeds(l: Ledger, ids: seq<string>)
    requires NoDup(ids) && forall id | id in ids :: id !in l.outcomes && Known("job", |l.orders|, id)
    ensures WorkedAll(l, ids).deeds == l.deeds + Performed(WorkedAll(l, ids), ids)
  {
    hide Known, Acts, Worked;
    if ids == [] {
    } else {
      var init, last := ids[..|ids| - 1], ids[|ids| - 1];
      assert last in ids && last !in init && forall id | id in init :: id in ids;
      WorkedDeeds(l, init);
      WorkedKeepsOrders(l, init);
      WorkedOutcomes(l, init);
      var mid, end := WorkedAll(l, init), WorkedAll(l, ids);
      WorkedOne(mid, last);
      hide WorkedAll;
      PerformedFrame(mid, end, init);
    }
  }

  /** A pass takes the due orders, each whole or not at all: the deeds it adds are the completed jobs' action lists. */
  lemma PassPerformsWholeOrders(commands: seq<Command>, now: nat)
    ensures var before, after := Book(commands), Book(commands + [RunDueJobs(now)]);
            after.deeds == before.deeds + Performed(after, DueOrders(before, now))
  {
    hide WorkedAll, Performed, DueOrders;
    assert (commands + [RunDueJobs(now)])[..|commands|] == commands;
    DueOrdersDistinct(Book(commands), now);
    WorkedDeeds(Book(commands), DueOrders(Book(commands), now));
  }

  lemma DueOrdersDistinct(l: Ledger, now: nat)
    ensures NoDup(DueOrders(l, now))
  {
  }

  // ----- macros from the commands -----

  /** The CreateMacro calls that succeeded, in order. */
  ghost function Created(commands: seq<Command>): seq<Recipe> {
    if commands == [] then []
    else
      var before, c := commands[..|commands| - 1], commands[|commands| - 1];
      Created(before) + if c.CreateMacro? && Perform(Run(INITIAL, before), c).Success? then [c] else []
  }

  lemma {:induction false} WorkedKeepsRecipes(l: Ledger, ids: seq<string>)
    ensures WorkedAll(l, ids).recipes == l.recipes
  {
    hide Transaction, Known;
    if ids == [] {
    } else {
      WorkedKeepsRecipes(l, ids[..|ids| - 1]);
    }
  }

  lemma {:induction false} BookedRecipes(commands: seq<Command>)
    ensures Book(commands).recipes == Created(commands)
  {
    hide Transaction, Refusal, Acceptable, Known, DueOrders, Told, Perform, Run, SameUpToAsciiCase;
    if commands == [] {
    } else {
      var before, c := commands[..|commands| - 1], commands[|commands| - 1];
      BookedRecipes(before);
      AnswersFollowLedger(before, c);
      if c.RunDueJobs? {
        WorkedKeepsRecipes(Book(before), DueOrders(Book(before), c.now));
      }
    }
  }

  /** Macro n is the one the n-th successful call asked to store, its texts trimmed. */
  lemma MacrosAsCreated(commands: seq<Command>, n: nat)
    requires 1 <= n <= |Created(commands)|
    ensures var s, c := Run(INITIAL, commands), Created(commands)[n - 1];
            && Id("macro", n) in s.macros
            && s.macros[Id("macro", n)].name == Trim(c.name) && s.macros[Id("macro", n)].createdBy == c.actorId
            && s.macros[Id("macro", n)].description
               == (if c.description.Some? then Some(Trim(c.description.value)) else None)
            && s.macros[Id("macro", n)].actions == c.actions
    ensures Run(INITIAL, commands).nextMacroId == |Created(commands)| + 1
  {
    hide Run, Book, CoreTold, JobsTold, Id, Trim;
    TablesFollowLedger(commands);
    BookedRecipes(commands);
    var s := Run(INITIAL, commands);
    NumberedHas(s.macros, "macro", s.nextMacroId);
    assert s.macros[Id("macro", n)] == MacroOf(Book(commands).recipes, n);
  }
}
