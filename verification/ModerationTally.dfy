/** Conservation between the queues, the warnings and the audit log. */
module ModerationTally {
  import opened Wrappers
  import opened Text
  import opened Moderation

  /** `target` matches a given target, or any target when none is given. */
  predicate Matches(wanted: Option<string>, target: string) {
    wanted == None || wanted == Some(target)
  }

  /** The events of one kind about one target (or about any). */
  function CountEvents(log: seq<AuditEvent>, k: AuditAction, t: Option<string>): nat {
    if log == [] then 0
    else
      CountEvents(log[..|log| - 1], k, t)
      + if log[|log| - 1].action == k && Matches(t, log[|log| - 1].targetId) then 1 else 0
  }

  ghost function ReportsOn(reports: map<string, Report>, t: Option<string>, closed: bool): set<string> {
    set id | id in reports && Matches(t, reports[id].targetId) && (closed ==> reports[id].status == Resolved)
  }

  ghost function ApprovalsOn(approvals: map<string, ApprovalItem>, t: Option<string>, closed: bool): set<string> {
    set id | id in approvals && Matches(t, approvals[id].targetId) && (closed ==> approvals[id].status == Resolved)
  }

  ghost function WarningsOn(warnings: map<string, Warning>, t: Option<string>, expired: bool): set<string> {
    set id | id in warnings && Matches(t, warnings[id].targetUserId) && (expired ==> !warnings[id].active)
  }

  /** The items the state holds as the result of events of one kind about one target. */
  ghost function Items(s: State, k: AuditAction, t: Option<string>): set<string> {
    match k
    case ReportCreated => ReportsOn(s.reports, t, false)
    case ReportResolved => ReportsOn(s.reports, t, true)
    case ApprovalQueued => ApprovalsOn(s.approvals, t, false)
    case ApprovalResolved => ApprovalsOn(s.approvals, t, true)
    case WarningIssued => WarningsOn(s.warnings, t, false)
    case WarningExpired => WarningsOn(s.warnings, t, true)
    case UserShadowbanSet => {}
  }

  ghost predicate Balanced(s: State) {
    forall k, t | k != UserShadowbanSet :: CountEvents(s.auditEvents, k, t) == |Items(s, k, t)|
  }

  ghost predicate QueuesNumbered(s: State) {
    && Numbered(s.reports, "report", s.nextReportId)
    && Numbered(s.approvals, "approval", s.nextApprovalId)
    && (forall id | id in s.reports :: s.reports[id].id == id)
    && (forall id | id in s.approvals :: s.approvals[id].id == id)
  }

  /** From `before` to `after` exactly one item, about `target`, is added. */
  ghost predicate Adds(before: set<string>, after: set<string>, t: Option<string>, target: string, item: string) {
    if Matches(t, target) then item !in before && after == before + {item} else after == before
  }

  /** One event and the one item it is about keep the balance. */
  lemma BalanceGrows(s: State, s1: State, e: AuditEvent, item: string)
    requires Balanced(s)
    requires s1.auditEvents == s.auditEvents + [e]
    requires e.action != UserShadowbanSet ==>
      forall t :: Adds(Items(s, e.action, t), Items(s1, e.action, t), t, e.targetId, item)
    requires forall k, t | k != e.action :: Items(s1, k, t) == Items(s, k, t)
    ensures Balanced(s1)
  {
    hide ReportsOn, ApprovalsOn, WarningsOn;
    assert s1.auditEvents[..|s.auditEvents|] == s.auditEvents;
    forall k, t | k != UserShadowbanSet ensures CountEvents(s1.auditEvents, k, t) == |Items(s1, k, t)| {
      if k == e.action {
        assert Adds(Items(s, k, t), Items(s1, k, t), t, e.targetId, item);
      }
    }
  }

  // ----- one entry of one table changes -----

  lemma ReportEntry(m: map<string, Report>, id: string, r: Report, t: Option<string>)
    requires id in m ==> m[id].targetId == r.targetId
    ensures id !in m && r.status == Open ==>
      Adds(ReportsOn(m, t, false), ReportsOn(m[id := r], t, false), t, r.targetId, id)
    ensures id !in m && r.status == Open ==> ReportsOn(m[id := r], t, true) == ReportsOn(m, t, true)
    ensures id in m && m[id].status == Open && r.status == Resolved ==>
      Adds(ReportsOn(m, t, true), ReportsOn(m[id := r], t, true), t, r.targetId, id)
    ensures id in m ==> ReportsOn(m[id := r], t, false) == ReportsOn(m, t, false)
  {
  }

  lemma ApprovalEntry(m: map<string, ApprovalItem>, id: string, r: ApprovalItem, t: Option<string>)
    requires id in m ==> m[id].targetId == r.targetId
    ensures id !in m && r.status == Open ==>
      Adds(ApprovalsOn(m, t, false), ApprovalsOn(m[id := r], t, false), t, r.targetId, id)
    ensures id !in m && r.status == Open ==> ApprovalsOn(m[id := r], t, true) == ApprovalsOn(m, t, true)
    ensures id in m && m[id].status == Open && r.status == Resolved ==>
      Adds(ApprovalsOn(m, t, true), ApprovalsOn(m[id := r], t, true), t, r.targetId, id)
    ensures id in m ==> ApprovalsOn(m[id := r], t, false) == ApprovalsOn(m, t, false)
  {
  }

  lemma WarningEntry(m: map<string, Warning>, id: string, w: Warning, t: Option<string>)
    requires id in m ==> m[id].targetUserId == w.targetUserId
    ensures id !in m && w.active ==>
      Adds(WarningsOn(m, t, false), WarningsOn(m[id := w], t, false), t, w.targetUserId, id)
    ensures id !in m && w.active ==> WarningsOn(m[id := w], t, true) == WarningsOn(m, t, true)
    ensures id in m && m[id].active && !w.active ==>
      Adds(WarningsOn(m, t, true), WarningsOn(m[id := w], t, true), t, w.targetUserId, id)
    ensures id in m ==> WarningsOn(m[id := w], t, false) == WarningsOn(m, t, false)
  {
  }

  lemma FilingBalances(s: State, reporter: string, target: string, reason: string)
    requires Balanced(s) && QueuesNumbered(s)
    requires DoFileReport(s, reporter, target, reason).Success?
    ensures var s1 := DoFileReport(s, reporter, target, reason).value; Balanced(s1) && QueuesNumbered(s1)
  {
    hide CleanReason, ReportsOn, ApprovalsOn, WarningsOn, CountEvents;
    var s1 := DoFileReport(s, reporter, target, reason).value;
    var id := Id("report", s.nextReportId);
    NumberedInsert(s.reports, "report", s.nextReportId, s1.reports[id]);
    forall t {
      ReportEntry(s.reports, id, s1.reports[id], t);
    }
    BalanceGrows(s, s1, s1.auditEvents[|s.auditEvents|], id);
  }

  lemma QueueingBalances(s: State, actor: string, author: string, target: string, reason: string)
    requires Balanced(s) && QueuesNumbered(s)
    requires DoQueueApproval(s, actor, author, target, reason).Success?
    ensures var s1 := DoQueueApproval(s, actor, author, target, reason).value; Balanced(s1) && QueuesNumbered(s1)
  {
    hide CleanReason, ReportsOn, ApprovalsOn, WarningsOn, CountEvents;
    var s1 := DoQueueApproval(s, actor, author, target, reason).value;
    var id := Id("approval", s.nextApprovalId);
    NumberedInsert(s.approvals, "approval", s.nextApprovalId, s1.approvals[id]);
    forall t {
      ApprovalEntry(s.approvals, id, s1.approvals[id], t);
    }
    BalanceGrows(s, s1, s1.auditEvents[|s.auditEvents|], id);
  }

  lemma ResolvingReportBalances(s: State, actor: string, id: string, resolution: string)
    requires Balanced(s) && QueuesNumbered(s)
    requires DoResolveReport(s, actor, id, resolution).Success?
    ensures var s1 := DoResolveReport(s, actor, id, resolution).value; Balanced(s1) && QueuesNumbered(s1)
  {
    hide CleanReason, ReportsOn, ApprovalsOn, WarningsOn, CountEvents, Numbered;
    var s1 := DoResolveReport(s, actor, id, resolution).value;
    NumberedUpdate(s.reports, "report", s.nextReportId, id, s1.reports[id]);
    forall t {
      ReportEntry(s.reports, id, s1.reports[id], t);
    }
    BalanceGrows(s, s1, s1.auditEvents[|s.auditEvents|], id);
  }

  lemma ResolvingApprovalBalances(s: State, actor: string, id: string, resolution: string)
    requires Balanced(s) && QueuesNumbered(s)
    requires DoResolveApproval(s, actor, id, resolution).Success?
    ensures var s1 := DoResolveApproval(s, actor, id, resolution).value; Balanced(s1) && QueuesNumbered(s1)
  {
    hide CleanReason, ReportsOn, ApprovalsOn, WarningsOn, CountEvents, Numbered;
    var s1 := DoResolveApproval(s, actor, id, resolution).value;
    NumberedUpdate(s.approvals, "approval", s.nextApprovalId, id, s1.approvals[id]);
    forall t {
      ApprovalEntry(s.approvals, id, s1.approvals[id], t);
    }
    BalanceGrows(s, s1, s1.auditEvents[|s.auditEvents|], id);
  }

  lemma IssuingBalances(s: State, actor: string, user: string, target: Option<string>, reason: string, points: u32)
    requires Balanced(s) && QueuesNumbered(s) && Numbered(s.warnings, "warning", s.nextWarningId)
    requires DoIssueWarning(s, actor, user, target, reason, points).Success?
    ensures var s1 := DoIssueWarning(s, actor, user, target, reason, points).value; Balanced(s1) && QueuesNumbered(s1)
  {
    hide CleanReason, ReportsOn, ApprovalsOn, WarningsOn, CountEvents, PointsIn, UserStateFor;
    var s1 := DoIssueWarning(s, actor, user, target, reason, points).value;
    var id := Id("warning", s.nextWarningId);
    NumberedInsert(s.warnings, "warning", s.nextWarningId, s1.warnings[id]);
    forall t {
      WarningEntry(s.warnings, id, s1.warnings[id], t);
    }
    BalanceGrows(s, s1, s1.auditEvents[|s.auditEvents|], id);
  }

  lemma ExpiringBalances(s: State, actor: string, id: string, reason: string)
    requires Balanced(s) && QueuesNumbered(s)
    requires DoExpireWarning(s, actor, id, reason).Success?
    ensures var s1 := DoExpireWarning(s, actor, id, reason).value; Balanced(s1) && QueuesNumbered(s1)
  {
    hide CleanReason, ReportsOn, ApprovalsOn, WarningsOn, CountEvents, PointsIn, UserStateFor, Numbered;
    var s1 := DoExpireWarning(s, actor, id, reason).value;
    forall t {
      WarningEntry(s.warnings, id, s1.warnings[id], t);
    }
    BalanceGrows(s, s1, s1.auditEvents[|s.auditEvents|], id);
  }

  lemma ApplyBalances(s: State, actor: string, action: Action)
    requires Balanced(s) && QueuesNumbered(s) && Numbered(s.warnings, "warning", s.nextWarningId)
    requires Apply(s, actor, action).Success?
    ensures var s1 := Apply(s, actor, action).value; Balanced(s1) && QueuesNumbered(s1)
  {
    hide CleanReason, ReportsOn, ApprovalsOn, WarningsOn, CountEvents, DoResolveReport, DoResolveApproval,
         DoIssueWarning, DoExpireWarning, Numbered;
    match action
    case ResolveReport(id, resolution) => ResolvingReportBalances(s, actor, id, resolution);
    case ResolveApproval(id, resolution) => ResolvingApprovalBalances(s, actor, id, resolution);
    case IssueWarning(user, target, reason, points) => IssuingBalances(s, actor, user, target, reason, points);
    case ExpireWarning(id, reason) => ExpiringBalances(s, actor, id, reason);
    case SetShadowban(user, shadowbanned) =>
      var s1 := DoSetShadowban(s, actor, user, shadowbanned);
      BalanceGrows(s, s1, s1.auditEvents[|s.auditEvents|], "");
  }

  /** Every event is of exactly one kind. */
  lemma {:induction false} LogLengthByKind(log: seq<AuditEvent>)
    ensures |log| == CountEvents(log, ReportCreated, None) + CountEvents(log, ReportResolved, None)
                     + CountEvents(log, ApprovalQueued, None) + CountEvents(log, ApprovalResolved, None)
                     + CountEvents(log, WarningIssued, None) + CountEvents(log, WarningExpired, None)
                     + CountEvents(log, UserShadowbanSet, None)
  {
    if log == [] {
    } else {
      LogLengthByKind(log[..|log| - 1]);
    }
  }

  /** The log is exactly as long as the items created, closed and expired, plus the shadowban changes. */
  lemma LogLength(s: State)
    requires Balanced(s)
    ensures |s.auditEvents| == |s.reports.Keys| + |Items(s, ReportResolved, None)|
                               + |s.approvals.Keys| + |Items(s, ApprovalResolved, None)|
                               + |s.warnings.Keys| + |Items(s, WarningExpired, None)|
                               + CountEvents(s.auditEvents, UserShadowbanSet, None)
  {
    LogLengthByKind(s.auditEvents);
    assert Items(s, ReportCreated, None) == s.reports.Keys;
    assert Items(s, ApprovalQueued, None) == s.approvals.Keys;
    assert Items(s, WarningIssued, None) == s.warnings.Keys;
  }
}
