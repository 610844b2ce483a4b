/** The moderation state and what each operation does to it, as functions. */
module Moderation {
  import opened Wrappers
  import opened Text
  import opened Order
  import opened Indexes

  const MAX_REASON_LEN := 1_000
  const MAX_MACRO_NAME_LEN := 120
  const MUTE_WARNING_POINTS := 5
  const BAN_WARNING_POINTS := 10

  // ----- entities -----

  datatype QueueStatus = Open | Resolved

  datatype Report = Report(id: string, reporterId: string, targetId: string, reason: string, status: QueueStatus)

  datatype ApprovalItem = ApprovalItem(id: string, authorId: string, targetId: string, reason: string,
                                       status: QueueStatus)

  datatype Warning = Warning(id: string, actorId: string, targetUserId: string, targetId: Option<string>,
                             reason: string, points: u32, active: bool)

  /** A macro action; the single-action operations take the same arguments. */
  datatype Action =
    | ResolveReport(reportId: string, resolution: string)
    | ResolveApproval(approvalId: string, resolution: string)
    | IssueWarning(targetUserId: string, targetId: Option<string>, reason: string, points: u32)
    | ExpireWarning(warningId: string, reason: string)
    | SetShadowban(targetUserId: string, shadowbanned: bool)

  datatype StoredMacro = StoredMacro(id: string, name: string, description: Option<string>, createdBy: string,
                                     actions: seq<Action>)

  datatype JobStatus = Pending | Completed | Failed

  datatype Job = Job(id: string, actorId: string, runAtTick: nat, status: JobStatus, actions: seq<Action>,
                     lastError: Option<string>)

  datatype JobRunSummary = JobRunSummary(checked: nat, completed: nat, failed: nat)

  datatype MacroExecution = MacroExecution(actionCount: nat, auditEventCount: nat)

  datatype UserState = UserState(activeWarningPoints: u32, muted: bool, banned: bool, shadowbanned: bool)

  const DEFAULT_USER := UserState(0, false, false, false)

  datatype AuditAction =
    | ReportCreated | ReportResolved | ApprovalQueued | ApprovalResolved
    | WarningIssued | WarningExpired | UserShadowbanSet

  datatype AuditEvent = AuditEvent(id: string, actorId: string, action: AuditAction, targetId: string,
                                   previousState: Option<UserState>, newState: Option<UserState>, detail: string)

  datatype Error =
    | InvalidReason | InvalidPoints | ReportNotFound | ApprovalNotFound | WarningNotFound | AlreadyResolved
    | WarningInactive | EmptyMacro | InvalidMacroName | DuplicateMacroName | MacroNotFound | JobNotFound

  function ErrorText(e: Error): string {
    match e
    case InvalidReason => "invalid moderation reason"
    case InvalidPoints => "invalid warning points"
    case ReportNotFound => "report not found"
    case ApprovalNotFound => "approval item not found"
    case WarningNotFound => "warning not found"
    case AlreadyResolved => "moderation item is already resolved"
    case WarningInactive => "warning is already inactive"
    case EmptyMacro => "moderation macro must contain actions"
    case InvalidMacroName => "invalid moderation macro name"
    case DuplicateMacroName => "moderation macro name already exists"
    case MacroNotFound => "moderation macro not found"
    case JobNotFound => "moderation job not found"
  }

  datatype State = State(
    nextReportId: nat,
    nextApprovalId: nat,
    nextWarningId: nat,
    nextMacroId: nat,
    nextJobId: nat,
    nextAuditId: nat,
    reports: map<string, Report>,
    approvals: map<string, ApprovalItem>,
    warnings: map<string, Warning>,
    warningIdsByUser: map<string, seq<string>>,
    users: map<string, UserState>,
    macros: map<string, StoredMacro>,
    macroIdsByName: map<string, string>,
    jobs: map<string, Job>,
    auditEvents: seq<AuditEvent>
  )

  const INITIAL := State(1, 1, 1, 1, 1, 1, map[], map[], map[], map[], map[], map[], map[], map[], [])

  // ----- helpers of the single actions -----

  function CleanReason(value: string): Result<string, Error> {
    match CleanText(value, MAX_REASON_LEN)
    case Some(text) => Success(text)
    case None => Failure(InvalidReason)
  }

  function CleanOptionalReason(value: Option<string>): Result<Option<string>, Error> {
    match value
    case None => Success(None)
    case Some(text) =>
      var reason :- CleanReason(text);
      Success(Some(reason))
  }

  function CleanMacroName(value: string): Result<string, Error> {
    match CleanText(value, MAX_MACRO_NAME_LEN)
    case Some(text) => Success(text)
    case None => Failure(InvalidMacroName)
  }

  function MacroNameKey(name: string): string {
    AsciiLower(Trim(name))
  }

  function UserOf(users: map<string, UserState>, user: string): UserState {
    if user in users then users[user] else DEFAULT_USER
  }

  /** The exact sum of the points of the active warnings in a list of ids. */
  function PointsIn(warnings: map<string, Warning>, ids: seq<string>): nat {
    if ids == [] then 0
    else
      var id := ids[|ids| - 1];
      PointsIn(warnings, ids[..|ids| - 1])
      + if id in warnings && warnings[id].active then warnings[id].points else 0
  }

  function UserStateFor(points: u32, shadowbanned: bool): UserState {
    UserState(points, points >= MUTE_WARNING_POINTS, points >= BAN_WARNING_POINTS, shadowbanned)
  }

  function RecomputeUser(s: State, user: string): State {
    var points := Wrap(PointsIn(s.warnings, ListOf(s.warningIdsByUser, user)));
    s.(users := s.users[user := UserStateFor(points, UserOf(s.users, user).shadowbanned)])
  }

  function PushAudit(s: State, actor: string, action: AuditAction, target: string, previous: Option<UserState>,
                     next: Option<UserState>, detail: string): State
  {
    var event := AuditEvent(Id("audit", s.nextAuditId), actor, action, target, previous, next, detail);
    s.(nextAuditId := s.nextAuditId + 1, auditEvents := s.auditEvents + [event])
  }

  // ----- the operations -----

  function DoFileReport(s: State, reporter: string, target: string, rawReason: string): Result<State, Error> {
    var reason :- CleanReason(rawReason);
    var id := Id("report", s.nextReportId);
    var s1 := s.(nextReportId := s.nextReportId + 1,
                 reports := s.reports[id := Report(id, reporter, target, reason, Open)]);
    Success(PushAudit(s1, reporter, ReportCreated, target, None, None, "report created"))
  }

  function DoQueueApproval(s: State, actor: string, author: string, target: string, rawReason: string)
    : Result<State, Error>
  {
    var reason :- CleanReason(rawReason);
    var id := Id("approval", s.nextApprovalId);
    var s1 := s.(nextApprovalId := s.nextApprovalId + 1,
                 approvals := s.approvals[id := ApprovalItem(id, author, target, reason, Open)]);
    Success(PushAudit(s1, actor, ApprovalQueued, target, None, None, "approval queued"))
  }

  function DoResolveReport(s: State, actor: string, id: string, rawResolution: string): Result<State, Error> {
    var resolution :- CleanReason(rawResolution);
    if id !in s.reports then Failure(ReportNotFound)
    else if s.reports[id].status == Resolved then Failure(AlreadyResolved)
    else
      var s1 := s.(reports := s.reports[id := s.reports[id].(status := Resolved)]);
      Success(PushAudit(s1, actor, ReportResolved, s.reports[id].targetId, None, None,
                        "report resolved: " + resolution))
  }

  function DoResolveApproval(s: State, actor: string, id: string, rawResolution: string): Result<State, Error> {
    var resolution :- CleanReason(rawResolution);
    if id !in s.approvals then Failure(ApprovalNotFound)
    else if s.approvals[id].status == Resolved then Failure(AlreadyResolved)
    else
      var s1 := s.(approvals := s.approvals[id := s.approvals[id].(status := Resolved)]);
      Success(PushAudit(s1, actor, ApprovalResolved, s.approvals[id].targetId, None, None,
                        "approval resolved: " + resolution))
  }

  function AddWarning(s: State, w: Warning): State {
    s.(nextWarningId := s.nextWarningId + 1,
       warningIdsByUser := s.warningIdsByUser[w.targetUserId := ListOf(s.warningIdsByUser, w.targetUserId) + [w.id]],
       warnings := s.warnings[w.id := w])
  }

  function DoIssueWarning(s: State, actor: string, user: string, target: Option<string>, rawReason: string,
                          points: u32): Result<State, Error>
  {
    if points == 0 then Failure(InvalidPoints)
    else
      var reason :- CleanReason(rawReason);
      var w := Warning(Id("warning", s.nextWarningId), actor, user, target, reason, points, true);
      var s2 := RecomputeUser(AddWarning(s, w), user);
      Success(PushAudit(s2, actor, WarningIssued, user, Some(UserOf(s.users, user)), Some(UserOf(s2.users, user)),
                        "warning issued"))
  }

  function Deactivate(s: State, id: string): State
    requires id in s.warnings
  {
    s.(warnings := s.warnings[id := s.warnings[id].(active := false)])
  }

  function DoExpireWarning(s: State, actor: string, id: string, rawReason: string): Result<State, Error> {
    var reason :- CleanReason(rawReason);
    if id !in s.warnings then Failure(WarningNotFound)
    else if !s.warnings[id].active then Failure(WarningInactive)
    else
      var user := s.warnings[id].targetUserId;
      var s2 := RecomputeUser(Deactivate(s, id), user);
      Success(PushAudit(s2, actor, WarningExpired, user, Some(UserOf(s.users, user)), Some(UserOf(s2.users, user)),
                        "warning expired: " + reason))
  }

  function DoSetShadowban(s: State, actor: string, user: string, shadowbanned: bool): State {
    var previous := UserOf(s.users, user);
    var next := previous.(shadowbanned := shadowbanned);
    PushAudit(s.(users := s.users[user := next]), actor, UserShadowbanSet, user, Some(previous), Some(next),
              "shadowban changed")
  }

  /** One single-action operation, called on its own. */
  function Apply(s: State, actor: string, action: Action): Result<State, Error> {
    match action
    case ResolveReport(id, resolution) => DoResolveReport(s, actor, id, resolution)
    case ResolveApproval(id, resolution) => DoResolveApproval(s, actor, id, resolution)
    case IssueWarning(user, target, reason, points) => DoIssueWarning(s, actor, user, target, reason, points)
    case ExpireWarning(id, reason) => DoExpireWarning(s, actor, id, reason)
    case SetShadowban(user, shadowbanned) => Success(DoSetShadowban(s, actor, user, shadowbanned))
  }

  /** The single-action operations called one after the other, up to the first error. */
  function ApplyAll(s: State, actor: string, actions: seq<Action>): Result<State, Error> {
    if actions == [] then Success(s)
    else
      var s1 :- ApplyAll(s, actor, actions[..|actions| - 1]);
      Apply(s1, actor, actions[|actions| - 1])
  }

  /** A macro: refused when empty, otherwise every action or none. */
  function DoMacro(s: State, actor: string, actions: seq<Action>): Result<State, Error> {
    if actions == [] then Failure(EmptyMacro) else ApplyAll(s, actor, actions)
  }

  function DoCreateMacro(s: State, actor: string, rawName: string, rawDescription: Option<string>,
                         actions: seq<Action>): Result<State, Error>
  {
    var name :- CleanMacroName(rawName);
    var description :- CleanOptionalReason(rawDescription);
    if actions == [] then Failure(EmptyMacro)
    else if MacroNameKey(name) in s.macroIdsByName then Failure(DuplicateMacroName)
    else
      var id := Id("macro", s.nextMacroId);
      Success(s.(nextMacroId := s.nextMacroId + 1,
                 macroIdsByName := s.macroIdsByName[MacroNameKey(name) := id],
                 macros := s.macros[id := StoredMacro(id, name, description, actor, actions)]))
  }

  function DoStoredMacro(s: State, actor: string, id: string): Result<State, Error> {
    if id !in s.macros then Failure(MacroNotFound) else DoMacro(s, actor, s.macros[id].actions)
  }

  function DoScheduleJob(s: State, actor: string, tick: nat, actions: seq<Action>): Result<State, Error> {
    if actions == [] then Failure(EmptyMacro)
    else
      var id := Id("job", s.nextJobId);
      Success(s.(nextJobId := s.nextJobId + 1,
                 jobs := s.jobs[id := Job(id, actor, tick, Pending, actions, None)]))
  }

  // ----- the job runner -----

  predicate Due(job: Job, now: nat) {
    job.status == Pending && job.runAtTick <= now
  }

  /** The due pending jobs in string order of their ids ("job:10" comes before "job:2"). */
  ghost function DueIds(s: State, now: nat): (ids: seq<string>)
    ensures Sorted(ids) && NoDup(ids)
    ensures forall id :: id in ids <==> id in s.jobs && Due(s.jobs[id], now)
  {
    SortedIds(set id | id in s.jobs && Due(s.jobs[id], now))
  }

  function Finish(s: State, id: string, status: JobStatus, error: Option<string>): State {
    if id in s.jobs then s.(jobs := s.jobs[id := s.jobs[id].(status := status, lastError := error)]) else s
  }

  /** One job: commit the whole action list, or change only that job's status and error. */
  function RunJob(s: State, id: string): State {
    if id !in s.jobs then s
    else match DoMacro(s, s.jobs[id].actorId, s.jobs[id].actions)
      case Success(s1) => Finish(s1, id, Completed, None)
      case Failure(e) => Finish(s, id, Failed, Some(ErrorText(e)))
  }

  function RunJobs(s: State, ids: seq<string>): State {
    if ids == [] then s else RunJob(RunJobs(s, ids[..|ids| - 1]), ids[|ids| - 1])
  }

  predicate Commits(s: State, id: string) {
    id in s.jobs && DoMacro(s, s.jobs[id].actorId, s.jobs[id].actions).Success?
  }

  /** How many of the listed jobs commit their actions when run in turn. */
  function CommittedIn(s: State, ids: seq<string>): nat {
    if ids == [] then 0
    else
      CommittedIn(s, ids[..|ids| - 1])
      + if Commits(RunJobs(s, ids[..|ids| - 1]), ids[|ids| - 1]) then 1 else 0
  }

  ghost function DoRunDueJobs(s: State, now: nat): State {
    RunJobs(s, DueIds(s, now))
  }

  // ----- runs -----

  datatype Command =
    | FileReport(reporterId: string, targetId: string, reason: string)
    | QueueApproval(actorId: string, authorId: string, targetId: string, reason: string)
    | Act(actorId: string, action: Action)
    | ExecuteMacro(actorId: string, actions: seq<Action>)
    | CreateMacro(actorId: string, name: string, description: Option<string>, actions: seq<Action>)
    | ExecuteStoredMacro(actorId: string, macroId: string)
    | ScheduleJob(actorId: string, runAtTick: nat, actions: seq<Action>)
    | RunDueJobs(now: nat)

  /** What a public method call returns as its error, if any, with the state it leaves. */
  ghost function Perform(s: State, c: Command): Result<State, Error> {
    match c
    case FileReport(reporter, target, reason) => DoFileReport(s, reporter, target, reason)
    case QueueApproval(actor, author, target, reason) => DoQueueApproval(s, actor, author, target, reason)
    case Act(actor, action) => Apply(s, actor, action)
    case ExecuteMacro(actor, actions) => DoMacro(s, actor, actions)
    case CreateMacro(actor, name, description, actions) => DoCreateMacro(s, actor, name, description, actions)
    case ExecuteStoredMacro(actor, id) => DoStoredMacro(s, actor, id)
    case ScheduleJob(actor, tick, actions) => DoScheduleJob(s, actor, tick, actions)
    case RunDueJobs(now) => Success(DoRunDueJobs(s, now))
  }

  /** A call that fails leaves the state as it was. */
  ghost function Step(s: State, c: Command): State {
    match Perform(s, c)
    case Success(s1) => s1
    case Failure(_) => s
  }

  ghost function Run(s: State, commands: seq<Command>): State {
    if commands == [] then s
    else Step(Run(s, commands[..|commands| - 1]), commands[|commands| - 1])
  }
}
