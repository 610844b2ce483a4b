/** The moderation service told from its calls alone, without any table: which single calls took effect, which jobs and
    macros were accepted, and what each next call must answer. */
module ModerationLedger {
  import opened Wrappers
  import opened Text
  import opened Order
  import opened Moderation

  type Filing = c: Command | c.FileReport? witness FileReport("", "", "")
  type Queueing = c: Command | c.QueueApproval? witness QueueApproval("", "", "", "")
  type Issue = c: Command | c.Act? && c.action.IssueWarning? witness Act("", IssueWarning("", None, "", 0))
  type JobOrder = c: Command | c.ScheduleJob? witness ScheduleJob("", 0, [])
  type Recipe = c: Command | c.CreateMacro? witness CreateMacro("", "", None, [])

  /** A report, an approval item or a single action that took effect, on its own or within a macro or job. */
  type Deed = c: Command | c.FileReport? || c.QueueApproval? || c.Act? witness FileReport("", "", "")

  /** `outcomes` holds the jobs that ran, each with the error it failed with, if any. */
  datatype Ledger = Ledger(deeds: seq<Deed>, orders: seq<JobOrder>, outcomes: map<string, Option<Error>>,
                           recipes: seq<Recipe>)

  const BLANK := Ledger([], [], map[], [])

  // ----- what the deeds say -----

  /** The reports filed, in order. */
  function Filed(deeds: seq<Deed>): seq<Filing> {
    if deeds == [] then []
    else
      var d := deeds[|deeds| - 1];
      Filed(deeds[..|deeds| - 1]) + if d.FileReport? then [d] else []
  }

  /** The approval items queued, in order. */
  function Queued(deeds: seq<Deed>): seq<Queueing> {
    if deeds == [] then []
    else
      var d := deeds[|deeds| - 1];
      Queued(deeds[..|deeds| - 1]) + if d.QueueApproval? then [d] else []
  }

  /** The warnings issued, in order. */
  function Issued(deeds: seq<Deed>): seq<Issue> {
    if deeds == [] then []
    else
      var d := deeds[|deeds| - 1];
      Issued(deeds[..|deeds| - 1]) + if d.Act? && d.action.IssueWarning? then [d] else []
  }

  /** The deed resolves the report or approval item, or expires the warning, of this id. */
  predicate Closes(d: Deed, kind: AuditAction, id: string) {
    d.Act?
    && match d.action
       case ResolveReport(report, _) => kind == ReportResolved && id == report
       case ResolveApproval(approval, _) => kind == ApprovalResolved && id == approval
       case ExpireWarning(warning, _) => kind == WarningExpired && id == warning
       case _ => false
  }

  predicate Closed(deeds: seq<Deed>, kind: AuditAction, id: string) {
    deeds != [] && (Closes(deeds[|deeds| - 1], kind, id) || Closed(deeds[..|deeds| - 1], kind, id))
  }

  /** The flag the last shadowban change of the user asked for; false if there was none. */
  function Flag(deeds: seq<Deed>, user: string): bool {
    if deeds == [] then false
    else
      var d := deeds[|deeds| - 1];
      if d.Act? && d.action.SetShadowban? && d.action.targetUserId == user then d.action.shadowbanned
      else Flag(deeds[..|deeds| - 1], user)
  }

  // ----- what the next call must answer -----

  /** Why a single action is refused, if it is. */
  function Refusal(deeds: seq<Deed>, action: Action): Option<Error> {
    match action
    case ResolveReport(id, resolution) =>
      if !Acceptable(resolution, 1_000) then Some(InvalidReason)
      else if !Known("report", |Filed(deeds)|, id) then Some(ReportNotFound)
      else if Closed(deeds, ReportResolved, id) then Some(AlreadyResolved)
      else None
    case ResolveApproval(id, resolution) =>
      if !Acceptable(resolution, 1_000) then Some(InvalidReason)
      else if !Known("approval", |Queued(deeds)|, id) then Some(ApprovalNotFound)
      else if Closed(deeds, ApprovalResolved, id) then Some(AlreadyResolved)
      else None
    case IssueWarning(_, _, reason, points) =>
      if points == 0 then Some(InvalidPoints)
      else if !Acceptable(reason, 1_000) then Some(InvalidReason)
      else None
    case ExpireWarning(id, reason) =>
      if !Acceptable(reason, 1_000) then Some(InvalidReason)
      else if !Known("warning", |Issued(deeds)|, id) then Some(WarningNotFound)
      else if Closed(deeds, WarningExpired, id) then Some(WarningInactive)
      else None
    case SetShadowban(_, _) => None
  }

  /** The deeds after a list of actions, unless one of them is refused. */
  function Carried(deeds: seq<Deed>, actor: string, actions: seq<Action>): Result<seq<Deed>, Error> {
    if actions == [] then Success(deeds)
    else
      var before :- Carried(deeds, actor, actions[..|actions| - 1]);
      var action := actions[|actions| - 1];
      match Refusal(before, action)
      case Some(e) => Failure(e)
      case None => Success(before + [Act(actor, action)])
  }

  function Transaction(deeds: seq<Deed>, actor: string, actions: seq<Action>): Result<seq<Deed>, Error> {
    if actions == [] then Failure(EmptyMacro) else Carried(deeds, actor, actions)
  }

  function NumberOfJob(l: Ledger, id: string): (n: nat)
    requires Known("job", |l.orders|, id)
    ensures 1 <= n <= |l.orders| && id == Id("job", n)
  {
    Number("job", id)
  }

  /** The jobs ordered for a tick up to now that have not run, in string order of their ids. */
  ghost function DueOrders(l: Ledger, now: nat): (ids: seq<string>)
    ensures forall id | id in ids :: Known("job", |l.orders|, id) && id !in l.outcomes
  {
    SortedIds(set id | id in OrderIds(|l.orders|) && id !in l.outcomes
                       && l.orders[NumberOfJob(l, id) - 1].runAtTick <= now)
  }

  ghost function OrderIds(count: nat): (ids: set<string>)
    ensures forall id :: id in ids <==> Known("job", count, id)
  {
    if count == 0 then {}
    else
      NumberOfId("job", count);
      OrderIds(count - 1) + {Id("job", count)}
  }

  /** A job performs the whole list that was ordered, or fails with the error of the action refused. */
  function Worked(l: Ledger, id: string): Ledger {
    if !Known("job", |l.orders|, id) then l
    else
      var o := l.orders[NumberOfJob(l, id) - 1];
      match Transaction(l.deeds, o.actorId, o.actions)
      case Success(deeds) => l.(deeds := deeds, outcomes := l.outcomes[id := None])
      case Failure(e) => l.(outcomes := l.outcomes[id := Some(e)])
  }

  function WorkedAll(l: Ledger, ids: seq<string>): Ledger {
    if ids == [] then l else Worked(WorkedAll(l, ids[..|ids| - 1]), ids[|ids| - 1])
  }

  /** The next call: the ledger after it, or its error. */
  ghost function Entered(l: Ledger, c: Command): Result<Ledger, Error> {
    match c
    case FileReport(_, _, reason) =>
      if Acceptable(reason, 1_000) then Success(l.(deeds := l.deeds + [c])) else Failure(InvalidReason)
    case QueueApproval(_, _, _, reason) =>
      if Acceptable(reason, 1_000) then Success(l.(deeds := l.deeds + [c])) else Failure(InvalidReason)
    case Act(_, action) =>
      (match Refusal(l.deeds, action)
       case None => Success(l.(deeds := l.deeds + [c]))
       case Some(e) => Failure(e))
    case ExecuteMacro(actor, actions) =>
      var deeds :- Transaction(l.deeds, actor, actions);
      Success(l.(deeds := deeds))
    case CreateMacro(_, name, description, actions) =>
      if !Acceptable(name, 120) then Failure(InvalidMacroName)
      else if description.Some? && !Acceptable(description.value, 1_000) then Failure(InvalidReason)
      else if actions == [] then Failure(EmptyMacro)
      else if exists r :: r in l.recipes && SameUpToAsciiCase(Trim(name), Trim(r.name)) then Failure(DuplicateMacroName)
      else Success(l.(recipes := l.recipes + [c]))
    case ExecuteStoredMacro(actor, id) =>
      if !Known("macro", |l.recipes|, id) then Failure(MacroNotFound)
      else
        var deeds :- Transaction(l.deeds, actor, l.recipes[Number("macro", id) - 1].actions);
        Success(l.(deeds := deeds))
    case ScheduleJob(_, _, actions) =>
      if actions == [] then Failure(EmptyMacro) else Success(l.(orders := l.orders + [c]))
    case RunDueJobs(now) => Success(WorkedAll(l, DueOrders(l, now)))
  }

  /** The ledger of a run. */
  ghost function Book(commands: seq<Command>): Ledger {
    if commands == [] then BLANK
    else
      var before := Book(commands[..|commands| - 1]);
      match Entered(before, commands[|commands| - 1])
      case Success(l) => l
      case Failure(_) => before
  }
}
