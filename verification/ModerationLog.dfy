/** The audit log determines the per-user states: replaying it rebuilds the user table. */
module ModerationLog {
  import opened Wrappers
  import opened Text
  import opened Moderation

  /** The actions whose events carry a user state. */
  predicate StateBearing(a: AuditAction) {
    a == WarningIssued || a == WarningExpired || a == UserShadowbanSet
  }

  /** The user table rebuilt from the log alone. */
  function Replay(log: seq<AuditEvent>): map<string, UserState> {
    if log == [] then map[]
    else
      var before := Replay(log[..|log| - 1]);
      var e := log[|log| - 1];
      match e.newState
      case Some(state) => before[e.targetId := state]
      case None => before
  }

  /** The new state in the last event that carries one for this user; the default state if there is none. */
  function LastKnown(log: seq<AuditEvent>, user: string): UserState {
    if log == [] then DEFAULT_USER
    else
      var e := log[|log| - 1];
      if e.targetId == user && e.newState.Some? then e.newState.value else LastKnown(log[..|log| - 1], user)
  }

  /** Warnings leave the shadowban flag alone; shadowban changes touch nothing else. */
  predicate ChangesOwnPart(e: AuditEvent)
    requires e.previousState.Some? && e.newState.Some?
  {
    var before, after := e.previousState.value, e.newState.value;
    if e.action == UserShadowbanSet then after == before.(shadowbanned := after.shadowbanned)
    else after == UserStateFor(after.activeWarningPoints, before.shadowbanned)
  }

  ghost predicate EventFaithful(log: seq<AuditEvent>, i: nat)
    requires i < |log|
  {
    var e := log[i];
    && e.id == Id("audit", i + 1)
    && (e.newState.Some? <==> StateBearing(e.action))
    && e.previousState == (if e.newState.Some? then Some(LastKnown(log[..i], e.targetId)) else None)
    && (e.newState.Some? ==> ChangesOwnPart(e))
  }

  ghost predicate LogFaithful(s: State) {
    && s.nextAuditId == |s.auditEvents| + 1
    && Replay(s.auditEvents) == s.users
    && forall i | 0 <= i < |s.auditEvents| :: EventFaithful(s.auditEvents, i)
  }

  lemma {:induction false} ReplayGivesLastKnown(log: seq<AuditEvent>, user: string)
    ensures UserOf(Replay(log), user) == LastKnown(log, user)
  {
    if log == [] {
    } else {
      ReplayGivesLastKnown(log[..|log| - 1], user);
    }
  }

  /** One more event, consistent with the change of the user table, keeps the log faithful. */
  lemma LogGrows(s: State, s1: State, e: AuditEvent)
    requires LogFaithful(s)
    requires s1.auditEvents == s.auditEvents + [e] && s1.nextAuditId == s.nextAuditId + 1
    requires e.id == Id("audit", s.nextAuditId)
    requires e.newState.Some? <==> StateBearing(e.action)
    requires e.previousState == if e.newState.Some? then Some(UserOf(s.users, e.targetId)) else None
    requires e.newState.Some? ==> ChangesOwnPart(e)
    requires s1.users == if e.newState.Some? then s.users[e.targetId := e.newState.value] else s.users
    ensures LogFaithful(s1)
  {
    var log, log1 := s.auditEvents, s1.auditEvents;
    assert log1[..|log1| - 1] == log;
    ReplayGivesLastKnown(log, e.targetId);
    forall i | 0 <= i < |log1| ensures EventFaithful(log1, i) {
      if i < |log| {
        assert EventFaithful(log, i);
        assert log1[..i] == log[..i];
      }
    }
  }

  lemma ApplyKeepsLog(s: State, actor: string, action: Action)
    requires LogFaithful(s)
    ensures Apply(s, actor, action).Success? ==> LogFaithful(Apply(s, actor, action).value)
  {
    hide CleanReason, PointsIn, LogFaithful, EventFaithful;
    var r := Apply(s, actor, action);
    if r.Success? {
      LogGrows(s, r.value, r.value.auditEvents[|s.auditEvents|]);
    }
  }

  lemma FilingKeepsLog(s: State, reporter: string, target: string, reason: string)
    requires LogFaithful(s)
    ensures DoFileReport(s, reporter, target, reason).Success? ==>
      LogFaithful(DoFileReport(s, reporter, target, reason).value)
  {
    var r := DoFileReport(s, reporter, target, reason);
    if r.Success? {
      LogGrows(s, r.value, r.value.auditEvents[|s.auditEvents|]);
    }
  }

  lemma QueueingKeepsLog(s: State, actor: string, author: string, target: string, reason: string)
    requires LogFaithful(s)
    ensures DoQueueApproval(s, actor, author, target, reason).Success? ==>
      LogFaithful(DoQueueApproval(s, actor, author, target, reason).value)
  {
    var r := DoQueueApproval(s, actor, author, target, reason);
    if r.Success? {
      LogGrows(s, r.value, r.value.auditEvents[|s.auditEvents|]);
    }
  }
}
