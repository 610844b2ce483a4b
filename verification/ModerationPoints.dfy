/** The cached per-user state agrees with its definition over all warnings. */
module ModerationPoints {
  import opened Wrappers
  import opened Text
  import opened Order
  import opened Indexes
  import opened Moderation

  /** The points of a set of warnings. */
  ghost function SumPoints(warnings: map<string, Warning>, ids: set<string>): nat
    requires ids <= warnings.Keys
  {
    if ids == {} then 0
    else
      var id :| id in ids;
      warnings[id].points + SumPoints(warnings, ids - {id})
  }

  ghost function ActiveFor(warnings: map<string, Warning>, user: string): set<string> {
    set id | id in warnings && warnings[id].targetUserId == user && warnings[id].active
  }

  /** The definition: the exact sum over every active warning that targets the user. */
  ghost function ActivePoints(warnings: map<string, Warning>, user: string): nat {
    SumPoints(warnings, ActiveFor(warnings, user))
  }

  lemma {:induction false} SumPointsRemove(warnings: map<string, Warning>, ids: set<string>, x: string)
    requires ids <= warnings.Keys && x in ids
    ensures SumPoints(warnings, ids) == warnings[x].points + SumPoints(warnings, ids - {x})
  {
    var id :| id in ids && SumPoints(warnings, ids) == warnings[id].points + SumPoints(warnings, ids - {id});
    if id != x {
      SumPointsRemove(warnings, ids - {id}, x);
      SumPointsRemove(warnings, ids - {x}, id);
      assert ids - {id} - {x} == ids - {x} - {id};
    }
  }

  lemma {:induction false} SumPointsFrame(w: map<string, Warning>, w1: map<string, Warning>, ids: set<string>)
    requires ids <= w.Keys && ids <= w1.Keys
    requires forall id | id in ids :: w[id].points == w1[id].points
    ensures SumPoints(w, ids) == SumPoints(w1, ids)
  {
    if ids == {} {
    } else {
      var id :| id in ids;
      SumPointsRemove(w, ids, id);
      SumPointsRemove(w1, ids, id);
      SumPointsFrame(w, w1, ids - {id});
    }
  }

  /** The sum over a duplicate-free list is the sum over the active warnings in it. */
  lemma {:induction false} PointsInIsSum(warnings: map<string, Warning>, ids: seq<string>)
    requires NoDup(ids)
    ensures PointsIn(warnings, ids) == SumPoints(warnings, set id | id in ids && id in warnings && warnings[id].active)
  {
    if ids == [] {
    } else {
      var init, last := ids[..|ids| - 1], ids[|ids| - 1];
      PointsInIsSum(warnings, init);
      var all := set id | id in ids && id in warnings && warnings[id].active;
      var most := set id | id in init && id in warnings && warnings[id].active;
      assert forall id :: id in ids <==> id in init || id == last;
      if last in warnings && warnings[last].active {
        assert all - {last} == most;
        SumPointsRemove(warnings, all, last);
      } else {
        assert all == most;
      }
    }
  }

  function WarningOwners(warnings: map<string, Warning>): map<string, string> {
    map id | id in warnings :: warnings[id].targetUserId
  }

  ghost predicate PartitionedByUser(s: State) {
    Partitions(s.warningIdsByUser, WarningOwners(s.warnings))
  }

  ghost predicate CacheAgrees(warnings: map<string, Warning>, users: map<string, UserState>, u: string)
    requires u in users
  {
    users[u] == UserStateFor(Wrap(ActivePoints(warnings, u)), users[u].shadowbanned)
  }

  ghost predicate PointsInv(s: State) {
    && Numbered(s.warnings, "warning", s.nextWarningId)
    && (forall id | id in s.warnings :: s.warnings[id].id == id && s.warnings[id].points > 0)
    && PartitionedByUser(s)
    && (forall u | u in s.warningIdsByUser :: u in s.users)
    && (forall u | u in s.users :: CacheAgrees(s.warnings, s.users, u))
  }

  lemma ListedUnderTarget(s: State, id: string, user: string)
    requires PartitionedByUser(s)
    ensures id in ListOf(s.warningIdsByUser, user) <==> id in s.warnings && s.warnings[id].targetUserId == user
  {
    var owners := WarningOwners(s.warnings);
    if id in s.warnings {
      assert owners[id] == s.warnings[id].targetUserId;
      assert owners[id] in s.warningIdsByUser;
    }
    if user in s.warningIdsByUser {
      assert id in s.warningIdsByUser[user] <==> id in owners && owners[id] == user;
    }
  }

  /** What `recompute_user_state` writes is the definition. */
  lemma ListSumIsActivePoints(s: State, user: string)
    requires PartitionedByUser(s)
    ensures PointsIn(s.warnings, ListOf(s.warningIdsByUser, user)) == ActivePoints(s.warnings, user)
  {
    var ids := ListOf(s.warningIdsByUser, user);
    PointsInIsSum(s.warnings, ids);
    forall id {
      ListedUnderTarget(s, id, user);
    }
    assert (set id | id in ids && id in s.warnings && s.warnings[id].active) == ActiveFor(s.warnings, user);
  }

  /** Changing one user's warnings leaves every other user's points alone. */
  lemma OtherUsersKeepPoints(w: map<string, Warning>, w1: map<string, Warning>, user: string, other: string)
    requires other != user
    requires forall id | id in w && w[id].targetUserId == other :: id in w1 && w1[id] == w[id]
    requires forall id | id in w1 && w1[id].targetUserId == other :: id in w
    requires forall id | id in w && id in w1 :: w[id].targetUserId == w1[id].targetUserId
    ensures ActivePoints(w, other) == ActivePoints(w1, other)
  {
    assert ActiveFor(w, other) == ActiveFor(w1, other);
    SumPointsFrame(w, w1, ActiveFor(w, other));
  }

  /** Recomputing the one user whose warnings changed restores the whole invariant. */
  lemma RecomputeRestores(s: State, s1: State, user: string)
    requires PointsInv(s)
    requires s1.users == s.users && PartitionedByUser(s1)
    requires Numbered(s1.warnings, "warning", s1.nextWarningId)
    requires forall id | id in s1.warnings :: s1.warnings[id].id == id && s1.warnings[id].points > 0
    requires s1.warningIdsByUser.Keys <= s.warningIdsByUser.Keys + {user}
    requires forall id | id in s.warnings ::
      id in s1.warnings && s1.warnings[id].targetUserId == s.warnings[id].targetUserId
    requires forall id | id in s.warnings && s.warnings[id].targetUserId != user :: s1.warnings[id] == s.warnings[id]
    requires forall id | id in s1.warnings && s1.warnings[id].targetUserId != user :: id in s.warnings
    ensures PointsInv(RecomputeUser(s1, user))
  {
    var s2 := RecomputeUser(s1, user);
    ListSumIsActivePoints(s1, user);
    forall u | u in s2.users ensures CacheAgrees(s2.warnings, s2.users, u) {
      if u != user {
        assert CacheAgrees(s.warnings, s.users, u);
        OtherUsersKeepPoints(s.warnings, s1.warnings, user, u);
      }
    }
  }

  lemma AddKeepsPartition(s: State, w: Warning)
    requires PartitionedByUser(s) && w.id !in s.warnings
    ensures PartitionedByUser(AddWarning(s, w))
  {
    hide Partitions;
    PartitionAdd(s.warningIdsByUser, WarningOwners(s.warnings), w.id, w.targetUserId);
    assert WarningOwners(s.warnings[w.id := w]) == WarningOwners(s.warnings)[w.id := w.targetUserId];
  }

  lemma IssueKeepsPoints(s: State, w: Warning)
    requires PointsInv(s)
    requires w.id == Id("warning", s.nextWarningId) && w.points > 0
    ensures PointsInv(RecomputeUser(AddWarning(s, w), w.targetUserId))
  {
    hide CacheAgrees, RecomputeUser, PartitionedByUser, Numbered;
    NumberedInsert(s.warnings, "warning", s.nextWarningId, w);
    AddKeepsPartition(s, w);
    var s1 := AddWarning(s, w);
    assert s1.warnings == s.warnings[w.id := w] && w.id !in s.warnings;
    assert s1.warningIdsByUser.Keys <= s.warningIdsByUser.Keys + {w.targetUserId};
    RecomputeRestores(s, s1, w.targetUserId);
  }

  lemma DeactivateKeepsPartition(s: State, id: string)
    requires PartitionedByUser(s) && id in s.warnings
    ensures PartitionedByUser(Deactivate(s, id))
  {
    hide Partitions;
    assert WarningOwners(Deactivate(s, id).warnings) == WarningOwners(s.warnings);
  }

  lemma ExpireKeepsPoints(s: State, id: string)
    requires PointsInv(s) && id in s.warnings
    ensures PointsInv(RecomputeUser(Deactivate(s, id), s.warnings[id].targetUserId))
  {
    hide CacheAgrees, RecomputeUser, PartitionedByUser, Numbered;
    var s1 := Deactivate(s, id);
    DeactivateKeepsPartition(s, id);
    NumberedUpdate(s.warnings, "warning", s.nextWarningId, id, s1.warnings[id]);
    RecomputeRestores(s, s1, s.warnings[id].targetUserId);
  }

  /** The invariant reads these five components only. */
  lemma PointsFrame(s: State, s1: State)
    requires PointsInv(s)
    requires s1.nextWarningId == s.nextWarningId && s1.warnings == s.warnings
    requires s1.warningIdsByUser == s.warningIdsByUser && s1.users == s.users
    ensures PointsInv(s1)
  {
  }

  /** A user outside the cache has no warnings, so the default state is right for them. */
  lemma NoWarningsNoPoints(s: State, user: string)
    requires PointsInv(s) && user !in s.users
    ensures forall id | id in s.warnings :: s.warnings[id].targetUserId != user
    ensures ActivePoints(s.warnings, user) == 0
  {
    forall id | id in s.warnings ensures s.warnings[id].targetUserId != user {
      ListedUnderTarget(s, id, user);
    }
    assert ActiveFor(s.warnings, user) == {};
  }

  lemma ShadowbanKeepsPoints(s: State, user: string, shadowbanned: bool)
    requires PointsInv(s)
    ensures PointsInv(s.(users := s.users[user := UserOf(s.users, user).(shadowbanned := shadowbanned)]))
  {
    hide Numbered, ActivePoints;
    var s1 := s.(users := s.users[user := UserOf(s.users, user).(shadowbanned := shadowbanned)]);
    forall u | u in s1.users ensures CacheAgrees(s1.warnings, s1.users, u) {
      if u in s.users {
        assert CacheAgrees(s.warnings, s.users, u);
      } else {
        NoWarningsNoPoints(s, u);
      }
    }
  }

  lemma ApplyKeepsPoints(s: State, actor: string, action: Action)
    requires PointsInv(s)
    ensures Apply(s, actor, action).Success? ==> PointsInv(Apply(s, actor, action).value)
  {
    hide CleanText, PointsInv, PointsIn;
    var r := Apply(s, actor, action);
    if r.Success? {
      match action
      case IssueWarning(user, target, rawReason, points) =>
        var reason := CleanReason(rawReason).value;
        var w := Warning(Id("warning", s.nextWarningId), actor, user, target, reason, points, true);
        IssueKeepsPoints(s, w);
        PointsFrame(RecomputeUser(AddWarning(s, w), user), r.value);
      case ExpireWarning(id, _) =>
        ExpireKeepsPoints(s, id);
        PointsFrame(RecomputeUser(Deactivate(s, id), s.warnings[id].targetUserId), r.value);
      case SetShadowban(user, shadowbanned) =>
        ShadowbanKeepsPoints(s, user, shadowbanned);
        PointsFrame(s.(users := r.value.users), r.value);
      case _ =>
        PointsFrame(s, r.value);
    }
  }
}
