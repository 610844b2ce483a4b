/** The migration validator and the runner that drives an executor which may fail at any call. */
module Migrations {
  import opened Wrappers
  import opened Text

  datatype Migration = Migration(version: u32, name: string, statements: seq<string>, checksum: string)

  datatype ValidationError =
    | EmptySet
    | InvalidName(version: u32, name: string)
    | EmptyStatement(version: u32)
    | NonIncreasingVersion(previous: u32, current: u32)
    | DuplicateVersion(version: u32)

  datatype RunError =
    | Validation(error: ValidationError)
    | Statement(version: u32, name: string, statementIndex: nat, source: string)
    | MarkApplied(version: u32, name: string, source: string)

  // ----- validation -----

  predicate IsNameByte(b: byte) {
    97 <= b <= 122 || 48 <= b <= 57 || b == 95 || b == 45
  }

  predicate ValidName(name: string) {
    name != [] && forall i | 0 <= i < |Bytes(name)| :: IsNameByte(Bytes(name)[i])
  }

  predicate IsNameChar(c: char) {
    'a' <= c <= 'z' || '0' <= c <= '9' || c == '_' || c == '-'
  }

  lemma NameByteIsNameChar(c: char)
    ensures (forall b | b in Utf8(c) :: IsNameByte(b)) <==> IsNameChar(c)
  {
    assert Utf8(c)[0] in Utf8(c);
  }

  /** A name is valid iff it is not empty and made of lower-case letters, digits, underscores and dashes. */
  lemma {:induction false} ValidNameIff(name: string)
    ensures ValidName(name) <==> name != [] && forall c | c in name :: IsNameChar(c)
  {
    hide IsNameByte, IsNameChar, Utf8;
    if name == [] {
    } else {
      var first, rest := Utf8(name[0]), Bytes(name[1..]);
      NameByteIsNameChar(name[0]);
      assert name == [name[0]] + name[1..];
      assert forall c :: c in name <==> c == name[0] || c in name[1..];
      ByteIndices(first, rest);
      assert Bytes(name) == first + rest;
      assert ValidName(name)
        <==> ((forall b | b in first :: IsNameByte(b)) && (forall i | 0 <= i < |rest| :: IsNameByte(rest[i])));
      if name[1..] == [] {
        assert rest == [];
      } else {
        ValidNameIff(name[1..]);
      }
    }
  }

  lemma ByteIndices(first: seq<byte>, rest: seq<byte>)
    ensures (forall i | 0 <= i < |first + rest| :: IsNameByte((first + rest)[i])) <==>
      (forall b | b in first :: IsNameByte(b)) && forall i | 0 <= i < |rest| :: IsNameByte(rest[i])
  {
    if forall i | 0 <= i < |first + rest| :: IsNameByte((first + rest)[i]) {
      forall b | b in first ensures IsNameByte(b) {
        var i :| 0 <= i < |first| && first[i] == b;
        assert (first + rest)[i] == b;
      }
      forall i | 0 <= i < |rest| ensures IsNameByte(rest[i]) {
        assert (first + rest)[|first| + i] == rest[i];
      }
    }
  }

  predicate Blank(statement: string) {
    Trim(statement) == []
  }

  ghost predicate WellFormed(migrations: seq<Migration>) {
    && migrations != []
    && (forall i, j | 0 <= i < j < |migrations| :: migrations[i].version < migrations[j].version)
    && (forall m | m in migrations :: ValidName(m.name) && forall s | s in m.statements :: !Blank(s))
  }

  /** What is wrong with the i-th migration, in the order the checks are made. */
  ghost function Fault(migrations: seq<Migration>, i: nat): Option<ValidationError>
    requires i < |migrations|
  {
    var m := migrations[i];
    if i > 0 && m.version <= migrations[i - 1].version then
      Some(NonIncreasingVersion(migrations[i - 1].version, m.version))
    else if !ValidName(m.name) then Some(InvalidName(m.version, m.name))
    else if exists s :: s in m.statements && Blank(s) then Some(EmptyStatement(m.version))
    else None
  }

  lemma {:induction false} IncreasingStepwise(migrations: seq<Migration>, i: nat, j: nat)
    requires i < j < |migrations|
    requires forall k | i < k <= j :: migrations[k - 1].version < migrations[k].version
    ensures migrations[i].version < migrations[j].version
  {
    if i + 1 < j {
      IncreasingStepwise(migrations, i, j - 1);
    }
    assert migrations[j - 1].version < migrations[j].version;
  }

  /** A migration list is well formed iff it is not empty and no migration has a fault. */
  lemma WellFormedIffFaultless(migrations: seq<Migration>)
    ensures WellFormed(migrations) <==>
      migrations != [] && forall i | 0 <= i < |migrations| :: Fault(migrations, i) == None
  {
    hide ValidName, Blank;
    if forall i | 0 <= i < |migrations| :: Fault(migrations, i) == None {
      forall k | 0 < k < |migrations| ensures migrations[k - 1].version < migrations[k].version {
        assert Fault(migrations, k) == None;
      }
      forall i, j | 0 <= i < j < |migrations| ensures migrations[i].version < migrations[j].version {
        IncreasingStepwise(migrations, i, j);
      }
      forall m | m in migrations ensures ValidName(m.name) && forall s | s in m.statements :: !Blank(s) {
        var i :| 0 <= i < |migrations| && migrations[i] == m;
        assert Fault(migrations, i) == None;
      }
    }
    if WellFormed(migrations) {
      forall i | 0 <= i < |migrations| ensures Fault(migrations, i) == None {
        assert migrations[i] in migrations;
      }
    }
  }

  /** `validate`: succeeds iff well formed, reports the first fault otherwise, and never a duplicate version. */
  method Validate(migrations: seq<Migration>) returns (r: Result<(), ValidationError>)
    ensures r.Success? <==> WellFormed(migrations)
    ensures r.Failure? && migrations == [] ==> r.error == EmptySet
    ensures r.Failure? && migrations != [] ==>
      exists i :: 0 <= i < |migrations| && Fault(migrations, i) == Some(r.error)
                  && forall j | 0 <= j < i :: Fault(migrations, j) == None
    ensures r.Failure? ==> !r.error.DuplicateVersion?
  {
    hide ValidName, Blank;
    WellFormedIffFaultless(migrations);
    if migrations == [] {
      return Failure(EmptySet);
    }
    hide WellFormed;
    var previous: Option<u32> := None;
    var seen: set<u32> := {};
    for i := 0 to |migrations|
      invariant forall j | 0 <= j < i :: Fault(migrations, j) == None
      invariant previous == if i == 0 then None else Some(migrations[i - 1].version)
      invariant forall v :: v in seen <==> exists j :: 0 <= j < i && migrations[j].version == v
      invariant forall v | v in seen :: previous.Some? && v <= previous.value
    {
      var m := migrations[i];
      if previous.Some? && m.version <= previous.value {
        assert Fault(migrations, i) == Some(NonIncreasingVersion(previous.value, m.version));
        return Failure(NonIncreasingVersion(previous.value, m.version));
      }
      previous := Some(m.version);
      if m.version !in seen {
        seen := seen + {m.version};
        assert migrations[i].version == m.version;
      } else {
        assert false;
      }
      if !ValidName(m.name) {
        assert Fault(migrations, i) == Some(InvalidName(m.version, m.name));
        return Failure(InvalidName(m.version, m.name));
      }
      for k := 0 to |m.statements|
        invariant forall j | 0 <= j < k :: !Blank(m.statements[j])
      {
        if Blank(m.statements[k]) {
          assert m.statements[k] in m.statements;
          assert Fault(migrations, i) == Some(EmptyStatement(m.version));
          return Failure(EmptyStatement(m.version));
        }
      }
    }
    return Success(());
  }

  // ----- running -----

  /** What an executor is asked to do. */
  datatype Call = Execute(statement: string) | Mark(migration: Migration)

  /** Any executor: what it answers may depend on everything it was asked before. */
  class Executor {
    const fails: (seq<Call>, Call) -> Option<string>
    var trace: seq<Call>

    constructor (fails: (seq<Call>, Call) -> Option<string>)
      ensures this.fails == fails && trace == []
    {
      this.fails := fails;
      trace := [];
    }

    method ExecuteStatement(statement: string) returns (r: Result<(), string>)
      modifies this
      ensures trace == old(trace) + [Execute(statement)]
      ensures r == match fails(old(trace), Execute(statement))
                   case None => Success(())
                   case Some(source) => Failure(source)
    {
      var answer := fails(trace, Execute(statement));
      trace := trace + [Execute(statement)];
      r := if answer.None? then Success(()) else Failure(answer.value);
    }

    method MarkApplied(migration: Migration) returns (r: Result<(), string>)
      modifies this
      ensures trace == old(trace) + [Mark(migration)]
      ensures r == match fails(old(trace), Mark(migration))
                   case None => Success(())
                   case Some(source) => Failure(source)
    {
      var answer := fails(trace, Mark(migration));
      trace := trace + [Mark(migration)];
      r := if answer.None? then Success(()) else Failure(answer.value);
    }
  }

  /** One intended call, with what the error would say about it. */
  datatype Planned = Planned(call: Call, version: u32, name: string, statementIndex: Option<nat>)

  /** The calls still due for a migration from its k-th statement on. */
  function StepsFrom(m: Migration, k: nat): seq<Planned>
    requires k <= |m.statements|
    decreases |m.statements| - k
  {
    if k == |m.statements| then [Planned(Mark(m), m.version, m.name, None)]
    else [Planned(Execute(m.statements[k]), m.version, m.name, Some(k))] + StepsFrom(m, k + 1)
  }

  /** The in-order plan: each migration's statements, then its mark. */
  function Plan(migrations: seq<Migration>): seq<Planned> {
    if migrations == [] then [] else StepsFrom(migrations[0], 0) + Plan(migrations[1..])
  }

  function ErrorAt(p: Planned, source: string): RunError {
    match p.statementIndex
    case Some(i) => Statement(p.version, p.name, i, source)
    case None => MarkApplied(p.version, p.name, source)
  }

  /** Making the planned calls until one fails. */
  function Follow(fails: (seq<Call>, Call) -> Option<string>, trace: seq<Call>, plan: seq<Planned>)
    : (seq<Call>, Result<(), RunError>)
    decreases plan
  {
    if plan == [] then (trace, Success(()))
    else match fails(trace, plan[0].call)
      case None => Follow(fails, trace + [plan[0].call], plan[1..])
      case Some(source) => (trace + [plan[0].call], Failure(ErrorAt(plan[0], source)))
  }

  lemma FollowStatement(fails: (seq<Call>, Call) -> Option<string>, trace: seq<Call>, m: Migration, k: nat,
                        rest: seq<Planned>)
    requires k < |m.statements|
    ensures Follow(fails, trace, StepsFrom(m, k) + rest)
            == match fails(trace, Execute(m.statements[k]))
               case None => Follow(fails, trace + [Execute(m.statements[k])], StepsFrom(m, k + 1) + rest)
               case Some(source) =>
                 (trace + [Execute(m.statements[k])], Failure(Statement(m.version, m.name, k, source)))
  {
    assert (StepsFrom(m, k) + rest)[1..] == StepsFrom(m, k + 1) + rest;
  }

  lemma FollowMark(fails: (seq<Call>, Call) -> Option<string>, trace: seq<Call>, m: Migration, rest: seq<Planned>)
    ensures Follow(fails, trace, StepsFrom(m, |m.statements|) + rest)
            == match fails(trace, Mark(m))
               case None => Follow(fails, trace + [Mark(m)], rest)
               case Some(source) => (trace + [Mark(m)], Failure(RunError.MarkApplied(m.version, m.name, source)))
  {
    assert (StepsFrom(m, |m.statements|) + rest)[1..] == rest;
  }

  lemma PlanFrom(migrations: seq<Migration>, i: nat)
    requires i < |migrations|
    ensures Plan(migrations[i..]) == StepsFrom(migrations[i], 0) + Plan(migrations[i + 1..])
  {
    assert migrations[i..][1..] == migrations[i + 1..];
  }

  /** `run`: the nested loops do exactly what the plan says, up to the first failure. */
  method Run(migrations: seq<Migration>, executor: Executor) returns (r: Result<(), RunError>)
    modifies executor
    ensures !WellFormed(migrations) ==> r.Failure? && r.error.Validation? && executor.trace == old(executor.trace)
    ensures WellFormed(migrations) ==>
      (executor.trace, r) == Follow(executor.fails, old(executor.trace), Plan(migrations))
  {
    var valid := Validate(migrations);
    if valid.Failure? {
      return Failure(Validation(valid.error));
    }
    ghost var outcome := Follow(executor.fails, executor.trace, Plan(migrations));
    assert migrations[0..] == migrations;
    assert Plan(migrations[|migrations|..]) == [];
    assert forall trace :: Follow(executor.fails, trace, []) == (trace, Success(()));
    hide WellFormed, StepsFrom, Plan, Follow;
    for i := 0 to |migrations|
      invariant outcome == Follow(executor.fails, executor.trace, Plan(migrations[i..]))
    {
      var m := migrations[i];
      PlanFrom(migrations, i);
      for k := 0 to |m.statements|
        invariant outcome == Follow(executor.fails, executor.trace, StepsFrom(m, k) + Plan(migrations[i + 1..]))
      {
        FollowStatement(executor.fails, executor.trace, m, k, Plan(migrations[i + 1..]));
        var done := executor.ExecuteStatement(m.statements[k]);
        if done.Failure? {
          return Failure(Statement(m.version, m.name, k, done.error));
        }
      }
      FollowMark(executor.fails, executor.trace, m, Plan(migrations[i + 1..]));
      var marked := executor.MarkApplied(m);
      if marked.Failure? {
        return Failure(RunError.MarkApplied(m.version, m.name, marked.error));
      }
    }
    return Success(());
  }

  // ----- what a run leaves behind -----

  function Calls(plan: seq<Planned>): (r: seq<Call>)
    ensures |r| == |plan| && forall i | 0 <= i < |plan| :: r[i] == plan[i].call
  {
    if plan == [] then [] else [plan[0].call] + Calls(plan[1..])
  }

  /** A run in terms of the number of calls made: all but the last succeeded, and the error names the last one. */
  ghost predicate StoppedAfter(fails: (seq<Call>, Call) -> Option<string>, trace: seq<Call>, plan: seq<Planned>,
                               n: nat, r: Result<(), RunError>)
  {
    && n <= |plan|
    && (r.Success? ==> n == |plan|)
    && (r.Failure? ==>
          && n > 0
          && fails(trace + Calls(plan)[..n - 1], plan[n - 1].call).Some?
          && r.error == ErrorAt(plan[n - 1], fails(trace + Calls(plan)[..n - 1], plan[n - 1].call).value))
    && (forall i | 0 <= i < (if r.Success? then n else n - 1) :: fails(trace + Calls(plan)[..i], plan[i].call) == None)
  }

  lemma CallsShift(trace: seq<Call>, plan: seq<Planned>, i: nat)
    requires i < |plan|
    ensures trace + Calls(plan)[..i + 1] == trace + [plan[0].call] + Calls(plan[1..])[..i]
  {
    var c, rest := plan[0].call, Calls(plan[1..]);
    assert Calls(plan) == [c] + rest;
    hide Calls;
    ConsTake(trace, c, rest, i);
  }

  lemma ConsTake<T>(front: seq<T>, x: T, rest: seq<T>, i: nat)
    requires i <= |rest|
    ensures front + ([x] + rest)[..i + 1] == front + [x] + rest[..i]
  {
  }

  lemma {:induction false} StoppedLater(fails: (seq<Call>, Call) -> Option<string>, trace: seq<Call>,
                                        plan: seq<Planned>, n: nat, r: Result<(), RunError>)
    requires plan != [] && fails(trace, plan[0].call) == None
    requires StoppedAfter(fails, trace + [plan[0].call], plan[1..], n, r)
    ensures StoppedAfter(fails, trace, plan, n + 1, r)
    ensures trace + Calls(plan)[..n + 1] == trace + [plan[0].call] + Calls(plan[1..])[..n]
  {
    hide Calls;
    assert trace + Calls(plan)[..0] == trace;
    forall i | 0 <= i <= n {
      CallsShift(trace, plan, i);
    }
    forall i | 0 <= i < (if r.Success? then n + 1 else n)
      ensures fails(trace + Calls(plan)[..i], plan[i].call) == None
    {
      if i > 0 {
        CallsShift(trace, plan, i - 1);
      }
    }
  }

  /** The trace of a run is a prefix of the plan. */
  lemma {:induction false} TraceIsPrefix(fails: (seq<Call>, Call) -> Option<string>, trace: seq<Call>,
                                         plan: seq<Planned>) returns (n: nat)
    ensures n <= |plan|
    ensures Follow(fails, trace, plan).0 == trace + Calls(plan)[..n]
    ensures StoppedAfter(fails, trace, plan, n, Follow(fails, trace, plan).1)
    decreases plan
  {
    if plan == [] {
      n := 0;
    } else {
      var call := plan[0].call;
      assert trace + Calls(plan)[..0] == trace;
      if fails(trace, call).Some? {
        n := 1;
        assert Calls(plan)[..1] == [call];
      } else {
        var m := TraceIsPrefix(fails, trace + [call], plan[1..]);
        hide StoppedAfter, Calls;
        StoppedLater(fails, trace, plan, m, Follow(fails, trace, plan).1);
        n := m + 1;
      }
    }
  }

  lemma {:induction false} StepsShape(m: Migration, k: nat)
    requires k <= |m.statements|
    ensures var steps := StepsFrom(m, k);
            && |steps| == |m.statements| - k + 1
            && steps[|steps| - 1] == Planned(Mark(m), m.version, m.name, None)
            && forall i | 0 <= i < |steps| - 1 ::
                 steps[i] == Planned(Execute(m.statements[k + i]), m.version, m.name, Some(k + i))
    decreases |m.statements| - k
  {
    if k < |m.statements| {
      StepsShape(m, k + 1);
    }
  }

  lemma {:induction false} PlanAppend(xs: seq<Migration>, ys: seq<Migration>)
    ensures Plan(xs + ys) == Plan(xs) + Plan(ys)
  {
    if xs == [] {
      assert xs + ys == ys;
    } else {
      assert (xs + ys)[1..] == xs[1..] + ys;
      PlanAppend(xs[1..], ys);
    }
  }

  lemma PlanOfOne(m: Migration)
    ensures Plan([m]) == StepsFrom(m, 0)
  {
    assert [m][1..] == [];
    assert StepsFrom(m, 0) + [] == StepsFrom(m, 0);
  }

  lemma PlanOfPrefix(migrations: seq<Migration>, i: nat)
    requires i < |migrations|
    ensures Plan(migrations[..i + 1]) == Plan(migrations[..i]) + StepsFrom(migrations[i], 0)
  {
    hide Plan, StepsFrom;
    PlanOfOne(migrations[i]);
    assert migrations[..i + 1] == migrations[..i] + [migrations[i]];
    PlanAppend(migrations[..i], [migrations[i]]);
  }

  lemma PlanSplit(migrations: seq<Migration>, i: nat)
    requires i <= |migrations|
    ensures Plan(migrations) == Plan(migrations[..i]) + Plan(migrations[i..])
  {
    assert migrations == migrations[..i] + migrations[i..];
    PlanAppend(migrations[..i], migrations[i..]);
  }

  /** A step of the plan belongs to one of the migrations. */
  lemma {:induction false} StepOfPlan(migrations: seq<Migration>, n: nat) returns (i: nat, k: nat)
    requires n < |Plan(migrations)|
    ensures i < |migrations| && n == |Plan(migrations[..i])| + k && k <= |migrations[i].statements|
    ensures k == |migrations[i].statements| ==>
      Plan(migrations)[n] == Planned(Mark(migrations[i]), migrations[i].version, migrations[i].name, None)
    ensures k < |migrations[i].statements| ==>
      Plan(migrations)[n]
      == Planned(Execute(migrations[i].statements[k]), migrations[i].version, migrations[i].name, Some(k))
  {
    var first := migrations[0];
    StepsShape(first, 0);
    assert migrations[..0] == [];
    if n < |StepsFrom(first, 0)| {
      i, k := 0, n;
    } else {
      var i1, k1 := StepOfPlan(migrations[1..], n - |StepsFrom(first, 0)|);
      i, k := i1 + 1, k1;
      assert migrations[..i] == [first] + migrations[1..][..i1];
      assert migrations[..i][1..] == migrations[1..][..i1];
      assert migrations[i] == migrations[1..][i1];
    }
  }

  lemma CallsOfPrefix(a: seq<Planned>, b: seq<Planned>)
    ensures Calls(a + b)[..|a|] == Calls(a)
  {
  }

  lemma TraceFromNothing(fails: (seq<Call>, Call) -> Option<string>, plan: seq<Planned>) returns (n: nat)
    ensures n <= |plan| && Follow(fails, [], plan).0 == Calls(plan)[..n]
    ensures StoppedAfter(fails, [], plan, n, Follow(fails, [], plan).1)
  {
    hide StoppedAfter, Calls, Follow;
    n := TraceIsPrefix(fails, [], plan);
    assert [] + Calls(plan)[..n] == Calls(plan)[..n];
  }

  /** The mark of a migration stands in the plan once, right after its own statements. */
  lemma MarkPosition(migrations: seq<Migration>, i: nat, p: nat)
    requires WellFormed(migrations) && i < |migrations|
    requires p < |Plan(migrations)| && Plan(migrations)[p].call == Mark(migrations[i])
    ensures p + 1 == |Plan(migrations[..i + 1])|
  {
    hide WellFormed, Plan, StepsFrom;
    var j, k := StepOfPlan(migrations, p);
    SameVersionSame(migrations, i, j);
    PlanOfPrefix(migrations, i);
    StepsShape(migrations[i], 0);
  }

  /** A version is marked only after all its own statements and everything of all earlier migrations. */
  lemma {:induction false} MarkedAfterEverythingBefore(fails: (seq<Call>, Call) -> Option<string>,
                                                       migrations: seq<Migration>, i: nat)
    requires WellFormed(migrations) && i < |migrations|
    requires Mark(migrations[i]) in Follow(fails, [], Plan(migrations)).0
    ensures Calls(Plan(migrations[..i + 1])) <= Follow(fails, [], Plan(migrations)).0
  {
    hide WellFormed, Plan, StepsFrom, Follow, StoppedAfter, Calls;
    var plan := Plan(migrations);
    var trace := Follow(fails, [], plan).0;
    var n := TraceFromNothing(fails, plan);
    var p :| 0 <= p < |trace| && trace[p] == Mark(migrations[i]);
    assert Calls(plan)[p] == trace[p];
    MarkPosition(migrations, i, p);
    PlanSplit(migrations, i + 1);
    CallsOfPrefix(Plan(migrations[..i + 1]), Plan(migrations[i + 1..]));
    TakePrefix(Calls(plan), n, p + 1);
  }

  lemma TakePrefix(xs: seq<Call>, n: nat, k: nat)
    requires k <= n <= |xs|
    ensures xs[..k] <= xs[..n]
  {
  }

  lemma SameVersionSame(migrations: seq<Migration>, i: nat, j: nat)
    requires WellFormed(migrations) && i < |migrations| && j < |migrations|
    ensures migrations[i].version == migrations[j].version ==> i == j
  {
  }

  /** A failed statement is located: the trace is all earlier migrations, then this one up to the reported statement. */
  lemma StatementErrorLocates(fails: (seq<Call>, Call) -> Option<string>, migrations: seq<Migration>)
    returns (i: nat)
    requires WellFormed(migrations)
    requires Follow(fails, [], Plan(migrations)).1.Failure? && Follow(fails, [], Plan(migrations)).1.error.Statement?
    ensures var (trace, r) := Follow(fails, [], Plan(migrations));
            var e := r.error;
            && i < |migrations| && migrations[i].version == e.version && migrations[i].name == e.name
            && (forall j | 0 <= j < |migrations| && migrations[j].version == e.version :: j == i)
            && e.statementIndex < |migrations[i].statements|
            && |trace| == |Plan(migrations[..i])| + e.statementIndex + 1
            && trace <= Calls(Plan(migrations))
            && trace[|trace| - 1] == Execute(migrations[i].statements[e.statementIndex])
            && fails(trace[..|trace| - 1], trace[|trace| - 1]) == Some(e.source)
  {
    hide WellFormed, Plan, StepsFrom, Follow;
    var plan := Plan(migrations);
    var (trace, r) := Follow(fails, [], plan);
    var n := TraceFromNothing(fails, plan);
    assert [] + Calls(plan)[..n - 1] == trace[..n - 1];
    var k: nat;
    i, k := StepOfPlan(migrations, n - 1);
    forall j | 0 <= j < |migrations| && migrations[j].version == r.error.version ensures j == i {
      SameVersionSame(migrations, i, j);
    }
  }

  /** Everything there is to do, in order: of each migration every statement, then its mark. */
  function AllCalls(migrations: seq<Migration>): seq<Call> {
    if migrations == [] then []
    else
      var before, m := migrations[..|migrations| - 1], migrations[|migrations| - 1];
      AllCalls(before) + seq(|m.statements|, i requires 0 <= i < |m.statements| => Execute(m.statements[i])) + [Mark(m)]
  }

  lemma {:induction false} StepCalls(m: Migration, k: nat)
    requires k <= |m.statements|
    ensures Calls(StepsFrom(m, k))
            == seq(|m.statements|, i requires 0 <= i < |m.statements| => Execute(m.statements[i]))[k..] + [Mark(m)]
    decreases |m.statements| - k
  {
    var all := seq(|m.statements|, i requires 0 <= i < |m.statements| => Execute(m.statements[i]));
    if k == |m.statements| {
    } else {
      StepCalls(m, k + 1);
      assert all[k..] == [all[k]] + all[k + 1..];
      assert StepsFrom(m, k)[1..] == StepsFrom(m, k + 1);
    }
  }

  lemma CallsAppend(a: seq<Planned>, b: seq<Planned>)
    ensures Calls(a + b) == Calls(a) + Calls(b)
  {
  }

  lemma {:induction false} PlanIsEverything(migrations: seq<Migration>)
    ensures Calls(Plan(migrations)) == AllCalls(migrations)
  {
    if migrations == [] {
      assert Calls(Plan(migrations)) == [];
    } else {
      hide Plan, StepsFrom, Calls;
      var before, m := migrations[..|migrations| - 1], migrations[|migrations| - 1];
      assert migrations == before + [m];
      PlanIsEverything(before);
      PlanAppend(before, [m]);
      PlanOfOne(m);
      StepCalls(m, 0);
      CallsAppend(Plan(before), StepsFrom(m, 0));
      var statements := seq(|m.statements|, i requires 0 <= i < |m.statements| => Execute(m.statements[i]));
      assert statements[0..] == statements;
      assert AllCalls(before) + statements + [Mark(m)] == AllCalls(before) + (statements + [Mark(m)]);
    }
  }

  /** A run that succeeds has executed every statement of every migration once, in order, and marked each after its own;
      a run that fails stops at a prefix of that. */
  lemma RunDoesEverything(fails: (seq<Call>, Call) -> Option<string>, migrations: seq<Migration>)
    ensures Follow(fails, [], Plan(migrations)).0 <= AllCalls(migrations)
    ensures Follow(fails, [], Plan(migrations)).1.Success? ==>
      Follow(fails, [], Plan(migrations)).0 == AllCalls(migrations)
  {
    hide Plan, Follow, AllCalls, Calls;
    var n := TraceFromNothing(fails, Plan(migrations));
    PlanIsEverything(migrations);
    assert Calls(Plan(migrations))[..|Plan(migrations)|] == Calls(Plan(migrations));
  }

  /** A failed mark is located: the trace is all earlier migrations, then the whole reported one, its mark the last. */
  lemma MarkErrorLocates(fails: (seq<Call>, Call) -> Option<string>, migrations: seq<Migration>) returns (i: nat)
    requires WellFormed(migrations)
    requires Follow(fails, [], Plan(migrations)).1.Failure? && Follow(fails, [], Plan(migrations)).1.error.MarkApplied?
    ensures var (trace, r) := Follow(fails, [], Plan(migrations));
            var e := r.error;
            && i < |migrations| && migrations[i].version == e.version && migrations[i].name == e.name
            && (forall j | 0 <= j < |migrations| && migrations[j].version == e.version :: j == i)
            && trace == Calls(Plan(migrations[..i + 1]))
            && trace != [] && trace[|trace| - 1] == Mark(migrations[i])
            && fails(trace[..|trace| - 1], trace[|trace| - 1]) == Some(e.source)
  {
    hide WellFormed, Plan, StepsFrom, Follow;
    var plan := Plan(migrations);
    var (trace, r) := Follow(fails, [], plan);
    var n := TraceFromNothing(fails, plan);
    assert [] + Calls(plan)[..n - 1] == trace[..n - 1];
    var k: nat;
    i, k := StepOfPlan(migrations, n - 1);
    PlanOfPrefix(migrations, i);
    StepsShape(migrations[i], 0);
    PlanSplit(migrations, i + 1);
    CallsOfPrefix(Plan(migrations[..i + 1]), Plan(migrations[i + 1..]));
    forall j | 0 <= j < |migrations| && migrations[j].version == r.error.version ensures j == i {
      SameVersionSame(migrations, i, j);
    }
  }
}
