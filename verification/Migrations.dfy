/**
 The guarded prelude of the migration runner, for any number of callers booting at once. `CREATE ... IF NOT
 EXISTS` is two steps, a check and a create, with anything in between; advisory locks belong to database
 sessions and are re-entrant; every statement may fail.
 */
module Migrations {
  import AdvisoryKey

  type Name = seq<AdvisoryKey.byte>
  type Session = nat

  datatype Outcome = Success | NoSession | LockFailed | DdlFailed | DuplicateObject | UnlockFailed

  /** The statement a caller executes next. */
  datatype Stage =
    | NeedSession
    | NeedLock
    | CheckSchema
    | CreateSchema
    | CheckTable
    | CreateTable
    | Unlock(guarded: Outcome)
    | Finished(outcome: Outcome)

  /**
   `key` is the advisory key of the schema, `pool` the sessions the caller's connection pool may hand out,
   `session` the one it got.
   */
  datatype Caller = Caller(schema: Name, key: int, pool: set<Session>, stage: Stage, session: Session)

  datatype Hold = Hold(session: Session, depth: nat)

  /** `leaked` remembers that some unlock statement failed. */
  datatype State = State(
    callers: seq<Caller>,
    locks: map<int, Hold>,
    schemas: set<Name>,
    tables: set<Name>,
    leaked: bool)

  /** `session` matters only where one is acquired; `fails` makes the statement fail without effect. */
  datatype Action = Action(caller: nat, session: Session, fails: bool)

  predicate HasSession(c: Caller) {
    !c.stage.NeedSession? && !c.stage.Finished?
  }

  /** Between lock and unlock. */
  predicate Inside(c: Caller) {
    HasSession(c) && !c.stage.NeedLock?
  }

  predicate Busy(s: State, session: Session) {
    exists i :: 0 <= i < |s.callers| && HasSession(s.callers[i]) && s.callers[i].session == session
  }

  function To(s: State, i: nat, stage: Stage): State
    requires i < |s.callers|
  {
    s.(callers := s.callers[i := s.callers[i].(stage := stage)])
  }

  function Acquire(s: State, i: nat, session: Session, fails: bool): State
    requires i < |s.callers|
  {
    if fails then To(s, i, Finished(NoSession))
    else if session in s.callers[i].pool && !Busy(s, session) then
      s.(callers := s.callers[i := s.callers[i].(stage := NeedLock, session := session)])
    else s
  }

  /** pg_advisory_lock: waits while another session holds the key. */
  function Lock(s: State, i: nat, fails: bool): State
    requires i < |s.callers|
  {
    var c := s.callers[i];
    if fails then To(s, i, Finished(LockFailed))
    else if c.key !in s.locks then To(s.(locks := s.locks[c.key := Hold(c.session, 1)]), i, CheckSchema)
    else if s.locks[c.key].session == c.session then
      To(s.(locks := s.locks[c.key := Hold(c.session, s.locks[c.key].depth + 1)]), i, CheckSchema)
    else s
  }

  /** pg_advisory_unlock: releases one level of what the session holds. */
  function Release(locks: map<int, Hold>, key: int, session: Session): map<int, Hold> {
    if key !in locks || locks[key].session != session then locks
    else if locks[key].depth <= 1 then map k | k in locks && k != key :: locks[k]
    else locks[key := Hold(session, locks[key].depth - 1)]
  }

  function UnlockStep(s: State, i: nat, guarded: Outcome, fails: bool): State
    requires i < |s.callers|
  {
    var c := s.callers[i];
    if fails then To(s.(leaked := true), i, Finished(if guarded.Success? then UnlockFailed else guarded))
    else To(s.(locks := Release(s.locks, c.key, c.session)), i, Finished(guarded))
  }

  function CallerStep(s: State, i: nat, session: Session, fails: bool): State
    requires i < |s.callers|
  {
    var c := s.callers[i];
    match c.stage
    case NeedSession => Acquire(s, i, session, fails)
    case NeedLock => Lock(s, i, fails)
    case CheckSchema =>
      To(s, i, if fails then Unlock(DdlFailed) else if c.schema in s.schemas then CheckTable else CreateSchema)
    case CreateSchema =>
      if c.schema in s.schemas then To(s, i, Unlock(DuplicateObject))
      else if fails then To(s, i, Unlock(DdlFailed))
      else To(s.(schemas := s.schemas + {c.schema}), i, CheckTable)
    case CheckTable =>
      To(s, i, if fails then Unlock(DdlFailed) else if c.schema in s.tables then Unlock(Success) else CreateTable)
    case CreateTable =>
      if c.schema in s.tables then To(s, i, Unlock(DuplicateObject))
      else if fails then To(s, i, Unlock(DdlFailed))
      else To(s.(tables := s.tables + {c.schema}), i, Unlock(Success))
    case Unlock(guarded) => UnlockStep(s, i, guarded, fails)
    case Finished(_) => s
  }

  function Step(s: State, a: Action): State {
    if a.caller < |s.callers| then CallerStep(s, a.caller, a.session, a.fails) else s
  }

  function Run(s: State, actions: seq<Action>): State {
    if actions == [] then s else Step(Run(s, actions[..|actions| - 1]), actions[|actions| - 1])
  }

  /** Nobody has started; whatever schemas and tables exist, each table lies in a schema. */
  ghost predicate Booting(s: State) {
    && (forall i :: 0 <= i < |s.callers| ==> s.callers[i].stage.NeedSession? && s.callers[i].pool != {})
    && (forall i :: 0 <= i < |s.callers| ==> s.callers[i].key == AdvisoryKey.Key(s.callers[i].schema))
    && s.locks == map[] && s.tables <= s.schemas && !s.leaked
  }

  // --- The invariant ---

  ghost predicate SessionsDistinct(s: State) {
    forall i, j :: 0 <= i < j < |s.callers| && HasSession(s.callers[i]) && HasSession(s.callers[j]) ==>
      s.callers[i].session != s.callers[j].session
  }

  ghost predicate Holds(s: State, c: Caller) {
    c.key in s.locks && s.locks[c.key].session == c.session && s.locks[c.key].depth >= 1
  }

  ghost predicate InsidersHold(s: State) {
    forall i :: 0 <= i < |s.callers| && Inside(s.callers[i]) ==> Holds(s, s.callers[i])
  }

  /** What a caller has learnt is still true when it acts on it. */
  ghost predicate CallerSound(s: State, c: Caller) {
    match c.stage
    case CreateSchema => c.schema !in s.schemas
    case CheckTable => c.schema in s.schemas
    case CreateTable => c.schema in s.schemas && c.schema !in s.tables
    case Unlock(guarded) => Settled(s, c.schema, guarded)
    case Finished(outcome) => Settled(s, c.schema, outcome)
    case _ => true
  }

  ghost predicate Settled(s: State, schema: Name, outcome: Outcome) {
    && !outcome.DuplicateObject?
    && (outcome.Success? || outcome.UnlockFailed? ==> schema in s.schemas && schema in s.tables)
  }

  ghost predicate CallersSound(s: State) {
    forall i :: 0 <= i < |s.callers| ==> CallerSound(s, s.callers[i])
  }

  ghost predicate HeldBy(s: State, key: int, i: int) {
    key in s.locks && 0 <= i < |s.callers| && Inside(s.callers[i]) && s.callers[i].key == key
      && s.callers[i].session == s.locks[key].session
  }

  /** Unless an unlock failed, every held key is held once, by a caller between lock and unlock. */
  ghost predicate NoStrayLocks(s: State) {
    !s.leaked ==> forall key :: key in s.locks ==> s.locks[key].depth == 1 && exists i :: HeldBy(s, key, i)
  }

  ghost predicate PoolsSound(s: State) {
    forall i :: 0 <= i < |s.callers| ==>
      s.callers[i].pool != {} && (HasSession(s.callers[i]) ==> s.callers[i].session in s.callers[i].pool)
  }

  /** Callers that migrate the same schema take the same lock. */
  ghost predicate KeysAgree(s: State) {
    forall i, j :: 0 <= i < |s.callers| && 0 <= j < |s.callers| && s.callers[i].schema == s.callers[j].schema ==>
      s.callers[i].key == s.callers[j].key
  }

  ghost predicate Inv(s: State) {
    && KeysAgree(s)
    && SessionsDistinct(s)
    && InsidersHold(s)
    && CallersSound(s)
    && NoStrayLocks(s)
    && PoolsSound(s)
    && s.tables <= s.schemas
  }

  /** Mutual exclusion: two callers between lock and unlock have different keys, hence different schemas. */
  lemma OneInsiderPerKey(s: State, i: nat, j: nat)
    requires Inv(s) && i < |s.callers| && j < |s.callers| && i != j
    requires Inside(s.callers[i]) && Inside(s.callers[j])
    ensures s.callers[i].key != s.callers[j].key
    ensures s.callers[i].schema != s.callers[j].schema
  {
    assert Holds(s, s.callers[i]) && Holds(s, s.callers[j]);
    if i < j {
      assert s.callers[i].session != s.callers[j].session;
    } else {
      assert s.callers[j].session != s.callers[i].session;
    }
  }

  lemma StepKeepsSessions(s: State, i: nat, session: Session, fails: bool)
    requires Inv(s) && i < |s.callers|
    ensures SessionsDistinct(CallerStep(s, i, session, fails))
  {
    hide KeysAgree, CallersSound, NoStrayLocks, PoolsSound, InsidersHold, Release;
  }

  lemma StepKeepsHolds(s: State, i: nat, session: Session, fails: bool)
    requires Inv(s) && i < |s.callers|
    ensures InsidersHold(CallerStep(s, i, session, fails))
  {
    hide KeysAgree, CallersSound, NoStrayLocks, PoolsSound, Busy;
    var t := CallerStep(s, i, session, fails);
    forall j | 0 <= j < |t.callers| && Inside(t.callers[j])
      ensures Holds(t, t.callers[j])
    {
      if j != i {
        assert t.callers[j] == s.callers[j] && Holds(s, s.callers[j]);
        if s.callers[i].stage.Unlock? {
          OneInsiderPerKey(s, i, j);
        }
      } else {
        assert Inside(s.callers[i]) ==> Holds(s, s.callers[i]);
      }
    }
  }

  lemma StepKeepsCallers(s: State, i: nat, session: Session, fails: bool)
    requires Inv(s) && i < |s.callers|
    ensures CallersSound(CallerStep(s, i, session, fails))
  {
    var t := CallerStep(s, i, session, fails);
    assert CallerSound(s, s.callers[i]);
    forall j | 0 <= j < |t.callers|
      ensures CallerSound(t, t.callers[j])
    {
      if j != i {
        assert t.callers[j] == s.callers[j] && CallerSound(s, s.callers[j]);
        if Inside(s.callers[i]) && Inside(s.callers[j]) {
          OneInsiderPerKey(s, i, j);
        }
      }
    }
  }

  lemma StepKeepsLocks(s: State, i: nat, session: Session, fails: bool)
    requires Inv(s) && i < |s.callers|
    ensures NoStrayLocks(CallerStep(s, i, session, fails))
  {
    hide KeysAgree, CallersSound, PoolsSound, Busy;
    var t := CallerStep(s, i, session, fails);
    if !t.leaked {
      forall key | key in t.locks
        ensures t.locks[key].depth == 1 && exists j :: HeldBy(t, key, j)
      {
        if key in s.locks && !(s.callers[i].stage.NeedLock? && key == s.callers[i].key) {
          var j :| HeldBy(s, key, j);
          if j == i {
            assert !s.callers[i].stage.Unlock?;
          }
          assert HeldBy(t, key, j);
        } else if key in s.locks {
          var j :| HeldBy(s, key, j);
          assert s.callers[j].session != s.callers[i].session;
          assert t.callers[j] == s.callers[j];
          assert HeldBy(t, key, j);
        } else {
          assert HeldBy(t, key, i);
        }
      }
    }
  }

  /** A step leaves every caller its schema, key and pool. */
  ghost predicate SameCallers(s: State, t: State) {
    && |t.callers| == |s.callers|
    && forall i :: 0 <= i < |s.callers| ==>
         && t.callers[i].schema == s.callers[i].schema
         && t.callers[i].key == s.callers[i].key
         && t.callers[i].pool == s.callers[i].pool
  }

  lemma StepKeepsCallerData(s: State, i: nat, session: Session, fails: bool)
    requires PoolsSound(s) && i < |s.callers|
    ensures var t := CallerStep(s, i, session, fails); SameCallers(s, t) && PoolsSound(t)
  {
    hide Release, Busy;
  }

  lemma StepKeepsInv(s: State, a: Action)
    requires Inv(s)
    ensures Inv(Step(s, a)) && SameCallers(s, Step(s, a))
  {
    if a.caller < |s.callers| {
      var t := CallerStep(s, a.caller, a.session, a.fails);
      StepKeepsCallerData(s, a.caller, a.session, a.fails);
      StepKeepsSessions(s, a.caller, a.session, a.fails);
      StepKeepsHolds(s, a.caller, a.session, a.fails);
      StepKeepsCallers(s, a.caller, a.session, a.fails);
      StepKeepsLocks(s, a.caller, a.session, a.fails);
      assert KeysAgree(t);
      assert t.tables <= t.schemas by {
        assert CallerSound(s, s.callers[a.caller]);
      }
    }
  }

  lemma {:induction false} RunKeepsInv(s: State, actions: seq<Action>)
    requires Inv(s)
    ensures Inv(Run(s, actions)) && SameCallers(s, Run(s, actions))
  {
    if actions == [] {
    } else {
      RunKeepsInv(s, actions[..|actions| - 1]);
      StepKeepsInv(Run(s, actions[..|actions| - 1]), actions[|actions| - 1]);
    }
  }

  // --- Safety over every run ---

  /**
   In every run no create ever meets an existing object, and a caller that reports success finds its schema
   and its table in place.
   */
  lemma NoDuplicateObject(s: State, actions: seq<Action>, i: nat)
    requires Booting(s) && i < |s.callers|
    ensures |Run(s, actions).callers| == |s.callers|
    ensures var t := Run(s, actions); var c := t.callers[i];
      && (c.stage.CreateSchema? ==> c.schema !in t.schemas)
      && (c.stage.CreateTable? ==> c.schema !in t.tables)
      && c.stage != Unlock(DuplicateObject) && c.stage != Finished(DuplicateObject)
      && (c.stage == Finished(Success) ==> c.schema in t.schemas && c.schema in t.tables)
  {
    RunKeepsInv(s, actions);
    assert CallerSound(Run(s, actions), Run(s, actions).callers[i]);
  }

  /** Unless an unlock statement failed, no session holds a lock except that of a caller still inside. */
  lemma FinishedCallersHoldNothing(s: State, actions: seq<Action>, key: int)
    requires Booting(s)
    requires var t := Run(s, actions); !t.leaked && key in t.locks
    ensures var t := Run(s, actions);
      exists i :: 0 <= i < |t.callers| && Inside(t.callers[i]) && t.callers[i].key == key
        && t.callers[i].session == t.locks[key].session
  {
    RunKeepsInv(s, actions);
    var t := Run(s, actions);
    var i :| HeldBy(t, key, i);
  }

  // --- What is reported ---

  datatype Statement = AcquireStatement | LockStatement | DdlStatement | UnlockStatement

  function StatementAt(stage: Stage): set<Statement> {
    match stage
    case NeedSession => {AcquireStatement}
    case NeedLock => {LockStatement}
    case CheckSchema => {DdlStatement}
    case CreateSchema => {DdlStatement}
    case CheckTable => {DdlStatement}
    case CreateTable => {DdlStatement}
    case Unlock(_) => {UnlockStatement}
    case Finished(_) => {}
  }

  /** The statements of caller `i` that failed in a run. */
  function FailuresOf(s: State, actions: seq<Action>, i: nat): set<Statement> {
    if actions == [] then {} else
      var front, last := actions[..|actions| - 1], actions[|actions| - 1];
      var before := Run(s, front);
      FailuresOf(s, front, i) +
      if last.caller == i && last.fails && i < |before.callers| then StatementAt(before.callers[i].stage) else {}
  }

  /** What a caller that went through these failures is to report. */
  predicate Reports(outcome: Outcome, failures: set<Statement>) {
    && (outcome.Success? <==> failures == {})
    && (outcome.NoSession? <==> AcquireStatement in failures)
    && (outcome.LockFailed? <==> LockStatement in failures)
    && (outcome.DdlFailed? <==> DdlStatement in failures)
    && (outcome.UnlockFailed? <==> UnlockStatement in failures && DdlStatement !in failures)
    && !outcome.DuplicateObject?
  }

  /** What may have failed of a caller in this stage. */
  predicate Fitting(stage: Stage, failures: set<Statement>) {
    match stage
    case Unlock(guarded) =>
      (guarded.Success? || guarded.DdlFailed?) && failures == if guarded.Success? then {} else {DdlStatement}
    case Finished(outcome) => Reports(outcome, failures)
    case _ => failures == {}
  }

  lemma StepFits(s: State, a: Action, i: nat, failures: set<Statement>)
    requires Inv(s) && i < |s.callers| && Fitting(s.callers[i].stage, failures)
    ensures Fitting(
              Step(s, a).callers[i].stage,
              failures + if a.caller == i && a.fails then StatementAt(s.callers[i].stage) else {})
    ensures Step(s, a).leaked <==>
              s.leaked || (a.caller < |s.callers| && a.fails && s.callers[a.caller].stage.Unlock?)
  {
    assert CallerSound(s, s.callers[i]);
    if a.caller < |s.callers| {
      assert CallerSound(s, s.callers[a.caller]);
    }
    match s.callers[i].stage
    case NeedSession =>
    case NeedLock =>
    case CheckSchema =>
    case CreateSchema =>
    case CheckTable =>
    case CreateTable =>
    case Unlock(_) =>
    case Finished(_) =>
  }

  /**
   Over every run from boot: a finished caller reports success if and only if none of its own statements failed, and
   each failure if and only if that statement of its own failed, a failed unlock after a failed creation excepted.
   */
  lemma {:induction false} OutcomeExactly(s: State, actions: seq<Action>, i: nat)
    requires Booting(s) && i < |s.callers|
    ensures |Run(s, actions).callers| == |s.callers|
    ensures Fitting(Run(s, actions).callers[i].stage, FailuresOf(s, actions, i))
  {
    hide Step, Fitting, StatementAt, Inv;
    if actions == [] {
      NothingFailed(s, i);
    } else {
      var front, last := actions[..|actions| - 1], actions[|actions| - 1];
      OutcomeExactly(s, front, i);
      BootIsSound(s);
      RunKeepsInv(s, front);
      RunKeepsInv(s, actions);
      StepFits(Run(s, front), last, i, FailuresOf(s, front, i));
      assert FailuresOf(s, front, i) + {} == FailuresOf(s, front, i);
    }
  }

  lemma NothingFailed(s: State, i: nat)
    requires Booting(s) && i < |s.callers|
    ensures Fitting(s.callers[i].stage, {})
  {
  }

  lemma BootIsSound(s: State)
    requires Booting(s)
    ensures Inv(s)
  {
  }

  lemma UnlockFailures(s: State, actions: seq<Action>, i: nat)
    requires actions != []
    ensures var front, last := actions[..|actions| - 1], actions[|actions| - 1];
      var before := Run(s, front);
      UnlockStatement in FailuresOf(s, actions, i) <==>
      || UnlockStatement in FailuresOf(s, front, i)
      || (last.caller == i && last.fails && i < |before.callers| && before.callers[i].stage.Unlock?)
  {
    hide Run;
  }

  ghost predicate SomeUnlockFailed(s: State, actions: seq<Action>) {
    exists i: nat :: i < |s.callers| && UnlockStatement in FailuresOf(s, actions, i)
  }

  lemma SomeUnlockStep(s: State, actions: seq<Action>)
    requires actions != [] && |Run(s, actions[..|actions| - 1]).callers| == |s.callers|
    ensures var front, last := actions[..|actions| - 1], actions[|actions| - 1];
      var before := Run(s, front);
      SomeUnlockFailed(s, actions) <==>
      || SomeUnlockFailed(s, front)
      || (last.caller < |s.callers| && last.fails && before.callers[last.caller].stage.Unlock?)
  {
    hide Run, FailuresOf;
    var front, last := actions[..|actions| - 1], actions[|actions| - 1];
    if SomeUnlockFailed(s, front) {
      var i: nat :| i < |s.callers| && UnlockStatement in FailuresOf(s, front, i);
      UnlockFailures(s, actions, i);
    }
    UnlockFailures(s, actions, last.caller);
    if SomeUnlockFailed(s, actions) {
      var i: nat :| i < |s.callers| && UnlockStatement in FailuresOf(s, actions, i);
      UnlockFailures(s, actions, i);
    }
  }

  /** Lock state is left behind exactly when the unlock statement of some caller failed. */
  lemma {:induction false} LeakedExactly(s: State, actions: seq<Action>)
    requires Booting(s)
    ensures Run(s, actions).leaked <==> SomeUnlockFailed(s, actions)
  {
    hide Step, Fitting, Inv, SomeUnlockFailed, FailuresOf;
    if actions == [] {
      NothingLeaked(s);
    } else {
      var front, last := actions[..|actions| - 1], actions[|actions| - 1];
      LeakedExactly(s, front);
      BootIsSound(s);
      RunKeepsInv(s, front);
      SomeUnlockStep(s, actions);
      if s.callers != [] {
        OutcomeExactly(s, front, 0);
        StepFits(Run(s, front), last, 0, FailuresOf(s, front, 0));
      } else {
        NobodySteps(Run(s, front), last);
      }
    }
  }

  lemma NothingLeaked(s: State)
    requires Booting(s)
    ensures !s.leaked && !SomeUnlockFailed(s, [])
  {
  }

  lemma NobodySteps(s: State, a: Action)
    requires s.callers == []
    ensures Step(s, a) == s
  {
  }

  // --- Progress ---

  function Rank(stage: Stage): nat {
    match stage
    case NeedSession => 7
    case NeedLock => 6
    case CheckSchema => 5
    case CreateSchema => 4
    case CheckTable => 3
    case CreateTable => 2
    case Unlock(_) => 1
    case Finished(_) => 0
  }

  function Remaining(callers: seq<Caller>): nat {
    if callers == [] then 0 else Remaining(callers[..|callers| - 1]) + Rank(callers[|callers| - 1].stage)
  }

  lemma {:induction false} RemainingAfterUpdate(callers: seq<Caller>, i: nat, c: Caller)
    requires i < |callers|
    ensures Remaining(callers[i := c]) == Remaining(callers) - Rank(callers[i].stage) + Rank(c.stage)
  {
    var front := callers[..|callers| - 1];
    if i == |callers| - 1 {
      assert callers[i := c][..|callers| - 1] == front;
    } else {
      RemainingAfterUpdate(front, i, c);
      assert callers[i := c][..|callers| - 1] == front[i := c];
    }
  }

  lemma CallerAdvances(s: State, i: nat, session: Session, fails: bool)
    requires i < |s.callers| && CallerStep(s, i, session, fails) != s
    ensures var t := CallerStep(s, i, session, fails);
      && |t.callers| == |s.callers|
      && t.callers == s.callers[i := t.callers[i]]
      && Rank(t.callers[i].stage) < Rank(s.callers[i].stage)
  {
    match s.callers[i].stage
    case NeedSession =>
    case NeedLock =>
    case CheckSchema =>
    case CreateSchema =>
    case CheckTable =>
    case CreateTable =>
    case Unlock(_) =>
    case Finished(_) =>
  }

  /** Every step that changes anything brings some caller closer to its end. */
  lemma StepsRunOut(s: State, a: Action)
    requires Step(s, a) != s
    ensures Remaining(Step(s, a).callers) < Remaining(s.callers)
  {
    CallerAdvances(s, a.caller, a.session, a.fails);
    RemainingAfterUpdate(s.callers, a.caller, Step(s, a).callers[a.caller]);
  }

  lemma {:induction false} RemainingIsBounded(callers: seq<Caller>)
    ensures Remaining(callers) <= 7 * |callers|
  {
    if callers == [] {
    } else {
      RemainingIsBounded(callers[..|callers| - 1]);
    }
  }

  /** The steps of a run that changed anything. */
  function Changes(s: State, actions: seq<Action>): nat {
    if actions == [] then 0 else
      var front := actions[..|actions| - 1];
      Changes(s, front) + if Run(s, actions) != Run(s, front) then 1 else 0
  }

  /** No run makes more than 7 steps per caller that change anything. */
  lemma {:induction false} StepsAreBounded(s: State, actions: seq<Action>)
    ensures Changes(s, actions) + Remaining(Run(s, actions).callers) <= Remaining(s.callers)
    ensures Changes(s, actions) <= 7 * |s.callers|
  {
    hide Step;
    RemainingIsBounded(s.callers);
    if actions == [] {
    } else {
      var front := actions[..|actions| - 1];
      StepsAreBounded(s, front);
      if Run(s, actions) != Run(s, front) {
        StepsRunOut(Run(s, front), actions[|actions| - 1]);
      }
    }
  }

  /** The caller that holds a key can always go on. */
  lemma InsiderCanStep(s: State, i: nat)
    requires i < |s.callers| && Inside(s.callers[i])
    ensures Step(s, Action(i, 0, false)) != s
  {
    assert Step(s, Action(i, 0, false)).callers[i].stage != s.callers[i].stage;
  }

  /** A caller that has its session can go on, or the holder of its key can. */
  lemma WithSessionSomebodyCanStep(s: State, i: nat) returns (a: Action)
    requires Inv(s) && !s.leaked && i < |s.callers| && HasSession(s.callers[i])
    ensures !a.fails && Step(s, a) != s
  {
    if Inside(s.callers[i]) {
      InsiderCanStep(s, i);
      a := Action(i, 0, false);
    } else if s.callers[i].key in s.locks {
      var j :| HeldBy(s, s.callers[i].key, j);
      InsiderCanStep(s, j);
      a := Action(j, 0, false);
    } else {
      a := Action(i, 0, false);
      assert Step(s, a).callers[i].stage == CheckSchema;
    }
  }

  /** No deadlock: while somebody is unfinished and no unlock has failed, somebody can go on without failing. */
  lemma SomebodyCanStep(s: State, actions: seq<Action>, i: nat) returns (a: Action)
    requires Booting(s) && i < |s.callers|
    requires var t := Run(s, actions);
      !t.leaked && |t.callers| == |s.callers| && !t.callers[i].stage.Finished?
    ensures !a.fails && Step(Run(s, actions), a) != Run(s, actions)
  {
    RunKeepsInv(s, actions);
    var t := Run(s, actions);
    if HasSession(t.callers[i]) {
      a := WithSessionSomebodyCanStep(t, i);
    } else {
      var session :| session in t.callers[i].pool;
      if Busy(t, session) {
        var j :| 0 <= j < |t.callers| && HasSession(t.callers[j]) && t.callers[j].session == session;
        a := WithSessionSomebodyCanStep(t, j);
      } else {
        a := Action(i, session, false);
        assert Step(t, a).callers[i].stage == NeedLock;
      }
    }
  }

  /** Where no step is left and no unlock has failed, every caller has finished. */
  lemma StuckMeansFinished(s: State, actions: seq<Action>)
    requires Booting(s)
    requires var t := Run(s, actions); !t.leaked && forall a :: Step(t, a) == t
    ensures forall c :: c in Run(s, actions).callers ==> c.stage.Finished?
  {
    var t := Run(s, actions);
    RunKeepsInv(s, actions);
    forall c | c in t.callers
      ensures c.stage.Finished?
    {
      var i :| 0 <= i < |t.callers| && t.callers[i] == c;
      if !c.stage.Finished? {
        var a := SomebodyCanStep(s, actions, i);
      }
    }
  }

  // --- Who waits for good ---

  ghost predicate DepthsPositive(s: State) {
    forall key :: key in s.locks ==> s.locks[key].depth >= 1
  }

  lemma {:induction false} RunKeepsDepths(s: State, actions: seq<Action>)
    requires DepthsPositive(s)
    ensures DepthsPositive(Run(s, actions))
  {
    if actions == [] {
    } else {
      RunKeepsDepths(s, actions[..|actions| - 1]);
    }
  }

  /** The key is held more often than callers between lock and unlock account for. */
  ghost predicate Stray(s: State, key: int) {
    key in s.locks && s.locks[key].depth > if exists i :: HeldBy(s, key, i) then 1 else 0
  }

  /** Caller `i` is about to lock, or has failed to, and its key is stray on another session. */
  ghost predicate ShutOut(s: State, i: nat) {
    && Inv(s) && DepthsPositive(s) && i < |s.callers|
    && var c := s.callers[i];
       if c.stage.NeedLock? then Stray(s, c.key) && s.locks[c.key].session != c.session else c.stage.Finished?
  }

  lemma OneHolder(s: State, key: int, i: nat, j: nat)
    requires Inv(s) && HeldBy(s, key, i) && HeldBy(s, key, j)
    ensures i == j
  {
    if i != j {
      OneInsiderPerKey(s, i, j);
    }
  }

  /** A stray key stays stray and on its session, whoever steps. */
  lemma StrayStays(s: State, key: int, j: nat, session: Session, fails: bool)
    requires Inv(s) && DepthsPositive(s) && j < |s.callers| && Stray(s, key)
    ensures var t := CallerStep(s, j, session, fails); Stray(t, key) && t.locks[key].session == s.locks[key].session
  {
    hide KeysAgree, CallersSound, NoStrayLocks, PoolsSound, Busy, Settled;
    var t := CallerStep(s, j, session, fails);
    var c := s.callers[j];
    forall i | HeldBy(t, key, i) && i != j
      ensures HeldBy(s, key, i)
    {
      assert t.callers[i] == s.callers[i];
    }
    if c.key == key && Inside(c) {
      assert Holds(s, c);
      assert HeldBy(s, key, j);
      forall i | HeldBy(s, key, i)
        ensures i == j
      {
        OneHolder(s, key, i, j);
      }
    }
    if exists i :: HeldBy(t, key, i) {
      var i :| HeldBy(t, key, i);
      if i != j {
        assert HeldBy(s, key, i);
      }
    }
  }

  lemma ShutOutStep(s: State, i: nat, a: Action)
    requires ShutOut(s, i)
    ensures ShutOut(Step(s, a), i)
  {
    StepKeepsInv(s, a);
    RunKeepsDepths(s, [a]);
    RunOne(s, a);
    if a.caller < |s.callers| {
      var t := CallerStep(s, a.caller, a.session, a.fails);
      if s.callers[i].stage.NeedLock? {
        StrayStays(s, s.callers[i].key, a.caller, a.session, a.fails);
      }
      if a.caller != i {
        assert t.callers[i] == s.callers[i];
      }
    }
  }

  lemma RunOne(s: State, a: Action)
    ensures Run(s, [a]) == Step(s, a)
  {
    assert [a][..0] == [];
    assert Run(s, [a][..0]) == s;
  }

  lemma {:induction false} ShutOutForGood(s: State, i: nat, actions: seq<Action>)
    requires ShutOut(s, i)
    ensures ShutOut(Run(s, actions), i)
  {
    hide ShutOut, Step;
    if actions == [] {
    } else {
      ShutOutForGood(s, i, actions[..|actions| - 1]);
      ShutOutStep(Run(s, actions[..|actions| - 1]), i, actions[|actions| - 1]);
    }
  }

  predicate Enters(s: State, i: nat, actions: seq<Action>) {
    var t := Run(s, actions);
    i < |t.callers| && t.callers[i].stage.CheckSchema?
  }

  lemma {:induction false} RunConcat(s: State, a: seq<Action>, b: seq<Action>)
    ensures Run(s, a + b) == Run(Run(s, a), b)
  {
    if b == [] {
      assert a + b == a;
    } else {
      RunConcat(s, a, b[..|b| - 1]);
      assert (a + b)[..|a + b| - 1] == a + b[..|b| - 1];
    }
  }

  lemma EntersThen(s: State, i: nat, a: Action, rest: seq<Action>)
    requires Enters(Step(s, a), i, rest)
    ensures Enters(s, i, [a] + rest)
  {
    RunOne(s, a);
    RunConcat(s, [a], rest);
  }

  /** A holder without arrears lets the waiting caller in. */
  lemma {:induction false} HolderYields(s: State, i: nat, j: nat) returns (actions: seq<Action>)
    requires i < |s.callers| && s.callers[i].stage.NeedLock? && i != j
    requires HeldBy(s, s.callers[i].key, j) && s.locks[s.callers[i].key].depth == 1
    ensures Enters(s, i, actions)
    decreases Rank(s.callers[j].stage)
  {
    var a := Action(j, 0, false);
    var t := Step(s, a);
    if s.callers[j].stage.Unlock? {
      assert t.callers[i] == s.callers[i] && t.callers[i].key !in t.locks;
      var enter := Action(i, 0, false);
      RunOne(t, enter);
      actions := [a] + [enter];
      EntersThen(s, i, a, [enter]);
    } else {
      var rest := HolderYields(t, i, j);
      actions := [a] + rest;
      EntersThen(s, i, a, rest);
    }
  }

  lemma MayEnter(s: State, i: nat) returns (actions: seq<Action>)
    requires DepthsPositive(s) && i < |s.callers| && s.callers[i].stage.NeedLock?
    requires Stray(s, s.callers[i].key) ==> s.locks[s.callers[i].key].session == s.callers[i].session
    ensures Enters(s, i, actions)
  {
    var key := s.callers[i].key;
    var enter := Action(i, 0, false);
    if key in s.locks && s.locks[key].session != s.callers[i].session {
      var j :| HeldBy(s, key, j);
      actions := HolderYields(s, i, j);
    } else {
      actions := [enter];
      RunOne(s, enter);
    }
  }

  /**
   At any point of any run from boot, a caller about to lock can still get in if and only if its key is not stray,
   or stray on the caller's own session. A key becomes stray when an unlock fails.
   */
  lemma CallerWaitsExactly(boot: State, before: seq<Action>, i: nat)
    requires Booting(boot)
    requires var s := Run(boot, before); i < |s.callers| && s.callers[i].stage.NeedLock?
    ensures var s := Run(boot, before); var c := s.callers[i];
      (exists actions :: Enters(s, i, actions)) <==>
      !Stray(s, c.key) || s.locks[c.key].session == c.session
  {
    var s := Run(boot, before);
    RunKeepsInv(boot, before);
    RunKeepsDepths(boot, before);
    if Stray(s, s.callers[i].key) && s.locks[s.callers[i].key].session != s.callers[i].session {
      forall actions
        ensures !Enters(s, i, actions)
      {
        ShutOutForGood(s, i, actions);
      }
    } else {
      var actions := MayEnter(s, i);
    }
  }

  /** As long as no unlock has failed no key is stray. */
  lemma NothingStrayUnlessLeaked(boot: State, actions: seq<Action>, key: int)
    requires Booting(boot)
    ensures Stray(Run(boot, actions), key) ==> Run(boot, actions).leaked
  {
    RunKeepsInv(boot, actions);
  }

  // --- What the conditions are needed for ---

  /** Two callers of one schema, on sessions 1 and 2 of pools of their own. */
  function Pair(schema: Name, keys: (int, int), stages: (Stage, Stage), locks: map<int, Hold>, created: bool,
      table: bool, leaked: bool): State {
    State(
      [Caller(schema, keys.0, {1}, stages.0, 1), Caller(schema, keys.1, {2}, stages.1, 2)],
      locks, if created then {schema} else {}, if table then {schema} else {}, leaked)
  }

  lemma PairStep(schema: Name, keys: (int, int), stages: (Stage, Stage), locks: map<int, Hold>, created: bool,
      table: bool, leaked: bool, a: Action)
    returns (t: State)
    requires a.caller < 2 && a.session == a.caller + 1
    requires (stages.0.NeedSession? || stages.0.NeedLock?) && (stages.1.NeedSession? || stages.1.NeedLock?) && !a.fails
    ensures t == Step(Pair(schema, keys, stages, locks, created, table, leaked), a)
    ensures stages.0.NeedSession? && a.caller == 0 ==>
              t == Pair(schema, keys, (NeedLock, stages.1), locks, created, table, leaked)
    ensures stages.1.NeedSession? && a.caller == 1 ==>
              t == Pair(schema, keys, (stages.0, NeedLock), locks, created, table, leaked)
  {
    var s := Pair(schema, keys, stages, locks, created, table, leaked);
    t := Step(s, a);
    assert !Busy(s, a.session) || HasSession(s.callers[a.caller]);
    if stages.0.NeedSession? && a.caller == 0 {
      assert t.callers == [Caller(schema, keys.0, {1}, NeedLock, 1), s.callers[1]];
    }
    if stages.1.NeedSession? && a.caller == 1 {
      assert t.callers == [s.callers[0], Caller(schema, keys.1, {2}, NeedLock, 2)];
    }
  }

  /** One more action at the end of a run. */
  lemma Then(s: State, run: seq<Action>, before: State, a: Action, after: State) returns (longer: seq<Action>)
    requires Run(s, run) == before && Step(before, a) == after
    ensures Run(s, longer) == after
  {
    longer := run + [a];
    assert longer[..|longer| - 1] == run;
  }

  /** What the key has to be stable for: two callers with different keys for one schema race in spite of their locks. */
  lemma DisagreeingKeysRace(schema: Name) returns (actions: seq<Action>)
    ensures Run(Pair(schema, (1, 2), (NeedSession, NeedSession), map[], false, false, false), actions)
            == Pair(schema, (1, 2), (Unlock(DuplicateObject), CheckTable),
                    map[1 := Hold(1, 1), 2 := Hold(2, 1)], true, false, false)
  {
    var c0, c1 := Action(0, 1, false), Action(1, 2, false);
    actions := [];
    var keys := (1, 2);
    var one, both := map[1 := Hold(1, 1)], map[1 := Hold(1, 1), 2 := Hold(2, 1)];
    var s0 := Pair(schema, keys, (NeedSession, NeedSession), map[], false, false, false);
    var s1 := PairStep(schema, keys, (NeedSession, NeedSession), map[], false, false, false, c0);
    var s2 := PairStep(schema, keys, (NeedLock, NeedSession), map[], false, false, false, c1);
    var s3 := Pair(schema, keys, (CheckSchema, NeedLock), one, false, false, false);
    var s4 := Pair(schema, keys, (CheckSchema, CheckSchema), both, false, false, false);
    var s5 := Pair(schema, keys, (CreateSchema, CheckSchema), both, false, false, false);
    var s6 := Pair(schema, keys, (CreateSchema, CreateSchema), both, false, false, false);
    var s7 := Pair(schema, keys, (CreateSchema, CheckTable), both, true, false, false);
    var s8 := Pair(schema, keys, (Unlock(DuplicateObject), CheckTable), both, true, false, false);
    actions := Then(s0, actions, s0, c0, s1);
    actions := Then(s0, actions, s1, c1, s2);
    actions := Then(s0, actions, s2, c0, s3);
    actions := Then(s0, actions, s3, c1, s4);
    actions := Then(s0, actions, s4, c0, s5);
    actions := Then(s0, actions, s5, c1, s6);
    actions := Then(s0, actions, s6, c1, s7);
    actions := Then(s0, actions, s7, c0, s8);
  }

  /** The first caller has failed to unlock, and the second is about to lock on another session. */
  function Wedged(schema: Name, k: int): State {
    Pair(schema, (k, k), (Finished(UnlockFailed), NeedLock), map[k := Hold(1, 1)], true, true, true)
  }

  lemma UnlockFails(schema: Name, k: int) returns (actions: seq<Action>)
    ensures Run(Pair(schema, (k, k), (NeedSession, NeedSession), map[], true, true, false), actions) ==
            Wedged(schema, k)
  {
    var c0, c1 := Action(0, 1, false), Action(1, 2, false);
    actions := [];
    var keys := (k, k);
    var held := map[k := Hold(1, 1)];
    var s0 := Pair(schema, keys, (NeedSession, NeedSession), map[], true, true, false);
    var s1 := PairStep(schema, keys, (NeedSession, NeedSession), map[], true, true, false, c0);
    var s2 := PairStep(schema, keys, (NeedLock, NeedSession), map[], true, true, false, c1);
    var s3 := Pair(schema, keys, (CheckSchema, NeedLock), held, true, true, false);
    var s4 := Pair(schema, keys, (CheckTable, NeedLock), held, true, true, false);
    var s5 := Pair(schema, keys, (Unlock(Success), NeedLock), held, true, true, false);
    actions := Then(s0, actions, s0, c0, s1);
    actions := Then(s0, actions, s1, c1, s2);
    actions := Then(s0, actions, s2, c0, s3);
    actions := Then(s0, actions, s3, c0, s4);
    actions := Then(s0, actions, s4, c0, s5);
    actions := Then(s0, actions, s5, Action(0, 1, true), Wedged(schema, k));
  }

  lemma WedgedIsStray(schema: Name, k: int)
    ensures var s := Wedged(schema, k);
      |s.callers| == 2 && s.callers[1].stage.NeedLock? && s.callers[1].key == k
      && Stray(s, k) && s.locks[k].session != s.callers[1].session
  {
  }

  ghost predicate WaitsForGood(s: State, i: nat) {
    i < |s.callers| && s.callers[i].stage.NeedLock? && forall later :: !Enters(s, i, later)
  }

  /**
   A run from boot, with the key the program derives: the unlock of the first caller fails, and the second, on
   another session, never gets in.
   */
  lemma FailedUnlockWedges(schema: Name) returns (boot: State, actions: seq<Action>)
    ensures Booting(boot) && |boot.callers| == 2 && boot.callers[0].schema == boot.callers[1].schema == schema
    ensures WaitsForGood(Run(boot, actions), 1)
  {
    hide Run, Stray, Enters, Wedged, AdvisoryKey.Key;
    var k := AdvisoryKey.Key(schema);
    boot := Pair(schema, (k, k), (NeedSession, NeedSession), map[], true, true, false);
    actions := UnlockFails(schema, k);
    WedgedIsStray(schema, k);
    CallerWaitsExactly(boot, actions, 1);
  }
}
