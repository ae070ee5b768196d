/** The daily cap and the clean end state, over all runs of the signing protocol. */
module Cap {
  import opened Accounts
  import opened Engine
  import opened Int64
  import opened Policy
  import opened Signing
  import opened Store
  import opened Wrappers

  // ----- Nothing is left once every session has ended -----

  predicate Finished(sys: System) {
    forall id :: 0 <= id < |sys.sessions| ==> sys.sessions[id].phase.Ended?
  }

  lemma {:induction false} EmptyTotal(setup: Setup, sessions: seq<Session>, standings: set<Standing>, slot: Slot)
    requires forall id :: 0 <= id < |sessions| ==> StandingOf(sessions[id]) !in standings
    ensures Total(setup, sessions, standings, slot) == 0
  {
    if sessions != [] {
      EmptyTotal(setup, sessions[..|sessions| - 1], standings, slot);
    }
  }

  lemma WrapCancels(a: int, b: int)
    ensures Wrap(a + b) == Wrap(a) <==> Wrap(b) == 0
  {
    WrapAdd(b, a);
    WrapAdd(a + b, 0 - a);
    WrapAdd(a, 0 - a);
  }

  /**
   * Once all sessions have ended, only broadcast spend and recorded overrides
   * are on a counter if and only if nothing leaked onto it.
   */
  lemma NothingUncommittedIff(setup: Setup, today: Day, run: seq<Step>, sys: System, slot: Slot)
    requires After(Initial(setup, today), run) == Some(sys) && Finished(sys)
    ensures Read(sys.ledger, slot) == Wrap(
      Total(setup, sys.sessions, {Committed}, slot) + Total(setup, sys.sessions, {Overridden}, slot))
      <==> Wrap(Total(setup, sys.sessions, {Leaked}, slot)) == 0
  {
    Conservation(setup, today, run, sys, slot);
    EmptyTotal(setup, sys.sessions, {Held}, slot);
    WrapCancels(Total(setup, sys.sessions, {Committed}, slot) + Total(setup, sys.sessions, {Overridden}, slot),
                Total(setup, sys.sessions, {Leaked}, slot));
  }

  // ----- What leaks -----

  /** The session asked for its rollback and the store refused the write. */
  predicate RefusedRollback(run: seq<Step>, id: nat) {
    Act(id, Release(false)) in run
  }

  /** What a rollback of this session has to take back. */
  function Owed(setup: Setup, s: Session): Option<Write<Slot>> {
    if s.checkDay.None? then None else Claim(setup, s.wallet, s.tx, s.checkDay.value)
  }

  lemma ReleaseLoses(setup: Setup, today: Day, ledger: Ledger, s: Session, a: Action)
    requires SessionOk(setup, s) && Advance(setup, today, ledger, s, a).Some?
    ensures
      var next := Advance(setup, today, ledger, s, a).value.session;
      && !s.phase.Ended?
      && (next.phase == Ended(ReleaseLost) <==> a == Release(false) && Owed(setup, s).Some?)
      && (a.Release? ==> next == s.(phase := next.phase) && next.phase.Ended?)
  {
  }

  /** A leak so far is a refused rollback so far that owed something. */
  predicate LostAs(setup: Setup, s: Session, refused: bool) {
    (s.phase == Ended(ReleaseLost) <==> refused && Owed(setup, s).Some?) && (refused ==> s.phase.Ended?)
  }

  lemma MoveLosesAs(setup: Setup, today: Day, ledger: Ledger, s: Session, a: Action, refused: bool)
    requires SessionOk(setup, s) && Advance(setup, today, ledger, s, a).Some? && LostAs(setup, s, refused)
    ensures LostAs(setup, Advance(setup, today, ledger, s, a).value.session, refused || a == Release(false))
  {
    ReleaseLoses(setup, today, ledger, s, a);
  }

  lemma OneMoreRefusal(front: seq<Step>, step: Step, id: nat)
    ensures RefusedRollback(front + [step], id) <==> RefusedRollback(front, id) || step == Act(id, Release(false))
  {
  }

  /** Only sessions that have arrived act. */
  lemma {:induction false} NoEarlierAct(setup: Setup, today: Day, run: seq<Step>, sys: System, id: nat)
    requires After(Initial(setup, today), run) == Some(sys) && id >= |sys.sessions|
    ensures !RefusedRollback(run, id)
  {
    if run != [] {
      var front, step := run[..|run| - 1], run[|run| - 1];
      assert run == front + [step];
      OneMoreRefusal(front, step, id);
      NoEarlierAct(setup, today, front, After(Initial(setup, today), front).value, id);
    }
  }

  lemma {:induction false} RunLosesAs(setup: Setup, today: Day, run: seq<Step>, sys: System, id: nat)
    requires After(Initial(setup, today), run) == Some(sys) && id < |sys.sessions|
    ensures LostAs(setup, sys.sessions[id], RefusedRollback(run, id))
  {
    if run != [] {
      var front, step := run[..|run| - 1], run[|run| - 1];
      var before := After(Initial(setup, today), front).value;
      assert run == front + [step];
      OneMoreRefusal(front, step, id);
      ReachableConserved(setup, today, front);
      if id >= |before.sessions| {
        NoEarlierAct(setup, today, front, before, id);
      } else {
        RunLosesAs(setup, today, front, before, id);
        if step.Act? && step.id == id {
          MoveLosesAs(setup, before.today, before.ledger, before.sessions[id], step.action, RefusedRollback(front, id));
        }
      }
    }
  }

  /** A session ends as leaked exactly when it owed an amount and its rollback was refused. */
  lemma LostIff(setup: Setup, today: Day, run: seq<Step>, sys: System, id: nat)
    requires After(Initial(setup, today), run) == Some(sys) && id < |sys.sessions|
    ensures sys.sessions[id].phase == Ended(ReleaseLost) <==>
              RefusedRollback(run, id) && Owed(setup, sys.sessions[id]).Some?
    ensures RefusedRollback(run, id) ==> sys.sessions[id].phase.Ended?
  {
    RunLosesAs(setup, today, run, sys, id);
  }

  /** The store accepted every rollback write of the run. */
  predicate RollbacksCommit(run: seq<Step>) {
    forall k :: 0 <= k < |run| && run[k].Act? ==> run[k].action != Release(false)
  }

  /** If the store refused no rollback, only broadcast spend and recorded overrides are left in the end. */
  lemma NothingUncommittedRemains(setup: Setup, today: Day, run: seq<Step>, sys: System, slot: Slot)
    requires After(Initial(setup, today), run) == Some(sys) && RollbacksCommit(run) && Finished(sys)
    ensures Read(sys.ledger, slot) == Wrap(
      Total(setup, sys.sessions, {Committed}, slot) + Total(setup, sys.sessions, {Overridden}, slot))
  {
    NothingUncommittedIff(setup, today, run, sys, slot);
    forall id | 0 <= id < |sys.sessions|
      ensures sys.sessions[id].phase != Ended(ReleaseLost)
    {
      LostIff(setup, today, run, sys, id);
    }
    EmptyTotal(setup, sys.sessions, {Leaked}, slot);
  }

  // ----- The cap -----

  predicate ValidRules(setup: Setup) {
    setup.rules.Some? ==> forall w :: w in setup.rules.value ==> Valid(setup.rules.value[w])
  }

  /** The daily limit that applies to a slot, in on-chain units; zero where nothing is tracked. */
  function LimitAt(setup: Setup, slot: Slot): real {
    var p := PolicyOf(setup, slot.wallet);
    if p.None? then 0.0 else DailyLimit(p.value, slot.token)
  }

  predicate Sane(wallet: string, tx: Tx) {
    0 <= IntentOf(wallet, tx).tokenAmount
  }

  predicate SaneStep(step: Step) {
    step.Arrive? ==> Sane(step.wallet, step.tx)
  }

  function WriteOf(sys: System, step: Step): Option<Write<Slot>> {
    if step.Act? && step.id < |sys.sessions| then
      var move := Advance(sys.setup, sys.today, sys.ledger, sys.sessions[step.id], step.action);
      if move.Some? then move.value.write else None
    else None
  }

  /** The writes that add to a counter; a rollback takes away. */
  predicate Adds(a: Action) {
    a.Reserve? || a.Record?
  }

  function AmountOf(s: Session): int {
    IntentOf(s.wallet, s.tx).tokenAmount
  }

  /** The unguarded addition of this step would not wrap if it added the true amount. */
  predicate Fits(sys: System, step: Step) {
    var write := WriteOf(sys, step);
    write.Some? && Adds(step.action) ==> Read(sys.ledger, write.value.key) + AmountOf(sys.sessions[step.id]) <= MAX
  }

  ghost predicate Orderly(sys: System, run: seq<Step>) {
    run == [] ||
    (var before := After(sys, run[..|run| - 1]);
     && Orderly(sys, run[..|run| - 1])
     && SaneStep(run[|run| - 1])
     && (before.Some? ==> Fits(before.value, run[|run| - 1])))
  }

  /** A stake is worth the amount of its transaction. */
  ghost predicate SessionSane(setup: Setup, s: Session) {
    && Sane(s.wallet, s.tx)
    && (Stake(setup, s).Some? ==> Stake(setup, s).value.amount == AmountOf(s))
  }

  ghost predicate Within(sys: System) {
    && (forall id :: 0 <= id < |sys.sessions| ==> SessionSane(sys.setup, sys.sessions[id]))
    && (forall slot :: 0 <= Total(sys.setup, sys.sessions, ALL, slot) <= MAX)
    && (forall slot :: Total(sys.setup, sys.sessions, ORDINARY, slot) as real <= LimitAt(sys.setup, slot))
  }

  lemma {:induction false} TotalNonNegative(setup: Setup, sessions: seq<Session>, standings: set<Standing>, slot: Slot)
    requires forall id :: 0 <= id < |sessions| ==> SessionSane(setup, sessions[id])
    ensures 0 <= Total(setup, sessions, standings, slot)
  {
    if sessions != [] {
      TotalNonNegative(setup, sessions[..|sessions| - 1], standings, slot);
    }
  }

  lemma MoveKeepsIntent(setup: Setup, today: Day, ledger: Ledger, s: Session, a: Action)
    requires Advance(setup, today, ledger, s, a).Some?
    ensures
      var next := Advance(setup, today, ledger, s, a).value.session;
      && next.wallet == s.wallet && next.kind == s.kind && next.original == s.original
      && IntentOf(s.wallet, next.tx) == IntentOf(s.wallet, s.tx)
  {
    match a
    case Evaluate(q1, q2) => EvaluateKeeps(setup, today, s, q1, q2);
    case Reserve(commits) => ReserveKeeps(setup, PolicyOf(setup, s.wallet).value, ledger, s, s.checkDay.value, commits);
    case Rebuild(ok) => RebuildKeepsIntent(s, ok);
    case _ =>
  }

  /** What is newly counted is the true amount exactly when an `int64` can hold it. */
  lemma WriteIsTrue(setup: Setup, today: Day, ledger: Ledger, s: Session, a: Action)
    requires SessionOk(setup, s) && Sane(s.wallet, s.tx) && Advance(setup, today, ledger, s, a).Some? && Adds(a)
    ensures
      var move := Advance(setup, today, ledger, s, a).value;
      move.write.Some? ==> (move.write.value.amount == AmountOf(s) <==> AmountOf(s) <= MAX)
  {
  }

  lemma MoveKeepsSane(setup: Setup, today: Day, ledger: Ledger, s: Session, a: Action)
    requires SessionOk(setup, s) && SessionSane(setup, s) && Advance(setup, today, ledger, s, a).Some?
    requires Adds(a) && Advance(setup, today, ledger, s, a).value.write.Some? ==> AmountOf(s) <= MAX
    ensures SessionSane(setup, Advance(setup, today, ledger, s, a).value.session)
  {
    AdvanceBalances(setup, today, ledger, s, a);
    MoveKeepsIntent(setup, today, ledger, s, a);
    if Adds(a) {
      WriteIsTrue(setup, today, ledger, s, a);
    }
  }

  /** Only an admitted reservation adds to the ordinary spend of a slot. */
  lemma OrdinaryGrowth(setup: Setup, today: Day, ledger: Ledger, s: Session, a: Action, slot: Slot)
    requires SessionOk(setup, s) && SessionSane(setup, s) && Advance(setup, today, ledger, s, a).Some?
    ensures
      var move := Advance(setup, today, ledger, s, a).value;
      ShareOf(setup, move.session, ORDINARY, slot)
      <= ShareOf(setup, s, ORDINARY, slot) + if a.Reserve? then AmountAt(move.write, slot) else 0
  {
    AdvanceBalances(setup, today, ledger, s, a);
  }

  /** A limit that the conversion to `int64` keeps; only 2^63 itself passes the guard and is not. */
  predicate Representable(limit: real) {
    limit != TWO_63 as real
  }

  /** What was compared when a reservation was admitted. */
  lemma AdmittedBy(setup: Setup, today: Day, ledger: Ledger, s: Session, commits: bool)
    requires SessionOk(setup, s) && Advance(setup, today, ledger, s, Reserve(commits)).Some?
    requires Advance(setup, today, ledger, s, Reserve(commits)).value.write.Some?
    ensures
      var write := Advance(setup, today, ledger, s, Reserve(commits)).value.write.value;
      && Admits(Read(ledger, write.key), write.amount, FromReal(LimitAt(setup, write.key)))
      && LimitAt(setup, write.key) <= TWO_63 as real
  {
  }

  /**
   * An admitted reservation leaves its counter under the limit of its slot
   * if and only if the exact sum fits an `int64`.
   */
  lemma AdmittedUnderLimitIff(setup: Setup, today: Day, ledger: Ledger, s: Session, commits: bool)
    requires ValidRules(setup) && SessionOk(setup, s) && Sane(s.wallet, s.tx)
    requires Advance(setup, today, ledger, s, Reserve(commits)).Some?
    requires Advance(setup, today, ledger, s, Reserve(commits)).value.write.Some?
    ensures
      var key := Advance(setup, today, ledger, s, Reserve(commits)).value.write.value.key;
      0 <= Read(ledger, key) ==>
        && (Read(ledger, key) + AmountOf(s) <= MAX ==> (Read(ledger, key) + AmountOf(s)) as real <= LimitAt(setup, key))
        && (Representable(LimitAt(setup, key)) && (Read(ledger, key) + AmountOf(s)) as real <= LimitAt(setup, key) ==>
              Read(ledger, key) + AmountOf(s) <= MAX)
  {
    var write := Advance(setup, today, ledger, s, Reserve(commits)).value.write.value;
    AdmittedBy(setup, today, ledger, s, commits);
    WriteIsTrue(setup, today, ledger, s, Reserve(commits));
    LimitNonNegative(setup, write.key);
  }

  lemma OrdinaryBelowAll(setup: Setup, sessions: seq<Session>, slot: Slot)
    requires forall id :: 0 <= id < |sessions| ==> SessionSane(setup, sessions[id])
    ensures Total(setup, sessions, ORDINARY, slot) <= Total(setup, sessions, ALL, slot)
  {
  }

  lemma FittingAmount(sys: System, id: nat, a: Action)
    requires Conserved(sys) && Within(sys) && id < |sys.sessions| && Fits(sys, Act(id, a)) && Adds(a)
    ensures WriteOf(sys, Act(id, a)).Some? ==> AmountOf(sys.sessions[id]) <= MAX
  {
    var write := WriteOf(sys, Act(id, a));
    if write.Some? {
      assert Read(sys.ledger, write.value.key) == Total(sys.setup, sys.sessions, ALL, write.value.key);
    }
  }

  /** The slot-wise step: totals stay representable. */
  lemma MoveKeepsExact(sys: System, id: nat, a: Action, slot: Slot)
    requires ValidRules(sys.setup) && SystemOk(sys) && Conserved(sys) && Within(sys)
    requires id < |sys.sessions| && Fits(sys, Act(id, a))
    requires Advance(sys.setup, sys.today, sys.ledger, sys.sessions[id], a).Some?
    ensures
      var move := Advance(sys.setup, sys.today, sys.ledger, sys.sessions[id], a).value;
      Total(sys.setup, sys.sessions[id := move.session], ALL, slot) <= MAX
  {
    var s := sys.sessions[id];
    var move := Advance(sys.setup, sys.today, sys.ledger, s, a).value;
    AdvanceBalances(sys.setup, sys.today, sys.ledger, s, a);
    MoveTotals(sys, id, move, slot);
    assert Read(sys.ledger, slot) == Total(sys.setup, sys.sessions, ALL, slot);
    if Adds(a) && move.write.Some? {
      FittingAmount(sys, id, a);
      WriteIsTrue(sys.setup, sys.today, sys.ledger, s, a);
    }
  }

  /** And ordinary spend stays under the limit. */
  lemma MoveStaysUnder(sys: System, id: nat, a: Action, slot: Slot)
    requires ValidRules(sys.setup) && SystemOk(sys) && Conserved(sys) && Within(sys)
    requires id < |sys.sessions| && Fits(sys, Act(id, a))
    requires Advance(sys.setup, sys.today, sys.ledger, sys.sessions[id], a).Some?
    ensures
      var move := Advance(sys.setup, sys.today, sys.ledger, sys.sessions[id], a).value;
      Total(sys.setup, sys.sessions[id := move.session], ORDINARY, slot) as real <= LimitAt(sys.setup, slot)
  {
    var s := sys.sessions[id];
    var move := Advance(sys.setup, sys.today, sys.ledger, s, a).value;
    TotalUpdate(sys.setup, sys.sessions, id, move.session, ORDINARY, slot);
    OrdinaryGrowth(sys.setup, sys.today, sys.ledger, s, a, slot);
    if a.Reserve? && move.write.Some? && move.write.value.key == slot {
      assert Read(sys.ledger, slot) == Total(sys.setup, sys.sessions, ALL, slot);
      FittingAmount(sys, id, a);
      WriteIsTrue(sys.setup, sys.today, sys.ledger, s, a);
      AdmittedUnderLimitIff(sys.setup, sys.today, sys.ledger, s, a.commits);
      OrdinaryBelowAll(sys.setup, sys.sessions, slot);
    }
  }

  lemma ArrivalAddsNothing(setup: Setup, sessions: seq<Session>, s: Session, standings: set<Standing>, slot: Slot)
    requires s.phase.Arrived? && !s.reserved
    ensures Total(setup, sessions + [s], standings, slot) == Total(setup, sessions, standings, slot)
  {
    TotalAppend(setup, sessions, s, standings, slot);
  }

  lemma NextStaysWithin(sys: System, step: Step)
    requires ValidRules(sys.setup) && SystemOk(sys) && Conserved(sys) && Within(sys)
    requires SaneStep(step) && Fits(sys, step) && Next(sys, step).Some?
    ensures Within(Next(sys, step).value)
  {
    var after := Next(sys, step).value;
    match step
    case Tick(_) =>
    case Arrive(kind, wallet, tx) =>
      forall slot
        ensures 0 <= Total(after.setup, after.sessions, ALL, slot) <= MAX
        ensures Total(after.setup, after.sessions, ORDINARY, slot) as real <= LimitAt(after.setup, slot)
      {
        ArrivalAddsNothing(sys.setup, sys.sessions, NewSession(kind, wallet, tx), ALL, slot);
        ArrivalAddsNothing(sys.setup, sys.sessions, NewSession(kind, wallet, tx), ORDINARY, slot);
      }
    case Act(id, a) =>
      if Adds(a) {
        FittingAmount(sys, id, a);
      }
      MoveKeepsSane(sys.setup, sys.today, sys.ledger, sys.sessions[id], a);
      forall slot
        ensures 0 <= Total(after.setup, after.sessions, ALL, slot) <= MAX
        ensures Total(after.setup, after.sessions, ORDINARY, slot) as real <= LimitAt(after.setup, slot)
      {
        TotalNonNegative(after.setup, after.sessions, ALL, slot);
        MoveKeepsExact(sys, id, a, slot);
        MoveStaysUnder(sys, id, a, slot);
      }
  }

  lemma LimitNonNegative(setup: Setup, slot: Slot)
    requires ValidRules(setup)
    ensures LimitAt(setup, slot) >= 0.0
  {
  }

  lemma {:induction false} ReachableWithin(setup: Setup, today: Day, run: seq<Step>)
    requires ValidRules(setup) && Orderly(Initial(setup, today), run) && After(Initial(setup, today), run).Some?
    ensures Within(After(Initial(setup, today), run).value)
  {
    if run == [] {
      forall slot
        ensures Total(setup, [], ORDINARY, slot) as real <= LimitAt(setup, slot)
      {
        LimitNonNegative(setup, slot);
      }
    } else {
      var front := run[..|run| - 1];
      ReachableWithin(setup, today, front);
      ReachableConserved(setup, today, front);
      NextStaysWithin(After(Initial(setup, today), front).value, run[|run| - 1]);
    }
  }

  /**
   * The cap: however sessions, overrides, rollbacks and midnights interleave,
   * the ordinary amounts held or broadcast on one day stay within the wallet's
   * daily limit for the token, and the counter is exact.
   */
  lemma DailyCap(setup: Setup, today: Day, run: seq<Step>, sys: System, slot: Slot)
    requires ValidRules(setup) && Orderly(Initial(setup, today), run) && After(Initial(setup, today), run) == Some(sys)
    ensures (Total(setup, sys.sessions, {Held}, slot) + Total(setup, sys.sessions, {Committed}, slot)) as real
            <= LimitAt(setup, slot)
    ensures Read(sys.ledger, slot) == Total(setup, sys.sessions, ALL, slot)
  {
    ReachableWithin(setup, today, run);
    ReachableConserved(setup, today, run);
    TotalSplits(setup, sys.sessions, {Held}, {Committed}, slot);
    TotalSplits(setup, sys.sessions, {Held} + {Committed}, {Leaked}, slot);
    TotalNonNegative(setup, sys.sessions, {Leaked}, slot);
    assert ORDINARY == {Held} + {Committed} + {Leaked};
  }

  lemma {:induction false} ZeroIffAllZero(setup: Setup, sessions: seq<Session>, standings: set<Standing>, slot: Slot)
    requires forall id :: 0 <= id < |sessions| ==> SessionSane(setup, sessions[id])
    ensures Total(setup, sessions, standings, slot) == 0 <==>
            forall id :: 0 <= id < |sessions| ==> ShareOf(setup, sessions[id], standings, slot) == 0
  {
    if sessions != [] {
      var n := |sessions| - 1;
      ZeroIffAllZero(setup, sessions[..n], standings, slot);
      TotalNonNegative(setup, sessions[..n], standings, slot);
      assert Total(setup, sessions, standings, slot)
             == Total(setup, sessions[..n], standings, slot) + ShareOf(setup, sessions[n], standings, slot);
      assert forall id :: 0 <= id < n ==> sessions[..n][id] == sessions[id];
    }
  }

  /** No refused rollback of this session owed anything to the slot. */
  predicate Settled(run: seq<Step>, sys: System, id: nat, slot: Slot)
    requires id < |sys.sessions|
  {
    RefusedRollback(run, id) ==> AmountAt(Owed(sys.setup, sys.sessions[id]), slot) == 0
  }

  lemma SettledIff(setup: Setup, today: Day, run: seq<Step>, sys: System, id: nat, slot: Slot)
    requires After(Initial(setup, today), run) == Some(sys) && id < |sys.sessions|
    ensures Settled(run, sys, id, slot) <==> ShareOf(setup, sys.sessions[id], {Leaked}, slot) == 0
  {
    LostIff(setup, today, run, sys, id);
    ReachableConserved(setup, today, run);
  }

  lemma AllSettledIff(setup: Setup, today: Day, run: seq<Step>, sys: System, slot: Slot)
    requires After(Initial(setup, today), run) == Some(sys)
    requires forall id :: 0 <= id < |sys.sessions| ==> SessionSane(setup, sys.sessions[id])
    ensures Total(setup, sys.sessions, {Leaked}, slot) == 0 <==>
            forall id :: 0 <= id < |sys.sessions| ==> Settled(run, sys, id, slot)
  {
    ZeroIffAllZero(setup, sys.sessions, {Leaked}, slot);
    forall id | 0 <= id < |sys.sessions|
      ensures Settled(run, sys, id, slot) <==> ShareOf(setup, sys.sessions[id], {Leaked}, slot) == 0
    {
      SettledIff(setup, today, run, sys, id, slot);
    }
  }

  lemma FinishedReads(setup: Setup, today: Day, run: seq<Step>, sys: System, slot: Slot)
    requires ValidRules(setup) && Orderly(Initial(setup, today), run)
    requires After(Initial(setup, today), run) == Some(sys) && Finished(sys)
    ensures Read(sys.ledger, slot) == Total(setup, sys.sessions, {Committed}, slot)
            + Total(setup, sys.sessions, {Overridden}, slot) + Total(setup, sys.sessions, {Leaked}, slot)
  {
    DailyCap(setup, today, run, sys, slot);
    TotalOfAll(setup, sys.sessions, slot);
    EmptyTotal(setup, sys.sessions, {Held}, slot);
  }

  lemma SessionsSane(setup: Setup, today: Day, run: seq<Step>, sys: System)
    requires ValidRules(setup) && Orderly(Initial(setup, today), run) && After(Initial(setup, today), run) == Some(sys)
    ensures forall id :: 0 <= id < |sys.sessions| ==> SessionSane(setup, sys.sessions[id])
  {
    ReachableWithin(setup, today, run);
    ReachableConserved(setup, today, run);
  }

  /**
   * In runs as for the cap, exactly the refused rollbacks that owed something
   * keep a finished counter above what was broadcast and recorded.
   */
  lemma CleanIff(setup: Setup, today: Day, run: seq<Step>, sys: System, slot: Slot)
    requires ValidRules(setup) && Orderly(Initial(setup, today), run)
    requires After(Initial(setup, today), run) == Some(sys) && Finished(sys)
    ensures Read(sys.ledger, slot)
            == Total(setup, sys.sessions, {Committed}, slot) + Total(setup, sys.sessions, {Overridden}, slot)
            <==> forall id :: 0 <= id < |sys.sessions| ==> Settled(run, sys, id, slot)
  {
    FinishedReads(setup, today, run, sys, slot);
    SessionsSane(setup, today, run, sys);
    AllSettledIff(setup, today, run, sys, slot);
  }
}
