/** Exactly when the daily cap holds, over all runs of the signing protocol without overrides. */
module CapExact {
  import opened Accounts
  import opened Cap
  import opened Int64
  import opened Signing
  import opened Store
  import opened Wrappers

  // ----- Ordinary spend at its true amounts -----

  /** What a session holds, broadcast or leaked at a slot, whatever was counted for it. */
  function TrueShare(setup: Setup, s: Session, slot: Slot): int {
    if StandingOf(s) in ORDINARY && Stake(setup, s).Some? && Stake(setup, s).value.key == slot then AmountOf(s) else 0
  }

  function TrueTotal(setup: Setup, sessions: seq<Session>, slot: Slot): int {
    if sessions == [] then 0
    else TrueTotal(setup, sessions[..|sessions| - 1], slot) + TrueShare(setup, sessions[|sessions| - 1], slot)
  }

  lemma TrueTotalAppend(setup: Setup, sessions: seq<Session>, s: Session, slot: Slot)
    ensures TrueTotal(setup, sessions + [s], slot) == TrueTotal(setup, sessions, slot) + TrueShare(setup, s, slot)
  {
    assert (sessions + [s])[..|sessions|] == sessions;
  }

  lemma {:induction false} TrueTotalUpdate(setup: Setup, sessions: seq<Session>, id: nat, s: Session, slot: Slot)
    requires id < |sessions|
    ensures TrueTotal(setup, sessions[id := s], slot)
            == TrueTotal(setup, sessions, slot) - TrueShare(setup, sessions[id], slot) + TrueShare(setup, s, slot)
  {
    var n := |sessions| - 1;
    var updated := sessions[id := s];
    if id < n {
      assert updated[..n] == sessions[..n][id := s];
      TrueTotalUpdate(setup, sessions[..n], id, s, slot);
    } else {
      assert updated[..n] == sessions[..n];
    }
  }

  /** While every stake is worth its amount, the counted and the true ordinary spend are the same. */
  lemma {:induction false} TrueTotalIsCounted(setup: Setup, sessions: seq<Session>, slot: Slot)
    requires forall id :: 0 <= id < |sessions| ==> SessionSane(setup, sessions[id])
    ensures TrueTotal(setup, sessions, slot) == Total(setup, sessions, ORDINARY, slot)
  {
    if sessions != [] {
      TrueTotalIsCounted(setup, sessions[..|sessions| - 1], slot);
    }
  }

  // ----- Runs without overrides -----

  predicate OrdinaryStep(step: Step) {
    step.Arrive? ==> !step.kind.LimitOverride?
  }

  predicate OrdinaryRun(run: seq<Step>) {
    forall k :: 0 <= k < |run| ==> OrdinaryStep(run[k]) && SaneStep(run[k])
  }

  predicate NoOverride(s: Session) {
    !s.kind.LimitOverride? && !s.phase.Recording? && StandingOf(s) != Overridden
  }

  lemma MoveStaysOrdinary(setup: Setup, today: Day, ledger: Ledger, s: Session, a: Action)
    requires NoOverride(s) && Advance(setup, today, ledger, s, a).Some?
    ensures NoOverride(Advance(setup, today, ledger, s, a).value.session)
  {
  }

  lemma {:induction false} StaysOrdinary(setup: Setup, today: Day, run: seq<Step>, sys: System)
    requires OrdinaryRun(run) && After(Initial(setup, today), run) == Some(sys)
    ensures forall id :: 0 <= id < |sys.sessions| ==> NoOverride(sys.sessions[id])
  {
    if run != [] {
      var front, step := run[..|run| - 1], run[|run| - 1];
      var before := After(Initial(setup, today), front).value;
      StaysOrdinary(setup, today, front, before);
      if step.Act? {
        MoveStaysOrdinary(before.setup, before.today, before.ledger, before.sessions[step.id], step.action);
      }
    }
  }

  // ----- The exact condition -----

  /** The true ordinary spend is within every limit after every step of the run. */
  ghost predicate CapKept(start: System, run: seq<Step>) {
    run == [] ||
    (&& CapKept(start, run[..|run| - 1])
     && (After(start, run).Some? ==> UnderLimits(After(start, run).value)))
  }

  ghost predicate UnderLimits(sys: System) {
    forall slot :: TrueTotal(sys.setup, sys.sessions, slot) as real <= LimitAt(sys.setup, slot)
  }

  ghost predicate RepresentableLimits(setup: Setup) {
    forall slot :: Representable(LimitAt(setup, slot))
  }

  /** An admitted reservation takes its session from nothing to its true amount. */
  lemma ReserveShares(setup: Setup, today: Day, ledger: Ledger, s: Session, commits: bool)
    requires SessionOk(setup, s) && Advance(setup, today, ledger, s, Reserve(commits)).Some?
    requires Advance(setup, today, ledger, s, Reserve(commits)).value.write.Some?
    ensures
      var move := Advance(setup, today, ledger, s, Reserve(commits)).value;
      && TrueShare(setup, s, move.write.value.key) == 0
      && TrueShare(setup, move.session, move.write.value.key) == AmountOf(s)
  {
    AdvanceBalances(setup, today, ledger, s, Reserve(commits));
  }

  /**
   * After a run as for the cap, and at a counter without override spend: an
   * admitted reservation keeps the ordinary spend within the limit if and only
   * if the exact sum fits an `int64`.
   */
  lemma AdmissionKeepsCapIff(sys: System, id: nat, commits: bool, slot: Slot)
    requires ValidRules(sys.setup) && SystemOk(sys) && Conserved(sys) && Within(sys) && id < |sys.sessions|
    requires Total(sys.setup, sys.sessions, {Overridden}, slot) == 0 && Representable(LimitAt(sys.setup, slot))
    requires WriteOf(sys, Act(id, Reserve(commits))).Some? && WriteOf(sys, Act(id, Reserve(commits))).value.key == slot
    ensures var amount := AmountOf(sys.sessions[id]);
            && TrueTotal(sys.setup, Next(sys, Act(id, Reserve(commits))).value.sessions, slot)
               == Total(sys.setup, sys.sessions, ORDINARY, slot) + amount
            && ((Total(sys.setup, sys.sessions, ORDINARY, slot) + amount) as real <= LimitAt(sys.setup, slot) <==>
                Read(sys.ledger, slot) + amount <= MAX)
  {
    var s := sys.sessions[id];
    var move := Advance(sys.setup, sys.today, sys.ledger, s, Reserve(commits)).value;
    TotalSplits(sys.setup, sys.sessions, ORDINARY, {Overridden}, slot);
    assert ALL == ORDINARY + {Overridden};
    TrueTotalIsCounted(sys.setup, sys.sessions, slot);
    TrueTotalUpdate(sys.setup, sys.sessions, id, move.session, slot);
    ReserveShares(sys.setup, sys.today, sys.ledger, s, commits);
    AdmittedUnderLimitIff(sys.setup, sys.today, sys.ledger, s, commits);
  }

  lemma WrappingStepBreaksCap(sys: System, step: Step)
    requires ValidRules(sys.setup) && SystemOk(sys) && Conserved(sys) && Within(sys) && RepresentableLimits(sys.setup)
    requires forall id :: 0 <= id < |sys.sessions| ==> NoOverride(sys.sessions[id])
    requires Next(sys, step).Some? && !Fits(sys, step)
    ensures !UnderLimits(Next(sys, step).value)
  {
    var slot := WriteOf(sys, step).value.key;
    EmptyTotal(sys.setup, sys.sessions, {Overridden}, slot);
    assert NoOverride(sys.sessions[step.id]);
    assert step.action.Reserve?;
    AdmissionKeepsCapIff(sys, step.id, step.action.commits, slot);
  }

  lemma WithinIsUnderLimits(sys: System)
    requires Within(sys)
    ensures UnderLimits(sys)
  {
    forall slot
      ensures TrueTotal(sys.setup, sys.sessions, slot) as real <= LimitAt(sys.setup, slot)
    {
      TrueTotalIsCounted(sys.setup, sys.sessions, slot);
    }
  }

  /**
   * Over runs of ordinary sessions with non-negative amounts, the cap holds after
   * every step if and only if no addition to a counter would exceed an `int64`.
   */
  lemma {:induction false} CapIff(setup: Setup, today: Day, run: seq<Step>)
    requires ValidRules(setup) && RepresentableLimits(setup) && OrdinaryRun(run)
    requires After(Initial(setup, today), run).Some?
    ensures CapKept(Initial(setup, today), run) <==> Orderly(Initial(setup, today), run)
  {
    if run != [] {
      var front, step := run[..|run| - 1], run[|run| - 1];
      var before := After(Initial(setup, today), front).value;
      CapIff(setup, today, front);
      if Orderly(Initial(setup, today), front) {
        ReachableConserved(setup, today, front);
        ReachableWithin(setup, today, front);
        StaysOrdinary(setup, today, front, before);
        if Fits(before, step) {
          NextStaysWithin(before, step);
          WithinIsUnderLimits(Next(before, step).value);
        } else {
          WrappingStepBreaksCap(before, step);
        }
      }
    }
  }
}
