/** Where every counted amount is: conservation of the ledger over all runs of the signing protocol. */
module Accounts {
  import opened Engine
  import opened Int64
  import opened Signing
  import opened Store
  import opened Wrappers

  // ----- What a session has on the ledger -----

  datatype Standing = Idle | Held | Committed | Overridden | Leaked

  /**
   * Held: reserved and undecided. Committed: its broadcast succeeded.
   * Overridden: recorded by the override tool. Leaked: the rollback write failed.
   */
  function StandingOf(s: Session): Standing {
    match s.phase
    case Ended(ending) =>
      (match ending
       case Sent => Committed
       case Recorded(_) => Overridden
       case ReleaseLost => Leaked
       case _ => Idle)
    case Polling(_) => Committed
    case Recording => Idle
    case _ => if s.reserved then Held else Idle
  }

  function Stake(setup: Setup, s: Session): Option<Write<Slot>> {
    match StandingOf(s)
    case Idle => None
    case Overridden => Claim(setup, s.wallet, s.tx, s.phase.ending.day)
    case _ => if s.checkDay.None? then None else Claim(setup, s.wallet, s.tx, s.checkDay.value)
  }

  function AmountAt(write: Option<Write<Slot>>, slot: Slot): int {
    if write.Some? && write.value.key == slot then write.value.amount else 0
  }

  /** The amounts at `slot` of the sessions in one of the given standings. */
  function Total(setup: Setup, sessions: seq<Session>, standings: set<Standing>, slot: Slot): int {
    if sessions == [] then 0
    else
      var last := sessions[|sessions| - 1];
      Total(setup, sessions[..|sessions| - 1], standings, slot)
      + if StandingOf(last) in standings then AmountAt(Stake(setup, last), slot) else 0
  }

  const ALL: set<Standing> := {Held, Committed, Overridden, Leaked}

  /** Spend that was admitted under a limit, whatever became of it. */
  const ORDINARY: set<Standing> := {Held, Committed, Leaked}

  lemma {:induction false} TotalSplits(setup: Setup, sessions: seq<Session>, a: set<Standing>, b: set<Standing>,
      slot: Slot)
    requires a !! b
    ensures Total(setup, sessions, a + b, slot) == Total(setup, sessions, a, slot) + Total(setup, sessions, b, slot)
  {
    if sessions != [] {
      TotalSplits(setup, sessions[..|sessions| - 1], a, b, slot);
    }
  }

  lemma TotalOfAll(setup: Setup, sessions: seq<Session>, slot: Slot)
    ensures Total(setup, sessions, ALL, slot)
            == Total(setup, sessions, {Held}, slot) + Total(setup, sessions, {Committed}, slot)
               + Total(setup, sessions, {Overridden}, slot) + Total(setup, sessions, {Leaked}, slot)
  {
    TotalSplits(setup, sessions, {Held}, {Committed}, slot);
    TotalSplits(setup, sessions, {Held} + {Committed}, {Overridden}, slot);
    TotalSplits(setup, sessions, {Held} + {Committed} + {Overridden}, {Leaked}, slot);
    assert ALL == {Held} + {Committed} + {Overridden} + {Leaked};
  }

  function ShareOf(setup: Setup, s: Session, standings: set<Standing>, slot: Slot): int {
    if StandingOf(s) in standings then AmountAt(Stake(setup, s), slot) else 0
  }

  lemma {:induction false} TotalUpdate(setup: Setup, sessions: seq<Session>, id: nat, s: Session,
      standings: set<Standing>, slot: Slot)
    requires id < |sessions|
    ensures Total(setup, sessions[id := s], standings, slot)
            == Total(setup, sessions, standings, slot)
               - ShareOf(setup, sessions[id], standings, slot) + ShareOf(setup, s, standings, slot)
  {
    var n := |sessions| - 1;
    var updated := sessions[id := s];
    if id < n {
      assert updated[..n] == sessions[..n][id := s];
      TotalUpdate(setup, sessions[..n], id, s, standings, slot);
    } else {
      assert updated[..n] == sessions[..n];
    }
  }

  lemma TotalAppend(setup: Setup, sessions: seq<Session>, s: Session, standings: set<Standing>, slot: Slot)
    ensures Total(setup, sessions + [s], standings, slot)
            == Total(setup, sessions, standings, slot) + ShareOf(setup, s, standings, slot)
  {
    assert (sessions + [s])[..|sessions|] == sessions;
  }

  // ----- What every step keeps of each session -----

  predicate Undecided(phase: Phase) {
    phase.Arrived? || phase.Preflighted? || phase.Screened? || phase.AwaitingConfirmation?
  }

  ghost predicate SessionOk(setup: Setup, s: Session) {
    && (Undecided(s.phase) || s.kind.LimitOverride? ==> !s.reserved)
    && (s.kind.LimitOverride? ==> setup.rules.Some?)
    && (s.reserved && PolicyOf(setup, s.wallet).Some? ==> s.checkDay.Some?)
    && (s.phase.Screened? ==> PolicyOf(setup, s.wallet).Some? && s.checkDay.Some? && !s.kind.LimitOverride?)
    && (s.phase.AwaitingConfirmation? ==> setup.rules.None?)
    && (s.phase.AwaitingApproval? || s.phase.Rebuilding? ==> setup.rules.Some?)
    && (s.phase.AwaitingApproval? || s.phase.Rebuilding? || s.phase.Cleared? || s.phase.Signed? ==>
          s.reserved == (setup.rules.Some? && !s.kind.LimitOverride?))
    && (s.phase.Unwinding? ==> s.reserved)
    && (s.phase.Recording? ==> s.kind.LimitOverride?)
  }

  ghost predicate SystemOk(sys: System) {
    forall id :: 0 <= id < |sys.sessions| ==> SessionOk(sys.setup, sys.sessions[id])
  }

  /** The stake stays, is taken up with the write that counts it, or is dropped with the write that takes it back. */
  predicate Balanced(before: Option<Write<Slot>>, after: Option<Write<Slot>>, write: Option<Write<Slot>>) {
    || (write.None? && after == before)
    || (write.Some? && before.None? && after == write)
    || (write.Some? && after.None? && before == Some(write.value.(amount := -write.value.amount)))
  }

  ghost predicate Sound(setup: Setup, s: Session, move: Move) {
    SessionOk(setup, move.session) && Balanced(Stake(setup, s), Stake(setup, move.session), move.write)
  }

  lemma EvaluateBalances(setup: Setup, today: Day, s: Session, q1: Option<real>, q2: Option<real>)
    requires SessionOk(setup, s) && s.phase.Preflighted?
    ensures Sound(setup, s, Move(EvaluateMove(setup, today, s, q1, q2), None))
  {
  }

  lemma ReserveBalances(setup: Setup, ledger: Ledger, s: Session, commits: bool)
    requires SessionOk(setup, s) && s.phase.Screened?
    ensures Sound(setup, s,
              ReserveMove(setup, PolicyOf(setup, s.wallet).value, ledger, s, s.checkDay.value, commits))
  {
  }

  lemma RebuildKeepsIntent(s: Session, ok: bool)
    ensures IntentOf(s.wallet, RebuildMove(s, ok).tx) == IntentOf(s.wallet, s.tx)
    ensures RebuildMove(s, ok).tx.permission == s.tx.permission
  {
  }

  lemma RebuildBalances(setup: Setup, s: Session, ok: bool)
    requires SessionOk(setup, s) && s.phase.Rebuilding?
    ensures Sound(setup, s, Move(RebuildMove(s, ok), None))
  {
  }

  lemma BroadcastBalances(setup: Setup, s: Session, accepted: bool)
    requires SessionOk(setup, s) && s.phase.Signed?
    ensures Sound(setup, s, Move(BroadcastMove(s, accepted), None))
  {
  }

  lemma ReleaseBalances(setup: Setup, today: Day, s: Session, commits: bool)
    requires SessionOk(setup, s) && s.phase.Unwinding?
    ensures Sound(setup, s, ReleaseMove(setup, today, s, commits))
  {
  }

  lemma RecordBalances(setup: Setup, today: Day, s: Session, commits: bool)
    requires SessionOk(setup, s) && s.phase.Recording?
    ensures Sound(setup, s, RecordMove(setup, today, s, commits))
  {
  }

  lemma FailBalances(setup: Setup, s: Session)
    requires SessionOk(setup, s) && !s.phase.Ended? && !s.phase.Polling? && !s.phase.Recording?
    ensures Sound(setup, s, Move(Fail(s), None))
  {
  }

  /** One action: the session stays well formed, and its stake moves with what is written. */
  lemma AdvanceBalances(setup: Setup, today: Day, ledger: Ledger, s: Session, a: Action)
    requires SessionOk(setup, s) && Advance(setup, today, ledger, s, a).Some?
    ensures Sound(setup, s, Advance(setup, today, ledger, s, a).value)
  {
    match a
    case Evaluate(q1, q2) => EvaluateBalances(setup, today, s, q1, q2);
    case Reserve(commits) => ReserveBalances(setup, ledger, s, commits);
    case Rebuild(ok) => RebuildBalances(setup, s, ok);
    case Broadcast(accepted) => BroadcastBalances(setup, s, accepted);
    case Release(commits) => ReleaseBalances(setup, today, s, commits);
    case Record(commits) => RecordBalances(setup, today, s, commits);
    case Poll(_) =>
    case _ => FailBalances(setup, s);
  }

  // ----- Conservation -----

  /** Every counter holds the stakes of all sessions, as far as an `int64` can. */
  ghost predicate Conserved(sys: System) {
    forall slot :: Read(sys.ledger, slot) == Wrap(Total(sys.setup, sys.sessions, ALL, slot))
  }

  lemma StakesAddUp(setup: Setup, s: Session, move: Move, slot: Slot)
    requires Sound(setup, s, move)
    ensures ShareOf(setup, move.session, ALL, slot) == ShareOf(setup, s, ALL, slot) + AmountAt(move.write, slot)
  {
  }

  lemma WriteCounts(ledger: Ledger, write: Option<Write<Slot>>, slot: Slot, total: int)
    requires Read(ledger, slot) == Wrap(total)
    ensures Read(Written(ledger, write), slot) == Wrap(total + AmountAt(write, slot))
  {
    if write.Some? && write.value.key == slot {
      WrapAdd(total, write.value.amount);
    }
  }

  /** A step changes the exact total of a slot by what it writes there. */
  lemma MoveTotals(sys: System, id: nat, move: Move, slot: Slot)
    requires id < |sys.sessions| && Sound(sys.setup, sys.sessions[id], move)
    ensures Total(sys.setup, sys.sessions[id := move.session], ALL, slot)
            == Total(sys.setup, sys.sessions, ALL, slot) + AmountAt(move.write, slot)
  {
    TotalUpdate(sys.setup, sys.sessions, id, move.session, ALL, slot);
    StakesAddUp(sys.setup, sys.sessions[id], move, slot);
  }

  lemma MoveConserves(sys: System, id: nat, move: Move, slot: Slot)
    requires id < |sys.sessions| && Sound(sys.setup, sys.sessions[id], move)
    requires Read(sys.ledger, slot) == Wrap(Total(sys.setup, sys.sessions, ALL, slot))
    ensures Read(Written(sys.ledger, move.write), slot)
            == Wrap(Total(sys.setup, sys.sessions[id := move.session], ALL, slot))
  {
    MoveTotals(sys, id, move, slot);
    WriteCounts(sys.ledger, move.write, slot, Total(sys.setup, sys.sessions, ALL, slot));
  }

  lemma ActConserves(sys: System, id: nat, move: Move, after: System)
    requires SystemOk(sys) && Conserved(sys) && id < |sys.sessions| && Sound(sys.setup, sys.sessions[id], move)
    requires after == sys.(sessions := sys.sessions[id := move.session], ledger := Written(sys.ledger, move.write))
    ensures SystemOk(after) && Conserved(after)
  {
    forall slot
      ensures Read(after.ledger, slot) == Wrap(Total(after.setup, after.sessions, ALL, slot))
    {
      MoveConserves(sys, id, move, slot);
    }
  }

  lemma ArrivalConserves(sys: System, s: Session)
    requires SystemOk(sys) && Conserved(sys) && SessionOk(sys.setup, s) && StandingOf(s).Idle?
    ensures SystemOk(sys.(sessions := sys.sessions + [s])) && Conserved(sys.(sessions := sys.sessions + [s]))
  {
    forall slot
      ensures Total(sys.setup, sys.sessions + [s], ALL, slot) == Total(sys.setup, sys.sessions, ALL, slot)
    {
      TotalAppend(sys.setup, sys.sessions, s, ALL, slot);
    }
  }

  lemma NextConserves(sys: System, step: Step)
    requires SystemOk(sys) && Conserved(sys) && Next(sys, step).Some?
    ensures SystemOk(Next(sys, step).value) && Conserved(Next(sys, step).value)
  {
    match step
    case Tick(_) =>
    case Arrive(kind, wallet, tx) => ArrivalConserves(sys, NewSession(kind, wallet, tx));
    case Act(id, a) =>
      var move := Advance(sys.setup, sys.today, sys.ledger, sys.sessions[id], a).value;
      AdvanceBalances(sys.setup, sys.today, sys.ledger, sys.sessions[id], a);
      ActConserves(sys, id, move, Next(sys, step).value);
  }

  lemma {:induction false} ReachableConserved(setup: Setup, today: Day, run: seq<Step>)
    requires After(Initial(setup, today), run).Some?
    ensures
      var sys := After(Initial(setup, today), run).value;
      sys.setup == setup && SystemOk(sys) && Conserved(sys)
  {
    if run != [] {
      ReachableConserved(setup, today, run[..|run| - 1]);
      NextConserves(After(Initial(setup, today), run[..|run| - 1]).value, run[|run| - 1]);
    }
  }

  lemma ReachableReads(setup: Setup, today: Day, run: seq<Step>, sys: System, slot: Slot)
    requires After(Initial(setup, today), run) == Some(sys)
    ensures Read(sys.ledger, slot) == Wrap(Total(setup, sys.sessions, ALL, slot))
  {
    ReachableConserved(setup, today, run);
  }

  /**
   * Conservation: in every reachable state each counter is what unfinished
   * sessions hold, plus what was broadcast, plus what overrides recorded, plus
   * what failed rollback writes left behind.
   */
  lemma Conservation(setup: Setup, today: Day, run: seq<Step>, sys: System, slot: Slot)
    requires After(Initial(setup, today), run) == Some(sys)
    ensures Read(sys.ledger, slot) == Wrap(
      Total(setup, sys.sessions, {Held}, slot) + Total(setup, sys.sessions, {Committed}, slot)
      + Total(setup, sys.sessions, {Overridden}, slot) + Total(setup, sys.sessions, {Leaked}, slot))
  {
    ReachableReads(setup, today, run, sys, slot);
    TotalOfAll(setup, sys.sessions, slot);
  }

  lemma CongruentAt(sys: System, slot: Slot)
    requires Conserved(sys)
    ensures (Read(sys.ledger, slot) - Total(sys.setup, sys.sessions, ALL, slot)) % TWO_64 == 0
  {
    WrapIsCongruent(Total(sys.setup, sys.sessions, ALL, slot));
  }

  /** An exact sum and the counter that holds it differ by a multiple of 2^64. */
  lemma CountersAreCongruent(setup: Setup, today: Day, run: seq<Step>, sys: System, slot: Slot)
    requires After(Initial(setup, today), run) == Some(sys)
    ensures (Read(sys.ledger, slot) - Total(setup, sys.sessions, ALL, slot)) % TWO_64 == 0
  {
    ReachableConserved(setup, today, run);
    CongruentAt(sys, slot);
  }
}
