/** Runs of the signing protocol: one whose amount leaks, and two that break the daily cap. */
module Runs {
  import opened Accounts
  import opened Cap
  import opened CapExact
  import opened Digits
  import opened Engine
  import opened Int64
  import opened Policy
  import opened Signing
  import opened Store
  import opened Wrappers

  lemma ActsAt(start: System, run: seq<Step>, before: System, id: nat, a: Action, move: Move)
    requires After(start, run) == Some(before) && id < |before.sessions|
    requires Advance(before.setup, before.today, before.ledger, before.sessions[id], a) == Some(move)
    ensures After(start, run + [Act(id, a)])
            == Some(before.(sessions := before.sessions[id := move.session],
                            ledger := Written(before.ledger, move.write)))
  {
    assert (run + [Act(id, a)])[..|run|] == run;
  }

  /** One more action of the session that arrived last. */
  lemma ActsLast(start: System, run: seq<Step>, before: System, rest: seq<Session>, s: Session, a: Action, move: Move)
    requires After(start, run) == Some(before) && before.sessions == rest + [s]
    requires Advance(before.setup, before.today, before.ledger, s, a) == Some(move)
    ensures After(start, run + [Act(|rest|, a)])
            == Some(before.(sessions := rest + [move.session], ledger := Written(before.ledger, move.write)))
  {
    assert (run + [Act(|rest|, a)])[..|run|] == run;
    assert (rest + [s])[|rest| := move.session] == rest + [move.session];
  }

  /** A transaction of wallet "w" that passes its screening and is to be counted with `amount` against `limit`. */
  predicate Plain(setup: Setup, p: Policy, tx: Tx, amount: Int64, limit: Int64) {
    && PolicyOf(setup, "w") == Some(p) && setup.hasStore && tx.decodes
    && Screen(p, IntentOf("w", tx), None, None) == Passed(None)
    && DailyPlan(p, IntentOf("w", tx), true) == Limited(amount, limit)
  }

  function SlotOf(today: Day, tx: Tx): Slot {
    Slot("w", IntentOf("w", tx).token, today)
  }

  /** A session that has reserved its amount. */
  predicate ReservedBy(s: Session, tx: Tx, today: Day) {
    s.kind == SignAndBroadcast && s.wallet == "w" && s.tx == tx && s.checkDay == Some(today) && s.reserved
  }

  lemma ScreenedSession(start: System, run: seq<Step>, before: System, p: Policy, tx: Tx, amount: Int64, limit: Int64)
    returns (more: seq<Step>, s: Session)
    requires After(start, run) == Some(before) && Plain(before.setup, p, tx, amount, limit)
    ensures After(start, more) == Some(before.(sessions := before.sessions + [s]))
    ensures OrdinaryRun(run) && Sane("w", tx) ==> OrdinaryRun(more)
    ensures s == NewSession(SignAndBroadcast, "w", tx).(phase := s.phase, checkDay := s.checkDay, log := s.log)
    ensures s.phase == Screened(None, Quotes(None, None)) && s.checkDay == Some(before.today)
  {
    var arrival, rest := NewSession(SignAndBroadcast, "w", tx), before.sessions;
    more := run + [Arrive(SignAndBroadcast, "w", tx)];
    assert more[..|run|] == run;
    var preflighted := Note(arrival.(phase := Preflighted), PreflightPassed);
    ActsLast(start, more, before.(sessions := rest + [arrival]), rest, arrival, Preflight(true),
             Move(preflighted, None));
    more := more + [Act(|rest|, Preflight(true))];
    s := preflighted.(phase := Screened(None, Quotes(None, None)), checkDay := Some(before.today));
    ActsLast(start, more, before.(sessions := rest + [preflighted]), rest, preflighted, Evaluate(None, None),
             Move(s, None));
    more := more + [Act(|rest|, Evaluate(None, None))];
  }

  lemma ClearedSession(start: System, run: seq<Step>, before: System, p: Policy, tx: Tx, amount: Int64, limit: Int64)
    returns (more: seq<Step>, s: Session)
    requires After(start, run) == Some(before) && Plain(before.setup, p, tx, amount, limit)
    requires Admits(Read(before.ledger, SlotOf(before.today, tx)), amount, limit)
    ensures After(start, more) == Some(before.(sessions := before.sessions + [s],
                                               ledger := Credit(before.ledger, SlotOf(before.today, tx), amount)))
    ensures OrdinaryRun(run) && Sane("w", tx) ==> OrdinaryRun(more)
    ensures ReservedBy(s, tx, before.today) && s.phase == Cleared
  {
    var screened;
    more, screened := ScreenedSession(start, run, before, p, tx, amount, limit);
    var move := ReserveMove(before.setup, p, before.ledger, screened, before.today, true);
    assert move.write == Some(Write(SlotOf(before.today, tx), amount));
    ActsLast(start, more, before.(sessions := before.sessions + [screened]), before.sessions, screened, Reserve(true),
             move);
    more, s := more + [Act(|before.sessions|, Reserve(true))], move.session;
  }

  lemma SignedSession(start: System, run: seq<Step>, before: System, p: Policy, tx: Tx, amount: Int64, limit: Int64)
    returns (more: seq<Step>, s: Session)
    requires After(start, run) == Some(before) && Plain(before.setup, p, tx, amount, limit)
    requires Admits(Read(before.ledger, SlotOf(before.today, tx)), amount, limit)
    ensures After(start, more) == Some(before.(sessions := before.sessions + [s],
                                               ledger := Credit(before.ledger, SlotOf(before.today, tx), amount)))
    ensures OrdinaryRun(run) && Sane("w", tx) ==> OrdinaryRun(more)
    ensures ReservedBy(s, tx, before.today) && s.phase == Signed
  {
    var cleared, rest := *, before.sessions;
    more, cleared := ClearedSession(start, run, before, p, tx, amount, limit);
    var sys := before.(sessions := rest + [cleared], ledger := Credit(before.ledger, SlotOf(before.today, tx), amount));
    s := Note(cleared.(phase := Signed), TxSigned);
    ActsLast(start, more, sys, rest, cleared, Sign(true), Move(s, None));
    more := more + [Act(|rest|, Sign(true))];
  }

  /** A whole session whose broadcast is accepted. */
  lemma SentSession(start: System, run: seq<Step>, before: System, p: Policy, tx: Tx, amount: Int64, limit: Int64)
    returns (more: seq<Step>, s: Session)
    requires After(start, run) == Some(before) && Plain(before.setup, p, tx, amount, limit)
    requires Admits(Read(before.ledger, SlotOf(before.today, tx)), amount, limit)
    ensures After(start, more) == Some(before.(sessions := before.sessions + [s],
                                               ledger := Credit(before.ledger, SlotOf(before.today, tx), amount)))
    ensures OrdinaryRun(run) && Sane("w", tx) ==> OrdinaryRun(more)
    ensures s.phase == Ended(Sent) && s.wallet == "w" && s.tx == tx && s.checkDay == Some(before.today)
  {
    var signed, rest := *, before.sessions;
    more, signed := SignedSession(start, run, before, p, tx, amount, limit);
    var sys := before.(sessions := rest + [signed], ledger := Credit(before.ledger, SlotOf(before.today, tx), amount));
    s := BroadcastMove(signed, true);
    ActsLast(start, more, sys, rest, signed, Broadcast(true), Move(s, None));
    more := more + [Act(|rest|, Broadcast(true))];
  }

  /** What a cleared session ends as when its signature fails. */
  lemma GivesUpReservation(setup: Setup, today: Day, ledger: Ledger, s: Session, tx: Tx, claim: Write<Slot>,
      commits: bool)
    requires s.phase == Cleared && ReservedBy(s, tx, today) && Claim(setup, "w", tx, today) == Some(claim)
    ensures var failed := s.(phase := Unwinding);
            && Advance(setup, today, ledger, s, Sign(false)) == Some(Move(failed, None))
            && Advance(setup, today, ledger, failed, Release(commits))
               == Some(if commits then Move(s.(phase := Ended(Released)), Some(claim.(amount := -claim.amount)))
                       else Move(s.(phase := Ended(ReleaseLost)), None))
  {
  }

  /** A cleared session fails to sign and rolls back. */
  lemma GivesUp(start: System, run: seq<Step>, before: System, id: nat, held: Session, tx: Tx, claim: Write<Slot>,
      commits: bool)
    returns (more: seq<Step>, s: Session)
    requires After(start, run) == Some(before) && id < |before.sessions| && before.sessions[id] == held
    requires held.phase == Cleared && ReservedBy(held, tx, before.today)
    requires Claim(before.setup, "w", tx, before.today) == Some(claim)
    ensures s == held.(phase := Ended(if commits then Released else ReleaseLost))
    ensures After(start, more)
            == Some(before.(sessions := before.sessions[id := s],
                            ledger := if commits then Credit(before.ledger, claim.key, -claim.amount)
                                      else before.ledger))
    ensures !commits ==> RefusedRollback(more, id)
  {
    var failed := held.(phase := Unwinding);
    s := held.(phase := Ended(if commits then Released else ReleaseLost));
    var write := if commits then Some(claim.(amount := -claim.amount)) else None;
    GivesUpReservation(before.setup, before.today, before.ledger, held, tx, claim, commits);
    ActsAt(start, run, before, id, Sign(false), Move(failed, None));
    var unwinding := before.(sessions := before.sessions[id := failed]);
    ActsAt(start, run + [Act(id, Sign(false))], unwinding, id, Release(commits), Move(s, write));
    assert unwinding.sessions[id := s] == before.sessions[id := s];
    more := run + [Act(id, Sign(false))] + [Act(id, Release(commits))];
  }

  // ----- A run that leaks -----

  /** A wallet with a daily limit of one TRX. */
  function OneTRX(): Policy {
    Policy(0.0, 0.0, 0.0, 1.0, 0.0, map[], [])
  }

  function Small(amount: Int64): Tx {
    Tx("TransferContract", "a", "b", amount, "TRX", amount, 0, true)
  }

  lemma SmallIsPlain(setup: Setup, amount: Int64)
    requires setup == Setup(Some(map["w" := OneTRX()]), true, false)
    ensures Plain(setup, OneTRX(), Small(amount), amount, 1_000_000)
  {
    var i := IntentOf("w", Small(amount));
    assert !AboveUnitLimit(OneTRX(), i) && !AboveUnitThreshold(OneTRX(), i);
    assert DailyLimit(OneTRX(), "TRX") == 1_000_000.0 && Truncate(1_000_000.0) == 1_000_000;
  }

  lemma SmallStake(setup: Setup, today: Day, amount: Int64)
    requires setup == Setup(Some(map["w" := OneTRX()]), true, false)
    ensures Claim(setup, "w", Small(amount), today) == Some(Write(Slot("w", "TRX", today), amount))
  {
  }

  /** A signature fails, the store refuses the rollback, and the amount stays on the counter for good. */
  lemma RefusedRollbackLeaks(today: Day, amount: Int64) returns (setup: Setup, run: seq<Step>, sys: System)
    requires 0 < amount <= 1_000_000
    ensures After(Initial(setup, today), run) == Some(sys) && Finished(sys) && RefusedRollback(run, 0)
    ensures var slot := Slot("w", "TRX", today);
            && Read(sys.ledger, slot) == amount
            && Total(setup, sys.sessions, {Committed}, slot) + Total(setup, sys.sessions, {Overridden}, slot) == 0
  {
    setup := Setup(Some(map["w" := OneTRX()]), true, false);
    var start, slot := Initial(setup, today), Slot("w", "TRX", today);
    var s;
    SmallIsPlain(setup, amount);
    run, s := ClearedSession(start, [], start, OneTRX(), Small(amount), amount, 1_000_000);
    assert [] + [s] == [s] && [s][0 := s.(phase := Ended(ReleaseLost))] == [s.(phase := Ended(ReleaseLost))];
    sys := start.(sessions := [s], ledger := Credit(start.ledger, slot, amount));
    SmallStake(setup, today, amount);
    run, s := GivesUp(start, run, sys, 0, s, Small(amount), Write(slot, amount), false);
    sys := sys.(sessions := [s]);
    EmptyTotal(setup, sys.sessions, {Committed}, slot);
    EmptyTotal(setup, sys.sessions, {Overridden}, slot);
  }

  // ----- Runs that break the cap -----

  /** The first session holds its reservation while the second is sent. */
  lemma HeldAndSent(setup: Setup, today: Day, p: Policy, limit: Int64, tx: Tx, amount: Int64, later: Tx, more: Int64)
    returns (run: seq<Step>, a: Session, b: Session)
    requires Plain(setup, p, tx, amount, limit) && Plain(setup, p, later, more, limit)
    requires SlotOf(today, later) == SlotOf(today, tx)
    requires Admits(0, amount, limit) && Admits(amount, more, limit)
    ensures var slot := SlotOf(today, tx);
            After(Initial(setup, today), run)
            == Some(System(setup, today, Credit(Credit(map[], slot, amount), slot, more), [a, b]))
    ensures ReservedBy(a, tx, today) && a.phase == Cleared
    ensures b.phase == Ended(Sent) && b.wallet == "w" && b.tx == later && b.checkDay == Some(today)
  {
    var start, slot := Initial(setup, today), SlotOf(today, tx);
    run, a := ClearedSession(start, [], start, p, tx, amount, limit);
    assert [] + [a] == [a];
    var held := System(setup, today, Credit(map[], slot, amount), [a]);
    run, b := SentSession(start, run, held, p, later, more, limit);
    assert [a] + [b] == [a, b];
  }

  lemma RolledBackReads(slot: Slot, amount: Int64, more: Int64)
    requires amount < 0 && more == 1_000_000 - amount
    ensures Read(Credit(Credit(Credit(map[], slot, amount), slot, more), slot, -amount), slot) == more
  {
  }

  lemma OnlySecondCounts(setup: Setup, a: Session, b: Session, slot: Slot, amount: int)
    requires StandingOf(a) == Idle && StandingOf(b) == Committed && Stake(setup, b) == Some(Write(slot, amount))
    ensures Total(setup, [a, b], {Committed}, slot) == amount
    ensures Total(setup, [a, b], {Overridden}, slot) == Total(setup, [a, b], {Leaked}, slot) == 0
  {
    TotalAppend(setup, [a], b, {Committed}, slot);
    assert [a] + [b] == [a, b];
    EmptyTotal(setup, [a], {Committed}, slot);
    EmptyTotal(setup, [a, b], {Overridden}, slot);
    EmptyTotal(setup, [a, b], {Leaked}, slot);
  }

  lemma GivesUpFirst(start: System, run: seq<Step>, before: System, held: Session, b: Session, tx: Tx,
      claim: Write<Slot>)
    returns (more: seq<Step>, a: Session)
    requires After(start, run) == Some(before) && before.sessions == [held, b]
    requires held.phase == Cleared && ReservedBy(held, tx, before.today)
    requires Claim(before.setup, "w", tx, before.today) == Some(claim)
    ensures a.phase == Ended(Released)
    ensures After(start, more)
            == Some(before.(sessions := [a, b], ledger := Credit(before.ledger, claim.key, -claim.amount)))
  {
    more, a := GivesUp(start, run, before, 0, held, tx, claim, true);
    assert [held, b][0 := a] == [a, b];
  }

  lemma MakesRoom(amount: Int64, more: Int64)
    requires amount < 0 && more == 1_000_000 - amount
    ensures Admits(0, amount, 1_000_000) && Admits(amount, more, 1_000_000)
  {
  }

  lemma SentBeyond(setup: Setup, today: Day, amount: Int64, more: Int64)
    returns (run: seq<Step>, a: Session, b: Session)
    requires setup == Setup(Some(map["w" := OneTRX()]), true, false) && amount < 0 && more == 1_000_000 - amount
    ensures var slot := Slot("w", "TRX", today);
            var ledger := Credit(Credit(Credit(map[], slot, amount), slot, more), slot, -amount);
            After(Initial(setup, today), run) == Some(System(setup, today, ledger, [a, b]))
    ensures a.phase == Ended(Released)
    ensures b.phase == Ended(Sent) && b.wallet == "w" && b.tx == Small(more) && b.checkDay == Some(today)
  {
    var slot, held := Slot("w", "TRX", today), *;
    SmallIsPlain(setup, amount);
    SmallIsPlain(setup, more);
    MakesRoom(amount, more);
    run, held, b := HeldAndSent(setup, today, OneTRX(), 1_000_000, Small(amount), amount, Small(more), more);
    SmallStake(setup, today, amount);
    var before := System(setup, today, Credit(Credit(map[], slot, amount), slot, more), [held, b]);
    run, a := GivesUpFirst(Initial(setup, today), run, before, held, b, Small(amount), Write(slot, amount));
  }

  /**
   * Two ordinary sessions: a reservation of a negative amount makes room for
   * another beyond the limit, and is then rolled back, with every write accepted.
   */
  lemma NegativeAmountBreaksCap(today: Day, amount: Int64) returns (setup: Setup, run: seq<Step>, sys: System)
    requires 1_000_000 - MAX <= amount < 0
    ensures ValidRules(setup) && After(Initial(setup, today), run) == Some(sys) && Finished(sys)
    ensures var slot := Slot("w", "TRX", today);
            && LimitAt(setup, slot) == 1_000_000.0
            && Total(setup, sys.sessions, {Committed}, slot) == 1_000_000 - amount == Read(sys.ledger, slot)
            && Total(setup, sys.sessions, {Overridden}, slot) == Total(setup, sys.sessions, {Leaked}, slot) == 0
  {
    setup := Setup(Some(map["w" := OneTRX()]), true, false);
    var slot, more: Int64 := Slot("w", "TRX", today), 1_000_000 - amount;
    var a, b;
    run, a, b := SentBeyond(setup, today, amount, more);
    sys := System(setup, today, Credit(Credit(Credit(map[], slot, amount), slot, more), slot, -amount), [a, b]);
    RolledBackReads(slot, amount, more);
    SmallStake(setup, today, more);
    OnlySecondCounts(setup, a, b, slot, more);
  }

  /** One unit, of eighteen decimals. */
  const UNIT := 1_000_000_000_000_000_000

  /** A wallet that may send one unit of token "T" a day. */
  function OneToken(): Policy {
    Policy(0.0, 0.0, 0.0, 0.0, 0.0, map["T" := TokenLimit(18, 1.0, 0.0, 0.0)], [])
  }

  function Transfer(amount: nat): Tx {
    Tx("TriggerSmartContract", "a", "b", 0, "T", amount, 0, true)
  }

  lemma UnitLimit()
    ensures RawDailyLimit(OneToken().tokens["T"]) == UNIT as real
  {
    assert Pow10(6) == 1_000_000;
    assert Pow10(12) == 1_000_000_000_000;
    assert Pow10(18) == UNIT;
  }

  lemma TransferPlan(amount: Int64)
    requires 0 <= amount
    ensures DailyPlan(OneToken(), IntentOf("w", Transfer(amount)), true) == Limited(amount, UNIT)
  {
    UnitLimit();
    assert DailyLimit(OneToken(), "T") == UNIT as real;
    assert Truncate(UNIT as real) == UNIT;
  }

  lemma TransferPasses(amount: nat)
    ensures Screen(OneToken(), IntentOf("w", Transfer(amount)), None, None) == Passed(None)
  {
    var i := IntentOf("w", Transfer(amount));
    assert RawPerTxLimit(OneToken().tokens["T"]) == RawApprovalThreshold(OneToken().tokens["T"]) == 0.0;
    assert !AboveUnitLimit(OneToken(), i) && !AboveUnitThreshold(OneToken(), i);
  }

  lemma TransferIsPlain(setup: Setup, amount: Int64)
    requires setup == Setup(Some(map["w" := OneToken()]), true, false) && 0 <= amount
    ensures Plain(setup, OneToken(), Transfer(amount), amount, UNIT)
  {
    TransferPlan(amount);
    TransferPasses(amount);
  }

  lemma SentStake(setup: Setup, s: Session, today: Day, amount: Int64)
    requires setup == Setup(Some(map["w" := OneToken()]), true, false)
    requires 0 <= amount && s.phase == Ended(Sent) && s.wallet == "w"
    requires s.tx == Transfer(amount) && s.checkDay == Some(today)
    ensures StandingOf(s) == Committed && Stake(setup, s) == Some(Write(Slot("w", "T", today), amount))
  {
  }

  lemma TwoSent(setup: Setup, a: Session, b: Session, slot: Slot, first: Int64, second: Int64)
    requires StandingOf(a) == StandingOf(b) == Committed
    requires Stake(setup, a) == Some(Write(slot, first)) && Stake(setup, b) == Some(Write(slot, second))
    requires AmountOf(a) == first && AmountOf(b) == second
    ensures Total(setup, [a, b], {Committed}, slot) == first + second == TrueTotal(setup, [a, b], slot)
    ensures Total(setup, [a, b], {Overridden}, slot) == 0
  {
    TotalAppend(setup, [], a, {Committed}, slot);
    TotalAppend(setup, [a], b, {Committed}, slot);
    TotalAppend(setup, [], a, {Overridden}, slot);
    TotalAppend(setup, [a], b, {Overridden}, slot);
    TrueTotalAppend(setup, [], a, slot);
    TrueTotalAppend(setup, [a], b, slot);
    assert [] + [a] == [a] && [a] + [b] == [a, b];
  }

  /**
   * Two ordinary sessions: the first sends at most one unit; then the second may
   * send any amount that wraps the counter, and both are broadcast. No override
   * and no rollback takes part.
   */
  lemma WrappingSumBreaksCap(today: Day, first: Int64, second: Int64)
    returns (setup: Setup, run: seq<Step>, sys: System)
    requires 0 < first <= UNIT && first + second > MAX
    ensures ValidRules(setup) && OrdinaryRun(run) && After(Initial(setup, today), run) == Some(sys) && Finished(sys)
    ensures var slot := Slot("w", "T", today);
            && LimitAt(setup, slot) == UNIT as real
            && Total(setup, sys.sessions, {Committed}, slot) == first + second == TrueTotal(setup, sys.sessions, slot)
            && Total(setup, sys.sessions, {Overridden}, slot) == 0
  {
    setup := Setup(Some(map["w" := OneToken()]), true, false);
    var start, slot := Initial(setup, today), Slot("w", "T", today);
    UnitLimit();
    var a, b;
    run, a, b := BothSent(setup, today, first, second);
    sys := System(setup, today, Credit(Credit(map[], slot, first), slot, second), [a, b]);
    SentStake(setup, a, today, first);
    SentStake(setup, b, today, second);
    TwoSent(setup, a, b, slot, first, second);
  }

  lemma BothSent(setup: Setup, today: Day, first: Int64, second: Int64) returns (run: seq<Step>, a: Session, b: Session)
    requires setup == Setup(Some(map["w" := OneToken()]), true, false)
    requires 0 < first <= UNIT && first + second > MAX
    ensures var slot := Slot("w", "T", today);
            After(Initial(setup, today), run)
            == Some(System(setup, today, Credit(Credit(map[], slot, first), slot, second), [a, b]))
    ensures OrdinaryRun(run)
    ensures a.phase == Ended(Sent) && a.wallet == "w" && a.tx == Transfer(first) && a.checkDay == Some(today)
    ensures b.phase == Ended(Sent) && b.wallet == "w" && b.tx == Transfer(second) && b.checkDay == Some(today)
  {
    var start, slot := Initial(setup, today), Slot("w", "T", today);
    TransferIsPlain(setup, first);
    TransferIsPlain(setup, second);
    run, a := SentSession(start, [], start, OneToken(), Transfer(first), first, UNIT);
    assert [] + [a] == [a];
    var one := System(setup, today, Credit(map[], slot, first), [a]);
    SecondWraps(first, second);
    run, b := SentSession(start, run, one, OneToken(), Transfer(second), second, UNIT);
    assert [a] + [b] == [a, b];
  }

  lemma SecondWraps(first: Int64, second: Int64)
    requires 0 < first <= UNIT && first + second > MAX
    ensures Admits(0, first, UNIT) && Admits(Wrap(0 + first), second, UNIT)
  {
  }
}
