/**
 * The signing protocol (internal/tools/sign.go) as a transition system: any
 * number of sessions of the three signing handlers run interleaved against one
 * spend ledger while the clock moves. Each action of a session is one atomic
 * step; what the world answers (node, store, approver, user) is part of the
 * action.
 */
module Signing {
  import opened Engine
  import opened Int64
  import opened Policy
  import opened Store
  import opened Wrappers

  // ----- State -----

  /**
   * `decodes` is whether the server can extract an intent from the
   * transaction; `token` is what a contract call moves.
   */
  datatype Tx = Tx(
    action: string,
    from: string,
    to: string,
    amountSUN: Int64,
    token: string,
    tokenAmount: int,
    permission: int,
    decodes: bool)

  /** Only a contract call can move anything but TRX. */
  function IntentOf(wallet: string, tx: Tx): (i: Intent)
    ensures Coherent(i)
  {
    var token := if tx.action == "TriggerSmartContract" then tx.token else "TRX";
    Intent(wallet, tx.action, tx.from, tx.to, tx.amountSUN, token,
           if token == "TRX" then tx.amountSUN else tx.tokenAmount)
  }

  /** `rules` is None when the server runs without a policy engine. */
  datatype Setup = Setup(rules: Option<map<string, Policy>>, hasStore: bool, hasApprover: bool)

  datatype Kind = SignAndBroadcast | SignAndConfirm | LimitOverride

  datatype Ending = Dropped | Released | ReleaseLost | Sent | Recorded(day: Day) | RecordLost

  /** The prices that one check fetched for its USD limit and its USD threshold. */
  datatype Quotes = Quotes(limit: Option<real>, threshold: Option<real>)

  datatype Phase =
    | Arrived
    | Preflighted
    | Screened(approval: Option<Reason>, quotes: Quotes)
    | AwaitingApproval
    | Rebuilding
    | AwaitingConfirmation
    | Cleared
    | Signed
    | Unwinding
    | Recording
    | Polling(left: nat)
    | Ended(ending: Ending)

  datatype Event =
    | PreflightPassed
    | Checked(verdict: Verdict, quotes: Quotes)
    | OverrideScreened
    | ApprovalGranted
    | TxRebuilt
    | ConfirmationPassed
    | TxSigned
    | Broadcasting(tx: Tx)

  /** `tx` is the transaction in hand, `original` the one submitted; `log` records what happened. */
  datatype Session = Session(
    kind: Kind,
    wallet: string,
    original: Tx,
    tx: Tx,
    phase: Phase,
    checkDay: Option<Day>,
    reserved: bool,
    log: seq<Event>)

  datatype System = System(setup: Setup, today: Day, ledger: Ledger, sessions: seq<Session>)

  // ----- Steps -----

  datatype Answer = Granted | Declined | NoAnswer

  datatype Action =
    | Preflight(ok: bool)
    | Evaluate(limitQuote: Option<real>, thresholdQuote: Option<real>)
    | Reserve(commits: bool)
    | Approve(answer: Answer)
    | Rebuild(ok: bool)
    | Confirm(ok: bool)
    | Sign(ok: bool)
    | Broadcast(accepted: bool)
    | Release(commits: bool)
    | Record(commits: bool)
    | Poll(again: bool)

  /** The next state of a session and what it writes to the ledger. */
  datatype Move = Move(session: Session, write: Option<Write<Slot>>)

  const MAX_CONFIRM_ATTEMPTS := 20

  function PolicyOf(setup: Setup, wallet: string): Option<Policy> {
    if setup.rules.Some? && wallet in setup.rules.value then Some(setup.rules.value[wallet]) else None
  }

  function Claim(setup: Setup, wallet: string, tx: Tx, day: Day): Option<Write<Slot>> {
    var p := PolicyOf(setup, wallet);
    if p.None? || !setup.hasStore then None
    else
      var intent := IntentOf(wallet, tx);
      var amount := Tracked(p.value, intent);
      if amount.None? then None else Some(Write(Slot(wallet, intent.token, day), amount.value))
  }

  /** The handler's early return: the deferred rollback is due only if the reservation flag is set. */
  function Fail(s: Session): Session {
    s.(phase := if s.reserved then Unwinding else Ended(Dropped))
  }

  function Note(s: Session, event: Event): Session {
    s.(log := s.log + [event])
  }

  function EvaluateMove(setup: Setup, today: Day, s: Session, limitQuote: Option<real>,
      thresholdQuote: Option<real>): Session {
    var p := PolicyOf(setup, s.wallet);
    var intent := IntentOf(s.wallet, s.tx);
    var quotes := Quotes(limitQuote, thresholdQuote);
    if setup.rules.None? then s.(phase := AwaitingConfirmation)
    else if !s.tx.decodes then Fail(s)
    else if s.kind.LimitOverride? then
      if (p.Some? && !WhitelistAdmits(p.value, intent.to)) || !setup.hasApprover then Fail(s)
      else Note(s.(phase := AwaitingApproval), OverrideScreened)
    else if p.None? then Note(s.(phase := Cleared, reserved := true), Checked(Allowed, quotes))
    else
      match Screen(p.value, intent, limitQuote, thresholdQuote)
      case Refused(reason) => Note(Fail(s), Checked(Denied(reason), quotes))
      case Passed(approval) => s.(phase := Screened(approval, quotes), checkDay := Some(today))
  }

  function ReserveMove(setup: Setup, p: Policy, ledger: Ledger, s: Session, day: Day, commits: bool): Move
    requires s.phase.Screened?
  {
    var intent, quotes := IntentOf(s.wallet, s.tx), s.phase.quotes;
    var screening, plan := Passed(s.phase.approval), DailyPlan(p, intent, setup.hasStore);
    var slot := Slot(s.wallet, intent.token, day);
    var verdict := Settle(screening, plan, Read(ledger, slot), commits);
    var write := if Reserves(screening, plan, Read(ledger, slot), commits) then Some(Write(slot, plan.amount))
        else None;
    var noted := Note(s, Checked(verdict, quotes));
    match verdict
    case Allowed => Move(noted.(phase := Cleared, reserved := true), write)
    case NeedsApproval(_) =>
      Move(noted.(phase := if setup.hasApprover then AwaitingApproval else Unwinding, reserved := true), write)
    case _ => Move(Fail(noted), write)
  }

  /** The node rebuilds a plain transfer with permission 0; the handler restores the original permission. */
  function RebuildMove(s: Session, ok: bool): Session {
    if ok && s.tx.action == "TransferContract" then
      var i := IntentOf(s.wallet, s.tx);
      var rebuilt := Tx("TransferContract", i.from, i.to, i.amountSUN, "TRX", i.amountSUN, s.tx.permission, true);
      Note(s.(phase := Cleared, tx := rebuilt), TxRebuilt)
    else Fail(s)
  }

  function BroadcastMove(s: Session, accepted: bool): Session {
    var noted := Note(s, Broadcasting(s.tx));
    if !accepted then Fail(noted)
    else if s.kind.LimitOverride? then noted.(phase := Recording)
    else if s.kind.SignAndConfirm? then noted.(phase := Polling(MAX_CONFIRM_ATTEMPTS), reserved := false)
    else noted.(phase := Ended(Sent), reserved := false)
  }

  /** A failed rollback write is ignored by the program; the amount stays on the counter. */
  function ReleaseMove(setup: Setup, today: Day, s: Session, commits: bool): Move {
    var claim := Claim(setup, s.wallet, s.tx, if s.checkDay.Some? then s.checkDay.value else today);
    if claim.None? then Move(s.(phase := Ended(Released)), None)
    else if !commits then Move(s.(phase := Ended(ReleaseLost)), None)
    else Move(s.(phase := Ended(Released)), Some(claim.value.(amount := -claim.value.amount)))
  }

  function RecordMove(setup: Setup, today: Day, s: Session, commits: bool): Move {
    var claim := Claim(setup, s.wallet, s.tx, today);
    if claim.None? || !commits || IntentOf(s.wallet, s.tx).tokenAmount > TWO_63 then
        Move(s.(phase := Ended(RecordLost)), None)
    else Move(s.(phase := Ended(Recorded(today))), claim)
  }

  /** What an action does to its session, when the session is at the point where it can happen. */
  function Advance(setup: Setup, today: Day, ledger: Ledger, s: Session, a: Action): Option<Move> {
    match (s.phase, a)
    case (Arrived, Preflight(ok)) =>
      Some(Move(if ok then Note(s.(phase := Preflighted), PreflightPassed) else Fail(s), None))
    case (Preflighted, Evaluate(q1, q2)) => Some(Move(EvaluateMove(setup, today, s, q1, q2), None))
    case (Screened(_, _), Reserve(commits)) =>
      var p := PolicyOf(setup, s.wallet);
      if p.None? || s.checkDay.None? then None
      else Some(ReserveMove(setup, p.value, ledger, s, s.checkDay.value, commits))
    case (AwaitingApproval, Approve(answer)) =>
      Some(Move(if answer.Granted? then Note(s.(phase := Rebuilding), ApprovalGranted) else Fail(s), None))
    case (Rebuilding, Rebuild(ok)) => Some(Move(RebuildMove(s, ok), None))
    case (AwaitingConfirmation, Confirm(ok)) =>
      Some(Move(if ok then Note(s.(phase := Cleared), ConfirmationPassed) else Fail(s), None))
    case (Cleared, Sign(ok)) => Some(Move(if ok then Note(s.(phase := Signed), TxSigned) else Fail(s), None))
    case (Signed, Broadcast(accepted)) => Some(Move(BroadcastMove(s, accepted), None))
    case (Unwinding, Release(commits)) => Some(ReleaseMove(setup, today, s, commits))
    case (Recording, Record(commits)) => Some(RecordMove(setup, today, s, commits))
    case (Polling(left), Poll(again)) =>
      Some(Move(s.(phase := if again && left > 1 then Polling(left - 1) else Ended(Sent)), None))
    case _ => None
  }

  predicate Checks(before: seq<Event>, after: seq<Event>) {
    || after == before
    || (|after| == |before| + 1 && after[..|before|] == before
        && (after[|before|].Checked? || after[|before|].OverrideScreened?))
  }

  /** The two halves of a check change neither wallet nor transaction, and note at most what they found. */
  lemma EvaluateKeeps(setup: Setup, today: Day, s: Session, q1: Option<real>, q2: Option<real>)
    ensures var next := EvaluateMove(setup, today, s, q1, q2);
            && next == s.(phase := next.phase, checkDay := next.checkDay, reserved := next.reserved, log := next.log)
            && Checks(s.log, next.log)
  {
  }

  lemma ReserveKeeps(setup: Setup, p: Policy, ledger: Ledger, s: Session, day: Day, commits: bool)
    requires s.phase.Screened?
    ensures var next := ReserveMove(setup, p, ledger, s, day, commits).session;
            && next == s.(phase := next.phase, reserved := next.reserved, log := next.log)
            && Checks(s.log, next.log)
  {
  }

  datatype Step = Arrive(kind: Kind, wallet: string, tx: Tx) | Tick(day: Day) | Act(id: nat, action: Action)

  function NewSession(kind: Kind, wallet: string, tx: Tx): Session {
    Session(kind, wallet, tx, tx, Arrived, None, false, [])
  }

  function Written(ledger: Ledger, write: Option<Write<Slot>>): Ledger {
    if write.Some? then Credit(ledger, write.value.key, write.value.amount) else ledger
  }

  /** The override tool exists only beside a policy engine. */
  function Next(sys: System, step: Step): Option<System> {
    match step
    case Arrive(kind, wallet, tx) =>
      if kind.LimitOverride? && sys.setup.rules.None? then None
      else Some(sys.(sessions := sys.sessions + [NewSession(kind, wallet, tx)]))
    case Tick(day) => Some(sys.(today := day))
    case Act(id, action) =>
      if id >= |sys.sessions| then None
      else
        match Advance(sys.setup, sys.today, sys.ledger, sys.sessions[id], action)
        case None => None
        case Some(move) =>
          Some(sys.(sessions := sys.sessions[id := move.session], ledger := Written(sys.ledger, move.write)))
  }

  function Initial(setup: Setup, today: Day): System {
    System(setup, today, map[], [])
  }

  /** The state after a run, if every step of it could happen. */
  function After(sys: System, run: seq<Step>): Option<System> {
    if run == [] then Some(sys)
    else
      var before := After(sys, run[..|run| - 1]);
      if before.None? then None else Next(before.value, run[|run| - 1])
  }
}
