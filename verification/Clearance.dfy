/** What must have happened before a broadcast, and that every session ends, over all runs of the signing protocol. */
module Clearance {
  import opened Accounts
  import opened Engine
  import opened Policy
  import opened Signing
  import opened Store
  import opened Wrappers

  // ----- Clearance -----

  /** The four ways a transaction becomes cleared for signing, event by event. */
  predicate ClearedBy(setup: Setup, kind: Kind, log: seq<Event>) {
    match (setup.rules, kind)
    case (None, _) => log == [PreflightPassed, ConfirmationPassed]
    case (Some(_), LimitOverride) => log == [PreflightPassed, OverrideScreened, ApprovalGranted, TxRebuilt]
    case (Some(_), _) =>
      || (|log| == 2 && log[1].Checked? && log[1].verdict.Allowed? && log == [PreflightPassed, log[1]])
      || (&& |log| == 4 && log[1].Checked? && log[1].verdict.NeedsApproval?
          && log == [PreflightPassed, log[1], ApprovalGranted, TxRebuilt])
  }

  /** What a caller asked for. */
  datatype Submission = Submission(kind: Kind, wallet: string, tx: Tx)

  function SubmissionOf(s: Session): Submission {
    Submission(s.kind, s.wallet, s.original)
  }

  /** The policy facts no human answer can waive: the whitelist always, the unit limit outside overrides. */
  predicate PolicyAdmits(setup: Setup, q: Submission) {
    var p, i := PolicyOf(setup, q.wallet), IntentOf(q.wallet, q.tx);
    p.Some? ==> WhitelistAdmits(p.value, i.to) && (q.kind.LimitOverride? || !AboveUnitLimit(p.value, i))
  }

  predicate WithinUSD(limit: real, value: Option<real>) {
    limit > 0.0 ==> value.Some? && value.value <= limit
  }

  /**
   * What the check found at its quoted prices: the transfer is within the USD
   * limit and, unless a human has to approve it, below both approval thresholds.
   */
  predicate Judged(setup: Setup, q: Submission, quotes: Quotes, approved: bool) {
    var p, i := PolicyOf(setup, q.wallet), IntentOf(q.wallet, q.tx);
    p.Some? ==>
      && WithinUSD(p.value.perTxUSD, USDValue(p.value, i, quotes.limit))
      && (approved ||
          (!AboveUnitThreshold(p.value, i) && WithinUSD(p.value.approvalUSD, USDValue(p.value, i, quotes.threshold))))
  }

  /** The transaction in hand does what the submitted one was checked for; it differs only if it was rebuilt. */
  predicate Matches(q: Submission, tx: Tx, log: seq<Event>) {
    && IntentOf(q.wallet, tx) == IntentOf(q.wallet, q.tx)
    && tx.permission == q.tx.permission
    && (TxRebuilt in log ==> tx.action == "TransferContract")
    && (TxRebuilt !in log ==> tx == q.tx)
  }

  /** `log` clears `tx`; a transfer that its check found above a threshold only with a human's approval. */
  predicate Clears(setup: Setup, q: Submission, tx: Tx, log: seq<Event>) {
    && ClearedBy(setup, q.kind, log)
    && PolicyAdmits(setup, q)
    && (log[1].Checked? ==> Judged(setup, q, log[1].quotes, ApprovalGranted in log))
    && Matches(q, tx, log)
  }

  predicate Warranted(setup: Setup, q: Submission, tx: Tx, log: seq<Event>) {
    |log| > 0 && log[|log| - 1] == TxSigned && Clears(setup, q, tx, log[..|log| - 1])
  }

  /** A broadcast is the last event of its session and was warranted by what came before. */
  ghost predicate BroadcastsWarranted(setup: Setup, s: Session) {
    forall k :: 0 <= k < |s.log| && s.log[k].Broadcasting? ==>
      k == |s.log| - 1 && Warranted(setup, SubmissionOf(s), s.log[k].tx, s.log[..k])
  }

  /** Where a session stands tells what it has been through. */
  ghost predicate PhaseTells(setup: Setup, s: Session) {
    match s.phase
    case Arrived => s.log == [] && s.tx == s.original
    case Preflighted => s.log == [PreflightPassed] && s.tx == s.original
    case Screened(approval, quotes) =>
      && s.log == [PreflightPassed] && s.tx == s.original
      && PolicyAdmits(setup, SubmissionOf(s)) && Judged(setup, SubmissionOf(s), quotes, approval.Some?)
    case AwaitingConfirmation => s.log == [PreflightPassed] && s.tx == s.original
    case AwaitingApproval =>
      AskedApproval(setup, s, s.log) && s.tx == s.original && PolicyAdmits(setup, SubmissionOf(s))
    case Rebuilding =>
      && |s.log| == 3 && s.log[2] == ApprovalGranted && AskedApproval(setup, s, s.log[..2])
      && s.tx == s.original && PolicyAdmits(setup, SubmissionOf(s))
    case Cleared => Clears(setup, SubmissionOf(s), s.tx, s.log)
    case Signed => Warranted(setup, SubmissionOf(s), s.tx, s.log)
    case _ => true
  }

  predicate AskedApproval(setup: Setup, s: Session, log: seq<Event>) {
    && |log| == 2 && log[0] == PreflightPassed
    && if s.kind.LimitOverride? then log[1] == OverrideScreened
       else
         && log[1].Checked? && log[1].verdict.NeedsApproval?
         && Judged(setup, SubmissionOf(s), log[1].quotes, true)
  }

  predicate NoBroadcast(log: seq<Event>) {
    forall k :: 0 <= k < |log| ==> !log[k].Broadcasting?
  }

  predicate Done(phase: Phase) {
    phase.Recording? || phase.Polling? || phase.Ended? || phase.Unwinding?
  }

  ghost predicate Traced(setup: Setup, s: Session) {
    PhaseTells(setup, s) && BroadcastsWarranted(setup, s) && (Done(s.phase) || NoBroadcast(s.log))
  }

  lemma ScreeningAdmits(setup: Setup, s: Session, p: Policy, q1: Option<real>, q2: Option<real>)
    requires PolicyOf(setup, s.wallet) == Some(p)
    ensures var screening := Screen(p, IntentOf(s.wallet, s.original), q1, q2);
            && (screening.Passed? ==> PolicyAdmits(setup, SubmissionOf(s)))
            && (screening.Passed? ==> Judged(setup, SubmissionOf(s), Quotes(q1, q2), screening.approval.Some?))
  {
  }

  /** An early return changes neither the log nor the transaction. */
  lemma FailTraced(setup: Setup, s: Session)
    requires Traced(setup, s)
    ensures Traced(setup, Fail(s))
  {
  }

  lemma PolicyTraced(setup: Setup, today: Day, s: Session, p: Policy, q1: Option<real>, q2: Option<real>)
    requires Traced(setup, s) && s.phase.Preflighted? && s.tx.decodes
    requires !s.kind.LimitOverride? && PolicyOf(setup, s.wallet) == Some(p)
    ensures Traced(setup, EvaluateMove(setup, today, s, q1, q2))
  {
    if Screen(p, IntentOf(s.wallet, s.tx), q1, q2).Passed? {
      ScreeningAdmits(setup, s, p, q1, q2);
    }
  }

  lemma EvaluateTraced(setup: Setup, today: Day, s: Session, q1: Option<real>, q2: Option<real>)
    requires Traced(setup, s) && s.phase.Preflighted?
    ensures Traced(setup, EvaluateMove(setup, today, s, q1, q2))
  {
    var p := PolicyOf(setup, s.wallet);
    if p.Some? && s.tx.decodes && !s.kind.LimitOverride? {
      PolicyTraced(setup, today, s, p.value, q1, q2);
    } else if setup.rules.Some? && !s.tx.decodes {
      FailTraced(setup, s);
    }
  }

  lemma ReserveTraced(setup: Setup, ledger: Ledger, s: Session, commits: bool)
    requires SessionOk(setup, s) && Traced(setup, s) && s.phase.Screened?
    ensures Traced(setup,
              ReserveMove(setup, PolicyOf(setup, s.wallet).value, ledger, s, s.checkDay.value, commits).session)
  {
  }

  lemma RebuildTraced(setup: Setup, s: Session, ok: bool)
    requires SessionOk(setup, s) && Traced(setup, s) && s.phase.Rebuilding?
    ensures Traced(setup, RebuildMove(s, ok))
  {
  }

  lemma ConfirmTraced(setup: Setup, s: Session)
    requires SessionOk(setup, s) && Traced(setup, s) && s.phase.AwaitingConfirmation?
    ensures Traced(setup, Note(s.(phase := Cleared), ConfirmationPassed))
  {
  }

  lemma SignTraced(setup: Setup, s: Session)
    requires Traced(setup, s) && s.phase.Cleared?
    ensures Traced(setup, Note(s.(phase := Signed), TxSigned))
  {
  }

  lemma ApproveTraced(setup: Setup, s: Session)
    requires Traced(setup, s) && s.phase.AwaitingApproval?
    ensures Traced(setup, Note(s.(phase := Rebuilding), ApprovalGranted))
  {
    assert (s.log + [ApprovalGranted])[..2] == s.log;
  }

  lemma LastIsBroadcast(log: seq<Event>, tx: Tx, k: nat)
    requires NoBroadcast(log) && k <= |log| && (log + [Broadcasting(tx)])[k].Broadcasting?
    ensures k == |log| && (log + [Broadcasting(tx)])[..k] == log
  {
  }

  lemma BroadcastNoted(setup: Setup, s: Session, next: Session)
    requires Traced(setup, s) && s.phase.Signed? && Done(next.phase)
    requires next.log == s.log + [Broadcasting(s.tx)] && SubmissionOf(next) == SubmissionOf(s)
    ensures Traced(setup, next)
  {
    forall k | 0 <= k < |next.log| && next.log[k].Broadcasting?
      ensures k == |next.log| - 1 && Warranted(setup, SubmissionOf(next), next.log[k].tx, next.log[..k])
    {
      LastIsBroadcast(s.log, s.tx, k);
    }
  }

  lemma BroadcastTraced(setup: Setup, s: Session, accepted: bool)
    requires SessionOk(setup, s) && Traced(setup, s) && s.phase.Signed?
    ensures Traced(setup, BroadcastMove(s, accepted))
  {
    BroadcastNoted(setup, s, BroadcastMove(s, accepted));
  }

  /** After the broadcast, and while unwinding, the log and the transaction stay as they are. */
  lemma AftermathTraced(setup: Setup, s: Session, next: Session)
    requires Traced(setup, s) && Done(s.phase) && Done(next.phase) && next == s.(phase := next.phase)
    ensures Traced(setup, next)
  {
  }

  lemma AnswerTraced(setup: Setup, today: Day, ledger: Ledger, s: Session, a: Action)
    requires SessionOk(setup, s) && Traced(setup, s) && Advance(setup, today, ledger, s, a).Some?
    requires a.Preflight? || a.Approve? || a.Confirm? || a.Sign?
    ensures Traced(setup, Advance(setup, today, ledger, s, a).value.session)
  {
    match a
    case Approve(answer) => if answer.Granted? { ApproveTraced(setup, s); } else { FailTraced(setup, s); }
    case Sign(ok) => if ok { SignTraced(setup, s); } else { FailTraced(setup, s); }
    case Confirm(ok) => if ok { ConfirmTraced(setup, s); } else { FailTraced(setup, s); }
    case _ => FailTraced(setup, s);
  }

  lemma EndTraced(setup: Setup, today: Day, ledger: Ledger, s: Session, a: Action)
    requires Traced(setup, s) && Advance(setup, today, ledger, s, a).Some? && (a.Release? || a.Record? || a.Poll?)
    ensures Traced(setup, Advance(setup, today, ledger, s, a).value.session)
  {
    AftermathTraced(setup, s, Advance(setup, today, ledger, s, a).value.session);
  }

  lemma AdvanceTraced(setup: Setup, today: Day, ledger: Ledger, s: Session, a: Action)
    requires SessionOk(setup, s) && Traced(setup, s) && Advance(setup, today, ledger, s, a).Some?
    ensures Traced(setup, Advance(setup, today, ledger, s, a).value.session)
  {
    match a
    case Evaluate(q1, q2) => EvaluateTraced(setup, today, s, q1, q2);
    case Reserve(commits) => ReserveTraced(setup, ledger, s, commits);
    case Rebuild(ok) => RebuildTraced(setup, s, ok);
    case Broadcast(accepted) => BroadcastTraced(setup, s, accepted);
    case _ =>
      if a.Release? || a.Record? || a.Poll? {
        EndTraced(setup, today, ledger, s, a);
      } else {
        AnswerTraced(setup, today, ledger, s, a);
      }
  }

  ghost predicate AllTraced(sys: System) {
    forall id :: 0 <= id < |sys.sessions| ==> Traced(sys.setup, sys.sessions[id])
  }

  lemma {:induction false} ReachableTraced(setup: Setup, today: Day, run: seq<Step>)
    requires After(Initial(setup, today), run).Some?
    ensures After(Initial(setup, today), run).value.setup == setup
    ensures AllTraced(After(Initial(setup, today), run).value)
  {
    if run != [] {
      var front, step := run[..|run| - 1], run[|run| - 1];
      var sys := After(Initial(setup, today), front).value;
      ReachableTraced(setup, today, front);
      ReachableConserved(setup, today, front);
      if step.Act? {
        AdvanceTraced(setup, sys.today, sys.ledger, sys.sessions[step.id], step.action);
      }
    }
  }

  lemma TracedWarrants(setup: Setup, s: Session, k: nat)
    requires Traced(setup, s) && k < |s.log| && s.log[k].Broadcasting?
    ensures k == |s.log| - 1 && Warranted(setup, SubmissionOf(s), s.log[k].tx, s.log[..k])
  {
  }

  /**
   * Clearance: in every run a broadcast is the single, final event of its
   * session; it follows a passed preflight, one complete way of clearing and
   * the signature; it obeys the policy's whitelist and unit limit, and above the
   * approval threshold a human has approved it; and what is broadcast has the
   * checked intent and the submitted permission.
   */
  lemma NoBroadcastWithoutClearance(setup: Setup, today: Day, run: seq<Step>, sys: System, id: nat, k: nat)
    requires After(Initial(setup, today), run) == Some(sys) && id < |sys.sessions|
    requires k < |sys.sessions[id].log| && sys.sessions[id].log[k].Broadcasting?
    ensures k == |sys.sessions[id].log| - 1
    ensures Warranted(setup, SubmissionOf(sys.sessions[id]), sys.sessions[id].log[k].tx, sys.sessions[id].log[..k])
    ensures setup.rules.Some? && !sys.sessions[id].kind.LimitOverride? ==>
              && k > 1 && sys.sessions[id].log[1].Checked?
              && Judged(setup, SubmissionOf(sys.sessions[id]), sys.sessions[id].log[1].quotes,
                        ApprovalGranted in sys.sessions[id].log[..k])
  {
    ReachableTraced(setup, today, run);
    TracedWarrants(setup, sys.sessions[id], k);
  }

  // ----- Every session ends -----

  function Rank(phase: Phase): nat {
    match phase
    case Arrived => 32
    case Preflighted => 31
    case Screened(_, _) => 30
    case AwaitingApproval => 29
    case Rebuilding => 28
    case AwaitingConfirmation => 28
    case Cleared => 27
    case Signed => 26
    case Unwinding => 25
    case Recording => 25
    case Polling(left) => left + 1
    case Ended(_) => 0
  }

  /** Some answer of the world moves a session on exactly when it has not ended. */
  lemma SessionsProgress(setup: Setup, today: Day, ledger: Ledger, s: Session)
    requires SessionOk(setup, s)
    ensures !s.phase.Ended? <==> exists a :: Advance(setup, today, ledger, s, a).Some?
  {
    var a := match s.phase
      case Arrived => Preflight(true)
      case Preflighted => Evaluate(None, None)
      case Screened(_, _) => Reserve(true)
      case AwaitingApproval => Approve(NoAnswer)
      case Rebuilding => Rebuild(true)
      case AwaitingConfirmation => Confirm(true)
      case Cleared => Sign(true)
      case Signed => Broadcast(true)
      case Unwinding => Release(true)
      case Recording => Record(true)
      case _ => Poll(true);
    assert !s.phase.Ended? ==> Advance(setup, today, ledger, s, a).Some?;
  }

  lemma EvaluateLowersRank(setup: Setup, today: Day, s: Session, q1: Option<real>, q2: Option<real>)
    ensures Rank(EvaluateMove(setup, today, s, q1, q2).phase) < Rank(Preflighted)
  {
  }

  lemma ReserveLowersRank(setup: Setup, p: Policy, ledger: Ledger, s: Session, day: Day, commits: bool)
    requires s.phase.Screened?
    ensures Rank(ReserveMove(setup, p, ledger, s, day, commits).session.phase) < Rank(s.phase)
  {
  }

  lemma MovesLowerRank(setup: Setup, today: Day, ledger: Ledger, s: Session, a: Action)
    requires SessionOk(setup, s) && Advance(setup, today, ledger, s, a).Some?
    ensures Rank(Advance(setup, today, ledger, s, a).value.session.phase) < Rank(s.phase)
  {
    match a
    case Evaluate(q1, q2) => EvaluateLowersRank(setup, today, s, q1, q2);
    case Reserve(commits) =>
      ReserveLowersRank(setup, PolicyOf(setup, s.wallet).value, ledger, s, s.checkDay.value, commits);
    case _ =>
  }

  /** How often session `id` acts in a run. */
  function Acts(run: seq<Step>, id: nat): nat {
    if run == [] then 0
    else Acts(run[..|run| - 1], id) + if run[|run| - 1].Act? && run[|run| - 1].id == id then 1 else 0
  }

  /** No session takes more than 32 steps, however the others run. */
  lemma {:induction false} SessionsAreBounded(setup: Setup, today: Day, run: seq<Step>, id: nat)
    requires After(Initial(setup, today), run).Some?
    ensures
      var sessions := After(Initial(setup, today), run).value.sessions;
      Acts(run, id) + (if id < |sessions| then Rank(sessions[id].phase) else 32) <= 32
  {
    if run != [] {
      var front, step := run[..|run| - 1], run[|run| - 1];
      var sys := After(Initial(setup, today), front).value;
      SessionsAreBounded(setup, today, front, id);
      ReachableConserved(setup, today, front);
      if step.Act? {
        MovesLowerRank(setup, sys.today, sys.ledger, sys.sessions[step.id], step.action);
      }
    }
  }
}
