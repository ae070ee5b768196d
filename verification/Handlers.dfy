/**
 * The three signing handlers as the sequential code they are
 * (internal/tools/sign.go), with everything else the server does happening
 * between their steps. The world's answers are nondeterministic choices.
 */
module Handlers {
  import opened Accounts
  import opened Engine
  import opened Signing
  import opened Store
  import opened Wrappers

  predicate Foreign(step: Step, me: nat) {
    step.Act? ==> step.id != me
  }

  function VerdictIn(log: seq<Event>): Option<Verdict> {
    if |log| == 2 && log[1].Checked? then Some(log[1].verdict) else None
  }

  /** The result that arms the rollback. */
  predicate Arms(verdict: Option<Verdict>) {
    verdict.Some? && (verdict.value.Allowed? || verdict.value.NeedsApproval?)
  }

  /** A session after its check: the verdict is noted, and a reservation is held exactly when the verdict says so. */
  predicate CheckedAs(s: Session, verdict: Option<Verdict>) {
    && |s.log| >= 1
    && VerdictIn(s.log) == verdict && s.log[..1] == [PreflightPassed] && |s.log| == (if verdict.Some? then 2 else 1)
    && (s.reserved <==> Arms(verdict))
    && s.phase in if s.reserved then {Cleared, AwaitingApproval, Unwinding} else {Ended(Dropped)}
  }

  predicate BeforeCheck(s: Session) {
    s.phase.Preflighted? && s.log == [PreflightPassed] && !s.kind.LimitOverride?
  }

  lemma EvaluateNotes(setup: Setup, today: Day, s: Session, q1: Option<real>, q2: Option<real>)
    requires SessionOk(setup, s) && BeforeCheck(s) && setup.rules.Some?
    ensures var next := EvaluateMove(setup, today, s, q1, q2);
            && next.kind == s.kind
            && (next.phase.Screened? ==> next.log == s.log)
            && (!next.phase.Screened? ==> CheckedAs(next, VerdictIn(next.log)))
  {
  }

  lemma ReserveNotes(setup: Setup, ledger: Ledger, s: Session, commits: bool)
    requires SessionOk(setup, s) && s.phase.Screened? && s.log == [PreflightPassed]
    ensures var p := PolicyOf(setup, s.wallet).value;
            var next := ReserveMove(setup, p, ledger, s, s.checkDay.value, commits).session;
            next.kind == s.kind && CheckedAs(next, VerdictIn(next.log))
  {
  }

  class Server {
    ghost const start: System
    ghost var trace: seq<Step>
    var sys: System

    /** The server's state is what its trace leads to from an empty server. */
    ghost predicate Valid()
      reads this
    {
      && start == Initial(start.setup, start.today)
      && After(start, trace) == Some(sys)
      && sys.setup == start.setup
      && SystemOk(sys)
    }

    constructor (setup: Setup, today: Day)
      ensures Valid() && sys == Initial(setup, today) && start == sys && trace == []
    {
      sys := Initial(setup, today);
      start, trace := Initial(setup, today), [];
    }

    /** Session `me` is untouched and the server has only gone on. */
    twostate predicate Resumed(me: nat)
      reads this
    {
      && Valid() && old(trace) <= trace && old(|sys.sessions|) <= |sys.sessions|
      && (me < old(|sys.sessions|) ==> sys.sessions[me] == old(sys.sessions[me]))
    }

    method Take(step: Step)
      requires Valid() && Next(sys, step).Some?
      modifies this
      ensures Valid() && trace == old(trace) + [step] && Some(sys) == Next(old(sys), step)
    {
      ReachableConserved(start.setup, start.today, trace);
      NextConserves(sys, step);
      trace := trace + [step];
      assert trace[..|trace| - 1] == old(trace);
      sys := Next(sys, step).value;
    }

    method OtherStep(me: nat)
      requires Valid()
      modifies this
      ensures Resumed(me)
    {
      var step: Step := *;
      if Foreign(step, me) && Next(sys, step).Some? {
        Take(step);
      }
    }

    /** Other sessions act, new ones arrive and the clock moves, any number of times. */
    method Others(me: nat)
      requires Valid()
      modifies this
      ensures Resumed(me)
    {
      var n: nat :| true;
      for k := 0 to n
        invariant Resumed(me)
      {
        OtherStep(me);
      }
    }

    method Begin(kind: Kind, wallet: string, tx: Tx) returns (id: nat)
      requires Valid() && (kind.LimitOverride? ==> sys.setup.rules.Some?)
      modifies this
      ensures Valid() && old(trace) <= trace
      ensures id < |sys.sessions| && sys.sessions[id] == NewSession(kind, wallet, tx)
    {
      id := |sys.sessions|;
      Take(Arrive(kind, wallet, tx));
      Others(id);
    }

    /** One action of session `id`, and then whatever the others do. */
    method Do(id: nat, a: Action)
      requires Valid() && id < |sys.sessions|
      requires Advance(sys.setup, sys.today, sys.ledger, sys.sessions[id], a).Some?
      modifies this
      ensures Valid() && old(trace) <= trace && id < |sys.sessions|
      ensures sys.sessions[id]
                == Advance(old(sys.setup), old(sys.today), old(sys.ledger), old(sys.sessions[id]), a).value.session
    {
      Take(Act(id, a));
      Others(id);
    }

    /** Ask the approver; on approval rebuild the transaction. */
    method ApproveAndRebuild(id: nat) returns (cleared: bool)
      requires Valid() && id < |sys.sessions| && sys.sessions[id].phase.AwaitingApproval?
      modifies this
      ensures Valid() && old(trace) <= trace && id < |sys.sessions|
      ensures sys.sessions[id].kind == old(sys.sessions[id].kind)
      ensures sys.sessions[id].reserved == old(sys.sessions[id].reserved)
      ensures sys.sessions[id].phase == if cleared then Cleared else Fail(old(sys.sessions[id])).phase
    {
      var answer: Answer := *;
      Do(id, Approve(answer));
      if !answer.Granted? {
        return false;
      }
      var rebuilt: bool := *;
      Do(id, Rebuild(rebuilt));
      cleared := sys.sessions[id].phase.Cleared?;
    }

    /**
     * `pe.Check`: the stateless half, then the reservation on the day stamped
     * before. No verdict means that no intent could be extracted.
     */
    method Check(id: nat) returns (verdict: Option<Verdict>)
      requires Valid() && id < |sys.sessions| && BeforeCheck(sys.sessions[id]) && sys.setup.rules.Some?
      modifies this
      ensures Valid() && old(trace) <= trace && id < |sys.sessions|
      ensures sys.sessions[id].kind == old(sys.sessions[id].kind) && CheckedAs(sys.sessions[id], verdict)
    {
      var limitQuote, thresholdQuote, commits := *, *, *;
      EvaluateNotes(sys.setup, sys.today, sys.sessions[id], limitQuote, thresholdQuote);
      Do(id, Evaluate(limitQuote, thresholdQuote));
      if sys.sessions[id].phase.Screened? {
        ReserveNotes(sys.setup, sys.ledger, sys.sessions[id], commits);
        Do(id, Reserve(commits));
      }
      verdict := VerdictIn(sys.sessions[id].log);
    }

    /**
     * The policy gate: check, and when it asks for a human, approval and
     * rebuild. `reserved` is the flag the handler arms its rollback with.
     */
    method PassPolicy(id: nat) returns (cleared: bool, reserved: bool)
      requires Valid() && id < |sys.sessions| && BeforeCheck(sys.sessions[id]) && sys.setup.rules.Some?
      modifies this
      ensures Valid() && old(trace) <= trace && id < |sys.sessions|
      ensures reserved == sys.sessions[id].reserved && sys.sessions[id].kind == old(sys.sessions[id].kind)
      ensures sys.sessions[id].phase == if cleared then Cleared else if reserved then Unwinding else Ended(Dropped)
    {
      var verdict := Check(id);
      reserved := Arms(verdict);
      if sys.sessions[id].phase.AwaitingApproval? {
        cleared := ApproveAndRebuild(id);
      } else {
        cleared := sys.sessions[id].phase.Cleared?;
      }
    }

    /** The gate of a server without policies: the caller's own confirmation. */
    method AskCaller(id: nat) returns (confirmed: bool)
      requires Valid() && id < |sys.sessions| && BeforeCheck(sys.sessions[id]) && sys.setup.rules.None?
      modifies this
      ensures Valid() && old(trace) <= trace && id < |sys.sessions|
      ensures sys.sessions[id].kind == old(sys.sessions[id].kind) && !sys.sessions[id].reserved
      ensures sys.sessions[id].phase == if confirmed then Cleared else Ended(Dropped)
    {
      confirmed := *;
      Do(id, Evaluate(None, None));
      Do(id, Confirm(confirmed));
    }

    /** Sign and broadcast a cleared session; false is an early return. */
    method SignAndSend(id: nat) returns (accepted: bool)
      requires Valid() && id < |sys.sessions| && sys.sessions[id].phase.Cleared?
      modifies this
      ensures Valid() && old(trace) <= trace && id < |sys.sessions|
      ensures sys.sessions[id].kind == old(sys.sessions[id].kind)
      ensures !accepted ==> sys.sessions[id].reserved == old(sys.sessions[id].reserved)
      ensures !accepted ==> sys.sessions[id].phase == if sys.sessions[id].reserved then Unwinding else Ended(Dropped)
      ensures accepted ==> sys.sessions[id].phase == BroadcastMove(old(sys.sessions[id]), true).phase
    {
      var signed: bool := *;
      Do(id, Sign(signed));
      if !signed {
        return false;
      }
      accepted := *;
      Do(id, Broadcast(accepted));
    }

    /** Everything of `sign_and_broadcast` and `sign_and_confirm` up to the accepted broadcast. */
    method Submit(id: nat) returns (accepted: bool)
      requires Valid() && id < |sys.sessions| && !sys.sessions[id].kind.LimitOverride?
      requires sys.sessions[id] == NewSession(sys.sessions[id].kind, sys.sessions[id].wallet, sys.sessions[id].original)
      modifies this
      ensures Valid() && old(trace) <= trace && id < |sys.sessions|
      ensures sys.sessions[id].kind == old(sys.sessions[id].kind)
      ensures accepted ==> sys.sessions[id].phase ==
                             if sys.sessions[id].kind.SignAndConfirm? then Polling(MAX_CONFIRM_ATTEMPTS)
                                 else Ended(Sent)
      ensures !accepted ==> sys.sessions[id].phase in {Ended(Dropped), Ended(Released), Ended(ReleaseLost)}
    {
      var reserved := false;
      accepted := false;
      label handler: {
        var preflight: bool := *;
        Do(id, Preflight(preflight));
        if !preflight {
          break handler;
        }
        if sys.setup.rules.Some? {
          var cleared;
          cleared, reserved := PassPolicy(id);
          if !cleared {
            break handler;
          }
        } else {
          var confirmed := AskCaller(id);
          if !confirmed {
            break handler;
          }
        }
        accepted := SignAndSend(id);
        if accepted {
          reserved := false;
        }
      }
      if reserved {
        var commits: bool := *;
        Do(id, Release(commits));
      }
    }

    /** `sent` is the handler's success result. */
    method SignAndBroadcast(wallet: string, tx: Tx) returns (id: nat, sent: bool)
      requires Valid()
      modifies this
      ensures Valid() && old(trace) <= trace && id < |sys.sessions|
      ensures sys.sessions[id].phase.Ended? && (sent <==> sys.sessions[id].phase == Ended(Sent))
      ensures StandingOf(sys.sessions[id]) in if sent then {Committed} else {Idle, Leaked}
    {
      id := Begin(Kind.SignAndBroadcast, wallet, tx);
      sent := Submit(id);
    }

    /** `sent` is whether the broadcast was accepted; `confirmed` whether polling saw the block. */
    method SignAndConfirm(wallet: string, tx: Tx) returns (id: nat, sent: bool, confirmed: bool)
      requires Valid()
      modifies this
      ensures Valid() && old(trace) <= trace && id < |sys.sessions|
      ensures sys.sessions[id].phase.Ended? && (sent <==> sys.sessions[id].phase == Ended(Sent))
      ensures StandingOf(sys.sessions[id]) in if sent then {Committed} else {Idle, Leaked}
      ensures confirmed ==> sent
    {
      id := Begin(Kind.SignAndConfirm, wallet, tx);
      sent := Submit(id);
      confirmed := false;
      if sent {
        var attempt := 0;
        while sys.sessions[id].phase.Polling?
          invariant Valid() && old(trace) <= trace && id < |sys.sessions|
          invariant 0 <= attempt <= MAX_CONFIRM_ATTEMPTS
          invariant sys.sessions[id].phase == if attempt < MAX_CONFIRM_ATTEMPTS && !confirmed
                                              then Polling(MAX_CONFIRM_ATTEMPTS - attempt) else Ended(Sent)
          decreases MAX_CONFIRM_ATTEMPTS - attempt, if confirmed then 0 else 1
        {
          var notIndexedYet: bool := *;
          Do(id, Poll(notIndexedYet));
          if notIndexedYet {
            attempt := attempt + 1;
          } else {
            confirmed := true;
          }
        }
      }
    }

    /** The preflight, and the checks that an override does not skip. */
    method ScreenOverride(id: nat) returns (screened: bool)
      requires Valid() && id < |sys.sessions| && sys.setup.rules.Some?
      requires sys.sessions[id].phase.Arrived? && sys.sessions[id].kind.LimitOverride?
      modifies this
      ensures Valid() && old(trace) <= trace && id < |sys.sessions|
      ensures sys.sessions[id].kind.LimitOverride? && !sys.sessions[id].reserved
      ensures sys.sessions[id].phase == if screened then AwaitingApproval else Ended(Dropped)
    {
      var preflight: bool := *;
      Do(id, Preflight(preflight));
      if !preflight {
        return false;
      }
      Do(id, Evaluate(None, None));
      screened := sys.sessions[id].phase.AwaitingApproval?;
    }

    /** `sent` is the handler's success result; the recording write may still fail. */
    method RequestLimitOverride(wallet: string, tx: Tx) returns (id: nat, sent: bool)
      requires Valid() && sys.setup.rules.Some?
      modifies this
      ensures Valid() && old(trace) <= trace && id < |sys.sessions|
      ensures sys.sessions[id].phase.Ended?
      ensures sent <==> sys.sessions[id].phase.ending.Recorded? || sys.sessions[id].phase.ending.RecordLost?
    {
      id := Begin(LimitOverride, wallet, tx);
      sent := false;
      var screened := ScreenOverride(id);
      if !screened {
        return;
      }
      var cleared := ApproveAndRebuild(id);
      if !cleared {
        return;
      }
      sent := SignAndSend(id);
      if sent {
        var commits: bool := *;
        Do(id, Record(commits));
      }
    }
  }
}
