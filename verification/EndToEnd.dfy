/**
 * The signing protocol (internal/tools/sign.go) and the approval rendezvous
 * (internal/approval/telegram.go) side by side: an approver's answer to a session
 * is the outcome of the request that the session made (internal/policy/engine.go).
 */
module EndToEnd {
  import opened Clearance
  import opened Store
  import opened Wrappers
  import A = Approval
  import S = Signing

  /** `asked` is the approval request of each session that made one. */
  datatype Joint = Joint(signing: S.System, approvals: A.System, asked: map<nat, nat>)

  /**
   * Serve: any protocol step but an approver's answer. Ask: a waiting session
   * makes its request. Chat: any step of the rendezvous, other requests included.
   * Answered: the request has returned, and its session goes on.
   */
  datatype Step = Serve(step: S.Step) | Ask(id: nat, request: string) | Chat(action: A.Action) | Answered(id: nat)

  /** What a handler makes of a request's result; a timeout is a refusal, not an error. */
  function AnswerOf(outcome: A.Outcome): S.Answer {
    match outcome
    case Got(decision) => if decision.approved then S.Granted else S.Declined
    case TimedOut => S.Declined
    case _ => S.NoAnswer
  }

  predicate HasReturned(j: Joint, id: nat) {
    id in j.asked && j.asked[id] < |j.approvals.callers| && j.approvals.callers[j.asked[id]].phase.Returned?
  }

  function OutcomeOf(j: Joint, id: nat): A.Outcome
    requires HasReturned(j, id)
  {
    j.approvals.callers[j.asked[id]].phase.outcome
  }

  function Signed(j: Joint, step: S.Step): Option<Joint> {
    match S.Next(j.signing, step)
    case None => None
    case Some(next) => Some(j.(signing := next))
  }

  function Next(j: Joint, step: Step): Option<Joint> {
    match step
    case Serve(s) => if s.Act? && s.action.Approve? then None else Signed(j, s)
    case Ask(id, request) =>
      if id < |j.signing.sessions| && j.signing.sessions[id].phase.AwaitingApproval? && id !in j.asked then
        Some(j.(approvals := A.Step(j.approvals, A.Register(request)), asked := j.asked[id := |j.approvals.callers|]))
      else None
    case Chat(action) => Some(j.(approvals := A.Step(j.approvals, action)))
    case Answered(id) =>
      if HasReturned(j, id) then Signed(j, S.Act(id, S.Approve(AnswerOf(OutcomeOf(j, id))))) else None
  }

  function Initial(setup: S.Setup, today: Day, cfg: A.Config): Joint {
    Joint(S.Initial(setup, today), A.Start(cfg), map[])
  }

  function After(start: Joint, run: seq<Step>): Option<Joint> {
    if run == [] then Some(start)
    else
      var before := After(start, run[..|run| - 1]);
      if before.None? then None else Next(before.value, run[|run| - 1])
  }

  // ----- Both halves run as before -----

  lemma ServeExtends(start: S.System, served: seq<S.Step>, before: S.System, step: S.Step)
    requires S.After(start, served) == Some(before)
    ensures S.After(start, served + [step]) == S.Next(before, step)
  {
    assert (served + [step])[..|served|] == served;
  }

  /** A joint run is a run of the protocol and a run of the rendezvous, so all their theorems hold of it. */
  lemma {:induction false} Projections(setup: S.Setup, today: Day, cfg: A.Config, run: seq<Step>, j: Joint)
    returns (served: seq<S.Step>, chats: seq<A.Action>)
    requires After(Initial(setup, today, cfg), run) == Some(j)
    ensures S.After(S.Initial(setup, today), served) == Some(j.signing)
    ensures A.After(A.Start(cfg), chats) == j.approvals
  {
    served, chats := [], [];
    if run != [] {
      var before := After(Initial(setup, today, cfg), run[..|run| - 1]).value;
      served, chats := Projections(setup, today, cfg, run[..|run| - 1], before);
      match run[|run| - 1] {
        case Serve(s) =>
          ServeExtends(S.Initial(setup, today), served, before.signing, s);
          served := served + [s];
        case Ask(_, request) =>
          A.AfterOneMore(A.Start(cfg), chats, A.Register(request));
          chats := chats + [A.Register(request)];
        case Chat(action) =>
          A.AfterOneMore(A.Start(cfg), chats, action);
          chats := chats + [action];
        case Answered(id) =>
          var s := S.Act(id, S.Approve(AnswerOf(OutcomeOf(before, id))));
          ServeExtends(S.Initial(setup, today), served, before.signing, s);
          served := served + [s];
      }
    }
  }

  lemma ApprovalsInv(setup: S.Setup, today: Day, cfg: A.Config, run: seq<Step>, j: Joint)
    requires After(Initial(setup, today, cfg), run) == Some(j)
    ensures A.Inv(j.approvals) && j.approvals.cfg == cfg
  {
    var served, chats := Projections(setup, today, cfg, run, j);
    A.ReachableInv(cfg, chats);
  }

  // ----- What ties them -----

  /** The session's request has returned with an approval. */
  predicate Granted(j: Joint, id: nat) {
    HasReturned(j, id) && OutcomeOf(j, id).Got? && OutcomeOf(j, id).decision.approved
  }

  ghost predicate AskedOnce(j: Joint) {
    && (forall id :: id in j.asked ==> j.asked[id] < |j.approvals.callers|)
    && (forall a, b :: a in j.asked && b in j.asked && a != b ==> j.asked[a] != j.asked[b])
  }

  ghost predicate GrantsAreReal(j: Joint) {
    forall id :: 0 <= id < |j.signing.sessions| && S.ApprovalGranted in j.signing.sessions[id].log ==> Granted(j, id)
  }

  lemma EndsGrantNothing(setup: S.Setup, today: Day, ledger: Ledger, s: S.Session, a: S.Action)
    requires S.Advance(setup, today, ledger, s, a).Some? && (a.Release? || a.Record? || a.Poll? || a.Broadcast?)
    ensures S.ApprovalGranted in S.Advance(setup, today, ledger, s, a).value.session.log ==> S.ApprovalGranted in s.log
  {
  }

  /** Only an answer notes an approval. */
  lemma OnlyApprovalsGrant(setup: S.Setup, today: Day, ledger: Ledger, s: S.Session, a: S.Action)
    requires S.Advance(setup, today, ledger, s, a).Some? && S.ApprovalGranted !in s.log
    ensures S.ApprovalGranted in S.Advance(setup, today, ledger, s, a).value.session.log ==> a == S.Approve(S.Granted)
  {
    match a
    case Evaluate(q1, q2) => S.EvaluateKeeps(setup, today, s, q1, q2);
    case Reserve(commits) =>
      S.ReserveKeeps(setup, S.PolicyOf(setup, s.wallet).value, ledger, s, s.checkDay.value, commits);
    case _ =>
      if a.Release? || a.Record? || a.Poll? || a.Broadcast? {
        EndsGrantNothing(setup, today, ledger, s, a);
      }
  }

  lemma StaysGranted(j: Joint, action: A.Action, id: nat)
    requires A.Inv(j.approvals) && Granted(j, id)
    ensures Granted(j.(approvals := A.Step(j.approvals, action)), id)
  {
    A.ReturnedIsFinal(j.approvals, action, j.asked[id]);
  }

  lemma CallersStay(s: A.System, action: A.Action)
    ensures |s.callers| <= |A.Step(s, action).callers|
    ensures action.Register? ==> |A.Step(s, action).callers| == |s.callers| + 1
  {
  }

  lemma NextAskedOnce(j: Joint, step: Step)
    requires AskedOnce(j) && Next(j, step).Some?
    ensures AskedOnce(Next(j, step).value)
  {
    match step
    case Ask(_, request) => CallersStay(j.approvals, A.Register(request));
    case Chat(action) => CallersStay(j.approvals, action);
    case _ =>
  }

  lemma ServedGrants(j: Joint, step: S.Step)
    requires GrantsAreReal(j) && Signed(j, step).Some?
    requires step.Act? && step.action == S.Approve(S.Granted) ==> Granted(j, step.id)
    ensures GrantsAreReal(Signed(j, step).value)
  {
    var sys, next := j.signing, Signed(j, step).value;
    forall id | 0 <= id < |next.signing.sessions| && S.ApprovalGranted in next.signing.sessions[id].log
      ensures Granted(next, id)
    {
      if step.Act? && step.id == id && S.ApprovalGranted !in sys.sessions[id].log {
        OnlyApprovalsGrant(sys.setup, sys.today, sys.ledger, sys.sessions[id], step.action);
      } else if id < |sys.sessions| {
        assert S.ApprovalGranted in sys.sessions[id].log;
      }
      assert Granted(j, id);
    }
  }

  lemma ChattedGrants(j: Joint, action: A.Action, asked: map<nat, nat>)
    requires A.Inv(j.approvals) && GrantsAreReal(j)
    requires forall id :: id in j.asked ==> id in asked && asked[id] == j.asked[id]
    ensures GrantsAreReal(j.(approvals := A.Step(j.approvals, action), asked := asked))
  {
    forall id | 0 <= id < |j.signing.sessions| && S.ApprovalGranted in j.signing.sessions[id].log
      ensures Granted(j.(approvals := A.Step(j.approvals, action), asked := asked), id)
    {
      StaysGranted(j, action, id);
    }
  }

  lemma NextGrants(j: Joint, step: Step)
    requires A.Inv(j.approvals) && GrantsAreReal(j) && Next(j, step).Some?
    ensures GrantsAreReal(Next(j, step).value)
  {
    match step
    case Serve(s) => ServedGrants(j, s);
    case Ask(id, request) => ChattedGrants(j, A.Register(request), j.asked[id := |j.approvals.callers|]);
    case Chat(action) => ChattedGrants(j, action, j.asked);
    case Answered(id) => ServedGrants(j, S.Act(id, S.Approve(AnswerOf(OutcomeOf(j, id)))));
  }

  lemma {:induction false} ReachableTied(setup: S.Setup, today: Day, cfg: A.Config, run: seq<Step>, j: Joint)
    requires After(Initial(setup, today, cfg), run) == Some(j)
    ensures AskedOnce(j) && GrantsAreReal(j)
  {
    if run != [] {
      var front, step := run[..|run| - 1], run[|run| - 1];
      var before := After(Initial(setup, today, cfg), front).value;
      ReachableTied(setup, today, cfg, front, before);
      ApprovalsInv(setup, today, cfg, front, before);
      NextAskedOnce(before, step);
      NextGrants(before, step);
    }
  }

  // ----- From the button to the broadcast -----

  /** Press `c` approved the request of session `id`, by someone who may, and no other press did. */
  ghost predicate PressedFor(cfg: A.Config, j: Joint, id: nat, c: nat) {
    && id in j.asked && j.asked[id] < |j.approvals.callers| && c < |j.approvals.consumed|
    && j.approvals.consumed[c].caller == j.asked[id]
    && A.ApprovePress(cfg, j.approvals.consumed[c].press, j.approvals.callers[j.asked[id]].id)
    && (forall b :: 0 <= b < |j.approvals.consumed| && j.approvals.consumed[b].caller == j.asked[id] ==> b == c)
  }

  /** A broadcast that some human had to clear: an override, or a check that asked for approval. */
  predicate NeedsHuman(s: S.Session) {
    s.kind.LimitOverride? || (|s.log| > 1 && s.log[1].Checked? && s.log[1].verdict.NeedsApproval?)
  }

  lemma GrantedWasPressed(setup: S.Setup, today: Day, cfg: A.Config, run: seq<Step>, j: Joint, id: nat) returns (c: nat)
    requires After(Initial(setup, today, cfg), run) == Some(j)
    requires id < |j.signing.sessions| && S.ApprovalGranted in j.signing.sessions[id].log
    ensures PressedFor(cfg, j, id, c)
  {
    ReachableTied(setup, today, cfg, run, j);
    ApprovalsInv(setup, today, cfg, run, j);
    assert Granted(j, id);
    A.GotWasPressed(j.approvals, j.asked[id]);
    c :| && 0 <= c < |j.approvals.consumed| && j.approvals.consumed[c].caller == j.asked[id]
         && A.ApprovePress(cfg, j.approvals.consumed[c].press, j.approvals.callers[j.asked[id]].id)
         && (forall b :: 0 <= b < |j.approvals.consumed| && j.approvals.consumed[b].caller == j.asked[id] ==> b == c);
  }

  /**
   * From the button to the broadcast: whatever was sent after a human had to be
   * asked was approved by one press of that request's approve button, in the
   * configured chat, by an authorized user.
   */
  lemma BroadcastWasPressed(setup: S.Setup, today: Day, cfg: A.Config, run: seq<Step>, j: Joint, id: nat, k: nat)
    returns (c: nat)
    requires After(Initial(setup, today, cfg), run) == Some(j) && setup.rules.Some? && id < |j.signing.sessions|
    requires k < |j.signing.sessions[id].log| && j.signing.sessions[id].log[k].Broadcasting?
    requires NeedsHuman(j.signing.sessions[id])
    ensures PressedFor(cfg, j, id, c)
  {
    var served, chats := Projections(setup, today, cfg, run, j);
    var s := j.signing.sessions[id];
    NoBroadcastWithoutClearance(setup, today, served, j.signing, id, k);
    ClearedByHuman(setup, s, k);
    c := GrantedWasPressed(setup, today, cfg, run, j, id);
  }

  lemma ClearedByHuman(setup: S.Setup, s: S.Session, k: nat)
    requires setup.rules.Some? && k < |s.log| && NeedsHuman(s)
    requires s.log[k].Broadcasting? && Warranted(setup, SubmissionOf(s), s.log[k].tx, s.log[..k])
    ensures S.ApprovalGranted in s.log
  {
    var cleared := s.log[..k][..k - 1];
    assert cleared[2] == S.ApprovalGranted;
    assert s.log[2] == cleared[2];
  }

  /** No press clears two sessions. */
  lemma PressesAreDistinct(setup: S.Setup, today: Day, cfg: A.Config, run: seq<Step>, j: Joint,
      a: nat, b: nat, c: nat, d: nat)
    requires After(Initial(setup, today, cfg), run) == Some(j) && a != b
    requires PressedFor(cfg, j, a, c) && PressedFor(cfg, j, b, d)
    ensures c != d
  {
    ReachableTied(setup, today, cfg, run, j);
  }
}
