/**
 * The approval rendezvous (internal/approval/telegram.go): requests that wait,
 * and button presses that are handed to them, as steps in any interleaving.
 */
module Approval {
  import opened Wrappers

  // ----- Callbacks -----

  /** A button press: its callback data, chat and user, each possibly missing. */
  datatype Press = Press(data: string, chat: Option<int>, user: Option<int>)

  datatype Config = Config(chat: int, authorized: seq<int>)

  /** The text before and after the first colon of `s[k..]`. */
  function CutFrom(s: string, k: nat): Option<(string, string)>
    requires k <= |s|
    decreases |s| - k
  {
    if k == |s| then None
    else if s[k] == ':' then Some((s[..k], s[k + 1..]))
    else CutFrom(s, k + 1)
  }

  /** Action and approval id of a callback. */
  function ParseCallbackData(data: string): Option<(string, string)> {
    CutFrom(data, 0)
  }

  lemma {:induction false} CutFromFinds(s: string, k: nat, a: string, id: string)
    requires s == a + ":" + id && ':' !in a && k <= |a|
    ensures CutFrom(s, k) == Some((a, id))
    decreases |s| - k
  {
    if k < |a| {
      CutFromFinds(s, k + 1, a, id);
    } else {
      assert s[..k] == a && s[k + 1..] == id;
    }
  }

  lemma {:induction false} CutFromSound(s: string, k: nat)
    requires k <= |s| && ':' !in s[..k] && CutFrom(s, k).Some?
    ensures var (a, id) := CutFrom(s, k).value; s == a + ":" + id && ':' !in a
    decreases |s| - k
  {
    if s[k] != ':' {
      assert s[..k + 1] == s[..k] + [s[k]];
      CutFromSound(s, k + 1);
    }
  }

  /** A callback parses to exactly the action and id it was built from, whatever the id contains. */
  lemma ParseCallbackIff(data: string, action: string, id: string)
    ensures ParseCallbackData(data) == Some((action, id)) <==> data == action + ":" + id && ':' !in action
  {
    if ParseCallbackData(data).Some? {
      CutFromSound(data, 0);
    }
    if data == action + ":" + id && ':' !in action {
      CutFromFinds(data, 0, action, id);
    }
  }

  lemma ButtonsParse(id: string)
    ensures ParseCallbackData("approve:" + id) == Some(("approve", id))
    ensures ParseCallbackData("reject:" + id) == Some(("reject", id))
  {
    assert "approve:" + id == "approve" + ":" + id && "reject:" + id == "reject" + ":" + id;
    ParseCallbackIff("approve:" + id, "approve", id);
    ParseCallbackIff("reject:" + id, "reject", id);
  }

  function UserOf(p: Press): int {
    if p.user.Some? then p.user.value else 0
  }

  /** The id that a press decides on, when every check up to the lock passes. */
  function Addressed(cfg: Config, p: Press): Option<string> {
    match ParseCallbackData(p.data)
    case None => None
    case Some((action, id)) =>
      if action != "approve" && action != "reject" then None
      else if p.chat != Some(cfg.chat) then None
      else if UserOf(p) !in cfg.authorized then None
      else Some(id)
  }

  datatype Decision = Decision(approved: bool, user: int)

  function DecisionOf(p: Press): Decision {
    var parsed := ParseCallbackData(p.data);
    Decision(parsed.Some? && parsed.value.0 == "approve", UserOf(p))
  }

  // ----- The protocol -----

  datatype Outcome = Got(decision: Decision) | SendFailure | TimedOut | Cancelled

  /** Leaving: the deferred removal has not run yet. */
  datatype Phase = Sending | Waiting | Leaving(outcome: Outcome) | Returned(outcome: Outcome)

  /** One call of RequestApproval with its one-slot channel. */
  datatype Caller = Caller(id: string, phase: Phase, slot: Option<Decision>)

  /** A press that took a caller's entry out of the pending map. */
  datatype Consumption = Consumption(press: Press, caller: nat)

  /** `inFlight`: consumptions whose send has not happened; `dropped`: sends that found a full slot. */
  datatype System = System(
    cfg: Config, callers: seq<Caller>, pending: map<string, nat>,
    consumed: seq<Consumption>, inFlight: set<nat>, dropped: nat)

  datatype Action =
    | Register(id: string)
    | SendOk(i: nat)
    | SendFails(i: nat)
    | Pressed(press: Press)
    | Deliver(c: nat)
    | Receive(i: nat)
    | Timeout(i: nat)
    | Cancel(i: nat)
    | Remove(i: nat)

  predicate InPhase(s: System, i: nat, phase: Phase) {
    i < |s.callers| && s.callers[i].phase == phase
  }

  function Moved(s: System, i: nat, phase: Phase): System
    requires i < |s.callers|
  {
    s.(callers := s.callers[i := s.callers[i].(phase := phase)])
  }

  predicate Enabled(s: System, a: Action) {
    match a
    case Register(_) => true
    case SendOk(i) => InPhase(s, i, Sending)
    case SendFails(i) => InPhase(s, i, Sending)
    case Pressed(_) => true
    case Deliver(c) => c in s.inFlight && c < |s.consumed| && s.consumed[c].caller < |s.callers|
    case Receive(i) => InPhase(s, i, Waiting) && s.callers[i].slot.Some?
    case Timeout(i) => InPhase(s, i, Waiting)
    case Cancel(i) => InPhase(s, i, Waiting)
    case Remove(i) => i < |s.callers| && s.callers[i].phase.Leaving?
  }

  function Next(s: System, a: Action): System
    requires Enabled(s, a)
  {
    match a
    case Register(id) => s.(callers := s.callers + [Caller(id, Sending, None)], pending := s.pending[id := |s.callers|])
    case SendOk(i) => Moved(s, i, Waiting)
    case SendFails(i) => Moved(s, i, Leaving(SendFailure))
    case Pressed(press) =>
      var id := Addressed(s.cfg, press);
      if id.None? || id.value !in s.pending then s
      else
        s.(pending := s.pending - {id.value},
           consumed := s.consumed + [Consumption(press, s.pending[id.value])],
           inFlight := s.inFlight + {|s.consumed|})
    case Deliver(c) =>
      var i := s.consumed[c].caller;
      if s.callers[i].slot.Some? then s.(inFlight := s.inFlight - {c}, dropped := s.dropped + 1)
      else s.(inFlight := s.inFlight - {c},
          callers := s.callers[i := s.callers[i].(slot := Some(DecisionOf(s.consumed[c].press)))])
    case Receive(i) =>
      s.(callers := s.callers[i := Caller(s.callers[i].id, Leaving(Got(s.callers[i].slot.value)), None)])
    case Timeout(i) => Moved(s, i, Leaving(TimedOut))
    case Cancel(i) => Moved(s, i, Leaving(Cancelled))
    case Remove(i) => Moved(s, i, Returned(s.callers[i].phase.outcome)).(pending := s.pending - {s.callers[i].id})
  }

  function Start(cfg: Config): System {
    System(cfg, [], map[], [], {}, 0)
  }

  /** A step that is not enabled does not happen. */
  function Step(s: System, a: Action): System {
    if Enabled(s, a) then Next(s, a) else s
  }

  function After(s: System, run: seq<Action>): System
    decreases |run|
  {
    if run == [] then s else Step(After(s, run[..|run| - 1]), run[|run| - 1])
  }

  lemma AfterOneMore(s: System, run: seq<Action>, a: Action)
    ensures After(s, run + [a]) == Step(After(s, run), a)
  {
  }

  lemma AfterFour(s: System, a: Action, b: Action, c: Action, d: Action)
    ensures After(s, [a, b, c, d]) == Step(Step(Step(Step(s, a), b), c), d)
  {
    AfterOneMore(s, [], a);
    AfterOneMore(s, [a], b);
    AfterOneMore(s, [a, b], c);
    AfterOneMore(s, [a, b, c], d);
    assert [] + [a] == [a] && [a] + [b] == [a, b] && [a, b] + [c] == [a, b, c] && [a, b, c] + [d] == [a, b, c, d];
  }

  // ----- The invariant -----

  predicate Holding(c: Caller, d: Decision) {
    (c.slot == Some(d) && !HasGot(c)) || (c.slot.None? && HasGot(c) && c.phase.outcome.decision == d)
  }

  predicate HasGot(c: Caller) {
    (c.phase.Leaving? || c.phase.Returned?) && c.phase.outcome.Got?
  }

  /** The caller has been handed nothing. */
  predicate Empty(c: Caller) {
    c.slot.None? && !HasGot(c)
  }

  /** A pending entry belongs to a caller that is still inside its call and has been handed nothing. */
  ghost predicate PendingInv(s: System) {
    forall id :: id in s.pending ==>
                   && s.pending[id] < |s.callers|
                   && s.callers[s.pending[id]].id == id
                   && !s.callers[s.pending[id]].phase.Returned?
  }

  /** No caller is consumed twice, or while its entry is still pending. */
  ghost predicate ConsumedInv(s: System) {
    && (forall c :: 0 <= c < |s.consumed| ==>
                      && s.consumed[c].caller < |s.callers|
                      && Addressed(s.cfg, s.consumed[c].press) == Some(s.callers[s.consumed[c].caller].id)
                      && (forall id :: id in s.pending ==> s.pending[id] != s.consumed[c].caller))
    && (forall b, c :: 0 <= b < c < |s.consumed| ==> s.consumed[b].caller != s.consumed[c].caller)
  }

  /** A consumed press is on its way to its caller, or has been handed over: never both, never lost. */
  ghost predicate HandedInv(s: System) {
    && s.dropped == 0
    && (forall c :: c in s.inFlight ==> c < |s.consumed|)
    && (forall c :: 0 <= c < |s.consumed| && s.consumed[c].caller < |s.callers| ==>
                      if c in s.inFlight then Empty(s.callers[s.consumed[c].caller])
                      else Holding(s.callers[s.consumed[c].caller], DecisionOf(s.consumed[c].press)))
  }

  ghost predicate Consumes(s: System, i: nat) {
    exists c :: 0 <= c < |s.consumed| && s.consumed[c].caller == i
  }

  ghost predicate EmptyInv(s: System) {
    forall i :: 0 <= i < |s.callers| && !Consumes(s, i) ==> Empty(s.callers[i])
  }

  ghost predicate Inv(s: System) {
    PendingInv(s) && ConsumedInv(s) && HandedInv(s) && EmptyInv(s)
  }

  lemma NextPending(s: System, a: Action)
    requires Inv(s) && Enabled(s, a)
    ensures PendingInv(Next(s, a))
  {
  }

  lemma PressedConsumed(s: System, press: Press)
    requires Inv(s)
    ensures ConsumedInv(Next(s, Pressed(press)))
  {
  }

  lemma NextConsumed(s: System, a: Action)
    requires Inv(s) && Enabled(s, a)
    ensures ConsumedInv(Next(s, a))
  {
    if a.Pressed? {
      PressedConsumed(s, a.press);
    }
  }

  lemma PressedHanded(s: System, press: Press)
    requires Inv(s)
    ensures HandedInv(Next(s, Pressed(press)))
  {
  }

  lemma DeliverHanded(s: System, c: nat)
    requires Inv(s) && Enabled(s, Deliver(c))
    ensures HandedInv(Next(s, Deliver(c)))
  {
  }

  lemma NextHanded(s: System, a: Action)
    requires Inv(s) && Enabled(s, a)
    ensures HandedInv(Next(s, a))
  {
    if a.Pressed? {
      PressedHanded(s, a.press);
    } else if a.Deliver? {
      DeliverHanded(s, a.c);
    }
  }

  lemma StillConsumes(s: System, a: Action, i: nat)
    requires Enabled(s, a) && Consumes(s, i)
    ensures Consumes(Next(s, a), i)
  {
    var c :| 0 <= c < |s.consumed| && s.consumed[c].caller == i;
    assert Next(s, a).consumed[c].caller == i;
  }

  lemma NextEmpty(s: System, a: Action)
    requires Inv(s) && Enabled(s, a)
    ensures EmptyInv(Next(s, a))
  {
    forall i | 0 <= i < |Next(s, a).callers| && !Consumes(Next(s, a), i)
      ensures Empty(Next(s, a).callers[i])
    {
      if Consumes(s, i) {
        StillConsumes(s, a, i);
      }
    }
  }

  lemma {:induction false} ReachableInv(cfg: Config, run: seq<Action>)
    ensures Inv(After(Start(cfg), run)) && After(Start(cfg), run).cfg == cfg
    decreases |run|
  {
    if run != [] {
      var before, a := After(Start(cfg), run[..|run| - 1]), run[|run| - 1];
      ReachableInv(cfg, run[..|run| - 1]);
      if Enabled(before, a) {
        NextPending(before, a);
        NextConsumed(before, a);
        NextHanded(before, a);
        NextEmpty(before, a);
      }
    }
  }

  // ----- What every run keeps -----

  /** A send never finds its channel full. */
  lemma NothingIsDropped(cfg: Config, run: seq<Action>)
    ensures After(Start(cfg), run).dropped == 0
  {
    ReachableInv(cfg, run);
  }

  /** A press of this id's approve button by an authorized user in the configured chat. */
  predicate ApprovePress(cfg: Config, press: Press, id: string) {
    press.data == "approve:" + id && press.chat == Some(cfg.chat) && UserOf(press) in cfg.authorized
  }

  lemma GotWasPressed(s: System, i: nat)
    requires Inv(s) && i < |s.callers| && HasGot(s.callers[i]) && s.callers[i].phase.outcome.decision.approved
    ensures exists c :: && 0 <= c < |s.consumed| && s.consumed[c].caller == i
                        && ApprovePress(s.cfg, s.consumed[c].press, s.callers[i].id)
                        && s.callers[i].phase.outcome.decision.user == UserOf(s.consumed[c].press)
                        && (forall b :: 0 <= b < |s.consumed| && s.consumed[b].caller == i ==> b == c)
  {
    assert !Empty(s.callers[i]);
    assert Consumes(s, i);
    var c :| 0 <= c < |s.consumed| && s.consumed[c].caller == i;
    var press := s.consumed[c].press;
    assert Holding(s.callers[i], DecisionOf(press));
    ParseCallbackIff(press.data, "approve", s.callers[i].id);
    assert press.data == "approve" + ":" + s.callers[i].id == "approve:" + s.callers[i].id;
  }

  /** An approval that a caller received was pressed for it, once, by someone who may. */
  lemma ApprovalWasPressed(cfg: Config, run: seq<Action>, i: nat)
    requires var s := After(Start(cfg), run);
             i < |s.callers| && HasGot(s.callers[i]) && s.callers[i].phase.outcome.decision.approved
    ensures var s := After(Start(cfg), run);
            exists c :: && 0 <= c < |s.consumed| && s.consumed[c].caller == i
                        && ApprovePress(cfg, s.consumed[c].press, s.callers[i].id)
                        && s.callers[i].phase.outcome.decision.user == UserOf(s.consumed[c].press)
                        && (forall b :: 0 <= b < |s.consumed| && s.consumed[b].caller == i ==> b == c)
  {
    ReachableInv(cfg, run);
    GotWasPressed(After(Start(cfg), run), i);
  }

  ghost predicate UniqueIDs(s: System) {
    forall i, j :: 0 <= i < j < |s.callers| ==> s.callers[i].id != s.callers[j].id
  }

  lemma ConsumedOnce(s: System, b: nat, c: nat)
    requires Inv(s) && UniqueIDs(s) && b < c < |s.consumed|
    ensures Addressed(s.cfg, s.consumed[b].press) != Addressed(s.cfg, s.consumed[c].press)
  {
    assert s.consumed[b].caller != s.consumed[c].caller;
  }

  lemma ReturnedIsNotPending(s: System, i: nat)
    requires Inv(s) && UniqueIDs(s) && i < |s.callers| && s.callers[i].phase.Returned?
    ensures s.callers[i].id !in s.pending
  {
  }

  /** With unique ids: at most one press consumes an id, and no id is pending once its call returned. */
  lemma OncePerID(cfg: Config, run: seq<Action>)
    requires UniqueIDs(After(Start(cfg), run))
    ensures var s := After(Start(cfg), run);
            && (forall b, c :: 0 <= b < c < |s.consumed| ==>
                Addressed(cfg, s.consumed[b].press) != Addressed(cfg, s.consumed[c].press))
            && (forall i :: 0 <= i < |s.callers| && s.callers[i].phase.Returned? ==> s.callers[i].id !in s.pending)
  {
    var s := After(Start(cfg), run);
    ReachableInv(cfg, run);
    forall b, c | 0 <= b < c < |s.consumed|
      ensures Addressed(cfg, s.consumed[b].press) != Addressed(cfg, s.consumed[c].press)
    {
      ConsumedOnce(s, b, c);
    }
    forall i | 0 <= i < |s.callers| && s.callers[i].phase.Returned?
      ensures s.callers[i].id !in s.pending
    {
      ReturnedIsNotPending(s, i);
    }
  }

  /** Without them, a call that returned can leave its id pending for another call. */
  lemma SharedIDStaysPending(cfg: Config, id: string)
    ensures var s := After(Start(cfg), [Register(id), SendFails(0), Remove(0), Register(id)]);
            |s.callers| == 2 && s.callers[0].phase.Returned? && s.callers[0].id in s.pending
  {
    AfterFour(Start(cfg), Register(id), SendFails(0), Remove(0), Register(id));
  }

  /**
   * A consumed press whose send happened decides its call exactly when the call
   * received it, that is when the slot is empty again; otherwise the decision
   * still lies in the slot, and lies there for good once the call has returned.
   */
  lemma ConsumedDecides(cfg: Config, run: seq<Action>, c: nat)
    requires var s := After(Start(cfg), run); c < |s.consumed| && c !in s.inFlight
    ensures
      var s := After(Start(cfg), run);
      s.consumed[c].caller < |s.callers| &&
      var caller, decision := s.callers[s.consumed[c].caller], DecisionOf(s.consumed[c].press);
      && (caller.slot.None? <==> HasGot(caller) && caller.phase.outcome == Got(decision))
      && (caller.slot.Some? ==> caller.slot == Some(decision) && !HasGot(caller))
      && (caller.phase.Returned? ==> (caller.phase.outcome == Got(decision) <==> caller.slot.None?))
  {
    ReachableInv(cfg, run);
  }

  /** A returned call keeps its outcome, and what lies in its slot, for ever. */
  lemma ReturnedIsFinal(s: System, a: Action, i: nat)
    requires Inv(s) && i < |s.callers| && s.callers[i].phase.Returned?
    ensures var next := Step(s, a); i < |next.callers| && next.callers[i].phase == s.callers[i].phase
    ensures s.callers[i].slot.Some? ==> Step(s, a).callers[i].slot == s.callers[i].slot
  {
  }

  function ApproveBy(cfg: Config, id: string, user: int): Press {
    Press("approve:" + id, Some(cfg.chat), Some(user))
  }

  /** A consumed press on its way to a call that leaves by timeout. */
  lemma LateApproval(cfg: Config, id: string, user: int)
    requires user in cfg.authorized
    ensures After(Start(cfg), [Register(id), SendOk(0), Pressed(ApproveBy(cfg, id, user)), Timeout(0)])
            == System(cfg, [Caller(id, Leaving(TimedOut), None)], map[], [Consumption(ApproveBy(cfg, id, user), 0)],
                {0}, 0)
  {
    ButtonsParse(id);
    AfterFour(Start(cfg), Register(id), SendOk(0), Pressed(ApproveBy(cfg, id, user)), Timeout(0));
    assert map[id := 0 as nat] - {id} == map[];
  }

  /**
   * A press can be consumed, delivered and answered "approved" while its call
   * has already returned by timeout: the decision stays in the slot.
   */
  lemma ApprovedAfterTimeout(cfg: Config, id: string, user: int)
    requires user in cfg.authorized
    ensures var run := [Register(id), SendOk(0), Pressed(ApproveBy(cfg, id, user)), Timeout(0), Remove(0), Deliver(0)];
            After(Start(cfg), run)
            == System(cfg, [Caller(id, Returned(TimedOut), Some(Decision(true, user)))], map[],
                [Consumption(ApproveBy(cfg, id, user), 0)], {}, 0)
  {
    var four := [Register(id), SendOk(0), Pressed(ApproveBy(cfg, id, user)), Timeout(0)];
    var consumed := [Consumption(ApproveBy(cfg, id, user), 0)];
    LateApproval(cfg, id, user);
    AfterOneMore(Start(cfg), four, Remove(0));
    LateRemoved(cfg, id, consumed);
    AfterOneMore(Start(cfg), four + [Remove(0)], Deliver(0));
    LateDelivered(cfg, id, user, consumed);
    assert four + [Remove(0)] + [Deliver(0)]
           == [Register(id), SendOk(0), Pressed(ApproveBy(cfg, id, user)), Timeout(0), Remove(0), Deliver(0)];
  }

  lemma LateRemoved(cfg: Config, id: string, consumed: seq<Consumption>)
    ensures Step(System(cfg, [Caller(id, Leaving(TimedOut), None)], map[], consumed, {0}, 0), Remove(0))
            == System(cfg, [Caller(id, Returned(TimedOut), None)], map[], consumed, {0}, 0)
  {
  }

  lemma LateDelivered(cfg: Config, id: string, user: int, consumed: seq<Consumption>)
    requires consumed == [Consumption(ApproveBy(cfg, id, user), 0)]
    ensures Step(System(cfg, [Caller(id, Returned(TimedOut), None)], map[], consumed, {0}, 0), Deliver(0))
            == System(cfg, [Caller(id, Returned(TimedOut), Some(Decision(true, user)))], map[], consumed, {}, 0)
  {
    ButtonsParse(id);
  }
}
