/** The code of internal/approval/telegram.go, running among other goroutines' steps. */
module Approver {
  import opened Approval
  import opened Wrappers

  datatype Reply = Ignored | NotAuthorized | Expired | Approved | Rejected

  /** What wakes a waiting request. */
  datatype Wake = OnResult | OnTimer | OnCancel

  datatype RequestError = NotSent | ContextDone

  /** A step that only the goroutine of request `i` takes. */
  predicate OfCaller(a: Action, i: nat) {
    match a
    case SendOk(k) => k == i
    case SendFails(k) => k == i
    case Receive(k) => k == i
    case Timeout(k) => k == i
    case Cancel(k) => k == i
    case Remove(k) => k == i
    case _ => false
  }

  ghost predicate SparesCaller(run: seq<Action>, i: nat) {
    forall k :: 0 <= k < |run| ==> !OfCaller(run[k], i)
  }

  ghost predicate SparesDelivery(run: seq<Action>, c: nat) {
    forall k :: 0 <= k < |run| ==> run[k] != Deliver(c)
  }

  /** The state in which a request that was sent is woken. */
  function BeforeSelect(s: System, id: string, sending: seq<Action>, waiting: seq<Action>): System {
    After(Step(After(Step(s, Register(id)), sending), SendOk(|s.callers|)), waiting)
  }

  lemma StepKeeps(s: System, a: Action, i: nat, c: nat)
    requires Inv(s)
    ensures Inv(Step(s, a)) && Step(s, a).cfg == s.cfg
    ensures i < |s.callers| ==> i < |Step(s, a).callers| && Step(s, a).callers[i].id == s.callers[i].id
    ensures i < |s.callers| && !OfCaller(a, i) ==> Step(s, a).callers[i].phase == s.callers[i].phase
    ensures c < |s.consumed| ==> c < |Step(s, a).consumed| && Step(s, a).consumed[c] == s.consumed[c]
    ensures c in s.inFlight && a != Deliver(c) ==> c in Step(s, a).inFlight
  {
    if Enabled(s, a) {
      NextPending(s, a);
      NextConsumed(s, a);
      NextHanded(s, a);
      NextEmpty(s, a);
    }
  }

  class TelegramApprover {
    const cfg: Config
    /** The pending map and the channels, with the record of what was consumed. */
    var sys: System

    ghost predicate Valid()
      reads this
    {
      Inv(sys) && sys.cfg == cfg
    }

    constructor (cfg: Config)
      ensures Valid() && this.cfg == cfg && sys == Start(cfg)
    {
      this.cfg, sys := cfg, Start(cfg);
    }

    method IsAuthorized(user: int) returns (r: bool)
      ensures r <==> user in cfg.authorized
    {
      for i := 0 to |cfg.authorized|
        invariant user !in cfg.authorized[..i]
      {
        if cfg.authorized[i] == user {
          return true;
        }
      }
      return false;
    }

    /** Steps of other goroutines, seen from request `i` and from the delivery of `c`. */
    method Others(run: seq<Action>, ghost i: nat, ghost c: nat)
      requires Valid()
      modifies this
      ensures Valid() && sys == After(old(sys), run)
      ensures i < |old(sys).callers| ==> i < |sys.callers| && sys.callers[i].id == old(sys).callers[i].id
      ensures i < |old(sys).callers| && SparesCaller(run, i) ==> sys.callers[i].phase == old(sys).callers[i].phase
      ensures c < |old(sys).consumed| ==> c < |sys.consumed| && sys.consumed[c] == old(sys).consumed[c]
      ensures c in old(sys).inFlight && SparesDelivery(run, c) ==> c in sys.inFlight
    {
      for k := 0 to |run|
        invariant Valid() && sys == After(old(sys), run[..k])
        invariant i < |old(sys).callers| ==> i < |sys.callers| && sys.callers[i].id == old(sys).callers[i].id
        invariant i < |old(sys).callers| && SparesCaller(run, i) ==> sys.callers[i].phase == old(sys).callers[i].phase
        invariant c < |old(sys).consumed| ==> c < |sys.consumed| && sys.consumed[c] == old(sys).consumed[c]
        invariant c in old(sys).inFlight && SparesDelivery(run, c) ==> c in sys.inFlight
      {
        AfterOneMore(old(sys), run[..k], run[k]);
        assert run[..k + 1] == run[..k] + [run[k]];
        StepKeeps(sys, run[k], i, c);
        sys := Step(sys, run[k]);
      }
      assert run[..|run|] == run;
    }

    /** The locked section of a callback: an entry is consumed by being deleted. */
    method Consume(press: Press, id: string) returns (channel: Option<nat>)
      requires Valid() && Addressed(cfg, press) == Some(id)
      modifies this
      ensures Valid() && sys == Step(old(sys), Pressed(press))
      ensures channel.Some? <==> id in old(sys).pending
      ensures channel.Some? ==> |sys.consumed| == |old(sys).consumed| + 1 && |old(sys).consumed| in sys.inFlight
      ensures channel.Some? ==> sys.consumed[|old(sys).consumed|] == Consumption(press, channel.value)
    {
      StepKeeps(sys, Pressed(press), 0, 0);
      if id !in sys.pending {
        return None;
      }
      channel := Some(sys.pending[id]);
      sys := sys.(pending := sys.pending - {id},
                  consumed := sys.consumed + [Consumption(press, channel.value)],
                  inFlight := sys.inFlight + {|sys.consumed|});
    }

    /** A send that does not block: a full channel would lose the decision. */
    method Send(channel: nat, decision: Decision, c: nat) returns (sent: bool)
      requires Valid() && c in sys.inFlight && sys.consumed[c].caller == channel
      requires decision == DecisionOf(sys.consumed[c].press)
      modifies this
      ensures Valid() && sys == Step(old(sys), Deliver(c))
      ensures sent && sys.callers[channel].slot == Some(decision)
    {
      StepKeeps(sys, Deliver(c), 0, 0);
      sent := sys.callers[channel].slot.None?;
      if sent {
        sys := sys.(inFlight := sys.inFlight - {c},
            callers := sys.callers[channel := sys.callers[channel].(slot := Some(decision))]);
      }
    }

    method HandleCallbackQuery(press: Press, meanwhile: seq<Action>) returns (reply: Reply)
      requires Valid() && SparesDelivery(meanwhile, |sys.consumed|)
      modifies this
      ensures Valid()
      ensures match Addressed(cfg, press)
              case None => reply.Ignored? || (reply.NotAuthorized? && UserOf(press) !in cfg.authorized)
              case Some(id) =>
                reply == if id !in old(sys).pending then Expired else if DecisionOf(press).approved then Approved
                    else Rejected
      ensures sys == if reply.Approved? || reply.Rejected?
                     then Step(After(Step(old(sys), Pressed(press)), meanwhile), Deliver(|old(sys).consumed|))
                     else old(sys)
    {
      var parsed := ParseCallbackData(press.data);
      if parsed.None? {
        return Ignored;
      }
      var (action, id) := parsed.value;
      if action != "approve" && action != "reject" {
        return Ignored;
      }
      if press.chat != Some(cfg.chat) {
        return Ignored;
      }
      var authorized := IsAuthorized(UserOf(press));
      if !authorized {
        return NotAuthorized;
      }
      var c := |sys.consumed|;
      var channel := Consume(press, id);
      if channel.None? {
        return Expired;
      }
      Others(meanwhile, 0, c);
      var decision := Decision(action == "approve", UserOf(press));
      var _ := Send(channel.value, decision, c);
      return if decision.approved then Approved else Rejected;
    }

    /** One step of the goroutine that runs request `i`. */
    method Proceed(a: Action, i: nat)
      requires Valid() && Enabled(sys, a) && i < |sys.callers|
      modifies this
      ensures Valid() && sys == Next(old(sys), a)
      ensures i < |sys.callers| && sys.callers[i].id == old(sys).callers[i].id
    {
      StepKeeps(sys, a, i, 0);
      sys := Next(sys, a);
    }

    /** Whichever of result, timer and cancellation comes first ends the wait. */
    method Select(i: nat, wake: Wake) returns (r: Result<Outcome, RequestError>)
      requires Valid() && InPhase(sys, i, Waiting)
      modifies this
      ensures Valid() && i < |sys.callers| && sys.callers[i].id == old(sys).callers[i].id
      ensures r == if wake.OnResult? && old(sys).callers[i].slot.Some? then Ok(Got(old(sys).callers[i].slot.value))
                   else if wake.OnCancel? then Err(ContextDone)
                   else Ok(TimedOut)
      ensures sys.callers[i].phase == Leaving(if r.Ok? then r.value else Cancelled)
    {
      if wake.OnResult? && sys.callers[i].slot.Some? {
        r := Ok(Got(sys.callers[i].slot.value));
        Proceed(Receive(i), i);
      } else if wake.OnCancel? {
        r := Err(ContextDone);
        Proceed(Cancel(i), i);
      } else {
        r := Ok(TimedOut);
        Proceed(Timeout(i), i);
      }
    }

    /** The deferred removal, after whatever the others do. */
    method Leave(i: nat, ending: seq<Action>)
      requires Valid() && i < |sys.callers| && sys.callers[i].phase.Leaving? && SparesCaller(ending, i)
      modifies this
      ensures Valid() && i < |sys.callers| && sys.callers[i].id == old(sys).callers[i].id
      ensures sys.callers[i].phase == Returned(old(sys).callers[i].phase.outcome)
      ensures sys.callers[i].id !in sys.pending
    {
      Others(ending, i, 0);
      Proceed(Remove(i), i);
    }

    /**
     * A request among other goroutines' steps: after registering, while the
     * message is sent, and while it waits. A wake by a result that is not
     * there is not possible; the timer then decides.
     */
    method RequestApproval(id: string, sent: bool, wake: Wake, sending: seq<Action>, waiting: seq<Action>,
        ending: seq<Action>)
      returns (r: Result<Outcome, RequestError>)
      requires Valid()
      requires var i := |sys.callers|; SparesCaller(sending, i) && SparesCaller(waiting, i) && SparesCaller(ending, i)
      modifies this
      ensures Valid() && id !in sys.pending
      ensures !sent <==> r == Err(NotSent)
      ensures sent ==>
                var i, ready := |old(sys).callers|, BeforeSelect(old(sys), id, sending, waiting);
                && i < |ready.callers|
                && r == if wake.OnResult? && ready.callers[i].slot.Some? then Ok(Got(ready.callers[i].slot.value))
                        else if wake.OnCancel? then Err(ContextDone)
                        else Ok(TimedOut)
      ensures r.Ok? && r.value.Got? && r.value.decision.approved ==>
                exists c ::
                  && 0 <= c < |sys.consumed| && sys.consumed[c].caller == |old(sys).callers|
                  && ApprovePress(cfg, sys.consumed[c].press, id)
    {
      var i := |sys.callers|;
      StepKeeps(sys, Register(id), 0, 0);
      sys := sys.(callers := sys.callers + [Caller(id, Sending, None)], pending := sys.pending[id := i]);
      Others(sending, i, 0);
      if !sent {
        Proceed(SendFails(i), i);
        Leave(i, ending);
        return Err(NotSent);
      }
      Proceed(SendOk(i), i);
      Others(waiting, i, 0);
      r := Select(i, wake);
      Leave(i, ending);
      if r.Ok? && r.value.Got? && r.value.decision.approved {
        GotWasPressed(sys, i);
      }
    }
  }
}
