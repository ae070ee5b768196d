/** Node failover and retry (internal/nodepool/pool.go, internal/retry/retry.go). */
module Nodes {
  import opened Wrappers

  // ----- The pool -----

  datatype Node = Primary | Fallback

  datatype Op = Failover | Recover

  /** Whether a call of `op` switches nodes. */
  predicate Switches(hasFallback: bool, active: Node, op: Op) {
    match op
    case Failover => hasFallback && active == Primary
    case Recover => active != Primary
  }

  function Target(op: Op): Node {
    if op.Failover? then Fallback else Primary
  }

  /** The active node after a run of calls. */
  function ActiveAfter(hasFallback: bool, ops: seq<Op>): Node {
    if ops == [] then Primary
    else
      var before, op := ActiveAfter(hasFallback, ops[..|ops| - 1]), ops[|ops| - 1];
      if Switches(hasFallback, before, op) then Target(op) else before
  }

  /** The calls of a run that returned true. */
  function Successes(hasFallback: bool, ops: seq<Op>): seq<Op> {
    if ops == [] then []
    else
      var before, op := ops[..|ops| - 1], ops[|ops| - 1];
      Successes(hasFallback, before)
      + (if Switches(hasFallback, ActiveAfter(hasFallback, before), op) then [op] else [])
  }

  function Count(ops: seq<Op>, op: Op): nat {
    if ops == [] then 0 else Count(ops[..|ops| - 1], op) + (if ops[|ops| - 1] == op then 1 else 0)
  }

  /**
   * Switches alternate, a failover first; there is one more failover than
   * recoveries exactly when the fallback is active.
   */
  ghost predicate Alternating(done: seq<Op>, active: Node) {
    && (if done == [] then active == Primary else done[0] == Failover && Target(done[|done| - 1]) == active)
    && (forall k :: 0 < k < |done| ==> done[k] != done[k - 1])
    && Count(done, Failover) == Count(done, Recover) + (if active == Fallback then 1 else 0)
  }

  lemma AlternatingGrows(done: seq<Op>, active: Node, op: Op)
    requires Alternating(done, active) && Target(op) != active
    ensures Alternating(done + [op], Target(op))
  {
  }

  lemma {:induction false} SwitchesAlternate(hasFallback: bool, ops: seq<Op>)
    ensures Alternating(Successes(hasFallback, ops), ActiveAfter(hasFallback, ops))
    ensures !hasFallback ==> Successes(hasFallback, ops) == []
  {
    if ops != [] {
      var before, op := ops[..|ops| - 1], ops[|ops| - 1];
      SwitchesAlternate(hasFallback, before);
      var done, active := Successes(hasFallback, before), ActiveAfter(hasFallback, before);
      if Switches(hasFallback, active, op) {
        AlternatingGrows(done, active, op);
      } else {
        assert done + [] == done;
      }
    }
  }

  lemma OneMore(hasFallback: bool, ops: seq<Op>, op: Op)
    ensures var before := ActiveAfter(hasFallback, ops);
            ActiveAfter(hasFallback, ops + [op]) == if Switches(hasFallback, before, op) then Target(op) else before
  {
  }

  /** What the two probes of a health check find. */
  datatype Probe = Probe(active: bool, primary: bool)

  class Pool {
    const hasFallback: bool
    var active: Node
    /** Every call of Failover and Recover so far, in the order of the lock. */
    ghost var calls: seq<Op>

    ghost predicate Valid()
      reads this
    {
      active == ActiveAfter(hasFallback, calls)
    }

    constructor (hasFallback: bool)
      ensures Valid() && this.hasFallback == hasFallback && active == Primary && calls == []
    {
      this.hasFallback, active, calls := hasFallback, Primary, [];
    }

    /** Both locked methods; the source's `Failover` returns early without a fallback. */
    method Switch(op: Op) returns (switched: bool)
      requires Valid()
      modifies this
      ensures Valid() && calls == old(calls) + [op]
      ensures switched <==> Switches(hasFallback, old(active), op)
      ensures active == if switched then Target(op) else old(active)
    {
      OneMore(hasFallback, calls, op);
      calls := calls + [op];
      match op {
        case Failover =>
          if !hasFallback {
            return false;
          }
          if active == Primary {
            active := Fallback;
            return true;
          }
          return false;
        case Recover =>
          if active != Primary {
            active := Primary;
            return true;
          }
          return false;
      }
    }

    method Others(ops: seq<Op>)
      requires Valid()
      modifies this
      ensures Valid() && calls == old(calls) + ops
    {
      for i := 0 to |ops|
        invariant Valid() && calls == old(calls) + ops[..i]
      {
        var _ := Switch(ops[i]);
        assert ops[..i + 1] == ops[..i] + [ops[i]];
      }
      assert ops[..|ops|] == ops;
    }

    /** A health check; `meanwhile` are others' switches while it probes. */
    method CheckHealth(probe: Probe, meanwhile: seq<Op>) returns (healthy: bool)
      requires Valid()
      modifies this
      ensures Valid() && healthy == probe.active
      ensures calls == old(calls) + meanwhile
                       + (if !probe.active then [Failover]
                          else if old(active) == Fallback && probe.primary then [Recover]
                          else [])
      ensures meanwhile == [] ==>
                active == if !probe.active && hasFallback then Fallback
                          else if probe.active && probe.primary then Primary
                          else old(active)
    {
      var loaded := active;
      Others(meanwhile);
      if meanwhile == [] {
        assert calls == old(calls);
      }
      if probe.active {
        if loaded == Fallback {
          if probe.primary {
            var _ := Switch(Recover);
          }
        }
        return true;
      }
      var _ := Switch(Failover);
      return false;
    }
  }

  // ----- Retry -----

  const MAX_RETRIES := 3

  datatype Code = Unavailable | ResourceExhausted | DeadlineExceeded | OtherCode

  /** An error: its gRPC status code, if it carries one, and its text. */
  datatype Error = Error(code: Option<Code>, text: string)

  predicate Contains(s: string, t: string) {
    t <= s || (s != "" && Contains(s[1..], t))
  }

  predicate Retryable(err: Error) {
    || (err.code.Some? && !err.code.value.OtherCode?)
    || Contains(err.text, "429")
    || Contains(err.text, "Too Many Requests")
  }

  datatype Interrupt = Canceled | Deadline

  function ContextError(i: Interrupt): Error {
    Error(None, if i.Canceled? then "context canceled" else "context deadline exceeded")
  }

  lemma {:induction false} MissingStart(s: string, t: string)
    requires t != "" && t[0] !in s
    ensures !Contains(s, t)
  {
    if s != "" {
      assert s[0] != t[0];
      MissingStart(s[1..], t);
    }
  }

  lemma PlainTextIsFinal(err: Error)
    requires err.code.None? && '4' !in err.text && 'T' !in err.text
    ensures !Retryable(err)
  {
    MissingStart(err.text, "429");
    MissingStart(err.text, "Too Many Requests");
  }

  lemma CanceledIsPlain()
    ensures '4' !in "context canceled" && 'T' !in "context canceled"
  {
  }

  lemma DeadlineIsPlain()
    ensures '4' !in "context deadline exceeded" && 'T' !in "context deadline exceeded"
  {
  }

  lemma ContextErrorIsFinal(i: Interrupt)
    ensures !Retryable(ContextError(i))
  {
    if i.Canceled? {
      CanceledIsPlain();
    } else {
      DeadlineIsPlain();
    }
    PlainTextIsFinal(ContextError(i));
  }

  /** One call of the operation: its result, the context after it, and the context during the backoff. */
  datatype Attempt<T> = Attempt(result: Result<T, Error>, after: Option<Interrupt>, backoff: Option<Interrupt>)

  /** Whether the `k`-th attempt of a round is its last. */
  predicate Decides<T>(a: Attempt<T>, k: nat) {
    a.result.Ok? || a.after.Some? || !Retryable(a.result.error) || k >= MAX_RETRIES - 1 || a.backoff.Some?
  }

  function Verdict<T>(a: Attempt<T>, k: nat): Result<T, Error> {
    if a.result.Ok? then a.result
    else if a.after.Some? then Err(ContextError(a.after.value))
    else if !Retryable(a.result.error) || k >= MAX_RETRIES - 1 then a.result
    else if a.backoff.Some? then Err(ContextError(a.backoff.value))
    else a.result
  }

  /** A round of attempts; `fn(round, k)` is what the operation does when it is called the `k`-th time in that round. */
  method DoCtx<T>(fn: (nat, nat) -> Attempt<T>, round: nat) returns (r: Result<T, Error>, calls: nat)
    ensures 1 <= calls <= MAX_RETRIES
    ensures forall k :: 0 <= k < calls - 1 ==> !Decides(fn(round, k), k)
    ensures Decides(fn(round, calls - 1), calls - 1)
    ensures r == Verdict(fn(round, calls - 1), calls - 1)
  {
    var lastErr := Error(None, "");
    for attempt := 0 to MAX_RETRIES
      invariant forall k :: 0 <= k < attempt && k < MAX_RETRIES - 1 ==> !Decides(fn(round, k), k)
      invariant attempt == MAX_RETRIES ==>
                fn(round, 2).result == Err(lastErr) && fn(round, 2).after.None? && Retryable(lastErr)
    {
      var a := fn(round, attempt);
      if a.result.Ok? {
        return a.result, attempt + 1;
      }
      if a.after.Some? {
        return Err(ContextError(a.after.value)), attempt + 1;
      }
      if !Retryable(a.result.error) {
        return Err(a.result.error), attempt + 1;
      }
      lastErr := a.result.error;
      if attempt < MAX_RETRIES - 1 {
        if a.backoff.Some? {
          return Err(ContextError(a.backoff.value)), attempt + 1;
        }
      }
    }
    return Err(lastErr), MAX_RETRIES;
  }

  /** Every attempt of a round ended in a retryable error, with the context alive. */
  predicate Exhausted<T>(fn: (nat, nat) -> Attempt<T>, round: nat) {
    && (forall k :: 0 <= k < MAX_RETRIES ==>
        fn(round, k).result.Err? && fn(round, k).after.None? && Retryable(fn(round, k).result.error))
    && (forall k :: 0 <= k < MAX_RETRIES - 1 ==> fn(round, k).backoff.None?)
  }

  lemma VerdictRetryable<T>(a: Attempt<T>, k: nat)
    ensures Verdict(a, k).Err? && Retryable(Verdict(a, k).error) <==>
            a.result.Err? && a.after.None? && Retryable(a.result.error) && (k >= MAX_RETRIES - 1 || a.backoff.None?)
  {
    ContextErrorIsFinal(Canceled);
    ContextErrorIsFinal(Deadline);
  }

  /** A round returns a retryable error exactly when it was used up. */
  lemma ExhaustedIff<T>(fn: (nat, nat) -> Attempt<T>, round: nat, calls: nat)
    requires 1 <= calls <= MAX_RETRIES && Decides(fn(round, calls - 1), calls - 1)
    requires forall k :: 0 <= k < calls - 1 ==> !Decides(fn(round, k), k)
    ensures var r := Verdict(fn(round, calls - 1), calls - 1); r.Err? && Retryable(r.error) <==> Exhausted(fn, round)
    ensures Exhausted(fn, round) ==> calls == MAX_RETRIES
  {
    VerdictRetryable(fn(round, calls - 1), calls - 1);
    if Exhausted(fn, round) {
      assert !Decides(fn(round, 0), 0) && !Decides(fn(round, 1), 1);
    }
  }

  /**
   * Retries on the active node, then once more after a failover; `meanwhile` are
   * others' switches before it, `ctxDone` the context at the check between rounds.
   */
  method DoWithFailover<T>(pool: Pool, fn: (nat, nat) -> Attempt<T>, ctxDone: bool, meanwhile: seq<Op>)
    returns (r: Result<T, Error>, calls: nat, switched: bool)
    requires pool.Valid()
    modifies pool
    ensures pool.Valid() && 1 <= calls <= 2 * MAX_RETRIES
    ensures pool.calls == old(pool.calls) + meanwhile + (if Exhausted(fn, 0) && !ctxDone then [Failover] else [])
    ensures switched <==>
            && Exhausted(fn, 0) && !ctxDone
            && Switches(pool.hasFallback, ActiveAfter(pool.hasFallback, old(pool.calls) + meanwhile), Failover)
    ensures switched ==> pool.active == Fallback && calls > MAX_RETRIES
    ensures !switched ==> calls <= MAX_RETRIES
    ensures var last := calls - 1 - (if switched then MAX_RETRIES else 0);
            && Decides(fn(if switched then 1 else 0, last), last)
            && r == Verdict(fn(if switched then 1 else 0, last), last)
  {
    r, calls := DoCtx(fn, 0);
    ExhaustedIff(fn, 0, calls);
    switched := false;
    pool.Others(meanwhile);
    if r.Ok? {
      return;
    }
    if !Retryable(r.error) || ctxDone {
      return;
    }
    switched := pool.Switch(Failover);
    if switched {
      var more;
      r, more := DoCtx(fn, 1);
      calls := MAX_RETRIES + more;
    }
  }
}
