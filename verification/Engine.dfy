/** The policy engine (internal/policy/engine.go): screening, daily reservation, rollback, override recording. */
module Engine {
  import opened Bytes
  import opened Int64
  import opened Policy
  import opened Store
  import opened Wrappers

  /** What a transaction intends. `tokenAmount` is the exact on-chain amount; for TRX it is the SUN amount. */
  datatype Intent = Intent(
    wallet: string,
    action: string,
    from: string,
    to: string,
    amountSUN: Int64,
    token: string,
    tokenAmount: int)

  predicate Coherent(i: Intent) {
    i.token == "TRX" ==> i.tokenAmount == i.amountSUN
  }

  datatype Reason =
    | NotWhitelisted
    | AbovePerTxLimit
    | PriceUnavailable
    | AboveUSDLimit
    | AmountUntrackable
    | LimitUntrackable
    | AboveDailyLimit
    | UnitThreshold
    | USDThreshold

  datatype Verdict = Allowed | NeedsApproval(reason: Reason) | Denied(reason: Reason) | Failed

  // ----- What the checks decide -----

  function AmountTRX(i: Intent): real {
    i.amountSUN as real / 1_000_000.0
  }

  /** Zero means "no limit". */
  predicate Exceeds(amount: real, limit: real) {
    limit > 0.0 && amount > limit
  }

  predicate WhitelistAdmits(p: Policy, to: string) {
    p.whitelist == [] || to == "" || to in p.whitelist
  }

  /** The legacy TRX fields count only while the token table has no TRX entry. */
  predicate Legacy(p: Policy, i: Intent) {
    i.token == "TRX" && "TRX" !in p.tokens
  }

  predicate AboveUnitLimit(p: Policy, i: Intent) {
    || (i.token in p.tokens && Exceeds(i.tokenAmount as real, RawPerTxLimit(p.tokens[i.token])))
    || (Legacy(p, i) && Exceeds(AmountTRX(i), p.perTxTRX))
  }

  predicate AboveUnitThreshold(p: Policy, i: Intent) {
    || (i.token in p.tokens && Exceeds(i.tokenAmount as real, RawApprovalThreshold(p.tokens[i.token])))
    || (Legacy(p, i) && Exceeds(AmountTRX(i), p.approvalTRX))
  }

  function HumanUnits(tl: TokenLimit, raw: int): real {
    raw as real / DecimalMultiplier(tl.decimals)
  }

  function Scaled(amount: real, price: real): real {
    amount * price
  }

  /** A failed price lookup, or a token of unknown decimals, has no USD value. */
  function USDValue(p: Policy, i: Intent, quote: Option<real>): Option<real> {
    if quote.None? then None
    else if i.token == "TRX" then Some(Scaled(AmountTRX(i), quote.value))
    else if i.token in p.tokens then
      Some(Scaled(HumanUnits(p.tokens[i.token], i.tokenAmount), quote.value))
    else None
  }

  /** An intent's amount in the unit its price is for, times `units`, is its on-chain amount. */
  function UnitsOf(p: Policy, token: string): real {
    if token == "TRX" then 1_000_000.0
    else if token in p.tokens then DecimalMultiplier(p.tokens[token].decimals)
    else 1.0
  }

  lemma DivideBack(x: real, m: real, price: real)
    requires m > 0.0
    ensures x / m * price * m == x * price
  {
    assert x / m * m == x;
    assert x / m * price * m == x / m * m * price;
  }

  /**
   * A transfer has a USD value exactly when there is a price and the decimals are
   * known; scaled back to on-chain units, the value is amount times price.
   */
  lemma USDValueIff(p: Policy, i: Intent, quote: Option<real>)
    requires Coherent(i)
    ensures USDValue(p, i, quote).Some? <==> quote.Some? && (i.token == "TRX" || i.token in p.tokens)
    ensures USDValue(p, i, quote).Some? ==>
              USDValue(p, i, quote).value * UnitsOf(p, i.token) == i.tokenAmount as real * quote.value
  {
    if quote.Some? {
      DivideBack(i.tokenAmount as real, UnitsOf(p, i.token), quote.value);
    }
  }

  datatype Screening = Refused(reason: Reason) | Passed(approval: Option<Reason>)

  /** The stateless half of `Check`. The two USD checks fetch their prices separately. */
  function Screen(p: Policy, i: Intent, limitQuote: Option<real>, thresholdQuote: Option<real>): Screening {
    var limitUSD, thresholdUSD := USDValue(p, i, limitQuote), USDValue(p, i, thresholdQuote);
    if !WhitelistAdmits(p, i.to) then Refused(NotWhitelisted)
    else if AboveUnitLimit(p, i) then Refused(AbovePerTxLimit)
    else if p.perTxUSD > 0.0 && limitUSD.None? then Refused(PriceUnavailable)
    else if p.perTxUSD > 0.0 && limitUSD.value > p.perTxUSD then Refused(AboveUSDLimit)
    else if AboveUnitThreshold(p, i) then Passed(Some(UnitThreshold))
    else if p.approvalUSD <= 0.0 then Passed(None)
    else if thresholdUSD.None? then Refused(PriceUnavailable)
    else if thresholdUSD.value > p.approvalUSD then Passed(Some(USDThreshold))
    else Passed(None)
  }

  /** The amount a reservation, rollback or override writes to the (wallet, token) counter, if any. */
  function Tracked(p: Policy, i: Intent): Option<Int64> {
    if i.token in p.tokens then
      if p.tokens[i.token].dailyUnits > 0.0 then Some(FromInt(i.tokenAmount)) else None
    else if i.token == "TRX" && p.dailyTRX > 0.0 then Some(i.amountSUN)
    else None
  }

  /** The daily limit of a token in on-chain units; zero when there is none. */
  function DailyLimit(p: Policy, token: string): real {
    if token in p.tokens then RawDailyLimit(p.tokens[token])
    else if token == "TRX" then p.dailyTRX * 1_000_000.0
    else 0.0
  }

  datatype Plan = Unfit(reason: Reason) | Untracked | Limited(amount: Int64, limit: Int64)

  /** The stateful half of `Check` up to the store call. `float64(math.MaxInt64)` is 2^63. */
  function DailyPlan(p: Policy, i: Intent, hasStore: bool): Plan {
    if i.tokenAmount > TWO_63 then Unfit(AmountUntrackable)
    else if !hasStore || Tracked(p, i).None? then Untracked
    else if DailyLimit(p, i.token) > TWO_63 as real then Unfit(LimitUntrackable)
    else Limited(Tracked(p, i).value, FromReal(DailyLimit(p, i.token)))
  }

  predicate Reserves(screening: Screening, plan: Plan, current: Int64, commits: bool) {
    screening.Passed? && plan.Limited? && commits && Admits(current, plan.amount, plan.limit)
  }

  function Settle(screening: Screening, plan: Plan, current: Int64, commits: bool): Verdict {
    if screening.Refused? then Denied(screening.reason)
    else if plan.Unfit? then Denied(plan.reason)
    else if plan.Limited? && !commits then Failed
    else if plan.Limited? && !Admits(current, plan.amount, plan.limit) then Denied(AboveDailyLimit)
    else if screening.approval.Some? then NeedsApproval(screening.approval.value)
    else Allowed
  }

  function Negated(a: Int64): Int64 {
    Wrap(0 - a as int)
  }

  // ----- Reservation and rollback -----

  /**
   * An approval-required or allowed verdict under a daily limit holds exactly
   * one reservation, a denial or a failure holds none, and what the rollback
   * will take back is what was reserved.
   */
  lemma VerdictTellsReservation(p: Policy, i: Intent, q1: Option<real>, q2: Option<real>, current: Int64, commits: bool)
    ensures
      var screening, plan := Screen(p, i, q1, q2), DailyPlan(p, i, true);
      var verdict := Settle(screening, plan, current, commits);
      && (Reserves(screening, plan, current, commits) <==>
          (verdict.Allowed? || verdict.NeedsApproval?) && Tracked(p, i).Some?)
      && (Reserves(screening, plan, current, commits) ==> Tracked(p, i) == Some(plan.amount))
  {
  }

  /** A reservation counts the true amount exactly when an `int64` can hold it, which the guard does not ensure. */
  lemma ReservationCountsAmount(p: Policy, i: Intent)
    requires Coherent(i) && 0 <= i.tokenAmount && DailyPlan(p, i, true).Limited?
    ensures DailyPlan(p, i, true).amount == i.tokenAmount <==> i.tokenAmount <= MAX
  {
  }

  /** Writes made to the counters by anyone, in order. */
  datatype Write<K> = Write(key: K, amount: int)

  function Replay<K(==)>(counters: Counters<K>, writes: seq<Write<K>>): Counters<K>
    decreases |writes|
  {
    if writes == [] then counters
    else Replay(Credit(counters, writes[0].key, writes[0].amount), writes[1..])
  }

  function Net<K(==)>(writes: seq<Write<K>>, k: K): int {
    if writes == [] then 0
    else (if writes[0].key == k then writes[0].amount else 0) + Net(writes[1..], k)
  }

  lemma AddTwice(current: Int64, first: int, rest: int, after: Int64)
    requires after == Wrap(current + first)
    ensures Wrap(after + rest) == Wrap(current + (first + rest))
  {
    WrapAdd(current + first, rest);
  }

  lemma AddLater(current: Int64, first: int, rest: int, after: Int64)
    requires after == Wrap(current + first)
    ensures Wrap(after + rest) == Wrap(current + rest + first)
  {
    AddTwice(current, first, rest, after);
  }

  lemma CreditReads<K>(counters: Counters<K>, key: K, amount: int, k: K)
    ensures Read(Credit(counters, key, amount), k)
            == if key == k then Wrap(Read(counters, k) + amount) else Read(counters, k)
  {
  }

  lemma {:induction false} ReplayReads<K>(counters: Counters<K>, writes: seq<Write<K>>, k: K)
    ensures Read(Replay(counters, writes), k) == Wrap(Read(counters, k) + Net(writes, k))
    decreases |writes|
  {
    if writes == [] {
    } else {
      var head := writes[0];
      var next := Credit(counters, head.key, head.amount);
      ReplayReads(next, writes[1..], k);
      CreditReads(counters, head.key, head.amount, k);
      if head.key == k {
        AddTwice(Read(counters, k), head.amount, Net(writes[1..], k), Read(next, k));
      }
    }
  }

  lemma HeldShows<K>(counters: Counters<K>, k: K, amount: Int64, others: seq<Write<K>>)
    ensures Read(Replay(Credit(counters, k, amount), others), k) == Wrap(Read(counters, k) + Net(others, k) + amount)
  {
    var held := Credit(counters, k, amount);
    ReplayReads(held, others, k);
    CreditReads(counters, k, amount, k);
    AddLater(Read(counters, k), amount, Net(others, k), Read(held, k));
  }

  lemma ElsewhereShows<K>(counters: Counters<K>, k: K, amount: Int64, others: seq<Write<K>>, probe: K)
    requires probe != k
    ensures Read(Replay(Credit(counters, k, amount), others), probe) == Read(Replay(counters, others), probe)
  {
    var held := Credit(counters, k, amount);
    ReplayReads(counters, others, probe);
    ReplayReads(held, others, probe);
    CreditReads(counters, k, amount, probe);
  }

  /** A reservation shows through any later writes as its amount on its own counter and nowhere else. */
  lemma ReservationShows<K>(counters: Counters<K>, k: K, amount: Int64, others: seq<Write<K>>, probe: K)
    ensures Read(Replay(Credit(counters, k, amount), others), k) == Wrap(Read(counters, k) + Net(others, k) + amount)
    ensures probe != k ==>
              Read(Replay(Credit(counters, k, amount), others), probe) == Read(Replay(counters, others), probe)
  {
    HeldShows(counters, k, amount, others);
    if probe != k {
      ElsewhereShows(counters, k, amount, others, probe);
    }
  }

  lemma CancelWrap(total: int, amount: Int64)
    ensures Wrap(Wrap(total + amount) + Negated(amount)) == Wrap(total)
  {
    WrapAdd(total + amount, Negated(amount));
    WrapAdd(0 - amount as int, total + amount);
  }

  lemma CancelReservation<K>(held: Counters<K>, rest: Counters<K>, k: K, total: int, amount: Int64)
    requires Read(held, k) == Wrap(total + amount) && Read(rest, k) == Wrap(total)
    ensures Read(Credit(held, k, Negated(amount)), k) == Read(rest, k)
  {
    CancelWrap(total, amount);
  }

  lemma HeldReads<K>(counters: Counters<K>, k: K, amount: Int64, others: seq<Write<K>>) returns (total: int)
    ensures Read(Replay(Credit(counters, k, amount), others), k) == Wrap(total + amount)
    ensures Read(Replay(counters, others), k) == Wrap(total)
  {
    total := Read(counters, k) + Net(others, k);
    HeldShows(counters, k, amount, others);
    ReplayReads(counters, others, k);
  }

  /** A credit and its negation, with any writes in between, equal those writes alone. */
  lemma RollbackIsExact<K>(counters: Counters<K>, k: K, amount: Int64, others: seq<Write<K>>, probe: K)
    ensures Read(Credit(Replay(Credit(counters, k, amount), others), k, Negated(amount)), probe)
            == Read(Replay(counters, others), probe)
  {
    if probe == k {
      var total := HeldReads(counters, k, amount, others);
      CancelReservation(Replay(Credit(counters, k, amount), others), Replay(counters, others), k, total, amount);
    } else {
      ElsewhereShows(counters, k, amount, others, probe);
    }
  }

  // ----- The same on bytes -----

  /** The bucket after writes by anyone, in order. */
  function Stored(bucket: Bucket, writes: seq<Write<string>>): Bucket
    decreases |writes|
  {
    if writes == [] then bucket
    else Stored(Credited(bucket, writes[0].key, Wrap(writes[0].amount)), writes[1..])
  }

  function CountersOf(bucket: Bucket): Counters<string> {
    map key | key in bucket :: Decode(bucket[key])
  }

  lemma WrapAddRight(a: int, b: int)
    ensures Wrap(a + Wrap(b)) == Wrap(a + b)
  {
    WrapAdd(b, a);
  }

  lemma SameTotal(current: Int64, amount: int, wrapped: Int64)
    requires wrapped == Wrap(amount)
    ensures Wrap(current + wrapped) == Wrap(current + amount)
  {
    WrapAddRight(current, amount);
  }

  lemma CreditTo<K>(counters: Counters<K>, k: K, amount: int, total: Int64)
    requires total == Wrap(Read(counters, k) + amount)
    ensures Credit(counters, k, amount) == counters[k := total]
  {
  }

  lemma CreditedAs(bucket: Bucket, key: string, amount: Int64, total: Int64)
    requires total == Wrap(Counter(bucket, key) + amount)
    ensures CountersOf(Credited(bucket, key, amount)) == CountersOf(bucket)[key := total]
  {
    EncodedCounters(bucket, key, total);
  }

  lemma CreditedCounters(bucket: Bucket, key: string, amount: int)
    ensures CountersOf(Credited(bucket, key, Wrap(amount))) == Credit(CountersOf(bucket), key, amount)
  {
    var total := CreditTotal(bucket, key, amount, Wrap(amount));
    CreditedAs(bucket, key, Wrap(amount), total);
  }

  lemma CreditTotal(bucket: Bucket, key: string, amount: int, wrapped: Int64) returns (total: Int64)
    requires wrapped == Wrap(amount)
    ensures total == Wrap(Counter(bucket, key) + wrapped)
    ensures Credit(CountersOf(bucket), key, amount) == CountersOf(bucket)[key := total]
  {
    total := Wrap(Counter(bucket, key) + wrapped);
    CounterIsRead(bucket, key);
    SameTotal(Counter(bucket, key), amount, wrapped);
    CreditTo(CountersOf(bucket), key, amount, total);
  }

  lemma EncodedCounters(bucket: Bucket, key: string, total: Int64)
    ensures CountersOf(bucket[key := Encode(total)]) == CountersOf(bucket)[key := total]
  {
    CounterRoundTrip(total);
  }

  lemma {:induction false} StoredCounters(bucket: Bucket, writes: seq<Write<string>>)
    ensures CountersOf(Stored(bucket, writes)) == Replay(CountersOf(bucket), writes)
    decreases |writes|
  {
    if writes != [] {
      CreditedCounters(bucket, writes[0].key, writes[0].amount);
      StoredCounters(Credited(bucket, writes[0].key, Wrap(writes[0].amount)), writes[1..]);
    }
  }

  lemma {:induction false} StoredOneMore(bucket: Bucket, writes: seq<Write<string>>, w: Write<string>)
    ensures Stored(bucket, writes + [w]) == Credited(Stored(bucket, writes), w.key, Wrap(w.amount))
    decreases |writes|
  {
    if writes == [] {
      assert writes + [w] == [w];
    } else {
      StoredOneMore(Credited(bucket, writes[0].key, Wrap(writes[0].amount)), writes[1..], w);
      assert (writes + [w])[1..] == writes[1..] + [w];
    }
  }

  /** A write as the store's callers make it. */
  datatype SpendWrite = SpendWrite(spendKey: string, day: Day, amount: Int64) {
    function Credit(): Write<string> {
      Write(DailySpendKey(spendKey, day), amount as int)
    }
  }

  function Writes(spends: seq<SpendWrite>): seq<Write<string>> {
    seq(|spends|, k requires 0 <= k < |spends| => spends[k].Credit())
  }

  lemma WritesOneMore(bucket: Bucket, spends: seq<SpendWrite>, k: nat)
    requires k < |spends|
    ensures Stored(bucket, Writes(spends[..k + 1]))
            == Credited(Stored(bucket, Writes(spends[..k])), DailySpendKey(spends[k].spendKey, spends[k].day),
                spends[k].amount)
  {
    var w := Write(DailySpendKey(spends[k].spendKey, spends[k].day), spends[k].amount as int);
    assert Writes(spends[..k + 1]) == Writes(spends[..k]) + [w];
    StoredOneMore(bucket, Writes(spends[..k]), w);
  }

  /** On bytes: a credit, any writes by others, and the negated credit equal those writes alone. */
  lemma BytesRollBack(bucket: Bucket, key: string, amount: Int64, others: seq<Write<string>>, probe: string)
    ensures Counter(Credited(Stored(Credited(bucket, key, amount), others), key, Negated(amount)), probe)
            == Counter(Stored(bucket, others), probe)
  {
    var held := Credited(bucket, key, amount);
    CreditedCounters(bucket, key, amount);
    StoredCounters(held, others);
    StoredCounters(bucket, others);
    CreditedCounters(Stored(held, others), key, Negated(amount));
    RollbackIsExact(CountersOf(bucket), key, amount, others, probe);
    CounterIsRead(Credited(Stored(held, others), key, Negated(amount)), probe);
    CounterIsRead(Stored(bucket, others), probe);
  }

  lemma CounterIsRead(bucket: Bucket, key: string)
    ensures Counter(bucket, key) == Read(CountersOf(bucket), key)
  {
  }

  // ----- The engine object -----

  /** An intent and the field `Check` stamps on it. */
  class PendingIntent {
    const value: Intent
    var checkDay: Option<Day>

    constructor (i: Intent)
      ensures value == i && checkDay == None
    {
      value, checkDay := i, None;
    }
  }

  class PolicyEngine {
    const wallets: map<string, Policy>
    const store: SpendStore?

    constructor (wallets: map<string, Policy>, store: SpendStore?)
      ensures this.wallets == wallets && this.store == store
    {
      this.wallets, this.store := wallets, store;
    }

    /** The bucket after this engine's one possible write. */
    ghost function After(bucket: Bucket, i: Intent, day: Day, amount: Option<Int64>): Bucket {
      if amount.Some? then Credited(bucket, Key(Slot(i.wallet, i.token, day)), amount.value) else bucket
    }

    method IntentToUSD(i: Intent, p: Policy, quote: Option<real>) returns (usd: Option<real>)
      ensures usd == USDValue(p, i, quote)
      ensures usd.None? <==> quote.None? || (i.token != "TRX" && i.token !in p.tokens)
    {
      if quote.None? {
        return None;
      }
      var price := quote.value;
      if i.token == "TRX" {
        usd := Some(Scaled(AmountTRX(i), price));
      } else if i.token in p.tokens {
        usd := Some(Scaled(HumanUnits(p.tokens[i.token], i.tokenAmount), price));
      } else {
        usd := None;
      }
    }

    method OnWhitelist(p: Policy, to: string) returns (allowed: bool)
      ensures allowed == WhitelistAdmits(p, to)
    {
      if p.whitelist == [] || to == "" {
        return true;
      }
      allowed := false;
      for n := 0 to |p.whitelist|
        invariant !allowed && to !in p.whitelist[..n]
      {
        if p.whitelist[n] == to {
          return true;
        }
      }
    }

    method ScreenIntent(i: Intent, p: Policy, limitQuote: Option<real>, thresholdQuote: Option<real>)
      returns (s: Screening)
      ensures s == Screen(p, i, limitQuote, thresholdQuote)
    {
      var onWhitelist := OnWhitelist(p, i.to);
      if !onWhitelist {
        return Refused(NotWhitelisted);
      }
      var approval: Option<Reason> := None;
      if i.token in p.tokens {
        var tl := p.tokens[i.token];
        var rawLimit := RawPerTxLimit(tl);
        if rawLimit > 0.0 && i.tokenAmount as real > rawLimit {
          return Refused(AbovePerTxLimit);
        }
        var rawApproval := RawApprovalThreshold(tl);
        if rawApproval > 0.0 && i.tokenAmount as real > rawApproval {
          approval := Some(UnitThreshold);
        }
      }
      if i.token == "TRX" && p.perTxTRX > 0.0 && "TRX" !in p.tokens && AmountTRX(i) > p.perTxTRX {
        return Refused(AbovePerTxLimit);
      }
      if approval.None? && i.token == "TRX" && p.approvalTRX > 0.0 && AmountTRX(i) > p.approvalTRX
         && "TRX" !in p.tokens {
        approval := Some(UnitThreshold);
      }
      if p.perTxUSD > 0.0 {
        var usd := IntentToUSD(i, p, limitQuote);
        if usd.None? {
          return Refused(PriceUnavailable);
        }
        if usd.value > p.perTxUSD {
          return Refused(AboveUSDLimit);
        }
      }
      if approval.None? && p.approvalUSD > 0.0 {
        var usd := IntentToUSD(i, p, thresholdQuote);
        if usd.None? {
          return Refused(PriceUnavailable);
        }
        if usd.value > p.approvalUSD {
          approval := Some(USDThreshold);
        }
      }
      s := Passed(approval);
    }

    /** One reservation on the wallet's counter for a token. */
    method ReserveOn(i: Intent, checkDay: Day, amount: Int64, limit: Int64, commits: bool)
      returns (stop: Option<Verdict>)
      requires store != null
      modifies store
      ensures
        var current := Counter(old(store.bucket), Key(Slot(i.wallet, i.token, checkDay)));
        && stop == (if !commits then Some(Failed)
                    else if Admits(current, amount, limit) then None
                    else Some(Denied(AboveDailyLimit)))
        && store.bucket == After(old(store.bucket), i, checkDay, if stop.None? then Some(amount) else None)
    {
      var allowed, _, ok := store.CheckAndReserve(SpendKey(i.wallet, i.token), checkDay, amount, limit, commits);
      if !ok {
        return Some(Failed);
      }
      stop := if allowed then None else Some(Denied(AboveDailyLimit));
    }

    /** The stateful checks: the reservation, or the verdict that ends the check. */
    method ReserveDaily(i: Intent, p: Policy, checkDay: Day, commits: bool) returns (stop: Option<Verdict>)
      modifies if store == null then {} else {store}
      ensures
        var plan := DailyPlan(p, i, store != null);
        var current := if store == null then 0 else Counter(old(store.bucket), Key(Slot(i.wallet, i.token, checkDay)));
        var admitted := plan.Limited? && commits && Admits(current, plan.amount, plan.limit);
        && (stop.None? <==> plan.Untracked? || admitted)
        && (stop.Some? ==> stop.value == Settle(Passed(None), plan, current, commits))
        && (store != null ==>
            store.bucket == After(old(store.bucket), i, checkDay, if admitted then Some(plan.amount) else None))
    {
      if i.tokenAmount as real > TWO_63 as real {
        return Some(Denied(AmountUntrackable));
      }
      if i.token in p.tokens && p.tokens[i.token].dailyUnits > 0.0 && store != null {
        var rawLimit := RawDailyLimit(p.tokens[i.token]);
        if rawLimit > TWO_63 as real {
          return Some(Denied(LimitUntrackable));
        }
        stop := ReserveOn(i, checkDay, FromInt(i.tokenAmount), FromReal(rawLimit), commits);
        if stop.Some? {
          return;
        }
      }
      if i.token == "TRX" && p.dailyTRX > 0.0 && store != null && "TRX" !in p.tokens {
        if p.dailyTRX > TWO_63 as real / 1_000_000.0 {
          return Some(Denied(LimitUntrackable));
        }
        stop := ReserveOn(i, checkDay, i.amountSUN, FromReal(p.dailyTRX * 1_000_000.0), commits);
        return;
      }
      return None;
    }

    /** `today` is the clock at the stateful checks; `commits` the store's answer to the one update. */
    method Check(intent: PendingIntent, limitQuote: Option<real>, thresholdQuote: Option<real>, today: Day,
        commits: bool)
      returns (verdict: Verdict)
      modifies intent, if store == null then {} else {store}
      ensures intent.value.wallet !in wallets ==>
        verdict == Allowed && unchanged(intent) && (store != null ==> unchanged(store))
      ensures intent.value.wallet in wallets ==>
        var i, p := intent.value, wallets[intent.value.wallet];
        var screening, plan := Screen(p, i, limitQuote, thresholdQuote), DailyPlan(p, i, store != null);
        var current := if store == null then 0 else Counter(old(store.bucket), Key(Slot(i.wallet, i.token, today)));
        && verdict == Settle(screening, plan, current, commits)
        && intent.checkDay == (if screening.Passed? then Some(today) else old(intent.checkDay))
        && var amount := if Reserves(screening, plan, current, commits) then Some(plan.amount) else None;
        && (store != null ==> store.bucket == After(old(store.bucket), i, today, amount))
    {
      var i := intent.value;
      if i.wallet !in wallets {
        return Allowed;
      }
      var p := wallets[i.wallet];
      var screening := ScreenIntent(i, p, limitQuote, thresholdQuote);
      if screening.Refused? {
        return Denied(screening.reason);
      }
      var checkDay := today;
      intent.checkDay := Some(checkDay);
      var stop := ReserveDaily(i, p, checkDay, commits);
      if stop.Some? {
        return stop.value;
      }
      verdict := if screening.approval.Some? then NeedsApproval(screening.approval.value) else Allowed;
    }

    /** Takes back the reservation from the day stamped by `Check`; a failed write is ignored. */
    method ReleaseReserve(intent: PendingIntent, today: Day, commits: bool)
      modifies if store == null then {} else {store}
      ensures store != null ==>
        var i := intent.value;
        var day := if intent.checkDay.Some? then intent.checkDay.value else today;
        var amount := if i.wallet in wallets && commits then Tracked(wallets[i.wallet], i) else None;
        store.bucket == After(old(store.bucket), i, day, if amount.Some? then Some(Negated(amount.value)) else None)
    {
      var i := intent.value;
      if store == null || i.wallet !in wallets {
        return;
      }
      var p := wallets[i.wallet];
      var releaseDay := if intent.checkDay.Some? then intent.checkDay.value else today;
      if i.token in p.tokens && p.tokens[i.token].dailyUnits > 0.0 {
        var _ := store.AddDailySpend(SpendKey(i.wallet, i.token), releaseDay, Negated(FromInt(i.tokenAmount)), commits);
      }
      if i.token == "TRX" && p.dailyTRX > 0.0 && "TRX" !in p.tokens {
        var _ := store.AddDailySpend(SpendKey(i.wallet, "TRX"), releaseDay, Negated(i.amountSUN), commits);
      }
    }

    /** Adds an override's spend to today's counter without consulting any limit. */
    method RecordOverrideSpend(intent: PendingIntent, today: Day, commits: bool)
      modifies if store == null then {} else {store}
      ensures store != null ==>
        var i := intent.value;
        var amount := if i.wallet in wallets && commits && i.tokenAmount <= TWO_63 then Tracked(wallets[i.wallet], i)
            else None;
        store.bucket == After(old(store.bucket), i, today, amount)
    {
      var i := intent.value;
      if store == null {
        return;
      }
      if i.tokenAmount as real > TWO_63 as real {
        return;
      }
      if i.wallet !in wallets {
        return;
      }
      var p := wallets[i.wallet];
      if i.token in p.tokens && p.tokens[i.token].dailyUnits > 0.0 {
        var _ := store.AddDailySpend(SpendKey(i.wallet, i.token), today, FromInt(i.tokenAmount), commits);
      }
      if i.token == "TRX" && p.dailyTRX > 0.0 && "TRX" !in p.tokens {
        var _ := store.AddDailySpend(SpendKey(i.wallet, "TRX"), today, i.amountSUN, commits);
      }
    }

    /** Writes of other sessions, through the store. */
    method Others(writes: seq<SpendWrite>)
      modifies if store == null then {} else {store}
      ensures store != null ==> store.bucket == Stored(old(store.bucket), Writes(writes))
    {
      if store == null {
        return;
      }
      for k := 0 to |writes|
        invariant store.bucket == Stored(old(store.bucket), Writes(writes[..k]))
      {
        var w := writes[k];
        WritesOneMore(old(store.bucket), writes, k);
        var _ := store.AddDailySpend(w.spendKey, w.day, w.amount, true);
      }
      assert writes[..|writes|] == writes;
    }

    /** What a rollback of the intent takes back. */
    ghost function Owes(i: Intent): Option<Int64> {
      if i.wallet in wallets then Tracked(wallets[i.wallet], i) else None
    }

    /** A check and what it has written when it returns: what a rollback will take back. */
    method CheckAndClaim(intent: PendingIntent, q1: Option<real>, q2: Option<real>, today: Day, commits: bool)
      returns (verdict: Verdict, ghost claim: Option<Int64>)
      requires store != null
      modifies intent, store
      ensures store.bucket == After(old(store.bucket), intent.value, today, claim)
      ensures verdict.Allowed? || verdict.NeedsApproval? ==>
                claim == Owes(intent.value) && (claim.Some? ==> intent.checkDay == Some(today))
      ensures verdict.Denied? || verdict.Failed? ==> claim.None?
    {
      verdict := Check(intent, q1, q2, today, commits);
      claim := None;
      if intent.value.wallet in wallets {
        ghost var i, p := intent.value, wallets[intent.value.wallet];
        ghost var current := Counter(old(store.bucket), Key(Slot(i.wallet, i.token, today)));
        VerdictTellsReservation(p, i, q1, q2, current, commits);
        if Reserves(Screen(p, i, q1, q2), DailyPlan(p, i, true), current, commits) {
          claim := Tracked(p, i);
        }
      }
    }

    /** The rollback of a claim that was written on the stamped day. */
    method ReleaseClaim(intent: PendingIntent, ghost claim: Option<Int64>, today: Day, later: Day)
      requires store != null && claim == Owes(intent.value) && (claim.Some? ==> intent.checkDay == Some(today))
      modifies store
      ensures var key := Key(Slot(intent.value.wallet, intent.value.token, today));
              store.bucket == if claim.Some? then Credited(old(store.bucket), key, Negated(claim.value))
                              else old(store.bucket)
    {
      ReleaseReserve(intent, later, true);
    }

    /**
     * Exact rollback: a check on one day, any writes by others, and the release on
     * whatever later day leave every counter as the others alone would. A check
     * that denies or fails has written nothing, and is not followed by a release.
     */
    method CheckThenRelease(intent: PendingIntent, q1: Option<real>, q2: Option<real>, today: Day, commits: bool,
        others: seq<SpendWrite>, later: Day)
      returns (verdict: Verdict)
      requires store != null
      modifies intent, store
      ensures forall key :: Counter(store.bucket, key) == Counter(Stored(old(store.bucket), Writes(others)), key)
      ensures verdict.Denied? || verdict.Failed? ==> store.bucket == Stored(old(store.bucket), Writes(others))
    {
      ghost var claim;
      verdict, claim := CheckAndClaim(intent, q1, q2, today, commits);
      Others(others);
      if verdict.Allowed? || verdict.NeedsApproval? {
        ReleaseClaim(intent, claim, today, later);
        if claim.Some? {
          ghost var key, amount := Key(Slot(intent.value.wallet, intent.value.token, today)), claim.value;
          RolledBack(old(store.bucket), key, amount, Writes(others), store.bucket);
        }
      }
    }
  }

  lemma RolledBack(before: Bucket, key: string, amount: Int64, others: seq<Write<string>>, after: Bucket)
    requires after == Credited(Stored(Credited(before, key, amount), others), key, Negated(amount))
    ensures forall probe :: Counter(after, probe) == Counter(Stored(before, others), probe)
  {
    forall probe
      ensures Counter(after, probe) == Counter(Stored(before, others), probe)
    {
      BytesRollBack(before, key, amount, others, probe);
    }
  }
}
