/** Moving the legacy TRX limits into the token table (internal/policy/config.go) as seen by the engine. */
module Promotion {
  import opened Engine
  import opened Int64
  import opened Policy
  import opened Wrappers

  /** Everything one `Check` depends on besides the policy. */
  datatype Situation = Situation(
    intent: Intent,
    limitQuote: Option<real>,
    thresholdQuote: Option<real>,
    hasStore: bool,
    current: Int64,
    commits: bool)

  function VerdictOf(p: Policy, s: Situation): Verdict {
    Settle(Screen(p, s.intent, s.limitQuote, s.thresholdQuote), DailyPlan(p, s.intent, s.hasStore), s.current,
        s.commits)
  }

  /** The wallet's counter after the check. */
  function CounterAfter(p: Policy, s: Situation): Int64 {
    var plan := DailyPlan(p, s.intent, s.hasStore);
    if Reserves(Screen(p, s.intent, s.limitQuote, s.thresholdQuote), plan, s.current, s.commits)
    then Wrap(s.current + plan.amount) else s.current
  }

  predicate SameKind(a: Verdict, b: Verdict) {
    a.Allowed? == b.Allowed? && a.NeedsApproval? == b.NeedsApproval? && a.Denied? == b.Denied?
  }

  /** Same verdict, same reservation, same amount on rollback. */
  predicate Agree(p: Policy, q: Policy, s: Situation) {
    && SameKind(VerdictOf(p, s), VerdictOf(q, s))
    && CounterAfter(p, s) == CounterAfter(q, s)
    && Tracked(p, s.intent) == Tracked(q, s.intent)
  }

  ghost predicate PreservesCheck(p: Policy) {
    forall s: Situation :: Coherent(s.intent) ==> Agree(p, Promoted(p), s)
  }

  /** The smallest SUN amount the legacy approval threshold catches. */
  function SmallestCaught(p: Policy): int {
    Truncate(p.approvalTRX * 1_000_000.0) + 1
  }

  /** No transfer can be caught by the legacy threshold and still pass the per-transaction limit. */
  predicate ThresholdIdle(p: Policy) {
    || p.approvalTRX == 0.0
    || SmallestCaught(p) > MAX
    || (p.perTxTRX > 0.0 && SmallestCaught(p) as real > p.perTxTRX * 1_000_000.0)
  }

  predicate MovesLimits(p: Policy) {
    p.perTxTRX != 0.0 || p.dailyTRX != 0.0
  }

  /** The limits mean the same in SUN and in TRX. */
  lemma SameUnits(p: Policy, i: Intent, limit: real)
    requires MovesLimits(p) && "TRX" !in p.tokens && i.token == "TRX" && Coherent(i)
    ensures limit * DecimalMultiplier(6) == limit * 1_000_000.0
    ensures Exceeds(AmountTRX(i), limit) <==> Exceeds(i.tokenAmount as real, limit * 1_000_000.0)
  {
  }

  /** A TRX transfer outside the legacy threshold, under limits that are moved. */
  lemma MovedAgree(p: Policy, s: Situation)
    requires Valid(p) && "TRX" !in p.tokens && Coherent(s.intent) && MovesLimits(p) && s.intent.token == "TRX"
    requires !Exceeds(AmountTRX(s.intent), p.approvalTRX) || Exceeds(AmountTRX(s.intent), p.perTxTRX)
    ensures Agree(p, Promoted(p), s)
  {
    var i := s.intent;
    SameUnits(p, i, p.perTxTRX);
    SameUnits(p, i, p.dailyTRX);
    assert Promoted(p).tokens["TRX"] == TokenLimit(6, p.dailyTRX, p.perTxTRX, 0.0);
    assert AboveUnitLimit(Promoted(p), i) == AboveUnitLimit(p, i);
    assert DailyLimit(Promoted(p), "TRX") == DailyLimit(p, "TRX");
  }

  lemma UncaughtAgree(p: Policy, s: Situation)
    requires Valid(p) && "TRX" !in p.tokens && Coherent(s.intent)
    requires !MovesLimits(p) || !Exceeds(AmountTRX(s.intent), p.approvalTRX) || Exceeds(AmountTRX(s.intent), p.perTxTRX)
    ensures Agree(p, Promoted(p), s)
  {
    if MovesLimits(p) && s.intent.token == "TRX" {
      MovedAgree(p, s);
    }
  }

  /** A transfer of the smallest caught amount, with nothing else in its way. */
  function Caught(p: Policy): Situation
    requires 0 <= SmallestCaught(p) <= MAX
  {
    var amount := SmallestCaught(p);
    Situation(Intent("w", "TransferContract", "", "", amount, "TRX", amount), Some(0.0), Some(0.0), false, 0, true)
  }

  lemma CaughtDisagrees(p: Policy)
    requires Valid(p) && "TRX" !in p.tokens && MovesLimits(p) && !ThresholdIdle(p)
    ensures Coherent(Caught(p).intent) && VerdictOf(p, Caught(p)).NeedsApproval?
    ensures VerdictOf(Promoted(p), Caught(p)).Allowed?
  {
    var i := Caught(p).intent;
    SameUnits(p, i, p.perTxTRX);
    SameUnits(p, i, p.approvalTRX);
    assert Promoted(p).tokens["TRX"] == TokenLimit(6, p.dailyTRX, p.perTxTRX, 0.0);
    assert !AboveUnitLimit(p, i) && !AboveUnitLimit(Promoted(p), i);
    assert Exceeds(AmountTRX(i), p.approvalTRX);
    assert USDValue(p, i, Some(0.0)) == Some(0.0);
  }

  /**
   * Promotion preserves the meaning of a policy without a TRX entry, for every
   * intent and store, exactly when the legacy approval threshold is idle: the
   * promoted entry does not carry that threshold over.
   */
  lemma PromotionPreservesIff(p: Policy)
    requires Valid(p) && "TRX" !in p.tokens
    ensures PreservesCheck(p) <==> !MovesLimits(p) || ThresholdIdle(p)
  {
    if !MovesLimits(p) || ThresholdIdle(p) {
      forall s: Situation | Coherent(s.intent)
        ensures Agree(p, Promoted(p), s)
      {
        if MovesLimits(p) && Exceeds(AmountTRX(s.intent), p.approvalTRX) {
          assert s.intent.amountSUN as real > p.approvalTRX * 1_000_000.0;
          assert s.intent.amountSUN >= SmallestCaught(p);
        }
        UncaughtAgree(p, s);
      }
    } else {
      CaughtDisagrees(p);
      assert !Agree(p, Promoted(p), Caught(p));
    }
  }

  // ----- Policies that already hold a TRX entry -----

  /** TRX has positive decimals in the end; `ResolveDecimals` sets six where the configuration does not. */
  function Resolved(p: Policy): Policy {
    if "TRX" in p.tokens && p.tokens["TRX"].decimals <= 0 then
      p.(tokens := p.tokens["TRX" := p.tokens["TRX"].(decimals := 6)])
    else p
  }

  /** So it is enough to look at resolved policies. */
  lemma PromotionCommutes(p: Policy)
    requires "TRX" in p.tokens
    ensures Resolved(Promoted(p)) == Promoted(Resolved(p))
    ensures "TRX" in Resolved(p).tokens && Resolved(p).tokens["TRX"].decimals > 0
  {
    assert Resolved(Promoted(p)).tokens == Promoted(Resolved(p)).tokens;
  }

  predicate FillsDaily(p: Policy)
    requires "TRX" in p.tokens
  {
    p.tokens["TRX"].dailyUnits == 0.0 && p.dailyTRX > 0.0
  }

  predicate FillsPerTx(p: Policy)
    requires "TRX" in p.tokens
  {
    p.tokens["TRX"].perTxUnits == 0.0 && p.perTxTRX > 0.0
  }

  /** The per-transaction limit that a filled entry puts on SUN amounts. */
  function FilledLimit(p: Policy): real
    requires "TRX" in p.tokens
  {
    RawPerTxLimit(Promoted(p).tokens["TRX"])
  }

  lemma UnfilledIsUnchanged(p: Policy)
    requires Valid(p) && "TRX" in p.tokens && p.tokens["TRX"].decimals > 0 && !FillsDaily(p) && !FillsPerTx(p)
    ensures Promoted(p) == p
  {
    assert Promoted(p).tokens == p.tokens;
  }

  /** What a policy says about a transfer. */
  lemma SameJudgement(p: Policy, q: Policy, s: Situation)
    requires q == p.(tokens := q.tokens)
    requires AboveUnitLimit(p, s.intent) == AboveUnitLimit(q, s.intent)
    requires AboveUnitThreshold(p, s.intent) == AboveUnitThreshold(q, s.intent)
    requires USDValue(p, s.intent, s.limitQuote) == USDValue(q, s.intent, s.limitQuote)
    requires USDValue(p, s.intent, s.thresholdQuote) == USDValue(q, s.intent, s.thresholdQuote)
    requires DailyPlan(p, s.intent, s.hasStore) == DailyPlan(q, s.intent, s.hasStore)
    requires Tracked(p, s.intent) == Tracked(q, s.intent)
    ensures Agree(p, q, s)
  {
    assert Screen(p, s.intent, s.limitQuote, s.thresholdQuote) == Screen(q, s.intent, s.limitQuote, s.thresholdQuote);
  }

  lemma SlackLimit(p: Policy, i: Intent)
    requires Valid(p) && "TRX" in p.tokens && p.tokens["TRX"].decimals > 0 && Coherent(i)
    requires !FillsDaily(p) && FillsPerTx(p) && FilledLimit(p) >= MAX as real
    ensures AboveUnitLimit(p, i) == AboveUnitLimit(Promoted(p), i)
    ensures AboveUnitThreshold(p, i) == AboveUnitThreshold(Promoted(p), i)
  {
    assert Promoted(p).tokens["TRX"] == p.tokens["TRX"].(perTxUnits := p.perTxTRX);
    assert RawPerTxLimit(p.tokens["TRX"]) == 0.0;
  }

  lemma SlackDaily(p: Policy, i: Intent, hasStore: bool)
    requires "TRX" in p.tokens && p.tokens["TRX"].decimals > 0 && !FillsDaily(p)
    ensures DailyPlan(p, i, hasStore) == DailyPlan(Promoted(p), i, hasStore) && Tracked(p, i) == Tracked(Promoted(p), i)
  {
    assert RawDailyLimit(Promoted(p).tokens["TRX"]) == RawDailyLimit(p.tokens["TRX"]);
  }

  lemma SlackAgrees(p: Policy, s: Situation)
    requires Valid(p) && "TRX" in p.tokens && p.tokens["TRX"].decimals > 0 && Coherent(s.intent)
    requires !FillsDaily(p) && FillsPerTx(p) && FilledLimit(p) >= MAX as real
    ensures Agree(p, Promoted(p), s)
  {
    SlackLimit(p, s.intent);
    SlackDaily(p, s.intent, s.hasStore);
    SameJudgement(p, Promoted(p), s);
  }

  /** The largest transfer, at no price and without a store. */
  function Largest(): Situation {
    Situation(Intent("w", "TransferContract", "", "", MAX, "TRX", MAX), Some(0.0), Some(0.0), false, 0, true)
  }

  lemma LimitBites(p: Policy)
    requires Valid(p) && "TRX" in p.tokens && p.tokens["TRX"].decimals > 0 && FillsPerTx(p)
    requires FilledLimit(p) < MAX as real
    ensures !VerdictOf(p, Largest()).Denied? && VerdictOf(Promoted(p), Largest()).Denied?
  {
    var i := Largest().intent;
    assert Promoted(p).tokens["TRX"].perTxUnits == p.perTxTRX;
    assert FilledLimit(p) > 0.0;
    assert USDValue(p, i, Some(0.0)) == Some(0.0);
  }

  /**
   * Promotion of a policy with a TRX entry preserves its meaning exactly when it
   * fills in no daily limit, and no per-transaction limit that an `int64` can exceed.
   */
  lemma FillingPreservesIff(p: Policy)
    requires Valid(p) && "TRX" in p.tokens && p.tokens["TRX"].decimals > 0
    ensures PreservesCheck(p) <==> !FillsDaily(p) && (FillsPerTx(p) ==> FilledLimit(p) >= MAX as real)
  {
    if FillsDaily(p) {
      assert Tracked(Promoted(p), Largest().intent).Some? && Tracked(p, Largest().intent).None?;
      assert Coherent(Largest().intent) && !Agree(p, Promoted(p), Largest());
    } else if FillsPerTx(p) {
      if FilledLimit(p) < MAX as real {
        LimitBites(p);
        assert Coherent(Largest().intent) && !Agree(p, Promoted(p), Largest());
      } else {
        forall s: Situation | Coherent(s.intent)
          ensures Agree(p, Promoted(p), s)
        {
          SlackAgrees(p, s);
        }
      }
    } else {
      UnfilledIsUnchanged(p);
    }
  }
}
