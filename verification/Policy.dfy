/**
 * Wallet policies (internal/policy/config.go). Amounts in the configuration
 * are exact reals where the program has `float64`.
 */
module Policy {
  import opened Wrappers
  import Digits

  datatype TokenLimit = TokenLimit(decimals: int, dailyUnits: real, perTxUnits: real, approvalUnits: real)

  /** 10^decimals, which a configuration file may make fractional. */
  function DecimalMultiplier(decimals: int): (m: real)
    ensures m > 0.0
  {
    if decimals >= 0 then Digits.Pow10(decimals) as real else 1.0 / Digits.Pow10(-decimals) as real
  }

  function RawPerTxLimit(tl: TokenLimit): real {
    tl.perTxUnits * DecimalMultiplier(tl.decimals)
  }

  function RawDailyLimit(tl: TokenLimit): real {
    tl.dailyUnits * DecimalMultiplier(tl.decimals)
  }

  function RawApprovalThreshold(tl: TokenLimit): real {
    tl.approvalUnits * DecimalMultiplier(tl.decimals)
  }

  datatype Policy = Policy(
    perTxUSD: real,
    approvalUSD: real,
    perTxTRX: real,
    dailyTRX: real,
    approvalTRX: real,
    tokens: map<string, TokenLimit>,
    whitelist: seq<string>)

  /** The amounts `validatePolicy` accepts. */
  predicate Valid(p: Policy) {
    && p.perTxUSD >= 0.0 && p.approvalUSD >= 0.0
    && p.perTxTRX >= 0.0 && p.dailyTRX >= 0.0 && p.approvalTRX >= 0.0
    && forall t :: t in p.tokens ==>
         p.tokens[t].dailyUnits >= 0.0 && p.tokens[t].perTxUnits >= 0.0 && p.tokens[t].approvalUnits >= 0.0
  }

  /** The policy after the legacy TRX limits were moved into the token table. */
  function Promoted(p: Policy): Policy {
    if p.perTxTRX == 0.0 && p.dailyTRX == 0.0 then p
    else
      var trx := if "TRX" in p.tokens then p.tokens["TRX"] else TokenLimit(6, 0.0, 0.0, 0.0);
      var scaled := if trx.decimals == 0 then trx.(decimals := 6) else trx;
      var perTx := if scaled.perTxUnits == 0.0 && p.perTxTRX > 0.0 then p.perTxTRX else scaled.perTxUnits;
      var daily := if scaled.dailyUnits == 0.0 && p.dailyTRX > 0.0 then p.dailyTRX else scaled.dailyUnits;
      p.(tokens := p.tokens["TRX" := scaled.(perTxUnits := perTx, dailyUnits := daily)])
  }

  lemma PromotionIdempotent(p: Policy)
    requires Valid(p)
    ensures Valid(Promoted(p))
    ensures Promoted(Promoted(p)) == Promoted(p)
  {
  }

  /** `after` re-keys `before` by `normalize`, dropping empty entries. */
  ghost predicate Rekeyed(before: map<string, Option<TokenLimit>>, after: map<string, TokenLimit>,
      normalize: string -> string) {
    && (forall k :: k in before && before[k].Some? ==> normalize(k) in after)
    && (forall key :: key in after ==> Stems(before, after[key], key, normalize))
  }

  ghost predicate Stems(before: map<string, Option<TokenLimit>>, limit: TokenLimit, key: string,
      normalize: string -> string) {
    exists k :: k in before && before[k] == Some(limit) && normalize(k) == key
  }

  /**
   * Map iteration order is unspecified, so re-keying is a function of the
   * configuration only when no two entries meet under one address: then every
   * outcome is the same, and otherwise each of the meeting entries can win.
   */
  lemma RekeyingDetermined(before: map<string, Option<TokenLimit>>, a: map<string, TokenLimit>, b: map<string,
      TokenLimit>,
                           normalize: string -> string)
    requires Rekeyed(before, a, normalize) && Rekeyed(before, b, normalize)
    requires forall j, k ::
               j in before && k in before && before[j].Some? && before[k].Some? && normalize(j) == normalize(k) ==>
                 j == k
    ensures a == b
  {
    forall key | key in a
      ensures key in b && a[key] == b[key]
    {
      assert Stems(before, a[key], key, normalize);
      assert key in b && Stems(before, b[key], key, normalize);
    }
    forall key | key in b
      ensures key in a
    {
      assert Stems(before, b[key], key, normalize);
    }
  }

  class WalletPolicy {
    const perTxUSD: real
    const approvalUSD: real
    const perTxTRX: real
    const dailyTRX: real
    const approvalTRX: real
    const whitelist: seq<string>
    var tokens: map<string, TokenLimit>

    constructor (p: Policy)
      ensures Value() == p
    {
      perTxUSD, approvalUSD := p.perTxUSD, p.approvalUSD;
      perTxTRX, dailyTRX, approvalTRX := p.perTxTRX, p.dailyTRX, p.approvalTRX;
      whitelist, tokens := p.whitelist, p.tokens;
    }

    function Value(): Policy
      reads this
    {
      Policy(perTxUSD, approvalUSD, perTxTRX, dailyTRX, approvalTRX, tokens, whitelist)
    }

    method NormalizeTokenLimitKeys(raw: map<string, Option<TokenLimit>>, normalize: string -> string)
      modifies this
      ensures Rekeyed(raw, tokens, normalize)
    {
      var normalized: map<string, TokenLimit> := map[];
      var rest := raw.Keys;
      while rest != {}
        invariant rest <= raw.Keys
        invariant forall k :: k in raw && k !in rest && raw[k].Some? ==> normalize(k) in normalized
        invariant forall key :: key in normalized ==> Stems(raw, normalized[key], key, normalize)
        decreases |rest|
      {
        var key :| key in rest;
        rest := rest - {key};
        if raw[key].Some? {
          normalized := normalized[normalize(key) := raw[key].value];
        }
      }
      tokens := normalized;
    }

    method PromoteLegacyTRXLimits()
      modifies this
      ensures Value() == Promoted(old(Value()))
    {
      if perTxTRX == 0.0 && dailyTRX == 0.0 {
        return;
      }
      if "TRX" !in tokens {
        tokens := tokens["TRX" := TokenLimit(6, 0.0, 0.0, 0.0)];
      }
      var trx := tokens["TRX"];
      if trx.decimals == 0 {
        trx := trx.(decimals := 6);
      }
      if trx.perTxUnits == 0.0 && perTxTRX > 0.0 {
        trx := trx.(perTxUnits := perTxTRX);
      }
      if trx.dailyUnits == 0.0 && dailyTRX > 0.0 {
        trx := trx.(dailyUnits := dailyTRX);
      }
      tokens := tokens["TRX" := trx];
    }
  }
}
