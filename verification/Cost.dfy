/** Transfer cost arithmetic on `int64` (internal/tools/cost.go). */
module Cost {
  import opened Int64
  import opened Wrappers

  datatype Resource = Energy | Bandwidth | Activation

  /** One line of the cost breakdown; staked resources cost nothing. */
  datatype Line = Line(resource: Resource, burns: bool, cost: Int64)

  datatype Resources = Resources(
    energyLimit: Int64, energyUsed: Int64,
    netLimit: Int64, netUsed: Int64,
    freeNetLimit: Int64, freeNetUsed: Int64)

  datatype Creation = Creation(fee: Int64, bandwidthFee: Int64, bandwidthRequired: Int64)

  /** Fees whose sum an `int64` can hold. */
  predicate Sound(c: Creation) {
    c.fee >= 0 && c.bandwidthFee >= 0 && c.fee + c.bandwidthFee <= MAX
  }

  datatype Cost = Cost(bandwidthRequired: Int64, bandwidthAvailable: Int64, total: Int64, breakdown: seq<Line>)

  function Left(limit: Int64, used: Int64): (n: Int64)
    ensures n >= 0
  {
    if Wrap(limit - used) > 0 then Wrap(limit - used) else 0
  }

  function Sum(lines: seq<Line>): int {
    if lines == [] then 0 else Sum(lines[..|lines| - 1]) + lines[|lines| - 1].cost
  }

  lemma SumOneMore(lines: seq<Line>, line: Line)
    ensures Sum(lines + [line]) == Sum(lines) + line.cost
    ensures Wrap(Wrap(Sum(lines)) + line.cost) == Wrap(Sum(lines + [line]))
  {
    assert (lines + [line])[..|lines|] == lines;
    WrapAdd(Sum(lines), line.cost);
  }

  /** The burn for what is lacking, with the products and differences of the source. */
  function Burn(required: Int64, available: Int64, price: Int64): Int64 {
    Wrap(Wrap(required - available) * price)
  }

  function EnergyLine(required: Int64, res: Resources, price: Int64): Line {
    var available := Left(res.energyLimit, res.energyUsed);
    if available >= required then Line(Energy, false, 0) else Line(Energy, true, Burn(required, available, price))
  }

  /** Creating an account cannot use free bandwidth, and pays a fixed fee for lacking any. */
  function Available(res: Resources, creation: Option<Creation>): Int64 {
    if creation.Some? then Left(res.netLimit, res.netUsed)
    else Wrap(Left(res.netLimit, res.netUsed) + Left(res.freeNetLimit, res.freeNetUsed))
  }

  function Required(bandwidth: Int64, creation: Option<Creation>): Int64 {
    if creation.Some? then creation.value.bandwidthRequired else bandwidth
  }

  function BandwidthLine(bandwidth: Int64, res: Resources, price: Int64, creation: Option<Creation>): Line {
    if Available(res, creation) >= Required(bandwidth, creation) then Line(Bandwidth, false, 0)
    else if creation.Some? then Line(Bandwidth, true, creation.value.bandwidthFee)
    else Line(Bandwidth, true, Burn(bandwidth, Available(res, None), price))
  }

  /** The cost of creating the recipient's account stays within its two fees, whatever free bandwidth there is. */
  lemma CreationTotal(cost: Cost, bandwidth: Int64, res: Resources, price: Int64, c: Creation)
    requires cost.breakdown == [Line(Activation, true, c.fee), BandwidthLine(bandwidth, res, price, Some(c))]
    requires Sound(c) && cost.total == Wrap(Sum(cost.breakdown))
    ensures cost.total == Sum(cost.breakdown)
    ensures cost.total == c.fee + (if Left(res.netLimit, res.netUsed) >= c.bandwidthRequired then 0 else c.bandwidthFee)
    ensures c.fee <= cost.total <= c.fee + c.bandwidthFee
  {
    SumOneMore([], cost.breakdown[0]);
    SumOneMore([cost.breakdown[0]], cost.breakdown[1]);
    assert [] + [cost.breakdown[0]] == [cost.breakdown[0]];
    assert [cost.breakdown[0]] + [cost.breakdown[1]] == cost.breakdown;
  }

  /** Appends a line and adds what it burns. */
  method Add(options: seq<Line>, total: Int64, line: Line) returns (lines: seq<Line>, sum: Int64)
    requires total == Wrap(Sum(options)) && (!line.burns ==> line.cost == 0)
    ensures lines == options + [line] && sum == Wrap(Sum(lines))
  {
    SumOneMore(options, line);
    lines, sum := options + [line], total;
    if line.burns {
      sum := Wrap(total + line.cost);
    }
  }

  method ChargeBandwidth(bandwidth: Int64, res: Resources, required: Int64, available: Int64, price: Int64,
      creation: Option<Creation>)
    returns (line: Line)
    requires required == Required(bandwidth, creation) && available == Available(res, creation)
    ensures line == BandwidthLine(bandwidth, res, price, creation)
  {
    if available >= required {
      return Line(Bandwidth, false, 0);
    }
    var burnCost := Burn(required, available, price);
    if creation.Some? {
      burnCost := creation.value.bandwidthFee;
    }
    return Line(Bandwidth, true, burnCost);
  }

  function EnergyPart(energy: Option<Line>): seq<Line> {
    if energy.Some? then [energy.value] else []
  }

  function CreationPart(creation: Option<Creation>): seq<Line> {
    if creation.Some? then [Line(Activation, true, creation.value.fee)] else []
  }

  /** The breakdown of the lines that apply, and what it adds up to. */
  method Breakdown(energy: Option<Line>, creation: Option<Creation>, bandwidth: Line)
    returns (options: seq<Line>, total: Int64)
    requires energy.Some? && !energy.value.burns ==> energy.value.cost == 0
    requires !bandwidth.burns ==> bandwidth.cost == 0
    ensures options == EnergyPart(energy) + CreationPart(creation) + [bandwidth]
    ensures total == Wrap(Sum(options))
  {
    options, total := [], 0;
    if energy.Some? {
      options, total := Add(options, total, energy.value);
    }
    assert options == EnergyPart(energy);
    if creation.Some? {
      options, total := Add(options, total, Line(Activation, true, creation.value.fee));
    }
    assert options == EnergyPart(energy) + CreationPart(creation);
    options, total := Add(options, total, bandwidth);
  }

  method BuildCostResult(energyRequired: Int64, bandwidth: Int64, res: Resources, energyPrice: Int64,
      bandwidthPrice: Int64, creation: Option<Creation>)
    returns (r: Cost)
    ensures r.breakdown ==
            EnergyPart(if energyRequired > 0 then Some(EnergyLine(energyRequired, res, energyPrice)) else None)
            + CreationPart(creation) + [BandwidthLine(bandwidth, res, bandwidthPrice, creation)]
    ensures r.total == Wrap(Sum(r.breakdown))
    ensures r.bandwidthRequired == Required(bandwidth, creation) && r.bandwidthAvailable == Available(res, creation)
  {
    var available := Wrap(Left(res.netLimit, res.netUsed) + Left(res.freeNetLimit, res.freeNetUsed));
    var required := bandwidth;
    var energyLine: Option<Line> := None;
    if energyRequired > 0 {
      energyLine := Some(EnergyLine(energyRequired, res, energyPrice));
    }
    if creation.Some? {
      required := creation.value.bandwidthRequired;
      available := Left(res.netLimit, res.netUsed);
    }
    var line := ChargeBandwidth(bandwidth, res, required, available, bandwidthPrice, creation);
    var options, total := Breakdown(energyLine, creation, line);
    return Cost(required, available, total, options);
  }

  // ----- Account creation -----

  const FEE_KEY := "getCreateNewAccountFeeInSystemContract"
  const BANDWIDTH_FEE_KEY := "getCreateAccountFee"
  const RATE_KEY := "getCreateNewAccountBandwidthRate"

  datatype Recipient = Active | NotFound | Unknown

  datatype CostError = RecipientUnknown | ParametersUnavailable | ParameterMissing | BadRate | FeeOverflow

  datatype Parameter = Parameter(key: string, value: Int64)

  /** The last value of a chain parameter. */
  function Latest(params: seq<Parameter>, key: string): Option<Int64> {
    if params == [] then None
    else if params[|params| - 1].key == key then Some(params[|params| - 1].value)
    else Latest(params[..|params| - 1], key)
  }

  predicate Given(params: seq<Parameter>, key: string) {
    Latest(params, key).Some? && Latest(params, key).value >= 0
  }

  /** The guard by division is exact: it refuses exactly the products that overflow. */
  lemma DivisionGuard(bandwidth: nat, rate: nat)
    requires rate >= 1
    ensures bandwidth > MAX / rate <==> bandwidth * rate > MAX
  {
    var q := MAX / rate;
    assert MAX == q * rate + MAX % rate;
    if bandwidth <= q {
      Multiply(bandwidth, q, rate);
    } else {
      Multiply(q + 1, bandwidth, rate);
    }
  }

  lemma Multiply(a: nat, b: nat, c: nat)
    requires a <= b
    ensures a * c <= b * c
  {
  }

  method GetAccountCreationCost(recipient: Recipient, params: Option<seq<Parameter>>, bandwidth: Int64)
    returns (r: Result<Option<Creation>, CostError>)
    ensures recipient.Active? <==> r == Ok(None)
    ensures r.Ok? && r.value.Some? ==> Sound(r.value.value)
    ensures bandwidth >= 0 ==>
              (r.Ok? && r.value.Some? <==>
               && recipient.NotFound? && params.Some?
               && Given(params.value, FEE_KEY) && Given(params.value, BANDWIDTH_FEE_KEY)
               && Given(params.value, RATE_KEY)
               && Latest(params.value, RATE_KEY).value >= 1 && bandwidth * Latest(params.value, RATE_KEY).value <= MAX
               && Latest(params.value, FEE_KEY).value + Latest(params.value, BANDWIDTH_FEE_KEY).value <= MAX)
    ensures bandwidth >= 0 && r.Ok? && r.value.Some? ==>
              && r.value.value.fee == Latest(params.value, FEE_KEY).value
              && r.value.value.bandwidthFee == Latest(params.value, BANDWIDTH_FEE_KEY).value
              && r.value.value.bandwidthRequired as int == bandwidth * Latest(params.value, RATE_KEY).value
  {
    if recipient.Active? {
      return Ok(None);
    }
    if recipient.Unknown? {
      return Err(RecipientUnknown);
    }
    if params.None? {
      return Err(ParametersUnavailable);
    }
    var values: map<string, Int64> := map[];
    for i := 0 to |params.value|
      invariant forall key :: key in values <==> Latest(params.value[..i], key).Some?
      invariant forall key :: key in values ==> Latest(params.value[..i], key) == Some(values[key])
    {
      assert params.value[..i + 1][..i] == params.value[..i];
      values := values[params.value[i].key := params.value[i].value];
    }
    assert params.value[..|params.value|] == params.value;
    var keys := [FEE_KEY, BANDWIDTH_FEE_KEY, RATE_KEY];
    for i := 0 to |keys|
      invariant forall j :: 0 <= j < i ==> Given(params.value, keys[j])
    {
      if keys[i] !in values || values[keys[i]] < 0 {
        assert !Given(params.value, keys[i]);
        return Err(ParameterMissing);
      }
    }
    assert Given(params.value, keys[0]) && Given(params.value, keys[1]) && Given(params.value, keys[2]);
    var rate := values[RATE_KEY];
    if bandwidth >= 0 && rate >= 1 {
      DivisionGuard(bandwidth, rate);
    }
    if rate < 1 || bandwidth > MAX / rate {
      return Err(BadRate);
    }
    var fee, bandwidthFee := values[FEE_KEY], values[BANDWIDTH_FEE_KEY];
    if fee > MAX - bandwidthFee {
      return Err(FeeOverflow);
    }
    return Ok(Some(Creation(fee, bandwidthFee, Wrap(bandwidth * rate))));
  }

  /** The cost of a TRX transfer to an address that may have to be created. */
  method TransferCost(recipient: Recipient, params: Option<seq<Parameter>>, bandwidth: Int64, res: Resources,
      bandwidthPrice: Int64)
    returns (r: Result<Cost, CostError>, creation: Option<Creation>)
    ensures r.Ok? && creation.Some? ==>
              && r.value.total == Sum(r.value.breakdown)
              && creation.value.fee <= r.value.total <= creation.value.fee + creation.value.bandwidthFee <= MAX
              && (Left(res.netLimit, res.netUsed) >= creation.value.bandwidthRequired ==>
                    r.value.total == creation.value.fee)
    ensures r.Ok? && recipient.NotFound? ==> creation.Some?
  {
    var found := GetAccountCreationCost(recipient, params, bandwidth);
    if found.Err? {
      return Err(found.error), None;
    }
    var cost := BuildCostResult(0, bandwidth, res, 0, bandwidthPrice, found.value);
    if found.value.Some? {
      CreationTotal(cost, bandwidth, res, bandwidthPrice, found.value.value);
    }
    return Ok(cost), found.value;
  }
}
