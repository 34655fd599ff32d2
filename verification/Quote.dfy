/** The quote of a corridor for a reference amount: fees, net amount and the amount at destination. */
module Quote {
  import opened Money
  import opened Options

  datatype PayinMethod = Fintoc | Manual | OtherPayin

  /** The fields of a corridor a quote reads; an absent number is zero, an absent tier is tier 0. */
  datatype Corridor = Corridor(
    payinMethod: PayinMethod, ufValue: real, tier: nat, payinFeePercent: real,
    spreadPercent: real, fixedFee: real, retentionPercent: real,
    originCurrency: string, toBolivia: bool, manualExchangeRate: real, payoutFeeFixed: real)

  /** Vita's prices for the destination; `None` where it publishes no finite number. */
  datatype Prices = Prices(clpToDest: Option<real>, clpToUsd: Option<real>, fixedCost: Option<real>)

  datatype Delivery = Delivery(amount: real, rate: real, payoutFee: real)

  // ── Fees ──────────────────────────────────────────────────────────────────

  /** UF per transaction, by volume tier. */
  function TierRate(tier: nat): real {
    if tier == 2 then 0.0115
    else if tier == 3 then 0.0105
    else if tier == 4 then 0.0097
    else if tier == 5 then 0.0090
    else 0.0135
  }

  /** Fintoc's fee is a whole number of pesos that does not depend on the amount. */
  function FintocFee(ufValue: real, tier: nat): real {
    (TierRate(tier) * ufValue + 0.5).Floor as real
  }

  predicate ByFintoc(c: Corridor) {
    c.payinMethod.Fintoc? && c.ufValue != 0.0
  }

  function PayinFee(c: Corridor, amount: real): real {
    if ByFintoc(c) then FintocFee(c.ufValue, c.tier)
    else if c.payinMethod.Manual? then 0.0
    else amount * (c.payinFeePercent / 100.0)
  }

  function Spread(c: Corridor, amount: real): real {
    amount * (c.spreadPercent / 100.0)
  }

  function Retention(c: Corridor, amount: real): real {
    amount * (c.retentionPercent / 100.0)
  }

  function TotalDeducted(c: Corridor, amount: real): real {
    Round2(PayinFee(c, amount) + Spread(c, amount) + c.fixedFee + Retention(c, amount))
  }

  function NetAmount(c: Corridor, amount: real): real {
    Round2(amount - TotalDeducted(c, amount))
  }

  /** The four fees as they are shown next to the total. */
  function ShownParts(c: Corridor, amount: real): real {
    Round2(PayinFee(c, amount)) + Round2(Spread(c, amount)) + Round2(c.fixedFee) + Round2(Retention(c, amount))
  }

  // ── Destination ───────────────────────────────────────────────────────────

  /** `round2(x * 1000000) / 1000000`: eight decimals. */
  function Round8(x: real): real {
    Round2(x * 1000000.0) / 1000000.0
  }

  function PayoutFee(c: Corridor, p: Prices): real {
    if p.fixedCost.Some? && p.fixedCost.value > 0.0 then p.fixedCost.value else c.payoutFeeFixed
  }

  function BobPerUsdc(c: Corridor, bobUsdRate: real): real {
    if c.manualExchangeRate > 0.0 then c.manualExchangeRate else bobUsdRate
  }

  /** Dollars to destination currency, through pesos. */
  function CrossRate(clpToDest: real, clpToUsd: real): (rate: real)
    requires clpToUsd > 0.0
    ensures clpToDest >= 0.0 <==> rate >= 0.0
  {
    clpToDest / clpToUsd
  }

  function Convert(amount: real, rate: real): real {
    amount * rate
  }

  /** Converted at a rate, less the payout fee, in whole cents. */
  function Converted(amount: real, rate: real, fee: real): real {
    Round2(Convert(amount, rate) - fee)
  }

  /** Bolivianos to whole cents of USDC. */
  function Transit(net: real, bobPerUsdc: real): real
    requires bobPerUsdc > 0.0
  {
    Round2(net / bobPerUsdc)
  }

  predicate Positive(x: Option<real>) {
    x.Some? && x.value > 0.0
  }

  /** What arrives for a net amount, and the rate reported with it. */
  function Deliver(c: Corridor, amount: real, p: Prices, bobUsdRate: real): Option<Delivery>
    requires amount != 0.0 && bobUsdRate > 0.0
  {
    var net := NetAmount(c, amount);
    if c.toBolivia && c.originCurrency == "CLP" then
      if !Positive(p.clpToUsd) then None
      else
        var rate := Round8(p.clpToUsd.value * bobUsdRate);
        Some(Delivery(Converted(net, rate, c.payoutFeeFixed), rate, c.payoutFeeFixed))
    else if c.originCurrency == "CLP" then
      if !Positive(p.clpToDest) then None
      else
        var rate, fee := p.clpToDest.value, PayoutFee(c, p);
        Some(Delivery(Converted(net, rate, fee), rate, fee))
    else if c.originCurrency == "BOB" then
      if p.clpToDest.None? || !Positive(p.clpToUsd) then None
      else
        var fee := PayoutFee(c, p);
        var usdc := Transit(net, BobPerUsdc(c, bobUsdRate));
        var dest := Converted(usdc, CrossRate(p.clpToDest.value, p.clpToUsd.value), fee);
        Some(Delivery(dest, Round8(dest / amount), fee))
    else None
  }

  // ── What adds up ──────────────────────────────────────────────────────────

  /** Net and total add up to the amount exactly when the amount is a whole number of cents, and
      otherwise to its rounding. */
  lemma NetPlusTotal(c: Corridor, amount: real)
    ensures NetAmount(c, amount) + TotalDeducted(c, amount) == Round2(amount)
    ensures NetAmount(c, amount) + TotalDeducted(c, amount) == amount <==> WholeCents(amount)
  {
    var total := TotalDeducted(c, amount);
    Round2Whole(PayinFee(c, amount) + Spread(c, amount) + c.fixedFee + Retention(c, amount));
    WholeCentsClosed(0.0, total);
    Round2Shift(amount, -total);
    Round2Whole(amount);
  }

  /** The fees shown one by one differ from the total by at most two cents. */
  lemma ShownPartsNearTotal(c: Corridor, amount: real)
    ensures Abs(ShownParts(c, amount) - TotalDeducted(c, amount)) <= 0.02
  {
    var a, b, d, e := PayinFee(c, amount), Spread(c, amount), c.fixedFee, Retention(c, amount);
    Round2Near(a);
    Round2Near(b);
    Round2Near(d);
    Round2Near(e);
    Round2Near(a + b + d + e);
    var cents := Cents(a) + Cents(b) + Cents(d) + Cents(e) - Cents(a + b + d + e);
    assert ShownParts(c, amount) - TotalDeducted(c, amount) == cents as real / 100.0;
    assert -0.025 < cents as real / 100.0 < 0.025;
    assert -3 < cents < 3;
  }

  /** Two cents do occur: four half cents. */
  lemma ShownPartsExample()
    ensures var c := Corridor(OtherPayin, 0.0, 0, 0.5, 0.5, 0.005, 0.5, "CLP", true, 0.0, 0.0);
            ShownParts(c, 1.0) - TotalDeducted(c, 1.0) == 0.02
  {
    assert Round2(0.005) == 0.01 && Round2(0.02) == 0.02;
  }

  // ── Monotonicity ──────────────────────────────────────────────────────────

  /** The percentages charged on the amount. */
  function PercentFees(c: Corridor): real {
    (if ByFintoc(c) || c.payinMethod.Manual? then 0.0 else c.payinFeePercent) + c.spreadPercent + c.retentionPercent
  }

  function FlatFees(c: Corridor): real {
    c.fixedFee + if ByFintoc(c) then FintocFee(c.ufValue, c.tier) else 0.0
  }

  /** The fees less the amount, before rounding. */
  function Shortfall(c: Corridor, amount: real): real {
    FlatFees(c) - amount * (1.0 - PercentFees(c) / 100.0)
  }

  /** For whole cents the net amount is the rounding of one linear function, up to sign. */
  lemma NetLinear(c: Corridor, amount: real)
    requires WholeCents(amount)
    ensures NetAmount(c, amount) == -Round2(Shortfall(c, amount))
  {
    NetPlusTotal(c, amount);
    var x := PayinFee(c, amount) + Spread(c, amount) + c.fixedFee + Retention(c, amount);
    assert x == FlatFees(c) + amount * (PercentFees(c) / 100.0);
    WholeCentsClosed(0.0, amount);
    Round2Shift(x, -amount);
    assert x - amount == Shortfall(c, amount);
  }

  lemma NetMonotone(c: Corridor, a: real, b: real)
    requires WholeCents(a) && WholeCents(b) && a <= b && PercentFees(c) <= 100.0
    ensures NetAmount(c, a) <= NetAmount(c, b)
  {
    NetLinear(c, a);
    NetLinear(c, b);
    ShortfallFalls(c, a, b);
    Round2Monotone(Shortfall(c, b), Shortfall(c, a));
  }

  lemma ShortfallFalls(c: Corridor, a: real, b: real)
    requires a <= b && PercentFees(c) <= 100.0
    ensures Shortfall(c, b) <= Shortfall(c, a)
  {
    Scale(a, b, 1.0 - PercentFees(c) / 100.0);
  }

  lemma Scale(a: real, b: real, k: real)
    requires a <= b && k >= 0.0
    ensures a * k <= b * k
  {
    assert (b - a) * k >= 0.0;
  }

  /** A larger whole-cent amount never nets less, exactly when the percentages total at most 100. */
  lemma NetMonotoneExactly(c: Corridor)
    ensures (forall a, b :: WholeCents(a) && WholeCents(b) && a <= b ==> NetAmount(c, a) <= NetAmount(c, b))
            <==> PercentFees(c) <= 100.0
  {
    if PercentFees(c) <= 100.0 {
      forall a, b | WholeCents(a) && WholeCents(b) && a <= b ensures NetAmount(c, a) <= NetAmount(c, b) {
        NetMonotone(c, a, b);
      }
    } else {
      NetFalls(c);
    }
  }

  /** Above 100 %, sending enough nets less than sending nothing. */
  lemma NetFalls(c: Corridor)
    requires PercentFees(c) > 100.0
    ensures exists b :: WholeCents(0.0) && WholeCents(b) && 0.0 <= b && NetAmount(c, 0.0) > NetAmount(c, b)
  {
    var b := EnoughToFall(c);
    assert WholeCents(0.0);
    NetLinear(c, 0.0);
    NetLinear(c, b);
    Round2Near(Shortfall(c, 0.0));
    Round2Near(Shortfall(c, b));
    assert NetAmount(c, b) < NetAmount(c, 0.0);
  }

  lemma EnoughToFall(c: Corridor) returns (b: real)
    requires PercentFees(c) > 100.0
    ensures WholeCents(b) && b >= 0.0 && Shortfall(c, b) >= Shortfall(c, 0.0) + 1.0
  {
    var excess := PercentFees(c) / 100.0 - 1.0;
    var n := EnoughTimes(excess);
    b := n as real;
    WholeNumber(n);
    Linear(b, PercentFees(c) / 100.0);
  }

  lemma WholeNumber(n: nat)
    ensures WholeCents(n as real)
  {
    assert n as real * 100.0 == (n * 100) as real;
  }

  lemma EnoughTimes(x: real) returns (n: nat)
    requires x > 0.0
    ensures n as real * x >= 1.0
  {
    n := (1.0 / x).Floor + 1;
    Scale(1.0 / x, n as real, x);
    assert 1.0 / x * x == 1.0;
  }

  lemma Linear(b: real, p: real)
    ensures b * (1.0 - p) == -(b * (p - 1.0))
  {
  }

  /** With fractions of a cent the promise fails: 0.010 nets less than 0.009. */
  lemma SubCentExample()
    ensures var c := Corridor(OtherPayin, 0.0, 0, 0.0, 50.0, 0.0, 0.0, "CLP", true, 0.0, 0.0);
            NetAmount(c, 0.009) == 0.01 && NetAmount(c, 0.010) == 0.0
  {
    HalfSpread(0.009);
    HalfSpread(0.010);
    assert Round2(0.0045) == 0.0 && Round2(0.009) == 0.01 && Round2(0.005) == 0.01;
  }

  lemma HalfSpread(amount: real)
    ensures NetAmount(Corridor(OtherPayin, 0.0, 0, 0.0, 50.0, 0.0, 0.0, "CLP", true, 0.0, 0.0), amount)
            == Round2(amount - Round2(amount * 0.5))
  {
    var c := Corridor(OtherPayin, 0.0, 0, 0.0, 50.0, 0.0, 0.0, "CLP", true, 0.0, 0.0);
    assert PayinFee(c, amount) == 0.0 && Retention(c, amount) == 0.0;
    assert Spread(c, amount) == amount * 0.5;
  }

  // ── Monotonicity on all amounts ───────────────────────────────────────────

  /** The net amount in cents, for an amount of `x` cents, a share `p` and a flat fee of `flat` cents. */
  function NetCents(p: real, flat: real, x: real): int {
    (x + 0.5).Floor - (p * x + flat + 0.5).Floor
  }

  lemma NetIsCents(c: Corridor, amount: real)
    ensures NetAmount(c, amount) == NetCents(PercentFees(c) / 100.0, FlatFees(c) * 100.0, amount * 100.0) as real / 100.0
  {
    NetPlusTotal(c, amount);
    var fees := PayinFee(c, amount) + Spread(c, amount) + c.fixedFee + Retention(c, amount);
    FeesLinear(c, amount);
    assert fees * 100.0 == PercentFees(c) / 100.0 * (amount * 100.0) + FlatFees(c) * 100.0;
    assert TotalDeducted(c, amount) == (fees * 100.0 + 0.5).Floor as real / 100.0;
  }

  lemma FeesLinear(c: Corridor, amount: real)
    ensures PayinFee(c, amount) + Spread(c, amount) + c.fixedFee + Retention(c, amount)
            == FlatFees(c) + amount * (PercentFees(c) / 100.0)
  {
  }

  /** A fee of one part in `n` whose steps fall on the half cents where the amount itself rounds up. */
  predicate StepsAlign(p: real, flat: real, n: nat, j: int) {
    n >= 1 && p * n as real == 1.0 && n as real * (1.0 - 2.0 * flat) == (2 * j + 1) as real
  }

  ghost predicate Aligned(p: real, flat: real) {
    exists n: nat, j: int :: StepsAlign(p, flat, n, j)
  }

  ghost predicate Rising(p: real, flat: real) {
    forall x, y :: x <= y ==> NetCents(p, flat, x) <= NetCents(p, flat, y)
  }

  lemma NoShareRises(p: real, flat: real)
    requires p <= 0.0
    ensures Rising(p, flat)
  {
    forall x, y | x <= y ensures NetCents(p, flat, x) <= NetCents(p, flat, y) {
      ScaleDown(x, y, p);
      assert (x + 0.5).Floor <= (y + 0.5).Floor;
      assert (p * y + flat + 0.5).Floor <= (p * x + flat + 0.5).Floor;
    }
  }

  lemma ScaleDown(x: real, y: real, p: real)
    requires x <= y && p <= 0.0
    ensures p * y <= p * x
  {
    assert (y - x) * -p >= 0.0;
  }

  /** With aligned steps the fee depends on the rounded amount only. */
  lemma AlignedFee(p: real, flat: real, n: nat, j: int, x: real)
    requires StepsAlign(p, flat, n, j)
    ensures (p * x + flat + 0.5).Floor == ((x + 0.5).Floor + n - j - 1) / n
  {
    var m, q := (x + 0.5).Floor, n - j - 1;
    var k := (m + q) / n;
    DivBounds(m + q, n);
    var z := p * x + flat + 0.5;
    assert z * n as real == x + 0.5 + q as real by {
      assert z * n as real == (p * n as real) * x + flat * n as real + 0.5 * n as real;
    }
    assert (k * n) as real <= z * n as real < ((k + 1) * n) as real;
    BetweenMultiples(z, k, n);
  }

  lemma DivBounds(a: int, n: nat)
    requires n >= 1
    ensures a / n * n <= a <= (a / n + 1) * n - 1
  {
  }

  lemma BetweenMultiples(z: real, k: int, n: nat)
    requires n >= 1 && (k * n) as real <= z * n as real < ((k + 1) * n) as real
    ensures z.Floor == k
  {
    var r := n as real;
    assert (k * n) as real == k as real * r && ((k + 1) * n) as real == (k as real + 1.0) * r;
    if z < k as real {
      Less(z, k as real, r);
    }
    if z >= k as real + 1.0 {
      Scale(k as real + 1.0, z, r);
    }
  }

  lemma Less(a: real, b: real, r: real)
    requires a < b && r > 0.0
    ensures a * r < b * r
  {
    assert (b - a) * r > 0.0;
  }

  lemma DivSlope(a: int, b: int, n: nat)
    requires a <= b && n >= 1
    ensures b / n - a / n <= b - a
  {
    var d, k := b - a, a / n;
    DivBounds(a, n);
    DivBounds(b, n);
    assert d * n == d + d * (n - 1) && d * (n - 1) >= 0;
    assert (k + 1 + d) * n == (k + 1) * n + d * n;
    Cancel(b / n, k + 1 + d, n);
  }

  lemma Cancel(u: int, v: int, n: nat)
    requires u * n < v * n
    ensures u < v
  {
  }

  lemma AlignedRises(p: real, flat: real, n: nat, j: int)
    requires StepsAlign(p, flat, n, j)
    ensures Rising(p, flat)
  {
    forall x, y | x <= y ensures NetCents(p, flat, x) <= NetCents(p, flat, y) {
      AlignedFee(p, flat, n, j, x);
      AlignedFee(p, flat, n, j, y);
      DivSlope((x + 0.5).Floor + n - j - 1, (y + 0.5).Floor + n - j - 1, n);
    }
  }

  /** The amount at which the fee steps up to `k + 1` cents. */
  function Jump(p: real, flat: real, k: int): real
    requires p > 0.0
  {
    (k as real + 0.5 - flat) / p
  }

  /** A step of the fee away from the rounding steps of the amount makes the net fall. */
  lemma OffStepFalls(p: real, flat: real, k: int) returns (y: real)
    requires p > 0.0 && Jump(p, flat, k) + 0.5 != (Jump(p, flat, k) + 0.5).Floor as real
    ensures y <= Jump(p, flat, k) && NetCents(p, flat, y) > NetCents(p, flat, Jump(p, flat, k))
  {
    var x := Jump(p, flat, k);
    var m := (x + 0.5).Floor;
    y := m as real - 0.5;
    assert p * x == k as real + 0.5 - flat;
    assert (p * x + flat + 0.5).Floor == k + 1;
    Less(y, x, p);
    assert p * y + flat + 0.5 < (k + 1) as real;
    assert (p * y + flat + 0.5).Floor <= k && (y + 0.5).Floor == m;
  }

  lemma JumpMeetsRounding(p: real, flat: real, k: int)
    requires p > 0.0 && Rising(p, flat)
    ensures Jump(p, flat, k) + 0.5 == (Jump(p, flat, k) + 0.5).Floor as real
  {
    if Jump(p, flat, k) + 0.5 != (Jump(p, flat, k) + 0.5).Floor as real {
      var y := OffStepFalls(p, flat, k);
    }
  }

  lemma RisingAligns(p: real, flat: real) returns (n: nat, j: int)
    requires p > 0.0 && Rising(p, flat)
    ensures StepsAlign(p, flat, n, j)
  {
    JumpMeetsRounding(p, flat, 0);
    JumpMeetsRounding(p, flat, 1);
    var a, b := (Jump(p, flat, 0) + 0.5).Floor, (Jump(p, flat, 1) + 0.5).Floor;
    var d := b - a;
    assert d as real == Jump(p, flat, 1) - Jump(p, flat, 0) == 1.0 / p by { JumpGap(p, flat); }
    assert 1.0 / p > 0.0 && p * (1.0 / p) == 1.0;
    n, j := d, a - 1;
    assert a as real == (0.5 - flat) * n as real + 0.5 by { JumpAt(p, flat, n); }
  }

  lemma JumpGap(p: real, flat: real)
    requires p > 0.0
    ensures Jump(p, flat, 1) - Jump(p, flat, 0) == 1.0 / p
  {
    assert (1.5 - flat) / p - (0.5 - flat) / p == 1.0 / p;
  }

  lemma JumpAt(p: real, flat: real, n: nat)
    requires p > 0.0 && n as real == 1.0 / p
    ensures Jump(p, flat, 0) == (0.5 - flat) * n as real
  {
    assert (0.5 - flat) / p == (0.5 - flat) * (1.0 / p);
  }

  /** The exact condition on all amounts, fractions of a cent included: a larger amount never nets less if
      and only if there is no percentage, or it is one part in a whole number whose fee steps fall on the
      half cents. Twenty percent without a flat fee qualifies; fifty percent does not. */
  lemma NetMonotoneEverywhereExactly(c: Corridor)
    ensures (forall a, b :: a <= b ==> NetAmount(c, a) <= NetAmount(c, b)) <==>
              PercentFees(c) <= 0.0 || Aligned(PercentFees(c) / 100.0, FlatFees(c) * 100.0)
  {
    var p, flat := PercentFees(c) / 100.0, FlatFees(c) * 100.0;
    RisingIsMonotone(c);
    if PercentFees(c) <= 0.0 {
      NoShareRises(p, flat);
    } else {
      if n: nat, j: int :| StepsAlign(p, flat, n, j) {
        AlignedRises(p, flat, n, j);
      }
      if Rising(p, flat) {
        var n, j := RisingAligns(p, flat);
      }
    }
  }

  lemma AlignedExamples()
    ensures Aligned(0.2, 0.0) && !Aligned(0.5, 0.0)
  {
    assert StepsAlign(0.2, 0.0, 5, 2);
    forall n: nat, j: int | 0.5 * n as real == 1.0 ensures !StepsAlign(0.5, 0.0, n, j) {
      assert n == 2;
    }
  }

  lemma RisingIsMonotone(c: Corridor)
    ensures Rising(PercentFees(c) / 100.0, FlatFees(c) * 100.0)
            <==> forall a, b :: a <= b ==> NetAmount(c, a) <= NetAmount(c, b)
  {
    var p, flat := PercentFees(c) / 100.0, FlatFees(c) * 100.0;
    if Rising(p, flat) {
      forall a, b | a <= b ensures NetAmount(c, a) <= NetAmount(c, b) {
        NetIsCents(c, a);
        NetIsCents(c, b);
        assert NetCents(p, flat, a * 100.0) <= NetCents(p, flat, b * 100.0);
      }
    }
    if forall a, b :: a <= b ==> NetAmount(c, a) <= NetAmount(c, b) {
      forall x, y | x <= y ensures NetCents(p, flat, x) <= NetCents(p, flat, y) {
        NetIsCents(c, x / 100.0);
        NetIsCents(c, y / 100.0);
        assert NetAmount(c, x / 100.0) <= NetAmount(c, y / 100.0);
        assert x / 100.0 * 100.0 == x && y / 100.0 * 100.0 == y;
      }
    }
  }

  /** A larger whole-cent amount never delivers less, at prices that are not negative. */
  lemma DeliveryMonotone(c: Corridor, a: real, b: real, p: Prices, bobUsdRate: real)
    requires WholeCents(a) && WholeCents(b) && a <= b && a != 0.0 && b != 0.0 && bobUsdRate > 0.0
    requires PercentFees(c) <= 100.0
    requires p.clpToDest.Some? ==> p.clpToDest.value >= 0.0
    ensures var x, y := Deliver(c, a, p, bobUsdRate), Deliver(c, b, p, bobUsdRate);
            (x.Some? <==> y.Some?) && (x.Some? ==> x.value.amount <= y.value.amount)
  {
    NetMonotone(c, a, b);
    if c.originCurrency == "BOB" {
      BobMonotone(c, a, b, p, bobUsdRate);
    } else if c.originCurrency == "CLP" {
      ClpMonotone(c, a, b, p, bobUsdRate);
    }
  }

  lemma ClpMonotone(c: Corridor, a: real, b: real, p: Prices, bobUsdRate: real)
    requires NetAmount(c, a) <= NetAmount(c, b) && a != 0.0 && b != 0.0 && bobUsdRate > 0.0
    requires c.originCurrency == "CLP"
    ensures var x, y := Deliver(c, a, p, bobUsdRate), Deliver(c, b, p, bobUsdRate);
            (x.Some? <==> y.Some?) && (x.Some? ==> x.value.amount <= y.value.amount)
  {
    if c.toBolivia && Positive(p.clpToUsd) {
      CompositeRate(p.clpToUsd.value, bobUsdRate);
    }
    var x, y := Deliver(c, a, p, bobUsdRate), Deliver(c, b, p, bobUsdRate);
    if x.Some? {
      ConvertMonotone(NetAmount(c, a), NetAmount(c, b), x.value.rate, x.value.payoutFee);
    }
  }

  lemma BobMonotone(c: Corridor, a: real, b: real, p: Prices, bobUsdRate: real)
    requires NetAmount(c, a) <= NetAmount(c, b) && a != 0.0 && b != 0.0 && bobUsdRate > 0.0
    requires c.originCurrency == "BOB" && (p.clpToDest.Some? ==> p.clpToDest.value >= 0.0)
    ensures var x, y := Deliver(c, a, p, bobUsdRate), Deliver(c, b, p, bobUsdRate);
            (x.Some? <==> y.Some?) && (x.Some? ==> x.value.amount <= y.value.amount)
  {
    if p.clpToDest.Some? && Positive(p.clpToUsd) {
      var bob := BobPerUsdc(c, bobUsdRate);
      TransitMonotone(NetAmount(c, a), NetAmount(c, b), bob);
      ConvertMonotone(Transit(NetAmount(c, a), bob), Transit(NetAmount(c, b), bob),
                      CrossRate(p.clpToDest.value, p.clpToUsd.value), PayoutFee(c, p));
    }
  }

  lemma CompositeRate(clpToUsd: real, bobUsdRate: real)
    requires clpToUsd > 0.0 && bobUsdRate > 0.0
    ensures Round8(clpToUsd * bobUsdRate) >= 0.0
  {
    Scale(0.0, clpToUsd, bobUsdRate);
    Round2Monotone(0.0, clpToUsd * bobUsdRate * 1000000.0);
    assert Round2(0.0) == 0.0;
  }

  lemma TransitMonotone(m: real, n: real, bobPerUsdc: real)
    requires m <= n && bobPerUsdc > 0.0
    ensures Transit(m, bobPerUsdc) <= Transit(n, bobPerUsdc)
  {
    assert m / bobPerUsdc <= n / bobPerUsdc;
    Round2Monotone(m / bobPerUsdc, n / bobPerUsdc);
  }

  lemma ConvertMonotone(m: real, n: real, rate: real, fee: real)
    requires m <= n && rate >= 0.0
    ensures Converted(m, rate, fee) <= Converted(n, rate, fee)
  {
    ScaleConvert(m, n, rate);
    Round2Monotone(Convert(m, rate) - fee, Convert(n, rate) - fee);
  }

  // ── Rounding error ────────────────────────────────────────────────────────

  /** Through bolivianos the two roundings cost at most half a cent of USDC, converted, and half a
      cent at destination; the rate reported reproduces the delivery to within 5e-9 of the amount. */
  lemma BobDeliveryError(c: Corridor, amount: real, p: Prices, bobUsdRate: real)
    requires amount != 0.0 && bobUsdRate > 0.0 && c.originCurrency == "BOB"
    requires p.clpToDest.Some? && p.clpToDest.value >= 0.0 && Positive(p.clpToUsd)
    ensures var rate := CrossRate(p.clpToDest.value, p.clpToUsd.value);
            var exact := Convert(NetAmount(c, amount) / BobPerUsdc(c, bobUsdRate), rate) - PayoutFee(c, p);
            var d := Deliver(c, amount, p, bobUsdRate);
            && d.Some? && Abs(d.value.amount - exact) <= 0.005 * (rate + 1.0)
            && Abs(d.value.rate - d.value.amount / amount) <= 0.000000005
  {
    TransitError(NetAmount(c, amount), BobPerUsdc(c, bobUsdRate), CrossRate(p.clpToDest.value, p.clpToUsd.value), PayoutFee(c, p));
    Round8Near(Deliver(c, amount, p, bobUsdRate).value.amount / amount);
  }

  lemma TransitError(net: real, bobPerUsdc: real, rate: real, fee: real)
    requires bobPerUsdc > 0.0 && rate >= 0.0
    ensures Abs(Converted(Transit(net, bobPerUsdc), rate, fee) - (Convert(net / bobPerUsdc, rate) - fee)) <= 0.005 * (rate + 1.0)
  {
    Round2Near(net / bobPerUsdc);
    ConvertedError(Transit(net, bobPerUsdc), net / bobPerUsdc, rate, fee);
  }

  lemma ConvertedError(x: real, y: real, rate: real, fee: real)
    requires -0.005 <= x - y <= 0.005 && rate >= 0.0
    ensures Abs(Converted(x, rate, fee) - (Convert(y, rate) - fee)) <= 0.005 * (rate + 1.0)
  {
    ScaleBound(x, y, rate);
    ScaleBound(y, x, rate);
    Round2Near(Convert(x, rate) - fee);
  }

  lemma Round8Near(x: real)
    ensures Abs(Round8(x) - x) <= 0.000000005
  {
    Round2Near(x * 1000000.0);
  }

  lemma ScaleBound(x: real, y: real, rate: real)
    requires x - y <= 0.005 && rate >= 0.0
    ensures Convert(x, rate) - Convert(y, rate) <= 0.005 * rate
  {
    Distribute(x, y, rate);
    ScaleConvert(x - y, 0.005, rate);
  }

  lemma Distribute(x: real, y: real, rate: real)
    ensures Convert(x, rate) - Convert(y, rate) == Convert(x - y, rate)
  {
  }

  lemma ScaleConvert(x: real, y: real, rate: real)
    requires x <= y && rate >= 0.0
    ensures Convert(x, rate) <= Convert(y, rate)
  {
    Scale(x, y, rate);
  }

  /** From pesos there is one rounding, after the conversion at the reported rate. */
  lemma ClpDeliveryError(c: Corridor, amount: real, p: Prices, bobUsdRate: real)
    requires amount != 0.0 && bobUsdRate > 0.0 && c.originCurrency == "CLP"
    ensures var d := Deliver(c, amount, p, bobUsdRate);
            && (d.Some? <==> Positive(if c.toBolivia then p.clpToUsd else p.clpToDest))
            && (d.Some? ==> Abs(d.value.amount - (Convert(NetAmount(c, amount), d.value.rate) - d.value.payoutFee)) <= 0.005)
            && (d.Some? && c.toBolivia ==> Abs(d.value.rate - p.clpToUsd.value * bobUsdRate) <= 0.000000005)
            && (d.Some? && !c.toBolivia ==> d.value.rate == p.clpToDest.value)
  {
    var d := Deliver(c, amount, p, bobUsdRate);
    if d.Some? {
      Round2Near(Convert(NetAmount(c, amount), d.value.rate) - d.value.payoutFee);
      if c.toBolivia {
        Round8Near(p.clpToUsd.value * bobUsdRate);
      }
    }
  }

  // ── The quote in plain arithmetic ─────────────────────────────────────────

  /** Fintoc's fee: the tier's share of the UF, to the nearest peso; an unknown tier pays as the first. */
  lemma FintocFeeMeaning(ufValue: real, tier: nat)
    ensures var uf := ufValue * if tier == 2 then 0.0115 else if tier == 3 then 0.0105 else if tier == 4 then 0.0097
                                else if tier == 5 then 0.0090 else 0.0135;
            -0.5 <= FintocFee(ufValue, tier) - uf <= 0.5 && FintocFee(ufValue, tier) == FintocFee(ufValue, tier).Floor as real
  {
  }

  /** What is deducted, to half a cent: the payin fee of the method, both percentages and the fixed fee; and
      the net is what remains. */
  lemma DeductionMeaning(c: Corridor, amount: real)
    ensures var payin := if c.payinMethod == Fintoc && c.ufValue != 0.0 then FintocFee(c.ufValue, c.tier)
                         else if c.payinMethod == Manual then 0.0
                         else amount * c.payinFeePercent / 100.0;
            var fees := payin + amount * c.spreadPercent / 100.0 + c.fixedFee + amount * c.retentionPercent / 100.0;
            && -0.005 <= TotalDeducted(c, amount) - fees <= 0.005 && WholeCents(TotalDeducted(c, amount))
            && -0.005 <= NetAmount(c, amount) - (amount - TotalDeducted(c, amount)) <= 0.005
  {
    var fees := PayinFee(c, amount) + Spread(c, amount) + c.fixedFee + Retention(c, amount);
    Round2Near(fees);
    Round2Whole(fees);
    Round2Near(amount - TotalDeducted(c, amount));
  }

  /** The payout fee: the provider's cost where it publishes a positive one, else the corridor's own. */
  lemma DeliveryFee(c: Corridor, amount: real, p: Prices, bobUsdRate: real)
    requires amount != 0.0 && bobUsdRate > 0.0 && Deliver(c, amount, p, bobUsdRate).Some?
    ensures Deliver(c, amount, p, bobUsdRate).value.payoutFee ==
              if c.originCurrency == "CLP" && c.toBolivia then c.payoutFeeFixed
              else if p.fixedCost.Some? && p.fixedCost.value > 0.0 then p.fixedCost.value
              else c.payoutFeeFixed
  {
  }

  /** When there is a delivery at all. */
  lemma DeliveryExists(c: Corridor, amount: real, p: Prices, bobUsdRate: real)
    requires amount != 0.0 && bobUsdRate > 0.0
    ensures Deliver(c, amount, p, bobUsdRate).Some? <==>
              || (c.originCurrency == "CLP" && c.toBolivia && p.clpToUsd.Some? && p.clpToUsd.value > 0.0)
              || (c.originCurrency == "CLP" && !c.toBolivia && p.clpToDest.Some? && p.clpToDest.value > 0.0)
              || (c.originCurrency == "BOB" && p.clpToDest.Some? && p.clpToUsd.Some? && p.clpToUsd.value > 0.0)
  {
  }

  /** From bolivianos: the net amount over the administrator's rate, or the market's without one, times the
      destination price in pesos over the dollar price in pesos, less the payout fee. */
  lemma BobDeliveryMeaning(c: Corridor, amount: real, p: Prices, bobUsdRate: real)
    requires amount != 0.0 && bobUsdRate > 0.0 && c.originCurrency == "BOB"
    requires p.clpToDest.Some? && p.clpToDest.value >= 0.0 && p.clpToUsd.Some? && p.clpToUsd.value > 0.0
    ensures var bob := if c.manualExchangeRate > 0.0 then c.manualExchangeRate else bobUsdRate;
            var rate := p.clpToDest.value / p.clpToUsd.value;
            var d := Deliver(c, amount, p, bobUsdRate);
            && d.Some?
            && Abs(d.value.amount - ((NetAmount(c, amount) / bob) * rate - d.value.payoutFee)) <= 0.005 * (rate + 1.0)
  {
    BobDeliveryError(c, amount, p, bobUsdRate);
    Product(NetAmount(c, amount) / BobPerUsdc(c, bobUsdRate), CrossRate(p.clpToDest.value, p.clpToUsd.value));
  }

  lemma Product(x: real, y: real)
    ensures Convert(x, y) == x * y
  {
  }

  /** From pesos: the net amount at the reported rate less the payout fee, to half a cent; the rate is the
      provider's, or to Bolivia the dollar price times the boliviano rate to eight decimals. */
  lemma ClpDeliveryMeaning(c: Corridor, amount: real, p: Prices, bobUsdRate: real)
    requires amount != 0.0 && bobUsdRate > 0.0 && c.originCurrency == "CLP"
    requires Deliver(c, amount, p, bobUsdRate).Some?
    ensures var d := Deliver(c, amount, p, bobUsdRate).value;
            Abs(d.amount - (NetAmount(c, amount) * d.rate - d.payoutFee)) <= 0.005
  {
    ClpDeliveryError(c, amount, p, bobUsdRate);
    Product(NetAmount(c, amount), Deliver(c, amount, p, bobUsdRate).value.rate);
  }
}
