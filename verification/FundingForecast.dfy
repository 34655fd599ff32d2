/** The USDC forecast against the queue it forecasts. */
module FundingForecast {
  import opened FundingQueue
  import opened Ledger
  import opened MapSums
  import opened Money

  datatype AlertLevel = Ok | Warning | Critical

  datatype Forecast = Forecast(
    availableNow: real, pendingNeeds: real, gap: real, fundingNeeded: real, alertLevel: AlertLevel)

  function Total(amounts: seq<real>): real {
    if amounts == [] then 0.0 else amounts[0] + Total(amounts[1..])
  }

  /** Each waiting payout is counted with one USDC for network fees. */
  function Needs(amounts: seq<real>): real {
    if amounts == [] then 0.0 else amounts[0] + 1.0 + Needs(amounts[1..])
  }

  function ForecastOf(balance: real, inFlight: real, amounts: seq<real>, threshold: real): Forecast {
    var availableNow := Max(0.0, balance - inFlight);
    var needs := Needs(amounts);
    var gap := availableNow - needs;
    Forecast(
      availableNow, needs, gap,
      if gap < 0.0 then Fixed2(Abs(gap)) else 0.0,
      if gap < 0.0 then Critical else if availableNow < threshold then Warning else Ok)
  }

  /** The account the forecast reads. */
  function ForecastBalance(w: World, entity: string): real {
    if entity == "SRL" then w.srlChain else w.llcChain
  }

  method GetUSDCForecast(w: World, entity: string, queue: seq<string>, threshold: real) returns (f: Forecast)
    requires forall id :: id in queue ==> id in w.txs
    ensures f == ForecastOf(ForecastBalance(w, entity), InFlightTotal(w.txs, entity), Amounts(w, queue), threshold)
  {
    var inFlight := Aggregate(InFlightAmounts(w.txs, entity));
    f := ForecastOf(ForecastBalance(w, entity), inFlight, Amounts(w, queue), threshold);
  }

  /** The alert: critical exactly when the needs exceed what is available, otherwise a warning exactly when
      less is available than the threshold; funding is asked for exactly when it is critical, and is the
      deficit to the cent. */
  lemma AlertMeaning(balance: real, inFlight: real, amounts: seq<real>, threshold: real)
    ensures var f := ForecastOf(balance, inFlight, amounts, threshold);
            var available := if balance >= inFlight then balance - inFlight else 0.0;
            && f.availableNow == available && f.pendingNeeds == Total(amounts) + |amounts| as real
            && f.gap == available - f.pendingNeeds
            && (f.alertLevel == Critical <==> f.gap < 0.0)
            && (f.alertLevel == Warning <==> f.gap >= 0.0 && available < threshold)
            && (f.gap >= 0.0 ==> f.fundingNeeded == 0.0)
            && (f.gap < 0.0 ==> -0.005 <= f.fundingNeeded - -f.gap <= 0.005)
  {
    NeedsTotal(amounts);
    Round2Near(Abs(Max(0.0, balance - inFlight) - Needs(amounts)));
  }

  // ── What the retry needs ──────────────────────────────────────────────────

  /** Every payout of the queue passes its liquidity check in turn. */
  predicate Releases(mode: Mode, headroom: real, amounts: seq<real>) {
    amounts == [] ||
    (&& (InRange(amounts[0]) ==> headroom >= amounts[0] + 1.0)
     && Releases(mode, headroom - Drop(mode, amounts[0]), amounts[1..]))
  }

  predicate AllInRange(amounts: seq<real>) {
    forall i :: 0 <= i < |amounts| ==> InRange(amounts[i])
  }

  ghost predicate Emptied(w: World, queue: seq<string>, mode: Mode)
    requires forall id :: id in queue ==> id in w.txs
  {
    forall id :: id in queue ==> !Waiting(Retry(w, queue, mode, map[]), id)
  }

  lemma TurnKeepsWaiting(w: World, entity: string, queue: seq<string>, mode: Mode)
    requires AllWaiting(w, entity, queue) && queue != []
    ensures AllWaiting(Turn(w, queue[0], mode, map[]), entity, queue[1..])
    ensures queue[0] !in queue[1..]
  {
    TurnStatus(w, queue[0], mode, map[]);
  }

  lemma EmptiedStep(w: World, entity: string, queue: seq<string>, mode: Mode)
    requires AllWaiting(w, entity, queue) && queue != []
    requires AllWaiting(Turn(w, queue[0], mode, map[]), entity, queue[1..]) && queue[0] !in queue[1..]
    ensures Emptied(w, queue, mode) <==>
              !Turn(w, queue[0], mode, map[]).txs[queue[0]].status.PendingFunding?
              && Emptied(Turn(w, queue[0], mode, map[]), queue[1..], mode)
  {
    var id, rest := queue[0], queue[1..];
    var t := Turn(w, id, mode, map[]);
    assert id in queue;
    if !t.txs[id].status.PendingFunding? {
      var n := RetryIsFifo(t, entity, rest, mode, map[]);
      var r := Retry(t, rest, mode, map[]);
      assert Retry(w, queue, mode, map[]) == r && r.txs[id] == t.txs[id];
      if Emptied(t, rest, mode) {
        forall j | j in queue ensures !Waiting(r, j) {
          assert j == id || j in rest;
        }
      }
    }
  }

  /** One turn without faults: whether the payout is released, and what that takes. */
  lemma TurnOutcome(w: World, id: string, mode: Mode)
    requires Waiting(w, id)
    ensures var t, tx := Turn(w, id, mode, map[]), w.txs[id];
            && (t.txs[id].status.PendingFunding? <==> InRange(tx.amount) && Headroom(w, tx.entity) < tx.amount + 1.0)
            && (!t.txs[id].status.PendingFunding? ==> Headroom(t, tx.entity) == Headroom(w, tx.entity) - Drop(mode, tx.amount))
  {
    TurnStatus(w, id, mode, map[]);
    TurnHeadroom(w, id, mode, map[]);
  }

  lemma AmountsAfterTurn(w: World, entity: string, queue: seq<string>, mode: Mode)
    requires AllWaiting(w, entity, queue) && queue != []
    requires AllWaiting(Turn(w, queue[0], mode, map[]), entity, queue[1..])
    ensures Amounts(w, queue) == [w.txs[queue[0]].amount] + Amounts(Turn(w, queue[0], mode, map[]), queue[1..])
  {
    TurnStatus(w, queue[0], mode, map[]);
  }

  lemma ReleasesStep(w: World, entity: string, queue: seq<string>, mode: Mode)
    requires AllWaiting(w, entity, queue) && queue != []
    requires AllWaiting(Turn(w, queue[0], mode, map[]), entity, queue[1..])
    ensures var t := Turn(w, queue[0], mode, map[]);
            Releases(mode, Headroom(w, entity), Amounts(w, queue)) <==>
              !t.txs[queue[0]].status.PendingFunding? && Releases(mode, Headroom(t, entity), Amounts(t, queue[1..]))
  {
    var t := Turn(w, queue[0], mode, map[]);
    TurnOutcome(w, queue[0], mode);
    AmountsAfterTurn(w, entity, queue, mode);
    ReleasesCons(mode, Headroom(w, entity), Headroom(t, entity), w.txs[queue[0]].amount, Amounts(t, queue[1..]),
                 t.txs[queue[0]].status.PendingFunding?);
  }

  lemma ReleasesCons(mode: Mode, before: real, after: real, amount: real, rest: seq<real>, waits: bool)
    requires waits <==> InRange(amount) && before < amount + 1.0
    requires !waits ==> after == before - Drop(mode, amount)
    ensures Releases(mode, before, [amount] + rest) <==> !waits && Releases(mode, after, rest)
  {
    assert ([amount] + rest)[1..] == rest;
  }

  lemma {:induction false} RetryReleases(w: World, entity: string, queue: seq<string>, mode: Mode)
    requires AllWaiting(w, entity, queue)
    ensures Emptied(w, queue, mode) <==> Releases(mode, Headroom(w, entity), Amounts(w, queue))
    decreases |queue|
  {
    if queue != [] {
      TurnKeepsWaiting(w, entity, queue, mode);
      EmptiedStep(w, entity, queue, mode);
      ReleasesStep(w, entity, queue, mode);
      RetryReleases(Turn(w, queue[0], mode, map[]), entity, queue[1..], mode);
    }
  }

  /** The headroom a queue of valid amounts needs. An operator's send is counted once; the
      backend's own send is counted twice for all but the last. */
  function Required(mode: Mode, amounts: seq<real>): real
    requires amounts != []
  {
    if mode == ManualSend then Total(amounts) + 1.0
    else 2.0 * Total(amounts) - amounts[|amounts| - 1] + 1.0
  }

  lemma {:induction false} RequiredStep(mode: Mode, amounts: seq<real>)
    requires |amounts| >= 2 && AllInRange(amounts)
    ensures Required(mode, amounts) == Drop(mode, amounts[0]) + Required(mode, amounts[1..])
    ensures Required(mode, amounts[1..]) >= 1.0
  {
    TotalBounds(amounts[1..]);
  }

  lemma {:induction false} TotalBounds(amounts: seq<real>)
    requires amounts != [] && AllInRange(amounts)
    ensures Total(amounts) >= HARBOR_MIN_USD * (|amounts| - 1) as real + amounts[|amounts| - 1]
    ensures Total(amounts) >= amounts[|amounts| - 1] >= HARBOR_MIN_USD
  {
    if |amounts| > 1 {
      TotalBounds(amounts[1..]);
      assert HARBOR_MIN_USD * (|amounts| - 1) as real == HARBOR_MIN_USD + HARBOR_MIN_USD * (|amounts| - 2) as real;
    }
  }

  lemma {:induction false} ReleasesExactly(mode: Mode, headroom: real, amounts: seq<real>)
    requires amounts != [] && AllInRange(amounts)
    ensures Releases(mode, headroom, amounts) <==> headroom >= Required(mode, amounts)
    decreases amounts
  {
    if |amounts| == 1 {
      assert Total(amounts[1..]) == 0.0;
    } else {
      RequiredStep(mode, amounts);
      ReleasesExactly(mode, headroom - Drop(mode, amounts[0]), amounts[1..]);
    }
  }

  /** The retry empties a queue of valid amounts exactly when the headroom reaches `Required`. */
  lemma QueueEmptiedExactly(w: World, entity: string, queue: seq<string>, mode: Mode)
    requires AllWaiting(w, entity, queue) && queue != [] && AllInRange(Amounts(w, queue))
    ensures Emptied(w, queue, mode) <==> Headroom(w, entity) >= Required(mode, Amounts(w, queue))
  {
    RetryReleases(w, entity, queue, mode);
    ReleasesExactly(mode, Headroom(w, entity), Amounts(w, queue));
  }

  // ── The forecast ──────────────────────────────────────────────────────────

  lemma {:induction false} NeedsTotal(amounts: seq<real>)
    ensures Needs(amounts) == Total(amounts) + |amounts| as real
  {
    if amounts != [] {
      NeedsTotal(amounts[1..]);
    }
  }

  lemma {:induction false} NeedsSuffice(headroom: real, amounts: seq<real>)
    requires forall i :: 0 <= i < |amounts| ==> amounts[i] >= 0.0
    requires Max(0.0, headroom) >= Needs(amounts)
    ensures Releases(ManualSend, headroom, amounts)
    decreases amounts
  {
    if amounts != [] {
      NeedsNonNegative(amounts[1..]);
      NeedsSuffice(headroom - Drop(ManualSend, amounts[0]), amounts[1..]);
    }
  }

  lemma {:induction false} NeedsNonNegative(amounts: seq<real>)
    requires forall i :: 0 <= i < |amounts| ==> amounts[i] >= 0.0
    ensures Needs(amounts) >= 0.0
  {
    if amounts != [] {
      NeedsNonNegative(amounts[1..]);
    }
  }

  /** A non-negative gap is a promise kept when operators send the USDC. */
  lemma GapKeepsPromise(w: World, queue: seq<string>, threshold: real)
    requires AllWaiting(w, "SRL", queue)
    requires forall id :: id in queue ==> w.txs[id].amount >= 0.0
    requires ForecastOf(ForecastBalance(w, "SRL"), InFlightTotal(w.txs, "SRL"), Amounts(w, queue), threshold).gap >= 0.0
    ensures Emptied(w, queue, ManualSend) && Released(w, queue, ManualSend)
  {
    RetryReleases(w, "SRL", queue, ManualSend);
    NeedsSuffice(Headroom(w, "SRL"), Amounts(w, queue));
    EmptiedIsReleased(w, "SRL", queue, ManualSend);
  }

  /** Every payout of the queue is in flight, but for those Harbor does not take, which have failed. */
  ghost predicate Released(w: World, queue: seq<string>, mode: Mode)
    requires forall id :: id in queue ==> id in w.txs
  {
    var r := Retry(w, queue, mode, map[]);
    forall id :: id in queue ==>
      id in r.txs && if InRange(w.txs[id].amount) then InFlight(r.txs[id].status) else r.txs[id].status.Failed?
  }

  /** Without faults a payout leaves the queue in no other way. */
  lemma {:induction false} LeavesReleased(w: World, entity: string, queue: seq<string>, mode: Mode, id: string)
    requires AllWaiting(w, entity, queue) && id in queue
    ensures var r := Retry(w, queue, mode, map[]);
            && id in r.txs
            && (!Waiting(r, id) ==>
                  if InRange(w.txs[id].amount) then InFlight(r.txs[id].status) else r.txs[id].status.Failed?)
    decreases |queue|
  {
    var head, rest := queue[0], queue[1..];
    var t := Turn(w, head, mode, map[]);
    TurnStatus(w, head, mode, map[]);
    TurnKeepsWaiting(w, entity, queue, mode);
    RetryTurn(w, queue, mode, map[]);
    if !Waiting(t, head) {
      if id == head {
        var n := RetryIsFifo(t, entity, rest, mode, map[]);
      } else {
        LeavesReleased(t, entity, rest, mode, id);
      }
    }
  }

  lemma EmptiedIsReleased(w: World, entity: string, queue: seq<string>, mode: Mode)
    requires AllWaiting(w, entity, queue)
    ensures Emptied(w, queue, mode) <==> Released(w, queue, mode)
  {
    forall id | id in queue
      ensures var r := Retry(w, queue, mode, map[]);
              && id in r.txs
              && (!Waiting(r, id) <==>
                    if InRange(w.txs[id].amount) then InFlight(r.txs[id].status) else r.txs[id].status.Failed?)
    {
      LeavesReleased(w, entity, queue, mode, id);
    }
  }

  /** When the backend sends the USDC itself, a non-negative gap guarantees an emptied queue
      exactly when at most one payout waits. */
  lemma AutoSendPromise(amounts: seq<real>)
    requires AllInRange(amounts)
    ensures |amounts| <= 1 <==>
              forall headroom :: headroom >= Needs(amounts) ==> Releases(AutoSend, headroom, amounts)
  {
    NeedsTotal(amounts);
    if amounts != [] {
      TotalBounds(amounts);
      forall headroom ensures Releases(AutoSend, headroom, amounts) <==> headroom >= Required(AutoSend, amounts) {
        ReleasesExactly(AutoSend, headroom, amounts);
      }
      if |amounts| == 1 {
        assert Total(amounts[1..]) == 0.0;
      } else {
        assert Required(AutoSend, amounts) > Needs(amounts);
        assert !Releases(AutoSend, Needs(amounts), amounts);
      }
    }
  }

  lemma PairTotals(a: real)
    ensures Total([a, a]) == 2.0 * a && Needs([a, a]) == 2.0 * a + 2.0
  {
    assert [a, a][1..] == [a];
    SingleTotals(a);
    assert Total([a, a]) == a + Total([a]) && Needs([a, a]) == a + 1.0 + Needs([a]);
  }

  lemma PairEmptied(w: World, queue: seq<string>)
    requires AllWaiting(w, "SRL", queue) && queue != [] && Amounts(w, queue) == [100.0, 100.0] && Headroom(w, "SRL") == 202.0
    ensures Emptied(w, queue, ManualSend) && !Emptied(w, queue, AutoSend)
  {
    PairTotals(100.0);
    QueueEmptiedExactly(w, "SRL", queue, ManualSend);
    QueueEmptiedExactly(w, "SRL", queue, AutoSend);
  }

  /** A concrete queue the forecast gets wrong: 202 USDC and two payouts of 100. The gap is zero, and only
      an operator's sends empty it. */
  lemma AutoSendCounterexample(w: World, a: string, b: string)
    requires a != b && w.srlChain == 202.0
    requires var p := Payout("SRL", 0, 100.0, PendingFunding); w.txs == map[a := p, b := p]
    ensures var queue := [a, b];
            && IsQueue(w, "SRL", queue)
            && ForecastOf(ForecastBalance(w, "SRL"), InFlightTotal(w.txs, "SRL"), Amounts(w, queue), 200.0).gap == 0.0
            && Emptied(w, queue, ManualSend) && !Emptied(w, queue, AutoSend)
  {
    NoneInFlight(w, "SRL");
    PairTotals(100.0);
    assert Amounts(w, [a, b]) == [100.0, 100.0];
    PairEmptied(w, [a, b]);
  }

  /** Topping the account up with exactly `fundingNeeded` (operators sending): enough whenever two
      or more wait; when one waits, enough exactly when the rounding to cents did not round the
      deficit down, which costs at most half a cent. */
  lemma TopUp(w: World, queue: seq<string>, threshold: real)
    requires AllWaiting(w, "SRL", queue) && queue != [] && AllInRange(Amounts(w, queue))
    requires Headroom(w, "SRL") >= 0.0
    requires ForecastOf(w.srlChain, InFlightTotal(w.txs, "SRL"), Amounts(w, queue), threshold).gap < 0.0
    ensures var f := ForecastOf(w.srlChain, InFlightTotal(w.txs, "SRL"), Amounts(w, queue), threshold);
            && (Emptied(w.(srlChain := w.srlChain + f.fundingNeeded), queue, ManualSend)
                <==> |queue| >= 2 || f.fundingNeeded >= -f.gap)
            && f.fundingNeeded >= -f.gap - 0.005
  {
    var f := ForecastOf(w.srlChain, InFlightTotal(w.txs, "SRL"), Amounts(w, queue), threshold);
    Deficit(w.srlChain, InFlightTotal(w.txs, "SRL"), Amounts(w, queue), threshold);
    TopUpOf(w, queue, f.gap, f.fundingNeeded);
  }

  lemma Deficit(balance: real, inFlight: real, amounts: seq<real>, threshold: real)
    requires balance >= inFlight && ForecastOf(balance, inFlight, amounts, threshold).gap < 0.0
    ensures var f := ForecastOf(balance, inFlight, amounts, threshold);
            f.gap == balance - inFlight - Needs(amounts) && f.fundingNeeded == Fixed2(-f.gap)
  {
  }

  lemma TopUpOf(w: World, queue: seq<string>, gap: real, fundingNeeded: real)
    requires AllWaiting(w, "SRL", queue) && queue != [] && AllInRange(Amounts(w, queue))
    requires gap == Headroom(w, "SRL") - Needs(Amounts(w, queue)) && gap < 0.0 && fundingNeeded == Fixed2(-gap)
    ensures Emptied(w.(srlChain := w.srlChain + fundingNeeded), queue, ManualSend)
            <==> |queue| >= 2 || fundingNeeded >= -gap
    ensures fundingNeeded >= -gap - 0.005
  {
    TopUpArithmetic(Headroom(w, "SRL"), Amounts(w, queue));
    MoreOnChain(w, queue, fundingNeeded);
  }

  lemma MoreOnChain(w: World, queue: seq<string>, amount: real)
    requires AllWaiting(w, "SRL", queue) && queue != [] && AllInRange(Amounts(w, queue))
    ensures Emptied(w.(srlChain := w.srlChain + amount), queue, ManualSend)
            <==> Headroom(w, "SRL") + amount >= Total(Amounts(w, queue)) + 1.0
  {
    var w' := w.(srlChain := w.srlChain + amount);
    assert AllWaiting(w', "SRL", queue);
    assert Amounts(w', queue) == Amounts(w, queue);
    QueueEmptiedExactly(w', "SRL", queue, ManualSend);
  }

  lemma TopUpArithmetic(headroom: real, amounts: seq<real>)
    requires amounts != [] && headroom < Needs(amounts)
    ensures var deficit := Needs(amounts) - headroom;
            && (headroom + Fixed2(deficit) >= Total(amounts) + 1.0 <==> |amounts| >= 2 || Fixed2(deficit) >= deficit)
            && Fixed2(deficit) >= deficit - 0.005
  {
    NeedsTotal(amounts);
    Round2Near(Needs(amounts) - headroom);
  }

  /** For LLC the forecast reads an account the dispatches never look at: no balance of it
      changes what the retry does. */
  lemma {:induction false} LlcBalanceIgnored(w: World, queue: seq<string>, mode: Mode, faults: map<string, Fault>, balance: real)
    requires forall id :: id in queue ==> id in w.txs
    ensures Retry(w.(llcChain := balance), queue, mode, faults) == Retry(w, queue, mode, faults).(llcChain := balance)
    decreases |queue|
  {
    if queue != [] {
      var id, v := queue[0], w.(llcChain := balance);
      if w.txs[id].status != PendingFunding {
        LlcBalanceIgnored(w, queue[1..], mode, faults, balance);
      } else {
        TurnIgnoresLlc(w, id, mode, faults, balance);
        RetryTurn(w, queue, mode, faults);
        RetryTurn(v, queue, mode, faults);
        LlcBalanceIgnored(Turn(w, id, mode, faults), queue[1..], mode, faults, balance);
      }
    }
  }

  /** The exact condition: the LLC forecast keeps its promise, whatever it reads, if and only if the SRL
      account already has what the queue requires. */
  lemma LlcPromiseExactly(w: World, queue: seq<string>, mode: Mode, threshold: real)
    requires AllWaiting(w, "LLC", queue) && queue != [] && AllInRange(Amounts(w, queue))
    ensures (forall balance :: LlcGap(w, queue, threshold, balance) >= 0.0
                               ==> Emptied(w.(llcChain := balance), queue, mode))
            <==> w.srlChain - InFlightTotal(w.txs, "LLC") >= Required(mode, Amounts(w, queue))
  {
    QueueEmptiedExactly(w, "LLC", queue, mode);
    forall balance ensures Emptied(w.(llcChain := balance), queue, mode) <==> Emptied(w, queue, mode) {
      LlcBalanceIgnored(w, queue, mode, map[], balance);
    }
    var enough := InFlightTotal(w.txs, "LLC") + Max(0.0, Needs(Amounts(w, queue)));
    assert LlcGap(w, queue, threshold, enough) >= 0.0;
  }

  /** The gap of the LLC forecast when its own account holds `balance`. */
  ghost function LlcGap(w: World, queue: seq<string>, threshold: real, balance: real): real
    requires forall id :: id in queue ==> id in w.txs
  {
    var v := w.(llcChain := balance);
    ForecastOf(ForecastBalance(v, "LLC"), InFlightTotal(v.txs, "LLC"), Amounts(v, queue), threshold).gap
  }

  /** The failing input: nothing in the SRL account, 1000 USDC in the LLC one, one LLC payout of 100. The
      forecast shows a gap of 899 and the payout keeps waiting. */
  lemma LlcCounterexample(w: World, id: string, threshold: real)
    requires w == World(0.0, 1000.0, map[id := Payout("LLC", 0, 100.0, PendingFunding)])
    ensures IsQueue(w, "LLC", [id])
    ensures LlcGap(w, [id], threshold, w.llcChain) == 899.0
    ensures !Emptied(w, [id], ManualSend) && !Emptied(w, [id], AutoSend)
  {
    NoneInFlight(w, "LLC");
    assert Amounts(w, [id]) == [100.0];
    SingleTotals(100.0);
    QueueEmptiedExactly(w, "LLC", [id], ManualSend);
    QueueEmptiedExactly(w, "LLC", [id], AutoSend);
  }

  lemma SingleTotals(a: real)
    ensures Total([a]) == a && Needs([a]) == a + 1.0
  {
    assert [a][1..] == [];
    assert Total([a]) == a + Total([]) && Needs([a]) == a + 1.0 + Needs([]);
  }

  lemma TurnIgnoresLlc(w: World, id: string, mode: Mode, faults: map<string, Fault>, balance: real)
    requires id in w.txs
    ensures Turn(w.(llcChain := balance), id, mode, faults) == Turn(w, id, mode, faults).(llcChain := balance)
  {
  }
}
