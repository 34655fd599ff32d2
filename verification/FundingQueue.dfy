/** Payouts waiting for USDC: the FIFO retry, the liquidity check each dispatch makes, and the
    forecast that is meant to predict whether the retry empties the queue. */
module FundingQueue {
  import opened Ledger
  import opened MapSums
  import opened Money

  const HARBOR_MIN_USD := 31.0
  const HARBOR_MAX_USD := 9998.0

  /** OWLPAY_USDC_SEND_ENABLED: the backend sends the USDC itself, or an operator does later. */
  datatype Mode = AutoSend | ManualSend

  /** A transaction as the queue sees it; `amount` is its digitalAssetAmount. */
  datatype Payout = Payout(entity: string, createdAt: int, amount: real, status: Status)

  /** The USDC on chain in the two treasury accounts, and the transactions. */
  datatype World = World(srlChain: real, llcChain: real, txs: map<string, Payout>)

  /** Ways a dispatch can go other than by the liquidity check. */
  datatype Fault =
    | Throws                    // the gate itself fails: the transaction stays re-armed
    | EndsIn(status: Status)    // missing corridor, drift guard or provider failure, nothing sent
    | Resend(found: bool)       // a transfer was created before; `found`: the ledger query shows its memo

  predicate InFlight(s: Status) {
    s.PayoutPendingUsdcSend? || s.PayoutInTransit? || s.PayoutSent?
  }

  function InFlightAmounts(txs: map<string, Payout>, entity: string): map<string, real> {
    map id | id in txs && txs[id].entity == entity && InFlight(txs[id].status) :: txs[id].amount
  }

  ghost function InFlightTotal(txs: map<string, Payout>, entity: string): real {
    Sum(InFlightAmounts(txs, entity))
  }

  predicate InRange(amount: real) {
    HARBOR_MIN_USD <= amount <= HARBOR_MAX_USD
  }

  /** On-chain balance of the SRL account less what is in flight: every dispatch reads this. */
  ghost function Headroom(w: World, entity: string): real {
    w.srlChain - InFlightTotal(w.txs, entity)
  }

  function SetStatus(w: World, id: string, s: Status): World
    requires id in w.txs
  {
    w.(txs := w.txs[id := w.txs[id].(status := s)])
  }

  /** Where the retried send of an earlier transfer ends: no range check, no deduction of what is in
      flight, and nothing at all when an operator is to send. */
  function ResendVerdict(w: World, amount: real, mode: Mode, found: bool): Status {
    if mode == ManualSend then Processing
    else if !found && w.srlChain < amount + 1.0 then Failed
    else PayoutSent
  }

  /** Where a dispatch that passed the gate leaves the transaction. */
  ghost function Verdict(w: World, id: string, mode: Mode, faults: map<string, Fault>): Status
    requires id in w.txs && !(id in faults && faults[id].Throws?)
  {
    var tx := w.txs[id];
    if id in faults then
      if faults[id].EndsIn? then faults[id].status else ResendVerdict(w, tx.amount, mode, faults[id].found)
    else if !InRange(tx.amount) then Failed
    else if Max(0.0, Headroom(w, tx.entity)) < tx.amount + 1.0 then PendingFunding
    else if mode == AutoSend then PayoutSent
    else PayoutPendingUsdcSend
  }

  /** A payout that goes out takes its amount from the chain: the backend's own send, unless the ledger
      shows it was made before. */
  predicate LeavesChain(mode: Mode, faults: map<string, Fault>, id: string) {
    mode == AutoSend && (id in faults ==> faults[id] == Resend(false))
  }

  /** The gate lets one caller through, out of payin_confirmed; then amount range, liquidity,
      transfer, and the send. */
  ghost function Dispatch(w: World, id: string, mode: Mode, faults: map<string, Fault>): World
    requires id in w.txs
  {
    if w.txs[id].status != PayinConfirmed || (id in faults && faults[id].Throws?) then w
    else
      var s := Verdict(w, id, mode, faults);
      var spent := if LeavesChain(mode, faults, id) && s == PayoutSent then w.txs[id].amount else 0.0;
      SetStatus(w, id, s).(srlChain := w.srlChain - spent)
  }

  /** What `find({ status: 'pending_funding' }).sort({ createdAt: 1 })` returns. */
  ghost predicate IsQueue(w: World, entity: string, queue: seq<string>) {
    && (forall i :: 0 <= i < |queue| ==> queue[i] in w.txs)
    && (forall i, j :: 0 <= i < j < |queue| ==> queue[i] != queue[j] && w.txs[queue[i]].createdAt <= w.txs[queue[j]].createdAt)
    && (forall id :: id in queue <==> id in w.txs && w.txs[id].entity == entity && w.txs[id].status == PendingFunding)
  }

  /** Faulty dispatches never leave the transaction waiting again. */
  predicate FaultsOk(faults: map<string, Fault>) {
    forall id :: id in faults && faults[id].EndsIn? ==> faults[id].status in {Processing, PendingFxReview, Failed}
  }

  /** The retry over the rest of the queue. */
  ghost function Retry(w: World, queue: seq<string>, mode: Mode, faults: map<string, Fault>): World
    requires forall id :: id in queue ==> id in w.txs
    decreases |queue|
  {
    if queue == [] then w
    else
      var id := queue[0];
      if w.txs[id].status != PendingFunding then Retry(w, queue[1..], mode, faults)
      else
        var armed := SetStatus(w, id, PayinConfirmed);
        if id in faults && faults[id].Throws? then armed
        else
          var done := Dispatch(armed, id, mode, faults);
          if done.txs[id].status == PendingFunding then done
          else Retry(done, queue[1..], mode, faults)
  }

  class FundingDesk {
    var world: World

    constructor (w: World)
      ensures world == w
    {
      world := w;
    }

    method DispatchPayout(id: string, mode: Mode, faults: map<string, Fault>) returns (threw: bool)
      requires id in world.txs
      modifies this
      ensures threw <==> id in faults && faults[id].Throws?
      ensures world == Dispatch(old(world), id, mode, faults)
    {
      if id in faults && faults[id].Throws? {
        return true;
      }
      threw := false;
      if world.txs[id].status != PayinConfirmed {
        return;
      }
      var tx := world.txs[id];
      SameInFlight(world, id, Processing);
      SetStatusTwice(world, id, Processing);
      world := SetStatus(world, id, Processing);
      if id in faults && faults[id].EndsIn? {
        world := SetStatus(world, id, faults[id].status);
      } else if id in faults {
        Resubmit(id, mode, faults[id].found);
      } else if tx.amount < HARBOR_MIN_USD || tx.amount > HARBOR_MAX_USD {
        world := SetStatus(world, id, Failed);
      } else {
        var inFlight := Aggregate(InFlightAmounts(world.txs, tx.entity));
        var usdcBalance := Max(0.0, world.srlChain - inFlight);
        var needed := tx.amount + 1.0;
        if usdcBalance < needed {
          world := SetStatus(world, id, PendingFunding);
        } else {
          SetStatusTwice(world, id, PayoutPendingUsdcSend);
          world := SetStatus(world, id, PayoutPendingUsdcSend);
          if mode == AutoSend {
            world := SetStatus(world, id, PayoutSent).(srlChain := world.srlChain - tx.amount);
          }
        }
      }
    }

    /** The branch for a transfer created by an earlier dispatch: only the send is retried. */
    method Resubmit(id: string, mode: Mode, found: bool)
      requires id in world.txs && world.txs[id].status == Processing
      modifies this
      ensures var w := old(world);
              var s := ResendVerdict(w, w.txs[id].amount, mode, found);
              world == SetStatus(w, id, s).(
                srlChain := w.srlChain - if s == PayoutSent && !found then w.txs[id].amount else 0.0)
    {
      assert SetStatus(world, id, Processing) == world;
      if mode == ManualSend {
        return;
      }
      var tx := world.txs[id];
      if found {
        world := SetStatus(world, id, PayoutSent);
        return;
      }
      var needed := tx.amount + 1.0;
      if world.srlChain < needed {
        world := SetStatus(world, id, Failed);
        return;
      }
      world := SetStatus(world, id, PayoutSent).(srlChain := world.srlChain - tx.amount);
    }

    method RetryPendingFunding(queue: seq<string>, mode: Mode, faults: map<string, Fault>)
      requires forall id :: id in queue ==> id in world.txs
      modifies this
      ensures world == Retry(old(world), queue, mode, faults)
    {
      var n := 0;
      while n < |queue|
        invariant n <= |queue|
        invariant forall id :: id in queue ==> id in world.txs
        invariant Retry(old(world), queue, mode, faults) == Retry(world, queue[n..], mode, faults)
      {
        var id := queue[n];
        assert queue[n..][0] == id && queue[n..][1..] == queue[n + 1..];
        n := n + 1;
        if world.txs[id].status != PendingFunding {
          continue;  // another process took it
        }
        world := SetStatus(world, id, PayinConfirmed);
        var threw := DispatchPayout(id, mode, faults);
        if threw {
          break;
        }
        if world.txs[id].status == PendingFunding {
          break;
        }
      }
    }
  }

  // ── First in, first out ───────────────────────────────────────────────────

  predicate Waiting(w: World, id: string) {
    id in w.txs && w.txs[id].status == PendingFunding
  }

  lemma SetStatusTwice(w: World, id: string, s: Status)
    requires id in w.txs
    ensures forall s': Status :: SetStatus(SetStatus(w, id, s), id, s') == SetStatus(w, id, s')
  {
  }

  /** A status outside the in-flight ones, set on a transaction that is not in flight, leaves
      the in-flight sum alone. */
  lemma SameInFlight(w: World, id: string, s: Status)
    requires id in w.txs && !InFlight(w.txs[id].status) && !InFlight(s)
    ensures forall entity :: InFlightAmounts(SetStatus(w, id, s).txs, entity) == InFlightAmounts(w.txs, entity)
  {
  }

  /** One turn of the loop: re-arm, then dispatch. */
  ghost function Turn(w: World, id: string, mode: Mode, faults: map<string, Fault>): World
    requires id in w.txs
  {
    Dispatch(SetStatus(w, id, PayinConfirmed), id, mode, faults)
  }

  /** What one send takes from the headroom. A payout the backend sent itself has left the chain
      balance and still counts as in flight, so it is taken twice. */
  function Drop(mode: Mode, amount: real): real {
    if !InRange(amount) then 0.0 else if mode == AutoSend then 2.0 * amount else amount
  }

  /** The status one turn leaves, what it takes from the chain, and that it touches one document only. */
  lemma TurnStatus(w: World, id: string, mode: Mode, faults: map<string, Fault>)
    requires Waiting(w, id) && FaultsOk(faults)
    ensures var t, tx := Turn(w, id, mode, faults), w.txs[id];
            && t.txs == w.txs[id := tx.(status := t.txs[id].status)]
            && (t.txs[id].status == PayinConfirmed <==> id in faults && faults[id].Throws?)
            && (id in faults ==>
                  && t.txs[id].status != PendingFunding
                  && (InFlight(t.txs[id].status) ==> faults[id].Resend? && mode == AutoSend))
            && (id !in faults ==>
                  (t.txs[id].status == PendingFunding <==>
                     InRange(tx.amount) && Headroom(w, tx.entity) < tx.amount + 1.0)
                  && (InFlight(t.txs[id].status) <==>
                        InRange(tx.amount) && Headroom(w, tx.entity) >= tx.amount + 1.0)
                  && (!InRange(tx.amount) ==> t.txs[id].status == Failed))
            && w.srlChain - t.srlChain ==
                 if InFlight(t.txs[id].status) && LeavesChain(mode, faults, id) then tx.amount else 0.0
  {
    SameInFlight(w, id, PayinConfirmed);
  }

  /** Exactly where one turn leaves a payout: sent by the backend, handed to an operator, waiting, or failed. */
  lemma TurnExactly(w: World, id: string, mode: Mode, faults: map<string, Fault>)
    requires Waiting(w, id) && FaultsOk(faults)
    ensures var t, tx := Turn(w, id, mode, faults), w.txs[id];
            var s := t.txs[id].status;
            var takes := 31.0 <= tx.amount <= 9998.0;
            var enough := w.srlChain - InFlightTotal(w.txs, tx.entity) >= tx.amount + 1.0;
            && (id !in faults ==>
                  && (s == PayoutSent <==> mode == AutoSend && takes && enough)
                  && (s == PayoutPendingUsdcSend <==> mode == ManualSend && takes && enough)
                  && (s == PendingFunding <==> takes && !enough)
                  && (s == Failed <==> !takes)
                  && t.srlChain == w.srlChain - if s == PayoutSent then tx.amount else 0.0)
            && (id in faults && faults[id].Resend? ==>
                  && (s == Processing <==> mode == ManualSend)
                  && (s == PayoutSent <==> mode == AutoSend && (faults[id].found || w.srlChain >= tx.amount + 1.0))
                  && (s == Failed <==> mode == AutoSend && !faults[id].found && w.srlChain < tx.amount + 1.0)
                  && t.srlChain == w.srlChain - if s == PayoutSent && !faults[id].found then tx.amount else 0.0)
            && (id in faults && !faults[id].Resend? ==>
                  && s == (if faults[id].Throws? then PayinConfirmed else faults[id].status)
                  && t.srlChain == w.srlChain)
  {
    SameInFlight(w, id, PayinConfirmed);
  }

  /** An operator is asked exactly when operators send, and then nothing has left the chain. */
  lemma OperatorIsAsked(w: World, id: string, mode: Mode, faults: map<string, Fault>)
    requires Waiting(w, id) && FaultsOk(faults)
    ensures var t := Turn(w, id, mode, faults);
            && (t.txs[id].status == PayoutPendingUsdcSend ==>
                  mode == ManualSend && id !in faults && t.srlChain == w.srlChain)
            && (t.txs[id].status == PayoutSent ==>
                  mode == AutoSend
                  && (t.srlChain == w.srlChain - w.txs[id].amount || (id in faults && faults[id] == Resend(true))))
  {
    TurnExactly(w, id, mode, faults);
  }

  /** What counts as in flight: the three statuses from the request to the operator to the provider's
      notice, of the entity in question. */
  lemma InFlightExactly(p: Payout, id: string, entity: string)
    ensures InFlightTotal(map[id := p], entity) ==
              if p.entity == entity
                 && (p.status == PayoutPendingUsdcSend || p.status == PayoutInTransit || p.status == PayoutSent)
              then p.amount else 0.0
  {
    var amounts := InFlightAmounts(map[id := p], entity);
    if id in amounts {
      SumRemove(amounts, id);
      assert amounts - {id} == map[];
    } else {
      assert amounts == map[];
    }
  }

  /** The headroom falls by what left the chain and by what is now in flight. */
  lemma TurnHeadroom(w: World, id: string, mode: Mode, faults: map<string, Fault>)
    requires Waiting(w, id) && FaultsOk(faults)
    ensures var t, tx := Turn(w, id, mode, faults), w.txs[id];
            Headroom(t, tx.entity) ==
              Headroom(w, tx.entity) - (w.srlChain - t.srlChain) - if InFlight(t.txs[id].status) then tx.amount else 0.0
  {
    var t, tx := Turn(w, id, mode, faults), w.txs[id];
    TurnStatus(w, id, mode, faults);
    OneStatusChanged(w, t, id);
  }

  /** What a status change does to the in-flight sum of its entity. */
  lemma OneStatusChanged(w: World, t: World, id: string)
    requires id in w.txs && id in t.txs && !InFlight(w.txs[id].status)
    requires t.txs == w.txs[id := w.txs[id].(status := t.txs[id].status)]
    ensures var tx := w.txs[id];
            InFlightTotal(t.txs, tx.entity) ==
              InFlightTotal(w.txs, tx.entity) + if InFlight(t.txs[id].status) then tx.amount else 0.0
  {
    var tx := w.txs[id];
    var before, after := InFlightAmounts(w.txs, tx.entity), InFlightAmounts(t.txs, tx.entity);
    if InFlight(t.txs[id].status) {
      assert after == before[id := tx.amount];
      SumUpdate(before, id, tx.amount);
    } else {
      assert after == before;
    }
  }

  /** One unrolling of the retry loop. */
  lemma RetryTurn(w: World, queue: seq<string>, mode: Mode, faults: map<string, Fault>)
    requires queue != [] && forall id :: id in queue ==> id in w.txs
    requires Waiting(w, queue[0])
    ensures var t := Turn(w, queue[0], mode, faults);
            && t.txs.Keys == w.txs.Keys
            && Retry(w, queue, mode, faults) ==
                 if (queue[0] in faults && faults[queue[0]].Throws?) || Waiting(t, queue[0]) then t
                 else Retry(t, queue[1..], mode, faults)
  {
  }

  function Amounts(w: World, queue: seq<string>): seq<real>
    requires forall id :: id in queue ==> id in w.txs
  {
    seq(|queue|, i requires 0 <= i < |queue| => w.txs[queue[i]].amount)
  }

  /** Σ of the amounts the retry put in flight. */
  function SentTotal(w: World, queue: seq<string>): real
    requires forall id :: id in queue ==> id in w.txs
  {
    if queue == [] then 0.0
    else (if InFlight(w.txs[queue[0]].status) then w.txs[queue[0]].amount else 0.0) + SentTotal(w, queue[1..])
  }

  /** Of these, the payouts dispatched for the first time, which passed the liquidity check. */
  function FirstTotal(w: World, queue: seq<string>, faults: map<string, Fault>): real
    requires forall id :: id in queue ==> id in w.txs
  {
    if queue == [] then 0.0
    else
      (if InFlight(w.txs[queue[0]].status) && queue[0] !in faults then w.txs[queue[0]].amount else 0.0)
      + FirstTotal(w, queue[1..], faults)
  }

  /** Of these, what left the chain. */
  function ChainTotal(w: World, queue: seq<string>, mode: Mode, faults: map<string, Fault>): real
    requires forall id :: id in queue ==> id in w.txs
  {
    if queue == [] then 0.0
    else
      (if InFlight(w.txs[queue[0]].status) && LeavesChain(mode, faults, queue[0]) then w.txs[queue[0]].amount else 0.0)
      + ChainTotal(w, queue[1..], mode, faults)
  }

  ghost predicate AllWaiting(w: World, entity: string, queue: seq<string>) {
    && (forall i :: 0 <= i < |queue| ==> Waiting(w, queue[i]) && w.txs[queue[i]].entity == entity)
    && (forall i, j :: 0 <= i < j < |queue| ==> queue[i] != queue[j])
  }

  /** The first `n` have left the queue; the one at `n` still waits, or is re-armed if its
      dispatch threw; nothing else has changed. */
  ghost predicate FifoOutcome(w: World, queue: seq<string>, faults: map<string, Fault>, n: nat, r: World)
    requires forall id :: id in queue ==> id in w.txs
  {
    && n <= |queue|
    && r.txs.Keys == w.txs.Keys
    && (forall i :: 0 <= i < n ==> !r.txs[queue[i]].status.PendingFunding? && !r.txs[queue[i]].status.PayinConfirmed?)
    && (n < |queue| ==> r.txs[queue[n]] == w.txs[queue[n]].(status := Stopped(queue[n], faults)))
    && (forall i :: n < i < |queue| ==> r.txs[queue[i]] == w.txs[queue[i]])
    && (forall id :: id in w.txs && id !in queue ==> r.txs[id] == w.txs[id])
  }

  function Stopped(id: string, faults: map<string, Fault>): Status {
    if id in faults && faults[id].Throws? then PayinConfirmed else PendingFunding
  }

  /** The retry releases a prefix of the queue in creation order and leaves the rest alone. */
  lemma {:induction false} RetryIsFifo(w: World, entity: string, queue: seq<string>, mode: Mode, faults: map<string, Fault>)
    returns (n: nat)
    requires AllWaiting(w, entity, queue) && FaultsOk(faults)
    ensures FifoOutcome(w, queue, faults, n, Retry(w, queue, mode, faults))
    decreases |queue|
  {
    if queue == [] {
      n := 0;
    } else {
      var id, rest := queue[0], queue[1..];
      TurnStatus(w, id, mode, faults);
      RetryTurn(w, queue, mode, faults);
      var t := Turn(w, id, mode, faults);
      if t.txs[id].status.PendingFunding? || t.txs[id].status.PayinConfirmed? {
        n := 0;
        FifoStop(w, t, queue, faults);
      } else {
        TurnKeepsOthers(w, t, entity, queue);
        n := RetryIsFifo(t, entity, rest, mode, faults);
        FifoCons(w, t, queue, faults, n, Retry(t, rest, mode, faults));
        n := n + 1;
      }
    }
  }

  /** A turn that touches the first document only leaves the others waiting. */
  lemma TurnKeepsOthers(w: World, t: World, entity: string, queue: seq<string>)
    requires AllWaiting(w, entity, queue) && queue != [] && queue[0] in t.txs
    requires t.txs == w.txs[queue[0] := t.txs[queue[0]]]
    ensures AllWaiting(t, entity, queue[1..]) && queue[0] !in queue[1..]
  {
  }

  lemma FifoStop(w: World, t: World, queue: seq<string>, faults: map<string, Fault>)
    requires queue != [] && forall id :: id in queue ==> id in w.txs
    requires forall i, j :: 0 <= i < j < |queue| ==> queue[i] != queue[j]
    requires t.txs == w.txs[queue[0] := w.txs[queue[0]].(status := Stopped(queue[0], faults))]
    ensures FifoOutcome(w, queue, faults, 0, t)
  {
  }

  lemma FifoCons(w: World, t: World, queue: seq<string>, faults: map<string, Fault>, n: nat, r: World)
    requires queue != [] && forall id :: id in queue ==> id in w.txs
    requires forall i, j :: 0 <= i < j < |queue| ==> queue[i] != queue[j]
    requires t.txs.Keys == w.txs.Keys && forall id :: id in w.txs && id != queue[0] ==> t.txs[id] == w.txs[id]
    requires !t.txs[queue[0]].status.PendingFunding? && !t.txs[queue[0]].status.PayinConfirmed?
    requires FifoOutcome(t, queue[1..], faults, n, r)
    ensures FifoOutcome(w, queue, faults, n + 1, r)
  {
    var rest := queue[1..];
    assert queue[0] !in rest;
    forall i | 1 <= i < |queue| ensures queue[i] == rest[i - 1] && w.txs[queue[i]] == t.txs[queue[i]] {
    }
    forall id | id in w.txs && id !in queue ensures r.txs[id] == w.txs[id] {
      assert id !in rest;
    }
  }

  /** An earlier transfer was created for an amount in range. */
  predicate ResendsOk(w: World, faults: map<string, Fault>) {
    forall id :: id in faults && faults[id].Resend? && id in w.txs ==> w.txs[id].amount >= 0.0
  }

  /** What one retry sends for the first time never exceeds what was available when it started, and the
      chain falls by exactly the backend's own sends, retried ones included. */
  lemma RetrySpend(w: World, entity: string, queue: seq<string>, mode: Mode, faults: map<string, Fault>)
    requires AllWaiting(w, entity, queue) && FaultsOk(faults) && ResendsOk(w, faults)
    ensures var r := Retry(w, queue, mode, faults);
            && (forall id :: id in queue ==> id in r.txs)
            && FirstTotal(r, queue, faults) <= Max(0.0, Headroom(w, entity))
            && w.srlChain - r.srlChain == ChainTotal(r, queue, mode, faults)
  {
    RetryFirst(w, entity, queue, mode, faults);
    RetryChain(w, entity, queue, mode, faults);
  }

  lemma {:induction false} RetryFirst(w: World, entity: string, queue: seq<string>, mode: Mode, faults: map<string, Fault>)
    requires AllWaiting(w, entity, queue) && FaultsOk(faults) && ResendsOk(w, faults)
    ensures forall id :: id in queue ==> id in Retry(w, queue, mode, faults).txs
    ensures FirstTotal(Retry(w, queue, mode, faults), queue, faults) <= Max(0.0, Headroom(w, entity))
    decreases |queue|
  {
    if queue != [] {
      var id, rest := queue[0], queue[1..];
      TurnStatus(w, id, mode, faults);
      TurnHeadroom(w, id, mode, faults);
      RetryTurn(w, queue, mode, faults);
      var t := Turn(w, id, mode, faults);
      if t.txs[id].status.PendingFunding? || t.txs[id].status.PayinConfirmed? {
        NothingSent(t, queue, mode, faults);
      } else {
        TurnKeepsOthers(w, t, entity, queue);
        RetryFirst(t, entity, rest, mode, faults);
        var n := RetryIsFifo(t, entity, rest, mode, faults);
      }
    }
  }

  lemma {:induction false} RetryChain(w: World, entity: string, queue: seq<string>, mode: Mode, faults: map<string, Fault>)
    requires AllWaiting(w, entity, queue) && FaultsOk(faults)
    ensures forall id :: id in queue ==> id in Retry(w, queue, mode, faults).txs
    ensures w.srlChain - Retry(w, queue, mode, faults).srlChain
            == ChainTotal(Retry(w, queue, mode, faults), queue, mode, faults)
    decreases |queue|
  {
    if queue != [] {
      var id, rest := queue[0], queue[1..];
      TurnStatus(w, id, mode, faults);
      RetryTurn(w, queue, mode, faults);
      var t := Turn(w, id, mode, faults);
      if t.txs[id].status.PendingFunding? || t.txs[id].status.PayinConfirmed? {
        NothingSent(t, queue, mode, faults);
      } else {
        TurnKeepsOthers(w, t, entity, queue);
        RetryChain(t, entity, rest, mode, faults);
        var n := RetryIsFifo(t, entity, rest, mode, faults);
      }
    }
  }

  lemma {:induction false} NothingSent(w: World, queue: seq<string>, mode: Mode, faults: map<string, Fault>)
    requires forall i :: 0 <= i < |queue| ==> queue[i] in w.txs && !InFlight(w.txs[queue[i]].status)
    ensures SentTotal(w, queue) == FirstTotal(w, queue, faults) == ChainTotal(w, queue, mode, faults) == 0.0
  {
    if queue != [] {
      NothingSent(w, queue[1..], mode, faults);
    }
  }

  // ── One account for two entities ──────────────────────────────────────────

  /** What the shared account holds beyond the payouts in flight of both entities. */
  ghost function JointHeadroom(w: World): real {
    w.srlChain - InFlightTotal(w.txs, "SRL") - InFlightTotal(w.txs, "LLC")
  }

  predicate TwoEntities(entity: string) {
    entity == "SRL" || entity == "LLC"
  }

  /** What one turn takes from both entities together. */
  lemma TurnJointHeadroom(w: World, id: string, mode: Mode, faults: map<string, Fault>)
    requires Waiting(w, id) && FaultsOk(faults) && TwoEntities(w.txs[id].entity)
    ensures var t, tx := Turn(w, id, mode, faults), w.txs[id];
            JointHeadroom(t) ==
              JointHeadroom(w) - (w.srlChain - t.srlChain) - if InFlight(t.txs[id].status) then tx.amount else 0.0
  {
    var t, tx := Turn(w, id, mode, faults), w.txs[id];
    TurnStatus(w, id, mode, faults);
    OneStatusChanged(w, t, id);
    OtherEntityUnchanged(w, t, id, if tx.entity == "SRL" then "LLC" else "SRL");
  }

  lemma OtherEntityUnchanged(w: World, t: World, id: string, other: string)
    requires id in w.txs && w.txs[id].entity != other
    requires id in t.txs && t.txs == w.txs[id := w.txs[id].(status := t.txs[id].status)]
    ensures InFlightTotal(t.txs, other) == InFlightTotal(w.txs, other)
  {
    assert InFlightAmounts(t.txs, other) == InFlightAmounts(w.txs, other);
  }

  /** The exact condition for one dispatch, in either mode: it leaves the two entities with more in flight
      than the account holds if and only if its own entity's check lets it pass and it takes more than is
      free of both. */
  lemma OvercommitsExactly(w: World, id: string, mode: Mode)
    requires Waiting(w, id) && TwoEntities(w.txs[id].entity) && JointHeadroom(w) >= 0.0
    ensures var t, tx := Turn(w, id, mode, map[]), w.txs[id];
            JointHeadroom(t) < 0.0 <==>
              InRange(tx.amount) && Headroom(w, tx.entity) >= tx.amount + 1.0 && Drop(mode, tx.amount) > JointHeadroom(w)
  {
    TurnStatus(w, id, mode, map[]);
    TurnJointHeadroom(w, id, mode, map[]);
  }

  /** A whole retry, in either mode: the account still covers what both entities have in flight if and only
      if it covered what the retry put in flight and what left the chain for it. */
  lemma {:induction false} RetryJointHeadroom(
    w: World, entity: string, queue: seq<string>, mode: Mode, faults: map<string, Fault>)
    requires AllWaiting(w, entity, queue) && FaultsOk(faults) && TwoEntities(entity)
    ensures forall id :: id in queue ==> id in Retry(w, queue, mode, faults).txs
    ensures var r := Retry(w, queue, mode, faults);
            JointHeadroom(r) == JointHeadroom(w) - SentTotal(r, queue) - ChainTotal(r, queue, mode, faults)
    decreases |queue|
  {
    if queue != [] {
      var id, rest := queue[0], queue[1..];
      TurnStatus(w, id, mode, faults);
      TurnJointHeadroom(w, id, mode, faults);
      RetryTurn(w, queue, mode, faults);
      var t := Turn(w, id, mode, faults);
      if t.txs[id].status.PendingFunding? || t.txs[id].status.PayinConfirmed? {
        NothingSent(t, queue, mode, faults);
      } else {
        TurnKeepsOthers(w, t, entity, queue);
        RetryJointHeadroom(t, entity, rest, mode, faults);
        var n := RetryIsFifo(t, entity, rest, mode, faults);
      }
    }
  }

  /** The input: 200 USDC, one payout of 150 waiting for each entity. Both retries release theirs. */
  lemma BothEntitiesRelease(w: World, a: string, b: string)
    requires a != b && w.txs == map[a := Payout("SRL", 0, 150.0, PendingFunding), b := Payout("LLC", 0, 150.0, PendingFunding)]
    requires w.srlChain == 200.0
    ensures var t := Turn(w, a, ManualSend, map[]);
            var u := Turn(t, b, ManualSend, map[]);
            JointHeadroom(w) == 200.0 && JointHeadroom(t) == 50.0 && JointHeadroom(u) == -100.0
  {
    NoneInFlight(w, "SRL");
    NoneInFlight(w, "LLC");
    var t := Turn(w, a, ManualSend, map[]);
    TurnStatus(w, a, ManualSend, map[]);
    TurnJointHeadroom(w, a, ManualSend, map[]);
    OtherEntityUnchanged(w, t, a, "LLC");
    TurnStatus(t, b, ManualSend, map[]);
    TurnJointHeadroom(t, b, ManualSend, map[]);
  }

  lemma NoneInFlight(w: World, entity: string)
    requires forall id :: id in w.txs ==> !InFlight(w.txs[id].status)
    ensures InFlightTotal(w.txs, entity) == 0.0
  {
    assert InFlightAmounts(w.txs, entity) == map[];
  }
}
