/** Confirming a payin and dispatching its payout: manual status updates, provider confirmations,
    funding re-arms, the atomic gate and the dispatches behind it, interleaved in any order. */
module PayoutGate {
  import opened Ledger
  import opened Options
  import Runs

  datatype Rail = Harbor | Vita

  /** Where a dispatch stands. On Harbor the transfer it works on has a memo of its own; `own` says
      that this dispatch created it. */
  datatype Phase = Begun | Instructed(memo: nat, own: bool) | Submitting(memo: nat) | Over

  /** One transaction and what happens around it. `transfer` is the memo of harborTransfer, `hash` says
      that stellarTxHash is set. `asked` are instructions handed to an operator, `onChain` the memos
      paid. `seen` and `receipts` count provider confirmations and receipt uploads that have read the
      transaction but not saved it, `requests` dispatches that have not reached the gate; `sent` and
      `arms` are counters for stating the results. */
  datatype Payment = Payment(
    rail: Rail, status: Status, transfer: Option<nat>, hash: bool, phases: seq<Phase>, asked: set<nat>,
    onChain: set<nat>, memos: nat, sent: nat, seen: nat, receipts: nat, requests: nat, arms: nat)

  datatype Outcome = NoFunds | Held | Rejected | Stuck | AskOperator

  datatype Event =
    | Manual(newStatus: Option<Status>, note: string, auditOk: bool, saveOk: bool)
    | Rearm                                        // funding retry, compare-and-set on pending_funding
    | PayinRead                                    // a provider's confirmation reads the transaction
    | PayinSave                                    // and saves it as confirmed, whatever happened since
    | ReceiptRead                                  // a receipt upload reads a pending_comprobante
    | ReceiptSave                                  // and saves payin_pending, whatever happened since
    | SetPending                                   // payin_pending by id alone, from any status
    | Gate                                         // a requested dispatch reaches the gate
    | Create(dispatch: nat)                        // Harbor: the transfer is created and saved
    | LookUp(dispatch: nat, found: bool, recorded: bool)  // Harbor: does the ledger query show the memo?
    | Submit(dispatch: nat, recorded: bool)        // the funds go out; the record may fail
    | Quit(dispatch: nat, outcome: Outcome)
    | OperatorSends(memo: nat)
    | Provider(status: Status)                     // a notice, an expiry or a job: any status past the payin

  predicate ValidStatus(s: Status) {
    !(s.PendingComprobante? || s.PendingFxReview? || s.Cancelled?
      || s.Sep24DepositPending? || s.Sep24WithdrawPending? || s.Sep31Waiting?)
  }

  predicate AllowedFrom(s: Status) {
    s.PayinPending? || s.PendingFunding? || s.PayinConfirmed?
  }

  predicate DispatchFrom(s: Status) {
    s.PayinPending? || s.PendingFunding? || s.PayoutPendingUsdcSend?
  }

  /** The statuses in which a provider's confirmation is taken for the payin. */
  predicate AwaitsPayin(s: Status) {
    s.PayinPending? || s.Initiated? || s.Pending?
  }

  const MIN_REASON_LENGTH := 10

  predicate ForcedTerminal(newStatus: Status, previous: Status) {
    (newStatus.Completed? || newStatus.Refunded?) && newStatus != previous
  }

  /** The refusals before anything is written; 200 when the update goes on. The note is trimmed. */
  function ManualScreening(previous: Status, newStatus: Option<Status>, note: string): nat {
    if newStatus.None? || note == "" || !ValidStatus(newStatus.value) then 400
    else if ForcedTerminal(newStatus.value, previous) && |note| < MIN_REASON_LENGTH then 400
    else if newStatus.value.PayinConfirmed? && !AllowedFrom(previous) then 409
    else 200
  }

  /** The HTTP status of a manual update. */
  function ManualCode(previous: Status, newStatus: Option<Status>, note: string, auditOk: bool, saveOk: bool): nat {
    var code := ManualScreening(previous, newStatus, note);
    if code != 200 then code
    else if ForcedTerminal(newStatus.value, previous) && !auditOk then 500
    else if !saveOk then 500
    else 200
  }

  function ManualStep(p: Payment, newStatus: Status): Payment {
    var confirms := newStatus.PayinConfirmed?;
    p.(status := newStatus,
       arms := p.arms + if confirms then 1 else 0,
       requests := p.requests + if confirms && DispatchFrom(p.status) then 1 else 0)
  }

  /** What the dispatch past the gate finds in the document it was handed. */
  function Entered(p: Payment): Phase {
    if p.rail.Vita? || p.transfer.None? then Begun
    else if p.hash then Over
    else Instructed(p.transfer.value, false)
  }

  function SetPhase(p: Payment, d: nat, phase: Phase): Payment
    requires d < |p.phases|
  {
    p.(phases := p.phases[d := phase])
  }

  function Recorded(p: Payment, recorded: bool): Payment {
    if recorded then p.(status := PayoutSent, hash := p.hash || p.rail.Harbor?) else p.(status := Failed)
  }

  function CreateStep(p: Payment, d: nat): Payment
    requires d < |p.phases|
  {
    if p.rail.Vita? || !p.phases[d].Begun? then p
    else
      SetPhase(p, d, Instructed(p.memos, true)).(
        transfer := Some(p.memos), memos := p.memos + 1, status := PayoutPendingUsdcSend)
  }

  /** The query looks at the latest transactions only and answers "nothing" when it fails: it may miss a
      memo that was paid, and never shows one that was not. */
  function LookUpStep(p: Payment, d: nat, found: bool, recorded: bool): Payment
    requires d < |p.phases|
  {
    if !p.phases[d].Instructed? || (found && p.phases[d].memo !in p.onChain) then p
    else if found then Recorded(SetPhase(p, d, Over), recorded)
    else SetPhase(p, d, Submitting(p.phases[d].memo))
  }

  function SubmitStep(p: Payment, d: nat, recorded: bool): Payment
    requires d < |p.phases|
  {
    if p.rail.Vita? && p.phases[d].Begun? then Recorded(SetPhase(p, d, Over).(sent := p.sent + 1), recorded)
    else if p.phases[d].Submitting? then
      Recorded(SetPhase(p, d, Over).(sent := p.sent + 1, onChain := p.onChain + {p.phases[d].memo}), recorded)
    else p
  }

  function QuitStep(p: Payment, d: nat, outcome: Outcome): Payment
    requires d < |p.phases|
  {
    if p.phases[d].Over? then p
    else
      var q := SetPhase(p, d, Over);
      match outcome
      case NoFunds => if p.phases[d].Begun? then q.(status := PendingFunding) else p
      case Held => if p.phases[d].Begun? then q.(status := PendingFxReview) else p
      case Rejected => q.(status := Failed)
      case Stuck => q
      case AskOperator =>
        if p.phases[d].Instructed? && p.phases[d].own then q.(asked := p.asked + {p.phases[d].memo}) else p
  }

  function Step(p: Payment, e: Event): Payment {
    match e
    case Manual(newStatus, note, auditOk, saveOk) =>
      if ManualCode(p.status, newStatus, note, auditOk, saveOk) != 200 then p else ManualStep(p, newStatus.value)
    case Rearm =>
      if p.status.PendingFunding? then p.(status := PayinConfirmed, arms := p.arms + 1, requests := p.requests + 1) else p
    case PayinRead => if AwaitsPayin(p.status) then p.(seen := p.seen + 1) else p
    case PayinSave =>
      if p.seen == 0 then p
      else p.(seen := p.seen - 1, status := PayinConfirmed, arms := p.arms + 1, requests := p.requests + 1)
    case ReceiptRead => if p.status.PendingComprobante? then p.(receipts := p.receipts + 1) else p
    case ReceiptSave => if p.receipts == 0 then p else p.(receipts := p.receipts - 1, status := PayinPending)
    case SetPending => p.(status := PayinPending)
    case Gate =>
      if p.requests == 0 then p
      else if !p.status.PayinConfirmed? then p.(requests := p.requests - 1)
      else p.(requests := p.requests - 1, status := Processing, phases := p.phases + [Entered(p)])
    case Create(d) => if d < |p.phases| then CreateStep(p, d) else p
    case LookUp(d, found, recorded) => if d < |p.phases| then LookUpStep(p, d, found, recorded) else p
    case Submit(d, recorded) => if d < |p.phases| then SubmitStep(p, d, recorded) else p
    case Quit(d, outcome) => if d < |p.phases| then QuitStep(p, d, outcome) else p
    case OperatorSends(m) =>
      if m in p.asked then p.(asked := p.asked - {m}, onChain := p.onChain + {m}, sent := p.sent + 1) else p
    case Provider(status) => if PrePayout(status) then p else p.(status := status)
  }

  /** Statuses from which a payin can still be confirmed, directly or after another update. */
  predicate PrePayout(s: Status) {
    s.Pending? || s.Initiated? || s.PendingComprobante? || s.PayinPending? || s.PayinConfirmed? || s.PendingFunding?
  }

  datatype LogEntry = LogEntry(previous: Status, newStatus: Status, note: string)

  /** The transaction document, its ipnLog and the admin audit log it is forced under. */
  class TransactionDoc {
    var payment: Payment
    var ipnLog: seq<LogEntry>
    var audit: seq<LogEntry>

    constructor (p: Payment)
      ensures payment == p && ipnLog == [] && audit == []
    {
      payment, ipnLog, audit := p, [], [];
    }

    /** updateTransactionStatus: validation, guards, the audit before the save, then the trigger. */
    method UpdateStatus(newStatus: Option<Status>, note: string, auditOk: bool, saveOk: bool) returns (code: nat)
      modifies this
      ensures code == ManualCode(old(payment).status, newStatus, note, auditOk, saveOk)
      ensures payment == Step(old(payment), Manual(newStatus, note, auditOk, saveOk))
      ensures ipnLog == old(ipnLog) + if code == 200 then [LogEntry(old(payment).status, newStatus.value, note)] else []
      ensures audit == // an entry exactly when a terminal status is forced and the entry can be written
              old(audit) +
              if ManualScreening(old(payment).status, newStatus, note) == 200
                 && ForcedTerminal(newStatus.value, old(payment).status) && auditOk
              then [LogEntry(old(payment).status, newStatus.value, note)] else []
    {
      if newStatus.None? || note == "" || !ValidStatus(newStatus.value) {
        return 400;
      }
      var s, previous := newStatus.value, payment.status;
      var forced := ForcedTerminal(s, previous);
      if forced && |note| < MIN_REASON_LENGTH {
        return 400;
      }
      if s == PayinConfirmed && !AllowedFrom(previous) {
        return 409;
      }
      var entry := LogEntry(previous, s, note);
      if forced {
        if !auditOk {
          return 500;
        }
        audit := audit + [entry];
      }
      if !saveOk {
        return 500;
      }
      payment := payment.(status := s);
      ipnLog := ipnLog + [entry];
      if s == PayinConfirmed {
        payment := payment.(arms := payment.arms + 1);
        if DispatchFrom(previous) {
          payment := payment.(requests := payment.requests + 1);
        }
      }
      return 200;
    }
  }

  // ── What the updates do ───────────────────────────────────────────────────

  /** The answers to a manual update: 400 without a known status or a note, or with too short a reason for a
      terminal status; 409 for a confirmation after the payout stage has begun; 500 when the audit or the
      save fails; 200 otherwise. */
  lemma ManualAnswers(p: Payment, newStatus: Option<Status>, note: string, auditOk: bool, saveOk: bool)
    ensures var code := ManualCode(p.status, newStatus, note, auditOk, saveOk);
            var q := Step(p, Manual(newStatus, note, auditOk, saveOk));
            var forced := newStatus.Some? && newStatus.value != p.status
                          && (newStatus.value == Completed || newStatus.value == Refunded);
            var unknown := newStatus.None?
                           || newStatus.value == PendingComprobante || newStatus.value == PendingFxReview
                           || newStatus.value == Status.Cancelled || newStatus.value == Sep24DepositPending
                           || newStatus.value == Sep24WithdrawPending || newStatus.value == Sep31Waiting;
            var late := newStatus == Some(PayinConfirmed)
                        && p.status != PayinPending && p.status != PendingFunding && p.status != PayinConfirmed;
            && (code == 400 <==> note == "" || unknown || (forced && |note| < 10))
            && (code == 409 <==> note != "" && late)
            && (code == 200 <==>
                  note != "" && !unknown && (forced ==> |note| >= 10 && auditOk) && !late && saveOk)
            && (code in {200, 400, 409, 500})
            && (code != 200 ==> q == p)
            && (code == 200 ==> q.status == newStatus.value && q.sent == p.sent && q.phases == p.phases)
  {
  }

  /** A manual confirmation with a note is accepted exactly from payin_pending, pending_funding and
      payin_confirmed, and asks for a dispatch exactly from the first two. */
  lemma ConfirmationExactly(p: Payment, note: string)
    requires note != ""
    ensures var code := ManualCode(p.status, Some(PayinConfirmed), note, true, true);
            var q := Step(p, Manual(Some(PayinConfirmed), note, true, true));
            var early := p.status == PayinPending || p.status == PendingFunding || p.status == PayinConfirmed;
            && code == (if early then 200 else 409)
            && (early ==> q.status == PayinConfirmed)
            && q.requests == p.requests + if p.status == PayinPending || p.status == PendingFunding then 1 else 0
  {
  }

  /** The funding retry re-arms a payment exactly from pending_funding, and the gate starts a dispatch
      exactly for a requested one out of payin_confirmed; on Harbor a recorded hash ends it at once. */
  lemma RearmAndGate(p: Payment)
    ensures var q := Step(p, Rearm);
            if p.status == PendingFunding
            then q == p.(status := PayinConfirmed, requests := p.requests + 1, arms := p.arms + 1) else q == p
    ensures var q := Step(p, Gate);
            if p.requests > 0 && p.status == PayinConfirmed
            then |q.phases| == |p.phases| + 1 && q.status == Processing && q.requests == p.requests - 1
                 && (q.phases[|p.phases|].Over? <==> p.rail.Harbor? && p.transfer.Some? && p.hash)
            else q.phases == p.phases && q.status == p.status
  {
  }

  /** How a dispatch ends: what goes out is counted, once and only by a submission; a recorded end is
      payout_sent, with the hash on Harbor, an unrecorded one failed. */
  lemma SubmissionEnds(p: Payment, d: nat, recorded: bool)
    requires d < |p.phases|
    ensures var q := Step(p, Submit(d, recorded));
            if p.phases[d].Submitting? || (p.rail.Vita? && p.phases[d].Begun?)
            then q.sent == p.sent + 1 && EndedWith(p, q, d, recorded)
                 && (p.phases[d].Submitting? ==> q.onChain == p.onChain + {p.phases[d].memo})
            else q == p
  {
  }

  lemma FoundEnds(p: Payment, d: nat, recorded: bool)
    requires d < |p.phases|
    ensures var q := Step(p, LookUp(d, true, recorded));
            if p.phases[d].Instructed? && p.phases[d].memo in p.onChain
            then q.sent == p.sent && EndedWith(p, q, d, recorded)
            else q == p
  {
  }

  predicate EndedWith(p: Payment, q: Payment, d: nat, recorded: bool)
    requires d < |p.phases|
  {
    && q.phases == p.phases[d := Over]
    && q.status == (if recorded then PayoutSent else Failed)
    && (q.hash <==> p.hash || (recorded && p.rail == Harbor))
  }

  /** The other ends send nothing and leave the status that says why; only a rejection ends a dispatch that has
      a transfer already, and one that is stuck leaves the status as it is. */
  lemma QuitEnds(p: Payment, d: nat, outcome: Outcome)
    requires d < |p.phases| && !p.phases[d].Over? && outcome != AskOperator
    ensures var q := Step(p, Quit(d, outcome));
            if (outcome == NoFunds || outcome == Held) && !p.phases[d].Begun? then q == p
            else q.phases == p.phases[d := Over] && q.sent == p.sent && q.hash == p.hash
                 && q.status == match outcome
                                case NoFunds => PendingFunding
                                case Held => PendingFxReview
                                case Rejected => Failed
                                case _ => p.status
  {
  }

  /** The writers outside: a provider's confirmation is taken for an awaited payin and a receipt for a
      pending_comprobante ... */
  lemma OutsideReads(p: Payment)
    ensures Step(p, PayinRead).seen ==
              p.seen + if p.status in {PayinPending, Initiated, Pending} then 1 else 0
    ensures Step(p, ReceiptRead).receipts == p.receipts + if p.status == PendingComprobante then 1 else 0
  {
  }

  /** ... and saved, they set payin_confirmed, with a dispatch, and payin_pending, whatever the status has
      become. */
  lemma OutsideSaves(p: Payment)
    ensures p.seen > 0 ==>
              Step(p, PayinSave) ==
                p.(status := PayinConfirmed, seen := p.seen - 1, arms := p.arms + 1, requests := p.requests + 1)
    ensures p.receipts > 0 ==> Step(p, ReceiptSave) == p.(status := PayinPending, receipts := p.receipts - 1)
    ensures p.seen == 0 ==> Step(p, PayinSave) == p
    ensures p.receipts == 0 ==> Step(p, ReceiptSave) == p
  {
  }

  /** A notice sets any status past the payin. */
  lemma NoticeSets(p: Payment, s: Status)
    ensures Step(p, Provider(s)) ==
              if s in {Pending, Initiated, PendingComprobante, PayinPending, PayinConfirmed, PendingFunding} then p
              else p.(status := s)
    ensures Step(p, SetPending) == p.(status := PayinPending)
  {
  }

  /** What comes before: a Harbor dispatch creates its transfer under a memo of its own and marks the payment
      for the send; a lookup that shows nothing lets it submit; and an operator is asked only by the
      dispatch that created the transfer. */
  lemma DispatchProceeds(p: Payment, d: nat, recorded: bool)
    requires d < |p.phases| && p.rail.Harbor?
    ensures var q := Step(p, Create(d));
            if p.phases[d].Begun?
            then q.status == PayoutPendingUsdcSend && q.transfer == Some(p.memos) && q.memos == p.memos + 1
                 && q.phases == p.phases[d := Instructed(p.memos, true)] && q.sent == p.sent
            else q == p
    ensures p.phases[d].Instructed? ==>
              Step(p, LookUp(d, false, recorded)) == p.(phases := p.phases[d := Submitting(p.phases[d].memo)])
    ensures var q := Step(p, Quit(d, AskOperator));
            if p.phases[d].Instructed? && p.phases[d].own
            then q.asked == p.asked + {p.phases[d].memo} && q.phases[d].Over? && q.status == p.status
            else q == p
  {
  }

  // ── What can still send ───────────────────────────────────────────────────

  /** A dispatch that may still send. A transfer whose memo is already paid is no obstacle: the lookup
      may miss it. */
  predicate Threat(p: Payment, i: nat)
    requires i < |p.phases|
  {
    !p.phases[i].Over?
  }

  predicate AnyThreat(p: Payment) {
    exists i :: 0 <= i < |p.phases| && Threat(p, i)
  }

  /** Another dispatch would be one too many: a send is under way, or was made without a recorded hash,
      which is all that reliably stops the next one. */
  predicate Danger(p: Payment) {
    AnyThreat(p) || p.asked != {} || (p.sent > 0 && !p.hash)
  }

  /** The writers that may take a transaction back before the payout stage: an administrator, a provider's
      confirmation or a receipt upload saved over what happened since it was read, and the two updates
      that set payin_pending without looking at the status. */
  predicate MayTakeBack(e: Event) {
    e.Manual? || e.PayinSave? || e.ReceiptSave? || e.SetPending?
  }

  predicate TakesBack(p: Payment, e: Event) {
    MayTakeBack(e) && !PrePayout(p.status) && PrePayout(Step(p, e).status)
  }

  predicate Endangers(p: Payment, e: Event) {
    TakesBack(p, e) && Danger(p)
  }

  /** A manual confirmation never takes a payment back. */
  lemma ConfirmationNeverTakesBack(p: Payment, note: string, auditOk: bool, saveOk: bool)
    ensures !TakesBack(p, Manual(Some(PayinConfirmed), note, auditOk, saveOk))
  {
  }

  predicate PhaseOk(p: Payment, phase: Phase) {
    match phase
    case Begun => p.transfer.None?
    case Instructed(m, _) => p.transfer == Some(m)
    case Submitting(m) => p.transfer == Some(m)
    case Over => true
  }

  predicate VitaOk(p: Payment) {
    p.rail.Vita? ==>
      p.transfer.None? && p.asked == {} && !p.hash
      && forall i :: 0 <= i < |p.phases| ==> p.phases[i].Begun? || p.phases[i].Over?
  }

  predicate HarborOk(p: Payment) {
    p.rail.Harbor? ==>
      && (p.sent > 0 ==> p.transfer.Some?)
      && (p.asked != {} ==> p.transfer.Some? && p.asked == {p.transfer.value})
  }

  predicate Inv(p: Payment) {
    && p.sent <= 1
    && (PrePayout(p.status) ==> !Danger(p))
    && (forall i, j :: 0 <= i < j < |p.phases| ==> !Threat(p, i) || !Threat(p, j))
    && (AnyThreat(p) ==> p.sent == 0 && p.asked == {})
    && (p.asked != {} ==> p.sent == 0)
    && (p.sent == 0 ==> !p.hash && p.onChain == {})
    && (forall i :: 0 <= i < |p.phases| ==> PhaseOk(p, p.phases[i]))
    && VitaOk(p) && HarborOk(p)
  }

  /** Changes of the status and the counters that do not reach a status before the payout stage. */
  lemma StatusKeepsInv(p: Payment, q: Payment)
    requires Inv(p) && (PrePayout(q.status) ==> !Danger(p))
    requires q == p.(status := q.status, seen := q.seen, receipts := q.receipts, requests := q.requests, arms := q.arms)
    ensures Inv(q) && (Danger(q) <==> Danger(p))
  {
    assert forall i: nat :: i < |p.phases| ==> (Threat(q, i) <==> Threat(p, i));
    assert AnyThreat(q) <==> AnyThreat(p);
  }

  lemma GateKeepsInv(p: Payment)
    requires Inv(p)
    ensures Inv(Step(p, Gate))
  {
    var q := Step(p, Gate);
    if p.requests > 0 && p.status.PayinConfirmed? {
      var n := |p.phases|;
      assert forall i: nat :: i < n ==> (Threat(q, i) <==> Threat(p, i)) && !Threat(p, i);
      assert !AnyThreat(p);
    } else {
      StatusKeepsInv(p, q);
    }
  }

  lemma CreateKeepsInv(p: Payment, d: nat)
    requires Inv(p) && d < |p.phases|
    ensures Inv(CreateStep(p, d))
  {
    var q := CreateStep(p, d);
    if q != p {
      assert Threat(p, d) && PhaseOk(p, p.phases[d]);
      forall i: nat | i < |p.phases| && i != d ensures !Threat(p, i) && q.phases[i].Over? {
        assert PhaseOk(p, p.phases[i]);
      }
    }
  }

  lemma LookUpKeepsInv(p: Payment, d: nat, found: bool, recorded: bool)
    requires Inv(p) && d < |p.phases|
    ensures Inv(LookUpStep(p, d, found, recorded))
  {
    var q := LookUpStep(p, d, found, recorded);
    if q != p {
      assert Threat(p, d) && PhaseOk(p, p.phases[d]);
      assert forall i: nat :: i < |p.phases| ==> (Threat(q, i) <==> Threat(p, i)) && PhaseOk(q, q.phases[i]);
      assert Threat(q, d);
    }
  }

  lemma SubmitKeepsInv(p: Payment, d: nat, recorded: bool)
    requires Inv(p) && d < |p.phases|
    ensures Inv(SubmitStep(p, d, recorded))
  {
    var q := SubmitStep(p, d, recorded);
    if q != p {
      assert Threat(p, d) && PhaseOk(p, p.phases[d]);
      forall i: nat | i < |p.phases| ensures !Threat(q, i) && PhaseOk(q, q.phases[i]) {
        assert PhaseOk(p, p.phases[i]);
        assert i != d ==> !Threat(p, i);
      }
    }
  }

  lemma QuitKeepsInv(p: Payment, d: nat, outcome: Outcome)
    requires Inv(p) && d < |p.phases|
    ensures Inv(QuitStep(p, d, outcome))
  {
    var q := QuitStep(p, d, outcome);
    if q != p {
      assert Threat(p, d) && PhaseOk(p, p.phases[d]);
      forall i: nat | i < |p.phases| ensures !Threat(q, i) && PhaseOk(q, q.phases[i]) {
        assert i != d ==> !Threat(p, i);
      }
    }
  }

  lemma OperatorKeepsInv(p: Payment, m: nat)
    requires Inv(p)
    ensures Inv(Step(p, OperatorSends(m)))
  {
    var q := Step(p, OperatorSends(m));
    if m in p.asked {
      forall i: nat | i < |p.phases| ensures !Threat(q, i) && PhaseOk(q, q.phases[i]) {
        assert PhaseOk(p, p.phases[i]);
        assert !Threat(p, i);
      }
    }
  }

  lemma StepKeepsInv(p: Payment, e: Event)
    requires Inv(p) && !Endangers(p, e)
    ensures Inv(Step(p, e))
  {
    match e
    case Gate => GateKeepsInv(p);
    case Create(d) => if d < |p.phases| { CreateKeepsInv(p, d); }
    case LookUp(d, found, recorded) => if d < |p.phases| { LookUpKeepsInv(p, d, found, recorded); }
    case Submit(d, recorded) => if d < |p.phases| { SubmitKeepsInv(p, d, recorded); }
    case Quit(d, outcome) => if d < |p.phases| { QuitKeepsInv(p, d, outcome); }
    case OperatorSends(m) => OperatorKeepsInv(p, m);
    case Manual(_, _, _, _) => StatusKeepsInv(p, Step(p, e));
    case PayinSave => StatusKeepsInv(p, Step(p, e));
    case ReceiptRead => StatusKeepsInv(p, Step(p, e));
    case ReceiptSave => StatusKeepsInv(p, Step(p, e));
    case SetPending => StatusKeepsInv(p, Step(p, e));
    case Rearm => StatusKeepsInv(p, Step(p, e));
    case PayinRead => StatusKeepsInv(p, Step(p, e));
    case Provider(_) => StatusKeepsInv(p, Step(p, e));
  }

  // ── Runs of one payment ───────────────────────────────────────────────────

  function RunOne(p: Payment, es: seq<Event>): Payment {
    Runs.Run(Step, p, es)
  }

  /** No event of the run endangers the payment. */
  ghost predicate Careful(p: Payment, es: seq<Event>) {
    Runs.Never(Step, Endangers, p, es)
  }

  lemma CarefulKeepsInv(p: Payment, es: seq<Event>)
    requires Inv(p) && Careful(p, es)
    ensures Inv(RunOne(p, es))
  {
    forall q, e | Inv(q) && !Endangers(q, e) ensures Inv(Step(q, e)) {
      StepKeepsInv(q, e);
    }
    Runs.Keeps(Step, Inv, Endangers, p, es);
  }

  lemma Append(p: Payment, xs: seq<Event>, ys: seq<Event>)
    ensures RunOne(p, xs + ys) == RunOne(RunOne(p, xs), ys)
    ensures Careful(p, xs + ys) <==> Careful(p, xs) && Careful(RunOne(p, xs), ys)
  {
    Runs.Split(Step, p, xs, ys);
    Runs.NeverSplit(Step, Endangers, p, xs, ys);
  }

  lemma Two(p: Payment, a: Event, b: Event)
    ensures RunOne(p, [a, b]) == Step(Step(p, a), b)
    ensures Careful(p, [a, b]) <==> !Endangers(p, a) && !Endangers(Step(p, a), b)
  {
    Runs.Two(Step, p, a, b);
    Runs.NeverTwo(Step, Endangers, p, a, b);
  }

  lemma One(p: Payment, a: Event)
    ensures RunOne(p, [a]) == Step(p, a)
    ensures Careful(p, [a]) <==> !Endangers(p, a)
  {
    Runs.One(Step, p, a);
    Runs.NeverOne(Step, Endangers, p, a);
  }

  /** A payment before the payout stage is confirmed without an operator. */
  lemma Arming(p: Payment) returns (es: seq<Event>)
    requires AwaitsPayin(p.status) || p.status.PendingFunding? || (p.status.PayinConfirmed? && p.requests > 0)
    ensures Careful(p, es)
    ensures var q := RunOne(p, es);
            q.status.PayinConfirmed? && q.requests > 0
            && q == p.(status := PayinConfirmed, seen := q.seen, requests := q.requests, arms := q.arms)
  {
    if p.status.PendingFunding? {
      es := [Rearm];
      One(p, Rearm);
    } else if p.status.PayinConfirmed? {
      es := [];
    } else {
      es := [PayinRead, PayinSave];
      Two(p, PayinRead, PayinSave);
    }
  }

  lemma BothSubmit(p: Payment, i: nat, j: nat) returns (es: seq<Event>)
    requires i < |p.phases| && j < |p.phases| && i != j && p.phases[i].Submitting? && p.phases[j].Submitting?
    ensures Careful(p, es) && RunOne(p, es).sent == p.sent + 2
  {
    es := [Submit(i, true), Submit(j, true)];
    Two(p, Submit(i, true), Submit(j, true));
  }

  lemma BothLookUp(p: Payment, i: nat, j: nat) returns (es: seq<Event>)
    requires i < |p.phases| && j < |p.phases| && i != j && p.phases[i].Instructed? && p.phases[j].Instructed?
    ensures Careful(p, es) && RunOne(p, es).sent == p.sent + 2
  {
    var pair := [LookUp(i, false, true), LookUp(j, false, true)];
    Two(p, LookUp(i, false, true), LookUp(j, false, true));
    var rest := BothSubmit(RunOne(p, pair), i, j);
    es := pair + rest;
    Append(p, pair, rest);
  }

  /** Two dispatches that both find no transfer create one each. */
  lemma BothCreate(p: Payment, i: nat, j: nat) returns (es: seq<Event>)
    requires i < |p.phases| && j < |p.phases| && i != j && p.phases[i].Begun? && p.phases[j].Begun?
    requires p.rail.Harbor?
    ensures Careful(p, es) && RunOne(p, es).sent == p.sent + 2
  {
    var pair := [Create(i), Create(j)];
    Two(p, Create(i), Create(j));
    var rest := BothLookUp(RunOne(p, pair), i, j);
    es := pair + rest;
    Append(p, pair, rest);
  }

  /** A confirmed Vita payment that was sent, or is being sent, is sent once more. */
  lemma SecondVitaSend(p: Payment) returns (es: seq<Event>)
    requires p.rail.Vita? && p.status.PayinConfirmed? && p.requests > 0
    requires p.sent > 0 || exists i :: 0 <= i < |p.phases| && p.phases[i].Begun?
    ensures Careful(p, es) && RunOne(p, es).sent >= 2
  {
    var n := |p.phases|;
    One(p, Gate);
    var q := Step(p, Gate);
    var rest := [Submit(n, true)];
    One(q, Submit(n, true));
    if p.sent == 0 {
      var i :| 0 <= i < n && p.phases[i].Begun?;
      rest := [Submit(n, true), Submit(i, true)];
      Two(q, Submit(n, true), Submit(i, true));
    }
    es := [Gate] + rest;
    Append(p, [Gate], rest);
  }

  /** A confirmed Harbor payment with a dispatch that may still send is sent twice. */
  lemma SecondHarborSend(p: Payment, i: nat) returns (es: seq<Event>)
    requires p.rail.Harbor? && p.status.PayinConfirmed? && p.requests > 0 && !p.hash
    requires i < |p.phases| && Threat(p, i) && PhaseOk(p, p.phases[i])
    ensures Careful(p, es) && RunOne(p, es).sent >= 2
  {
    var n := |p.phases|;
    One(p, Gate);
    var q := Step(p, Gate);
    assert q.phases[i] == p.phases[i] && q.phases[n] == Entered(p);
    var rest;
    match p.phases[i] {
      case Begun => rest := BothCreate(q, i, n);
      case Instructed(_, _) => rest := BothLookUp(q, i, n);
      case Submitting(_) =>
        One(q, LookUp(n, false, true));
        var more := BothSubmit(Step(q, LookUp(n, false, true)), i, n);
        rest := [LookUp(n, false, true)] + more;
        Append(q, [LookUp(n, false, true)], more);
    }
    es := [Gate] + rest;
    Append(p, [Gate], rest);
  }

  /** A confirmed Harbor payment with a transfer but no recorded hash: a dispatch whose lookup shows
      nothing submits. With an instruction at an operator's hands both send. */
  lemma AnotherHarborSend(p: Payment) returns (es: seq<Event>)
    requires p.rail.Harbor? && p.status.PayinConfirmed? && p.requests > 0 && !p.hash && p.transfer.Some?
    requires p.sent > 0 || p.asked == {p.transfer.value}
    ensures Careful(p, es) && RunOne(p, es).sent >= 2
  {
    var n, m := |p.phases|, p.transfer.value;
    Two(p, Gate, LookUp(n, false, true));
    var q := RunOne(p, [Gate, LookUp(n, false, true)]);
    var rest := [OperatorSends(m), Submit(n, true)];
    Two(q, OperatorSends(m), Submit(n, true));
    es := [Gate, LookUp(n, false, true)] + rest;
    Append(p, [Gate, LookUp(n, false, true)], rest);
  }

  lemma SecondSend(p: Payment, e: Event) returns (es: seq<Event>)
    requires Inv(p) && Endangers(p, e)
    ensures Careful(Step(p, e), es) && RunOne(Step(p, e), es).sent >= 2
  {
    var q := Step(p, e);
    var first := Arming(q);
    var r := RunOne(q, first);
    var rest;
    if p.rail.Vita? {
      assert r.phases == p.phases && r.sent == p.sent;
      if p.sent == 0 {
        var i :| 0 <= i < |p.phases| && Threat(p, i);
        assert p.phases[i].Begun?;
      }
      rest := SecondVitaSend(r);
    } else if p.asked != {} || p.sent > 0 {
      rest := AnotherHarborSend(r);
    } else {
      var i :| 0 <= i < |p.phases| && Threat(p, i);
      assert PhaseOk(p, p.phases[i]);
      rest := SecondHarborSend(r, i);
    }
    es := first + rest;
    Append(q, first, rest);
  }

  /** The exact condition: from any reachable payment, an event endangers it if and only if some run
      after it, in which nothing endangers it again, sends its funds more than once. */
  lemma EndangersExactly(p: Payment, e: Event)
    requires Inv(p)
    ensures Endangers(p, e) <==> exists es :: Careful(Step(p, e), es) && RunOne(Step(p, e), es).sent > 1
  {
    if Endangers(p, e) {
      var es := SecondSend(p, e);
    } else {
      StepKeepsInv(p, e);
      forall es | Careful(Step(p, e), es) ensures RunOne(Step(p, e), es).sent <= 1 {
        CarefulKeepsInv(Step(p, e), es);
      }
    }
  }

  // ── Runs over all transactions ────────────────────────────────────────────

  type System = map<string, Payment>

  datatype Act = Act(id: string, e: Event)

  function StepAll(s: System, a: Act): System {
    if a.id in s then s[a.id := Step(s[a.id], a.e)] else s
  }

  function Run(s: System, acts: seq<Act>): System {
    Runs.Run(StepAll, s, acts)
  }

  ghost predicate Never(s: System, acts: seq<Act>, bad: (Payment, Event) -> bool)
    decreases |acts|
  {
    acts == [] || ((acts[0].id in s ==> !bad(s[acts[0].id], acts[0].e)) && Never(StepAll(s, acts[0]), acts[1..], bad))
  }

  predicate Untouched(p: Payment) {
    && p.phases == [] && p.asked == {} && p.onChain == {} && p.transfer.None? && !p.hash
    && p.sent == p.seen == p.receipts == p.arms == 0
  }

  lemma {:induction false} RunKeeps(s: System, acts: seq<Act>, inv: Payment -> bool, bad: (Payment, Event) -> bool)
    requires forall p, e :: inv(p) && !bad(p, e) ==> inv(Step(p, e))
    requires forall id :: id in s ==> inv(s[id])
    requires Never(s, acts, bad)
    ensures forall id :: id in Run(s, acts) ==> inv(Run(s, acts)[id])
    decreases |acts|
  {
    if acts != [] {
      assert Run(s, acts) == Run(StepAll(s, acts[0]), acts[1..]);
      RunKeeps(StepAll(s, acts[0]), acts[1..], inv, bad);
    }
  }

  /** Over every run in which no update takes a transaction back while a send is under way, or after one
      whose hash was not recorded, its funds are sent at most once, by the backend and operators together. */
  lemma SentAtMostOnce(s: System, acts: seq<Act>, id: string)
    requires forall j :: j in s ==> Untouched(s[j])
    requires Never(s, acts, Endangers)
    requires id in Run(s, acts)
    ensures Run(s, acts)[id].sent <= 1
  {
    forall p, e | Inv(p) && !Endangers(p, e) ensures Inv(Step(p, e)) {
      StepKeepsInv(p, e);
    }
    RunKeeps(s, acts, Inv, Endangers);
  }

  /** Endangered by something other than a manual confirmation. */
  predicate EndangersOtherwise(p: Payment, e: Event) {
    Endangers(p, e) && !(e.Manual? && e.newStatus == Some(PayinConfirmed))
  }

  /** So manual confirmations need no hypothesis at all: whatever the administrators confirm and whenever,
      the funds are sent at most once unless some other update takes the payment back. */
  lemma ConfirmationsSendOnce(s: System, acts: seq<Act>, id: string)
    requires forall j :: j in s ==> Untouched(s[j])
    requires Never(s, acts, EndangersOtherwise)
    requires id in Run(s, acts)
    ensures Run(s, acts)[id].sent <= 1
  {
    forall p, e | Inv(p) && !EndangersOtherwise(p, e) ensures Inv(Step(p, e)) {
      if e.Manual? && e.newStatus == Some(PayinConfirmed) {
        ConfirmationNeverTakesBack(p, e.note, e.auditOk, e.saveOk);
      }
      StepKeepsInv(p, e);
    }
    RunKeeps(s, acts, Inv, EndangersOtherwise);
  }

  /** The ordinary course: a pending payment, confirmed by an administrator and dispatched without
      trouble, is sent, and says so. */
  lemma OrdinaryHarborCourse(p: Payment, note: string)
    requires Untouched(p) && p.rail.Harbor? && p.status == PayinPending && p.requests == 0 && note != ""
    ensures var confirm := Manual(Some(PayinConfirmed), note, true, true);
            var q := RunOne(p, [confirm, Gate] + [Create(0), LookUp(0, false, true)] + [Submit(0, true)]);
            q.sent == 1 && q.status == PayoutSent && q.hash && Careful(p, [confirm, Gate])
  {
    var confirm := Manual(Some(PayinConfirmed), note, true, true);
    Two(p, confirm, Gate);
    var r := RunOne(p, [confirm, Gate]);
    assert r.phases == [Begun];
    HarborDispatchCourse(r);
    Append(p, [confirm, Gate], [Create(0), LookUp(0, false, true)]);
    Append(p, [confirm, Gate] + [Create(0), LookUp(0, false, true)], [Submit(0, true)]);
  }

  lemma HarborDispatchCourse(r: Payment)
    requires r.rail.Harbor? && r.phases == [Begun] && r.sent == 0
    ensures var q := RunOne(RunOne(r, [Create(0), LookUp(0, false, true)]), [Submit(0, true)]);
            q.sent == 1 && q.status == PayoutSent && q.hash
  {
    Two(r, Create(0), LookUp(0, false, true));
    var t := RunOne(r, [Create(0), LookUp(0, false, true)]);
    assert t.phases == [Submitting(r.memos)];
    One(t, Submit(0, true));
  }

  lemma OrdinaryVitaCourse(p: Payment, note: string)
    requires Untouched(p) && p.rail.Vita? && p.status == PayinPending && p.requests == 0 && note != ""
    ensures var confirm := Manual(Some(PayinConfirmed), note, true, true);
            var q := RunOne(p, [confirm, Gate] + [Submit(0, true)]);
            q.sent == 1 && q.status == PayoutSent && !q.hash
  {
    var confirm := Manual(Some(PayinConfirmed), note, true, true);
    Two(p, confirm, Gate);
    var r := RunOne(p, [confirm, Gate]);
    assert r.phases == [Begun];
    One(r, Submit(0, true));
    Append(p, [confirm, Gate], [Submit(0, true)]);
  }

  /** A Harbor transaction whose hash is recorded may be taken back: the next dispatch stops at it. */
  lemma RecordedHarborIsSafe(p: Payment, e: Event)
    requires Inv(p) && p.hash
    ensures p.rail.Harbor? && p.sent == 1 && !Endangers(p, e)
  {
  }

  /** Why the memo alone does not: the funds go out and the record fails ... */
  lemma UnrecordedSend(p: Payment)
    requires p.rail.Harbor? && p.status.PayinConfirmed? && p.requests > 0 && p.transfer.None? && !p.hash && p.phases == []
    ensures var q := RunOne(p, [Gate, Create(0)] + [LookUp(0, false, true), Submit(0, false)]);
            q.rail.Harbor? && q.status.Failed? && q.sent == p.sent + 1 && !q.hash && q.transfer.Some? && q.phases == [Over]
  {
    Two(p, Gate, Create(0));
    var p2 := RunOne(p, [Gate, Create(0)]);
    assert p2.phases == [Instructed(p.memos, true)];
    Two(p2, LookUp(0, false, true), Submit(0, false));
    Append(p, [Gate, Create(0)], [LookUp(0, false, true), Submit(0, false)]);
  }

  /** ... then an administrator takes the payment back and confirms it, and the lookup misses the memo. */
  lemma SentAgain(q: Payment, note: string)
    requires q.rail.Harbor? && q.status.Failed? && q.sent > 0 && !q.hash && q.transfer.Some? && q.phases == [Over] && note != ""
    ensures var back, again := Manual(Some(PayinPending), note, true, true), Manual(Some(PayinConfirmed), note, true, true);
            && Endangers(q, back)
            && RunOne(q, [back, again] + ([Gate, LookUp(1, false, true)] + [Submit(1, true)])).sent == q.sent + 1
  {
    var back, again := Manual(Some(PayinPending), note, true, true), Manual(Some(PayinConfirmed), note, true, true);
    Two(q, back, again);
    Append(q, [back, again], [Gate, LookUp(1, false, true)] + [Submit(1, true)]);
    DispatchedAgain(RunOne(q, [back, again]));
  }

  lemma DispatchedAgain(q: Payment)
    requires q.rail.Harbor? && q.status.PayinConfirmed? && q.requests > 0 && !q.hash && q.transfer.Some? && q.phases == [Over]
    ensures RunOne(q, [Gate, LookUp(1, false, true)] + [Submit(1, true)]).sent == q.sent + 1
  {
    Two(q, Gate, LookUp(1, false, true));
    var r := RunOne(q, [Gate, LookUp(1, false, true)]);
    One(r, Submit(1, true));
    Append(q, [Gate, LookUp(1, false, true)], [Submit(1, true)]);
  }

  /** Gates passed, plus the one that may pass now, are covered by the armings. */
  predicate Armed(p: Payment, spare: nat) {
    |p.phases| + (if p.status.PayinConfirmed? then 1 else 0) <= p.arms + spare
  }

  /** A dispatch passes the gate only after a confirmation or a re-arm of its own; the birth of a
      transaction as payin_confirmed counts as one. */
  lemma DispatchNeedsArming(s: System, acts: seq<Act>, id: string, bornConfirmed: bool)
    requires forall j :: j in s ==> Untouched(s[j]) && (s[j].status.PayinConfirmed? ==> bornConfirmed)
    requires id in Run(s, acts)
    ensures |Run(s, acts)[id].phases| <= Run(s, acts)[id].arms + if bornConfirmed then 1 else 0
  {
    var spare := if bornConfirmed then 1 else 0;
    AllActsFine(s, acts);
    forall p, e | Armed(p, spare) ensures Armed(Step(p, e), spare) {
      ArmedStep(p, e, spare);
    }
    RunKeeps(s, acts, p => Armed(p, spare), (p, e) => false);
  }

  lemma ArmedStep(p: Payment, e: Event, spare: nat)
    requires Armed(p, spare)
    ensures Armed(Step(p, e), spare)
  {
  }

  lemma {:induction false} AllActsFine(s: System, acts: seq<Act>)
    ensures Never(s, acts, (p, e) => false)
    decreases |acts|
  {
    if acts != [] {
      AllActsFine(StepAll(s, acts[0]), acts[1..]);
    }
  }
}
