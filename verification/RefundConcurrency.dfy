/** Any number of wallet refunds running at once, under snapshot isolation: a session reads the
    documents as they were when it started, keeps its writes to itself, and its commit fails if a
    document it wrote was written by somebody else in the meantime. Beside them run the refunds
    registered by other means, which read and later save without a session. */
module RefundConcurrency {
  import opened Ledger
  import opened Options
  import opened Refunds
  import Runs

  /** The database with the number of writes each document has seen. */
  datatype Versioned = Versioned(books: Books, txWrites: map<string, nat>, walletWrites: map<nat, nat>)

  datatype Session =
    | Open(txId: string, amount: real, snapshot: Versioned)
    | Staged(txId: string, amount: real, snapshot: Versioned, plan: Plan)
    | Committed
    | Aborted

  /** A registration that has read its transaction and decided what to save. */
  datatype Registration = Registration(txId: string, refund: Refund)

  /** Sessions are named by the wtxId their movement will carry. */
  datatype System = System(db: Versioned, sessions: map<string, Session>, registrations: map<string, Registration>)

  datatype Event =
    | Start(wtxId: string, txId: string, amount: real)
    | Stage(wtxId: string)
    | Commit(wtxId: string, auditOk: bool)
    | Fail(wtxId: string)
    | StatusChange(txId: string, status: Status)          // any other process: the refund field is left alone
    | Read(reg: string, txId: string, request: Request)   // a refund made by other means: read and check
    | Save(reg: string)                                   // and save over whatever is there by then

  function Writes<K>(m: map<K, nat>, k: K): nat {
    if k in m then m[k] else 0
  }

  predicate Conflicts(db: Versioned, s: Session)
    requires s.Staged? && s.plan.Credit?
  {
    || Writes(db.txWrites, s.txId) != Writes(s.snapshot.txWrites, s.txId)
    || Writes(db.walletWrites, s.plan.user) != Writes(s.snapshot.walletWrites, s.plan.user)
  }

  function WriteTx(db: Versioned, b: Books, txId: string): Versioned {
    db.(books := b, txWrites := db.txWrites[txId := Writes(db.txWrites, txId) + 1])
  }

  function Step(sys: System, e: Event): System {
    match e
    case Start(wtxId, txId, amount) =>
      if wtxId in sys.sessions || wtxId == "" then sys
      else sys.(sessions := sys.sessions[wtxId := Open(txId, amount, sys.db)])
    case Stage(wtxId) =>
      if wtxId !in sys.sessions || !sys.sessions[wtxId].Open? then sys
      else
        var s := sys.sessions[wtxId];
        var plan := PlanWalletRefund(s.snapshot.books, s.txId, wtxId, s.amount);
        sys.(sessions := sys.sessions[wtxId :=
          if plan.Credit? then Staged(s.txId, s.amount, s.snapshot, plan) else Aborted])
    case Commit(wtxId, auditOk) =>
      if wtxId !in sys.sessions || !sys.sessions[wtxId].Staged? || !sys.sessions[wtxId].plan.Credit? then sys
      else
        var s := sys.sessions[wtxId];
        if !auditOk || Conflicts(sys.db, s) then sys.(sessions := sys.sessions[wtxId := Aborted])
        else
          var user := s.plan.user;
          var db := WriteTx(sys.db, ApplyCredit(sys.db.books, s.txId, wtxId, s.amount, s.plan), s.txId);
          sys.(db := db.(walletWrites := db.walletWrites[user := Writes(db.walletWrites, user) + 1]),
               sessions := sys.sessions[wtxId := Committed])
    case Fail(wtxId) =>
      if wtxId !in sys.sessions || sys.sessions[wtxId].Committed? then sys
      else sys.(sessions := sys.sessions[wtxId := Aborted])
    case StatusChange(txId, status) =>
      if txId !in sys.db.books.txs then sys
      else
        var b := sys.db.books;
        sys.(db := WriteTx(sys.db, b.(txs := b.txs[txId := b.txs[txId].(status := status)]), txId))
    case Read(reg, txId, request) =>
      if reg in sys.registrations || !ByOtherMeans(request)
         || RegistrationStatus(sys.db.books, txId, request, true) != 200 then sys
      else
        var amount := RequestedAmount(request, sys.db.books.txs[txId]);
        var refund := Refund(request.kind, request.wtxId, request.bankReference, amount);
        sys.(registrations := sys.registrations[reg := Registration(txId, refund)])
    case Save(reg) =>
      if reg !in sys.registrations then sys
      else
        var r := sys.registrations[reg];
        SaveTx(sys.(registrations := sys.registrations - {reg}), r.txId, r.refund)
  }

  /** The registrations that do not go through the wallet session. */
  predicate ByOtherMeans(request: Request) {
    request.kind != WalletBOB || request.wtxId != ""
  }

  /** An update by `_id` alone: status and the whole `refund` subdocument are replaced. */
  function SaveTx(sys: System, txId: string, refund: Refund): System {
    if txId !in sys.db.books.txs then sys
    else
      var b := sys.db.books;
      var tx := b.txs[txId].(status := Refunded, refund := Some(refund));
      sys.(db := WriteTx(sys.db, b.(txs := b.txs[txId := tx]), txId))
  }

  function Run(sys: System, es: seq<Event>): System {
    Runs.Run(Step, sys, es)
  }

  // ── The ledger invariant ──────────────────────────────────────────────────

  function CreditsFor(ms: seq<Movement>, txId: string): nat {
    if ms == [] then 0
    else CreditsFor(ms[..|ms| - 1], txId) + if ms[|ms| - 1].reference == txId then 1 else 0
  }

  function Credited(ms: seq<Movement>, user: nat): real {
    if ms == [] then 0.0
    else Credited(ms[..|ms| - 1], user) + if ms[|ms| - 1].userId == user then ms[|ms| - 1].amount else 0.0
  }

  /** The balance the latest movement of the user left, or the opening one. */
  function LastBalance(opening: map<nat, real>, ms: seq<Movement>, user: nat): real {
    if ms == [] then Balance(opening, user)
    else if ms[|ms| - 1].userId == user then ms[|ms| - 1].balanceAfter
    else LastBalance(opening, ms[..|ms| - 1], user)
  }

  predicate Chained(opening: map<nat, real>, ms: seq<Movement>) {
    ms == [] ||
    var m := ms[|ms| - 1];
    && Chained(opening, ms[..|ms| - 1])
    && m.balanceBefore == LastBalance(opening, ms[..|ms| - 1], m.userId)
    && m.balanceAfter == m.balanceBefore + m.amount
  }

  ghost predicate OneCreditEach(b: Books) {
    && (forall txId :: CreditsFor(b.movements, txId) <= 1)
    && (forall txId :: CreditsFor(b.movements, txId) == 1 ==> txId in b.txs && HasEvidence(b.txs[txId]))
  }

  /** A movement belongs to the owner of the transaction it refunds. */
  predicate Placed(b: Books, m: Movement) {
    m.wtxId != "" && m.reference in b.txs && b.txs[m.reference].userId == m.userId
  }

  /** The transaction a movement refunds names that movement as its evidence. */
  predicate ProvenBy(b: Books, m: Movement) {
    && m.wtxId != "" && m.reference in b.txs
    && b.txs[m.reference].refund.Some?
    && b.txs[m.reference].refund.value.wtxId == m.wtxId
    && b.txs[m.reference].refund.value.amount == m.amount
    && b.txs[m.reference].userId == m.userId
  }

  ghost predicate Proven(b: Books) {
    forall i :: 0 <= i < |b.movements| ==> ProvenBy(b, b.movements[i])
  }

  ghost predicate AuditMirrors(b: Books) {
    && |b.audit| == |b.movements|
    && (forall i :: 0 <= i < |b.audit| ==>
          var a, m := b.audit[i], b.movements[i];
          a.txId == m.reference && a.wtxId == m.wtxId
          && a.balanceBefore == m.balanceBefore && a.balanceAfter == m.balanceAfter)
  }

  ghost predicate Sound(opening: map<nat, real>, b: Books) {
    && OneCreditEach(b)
    && (forall i :: 0 <= i < |b.movements| ==> Placed(b, b.movements[i]))
    && Chained(opening, b.movements)
    && (forall user :: Balance(b.wallets, user) == LastBalance(opening, b.movements, user))
    && AuditMirrors(b)
  }

  /** A document whose write count has not moved since the snapshot reads as it did then. */
  ghost predicate Tracks(db: Versioned, snapshot: Versioned) {
    TracksTxs(db, snapshot) && TracksWallets(db, snapshot)
  }

  ghost predicate TracksTxs(db: Versioned, snapshot: Versioned) {
    && (forall k :: Writes(snapshot.txWrites, k) <= Writes(db.txWrites, k))
    && (forall k :: Writes(snapshot.txWrites, k) == Writes(db.txWrites, k) ==>
          (k in snapshot.books.txs <==> k in db.books.txs)
          && (k in db.books.txs ==> db.books.txs[k] == snapshot.books.txs[k]))
  }

  ghost predicate TracksWallets(db: Versioned, snapshot: Versioned) {
    && (forall k :: Writes(snapshot.walletWrites, k) <= Writes(db.walletWrites, k))
    && (forall k :: Writes(snapshot.walletWrites, k) == Writes(db.walletWrites, k) ==>
          Balance(snapshot.books.wallets, k) == Balance(db.books.wallets, k))
  }

  predicate Live(s: Session) {
    s.Open? || s.Staged?
  }

  ghost predicate SessionOk(db: Versioned, wtxId: string, s: Session) {
    && wtxId != ""
    && (Live(s) ==> Tracks(db, s.snapshot))
    && (s.Staged? ==> s.plan == PlanWalletRefund(s.snapshot.books, s.txId, wtxId, s.amount) && s.plan.Credit?)
  }

  ghost predicate Inv(opening: map<nat, real>, sys: System) {
    && Sound(opening, sys.db.books)
    && (forall id :: id in sys.sessions ==> SessionOk(sys.db, id, sys.sessions[id]))
  }

  // ── One step ──────────────────────────────────────────────────────────────

  /** A commit that meets no conflict does to the current books what the refund run alone,
      against those same books, would do: snapshot isolation is serial here. */
  lemma CommitIsSerial(sys: System, wtxId: string)
    requires wtxId in sys.sessions && SessionOk(sys.db, wtxId, sys.sessions[wtxId])
    requires sys.sessions[wtxId].Staged? && !Conflicts(sys.db, sys.sessions[wtxId])
    ensures var s := sys.sessions[wtxId];
            && PlanWalletRefund(sys.db.books, s.txId, wtxId, s.amount) == s.plan
            && Step(sys, Commit(wtxId, true)).db.books == WalletRefund(sys.db.books, s.txId, wtxId, s.amount, true)
  {
  }

  /** Whatever ends a session other than a successful commit leaves the database as it was. */
  lemma AbortLeavesDatabase(sys: System, e: Event, wtxId: string)
    requires e.Start? || e.Stage? || e.Commit? || e.Fail?
    requires e.wtxId == wtxId
    requires wtxId in Step(sys, e).sessions && !Step(sys, e).sessions[wtxId].Committed?
    ensures Step(sys, e).db == sys.db
  {
  }

  /** The new movement is the first for its transaction. */
  lemma CreditOnce(b: Books, txId: string, wtxId: string, amount: real)
    requires OneCreditEach(b) && wtxId != "" && PlanWalletRefund(b, txId, wtxId, amount).Credit?
    ensures OneCreditEach(ApplyCredit(b, txId, wtxId, amount, PlanWalletRefund(b, txId, wtxId, amount)))
  {
    CreditCounts(b, txId, wtxId, amount);
  }

  lemma CreditCounts(b: Books, txId: string, wtxId: string, amount: real)
    requires PlanWalletRefund(b, txId, wtxId, amount).Credit?
    ensures var ms := ApplyCredit(b, txId, wtxId, amount, PlanWalletRefund(b, txId, wtxId, amount)).movements;
            forall id :: CreditsFor(ms, id) == CreditsFor(b.movements, id) + if id == txId then 1 else 0
  {
    var ms := ApplyCredit(b, txId, wtxId, amount, PlanWalletRefund(b, txId, wtxId, amount)).movements;
    assert ms[..|b.movements|] == b.movements;
  }

  lemma CreditChains(opening: map<nat, real>, b: Books, txId: string, wtxId: string, amount: real)
    requires Sound(opening, b) && PlanWalletRefund(b, txId, wtxId, amount).Credit?
    ensures var b' := ApplyCredit(b, txId, wtxId, amount, PlanWalletRefund(b, txId, wtxId, amount));
            && Chained(opening, b'.movements)
            && (forall user :: Balance(b'.wallets, user) == LastBalance(opening, b'.movements, user))
  {
    var p := PlanWalletRefund(b, txId, wtxId, amount);
    var b' := ApplyCredit(b, txId, wtxId, amount, p);
    assert b'.movements[..|b.movements|] == b.movements;
  }

  lemma CreditKeepsSound(opening: map<nat, real>, b: Books, txId: string, wtxId: string, amount: real)
    requires Sound(opening, b) && wtxId != ""
    ensures Sound(opening, WalletRefund(b, txId, wtxId, amount, true))
  {
    var p := PlanWalletRefund(b, txId, wtxId, amount);
    if p.Credit? {
      CreditOnce(b, txId, wtxId, amount);
      CreditChains(opening, b, txId, wtxId, amount);
    }
  }

  /** A movement and the count of its transaction. */
  lemma {:induction false} MovementCounts(ms: seq<Movement>, i: nat)
    requires i < |ms|
    ensures CreditsFor(ms, ms[i].reference) >= 1
  {
    if i < |ms| - 1 {
      MovementCounts(ms[..|ms| - 1], i);
    }
  }

  lemma {:induction false} NoMovement(ms: seq<Movement>, txId: string)
    requires CreditsFor(ms, txId) >= 1
    ensures exists i :: 0 <= i < |ms| && ms[i].reference == txId
  {
    if ms[|ms| - 1].reference != txId {
      NoMovement(ms[..|ms| - 1], txId);
      var i :| 0 <= i < |ms| - 1 && ms[..|ms| - 1][i].reference == txId;
      assert ms[i].reference == txId;
    }
  }

  lemma CreditKeepsProven(opening: map<nat, real>, b: Books, txId: string, wtxId: string, amount: real)
    requires Sound(opening, b) && Proven(b) && wtxId != ""
    ensures Proven(WalletRefund(b, txId, wtxId, amount, true))
  {
    var p := PlanWalletRefund(b, txId, wtxId, amount);
    if p.Credit? {
      var b' := ApplyCredit(b, txId, wtxId, amount, p);
      forall i | 0 <= i < |b'.movements| ensures ProvenBy(b', b'.movements[i]) {
        if i < |b.movements| {
          assert ProvenBy(b, b.movements[i]);
          MovementCounts(b.movements, i);
        }
      }
    }
  }

  lemma WriteTxTracks(db: Versioned, snapshot: Versioned, b: Books, txId: string)
    requires Tracks(db, snapshot)
    requires b.wallets == db.books.wallets && (forall k :: k != txId ==> (k in b.txs <==> k in db.books.txs))
    requires forall k :: k in b.txs && k != txId ==> b.txs[k] == db.books.txs[k]
    ensures Tracks(WriteTx(db, b, txId), snapshot)
  {
  }

  lemma CommitTracks(sys: System, wtxId: string, snapshot: Versioned)
    requires Tracks(sys.db, snapshot)
    ensures Tracks(Step(sys, Commit(wtxId, true)).db, snapshot)
  {
    CommitTracksTxs(sys, wtxId, snapshot);
    CommitTracksWallets(sys, wtxId, snapshot);
  }

  lemma CommitTracksTxs(sys: System, wtxId: string, snapshot: Versioned)
    requires TracksTxs(sys.db, snapshot)
    ensures TracksTxs(Step(sys, Commit(wtxId, true)).db, snapshot)
  {
  }

  lemma CommitTracksWallets(sys: System, wtxId: string, snapshot: Versioned)
    requires TracksWallets(sys.db, snapshot)
    ensures TracksWallets(Step(sys, Commit(wtxId, true)).db, snapshot)
  {
  }

  lemma CommitKeepsSound(opening: map<nat, real>, sys: System, wtxId: string)
    requires Sound(opening, sys.db.books)
    requires wtxId in sys.sessions ==> SessionOk(sys.db, wtxId, sys.sessions[wtxId])
    ensures Sound(opening, Step(sys, Commit(wtxId, true)).db.books)
  {
    if Step(sys, Commit(wtxId, true)).db != sys.db {
      var s := sys.sessions[wtxId];
      CommitIsSerial(sys, wtxId);
      CreditKeepsSound(opening, sys.db.books, s.txId, wtxId, s.amount);
    }
  }

  lemma CommitKeepsSession(sys: System, wtxId: string, id: string)
    requires id in sys.sessions && SessionOk(sys.db, id, sys.sessions[id])
    ensures var sys' := Step(sys, Commit(wtxId, true));
            id in sys'.sessions && SessionOk(sys'.db, id, sys'.sessions[id])
  {
    if id != wtxId && Live(sys.sessions[id]) {
      CommitTracks(sys, wtxId, sys.sessions[id].snapshot);
    }
  }

  lemma CommitKeepsInv(opening: map<nat, real>, sys: System, wtxId: string)
    requires Inv(opening, sys)
    ensures Inv(opening, Step(sys, Commit(wtxId, true)))
  {
    var sys' := Step(sys, Commit(wtxId, true));
    CommitKeepsSound(opening, sys, wtxId);
    forall id | id in sys'.sessions ensures SessionOk(sys'.db, id, sys'.sessions[id]) {
      CommitKeepsSession(sys, wtxId, id);
    }
  }

  /** Another process rewrites one transaction; if it was credited, it keeps some evidence. */
  lemma OtherWriteKeepsInv(opening: map<nat, real>, sys: System, txId: string, tx: Tx)
    requires Inv(opening, sys) && txId in sys.db.books.txs
    requires CreditsFor(sys.db.books.movements, txId) == 1 ==> HasEvidence(tx)
    requires tx.userId == sys.db.books.txs[txId].userId
    ensures var b := sys.db.books;
            Inv(opening, sys.(db := WriteTx(sys.db, b.(txs := b.txs[txId := tx]), txId)))
  {
    var b := sys.db.books.(txs := sys.db.books.txs[txId := tx]);
    forall i | 0 <= i < |b.movements| ensures Placed(b, b.movements[i]) {
      assert Placed(sys.db.books, b.movements[i]);
    }
    var sys' := sys.(db := WriteTx(sys.db, b, txId));
    forall id | id in sys.sessions ensures SessionOk(sys'.db, id, sys.sessions[id]) {
      assert SessionOk(sys.db, id, sys.sessions[id]);
      if Live(sys.sessions[id]) {
        WriteTxTracks(sys.db, sys.sessions[id].snapshot, b, txId);
      }
    }
  }

  /** A registration without any reference that saves over the evidence of a credit. */
  predicate Erases(sys: System, e: Event) {
    && e.Save? && e.reg in sys.registrations && sys.registrations[e.reg].txId in sys.db.books.txs
    && CreditsFor(sys.db.books.movements, sys.registrations[e.reg].txId) == 1
    && sys.registrations[e.reg].refund.wtxId == "" && sys.registrations[e.reg].refund.bankReference == ""
  }

  /** A registration that saves other evidence, or none, over that of a credit. */
  predicate Overwrites(sys: System, e: Event) {
    && e.Save? && e.reg in sys.registrations && sys.registrations[e.reg].txId in sys.db.books.txs
    && (var r := sys.registrations[e.reg];
        var held := sys.db.books.txs[r.txId].refund;
        && CreditsFor(sys.db.books.movements, r.txId) == 1
        && !(held.Some? && r.refund.wtxId == held.value.wtxId && r.refund.amount == held.value.amount))
  }

  /** A registration is read before any credit of its transaction: what it may erase was committed
      between its read and its save. */
  lemma ReadSeesNoCredit(opening: map<nat, real>, sys: System, e: Event)
    requires Sound(opening, sys.db.books) && e.Read? && Step(sys, e) != sys
    ensures CreditsFor(sys.db.books.movements, e.txId) == 0
    ensures e.reg in Step(sys, e).registrations && Step(sys, e).registrations[e.reg].txId == e.txId
  {
    assert CreditsFor(sys.db.books.movements, e.txId) <= 1;
  }

  lemma SaveKeepsInv(opening: map<nat, real>, sys: System, reg: string)
    requires Inv(opening, sys) && reg in sys.registrations
    ensures Inv(opening, Step(sys, Save(reg))) <==> !Erases(sys, Save(reg))
  {
    var r := sys.registrations[reg];
    var rest := sys.(registrations := sys.registrations - {reg});
    if r.txId in sys.db.books.txs {
      var tx := sys.db.books.txs[r.txId].(status := Refunded, refund := Some(r.refund));
      if Erases(sys, Save(reg)) {
        var b' := Step(sys, Save(reg)).db.books;
        assert CreditsFor(b'.movements, r.txId) == 1 && !HasEvidence(b'.txs[r.txId]);
      } else {
        OtherWriteKeepsInv(opening, rest, r.txId, tx);
      }
    }
  }

  /** The exact step: an event keeps the ledger sound if and only if it is no erasure. */
  lemma StepKeepsInv(opening: map<nat, real>, sys: System, e: Event)
    requires Inv(opening, sys)
    ensures Inv(opening, Step(sys, e)) <==> !Erases(sys, e)
  {
    match e
    case Commit(wtxId, auditOk) =>
      if auditOk {
        CommitKeepsInv(opening, sys, wtxId);
      }
    case StatusChange(txId, status) =>
      if txId in sys.db.books.txs {
        OtherWriteKeepsInv(opening, sys, txId, sys.db.books.txs[txId].(status := status));
      }
    case Save(reg) =>
      if reg in sys.registrations {
        SaveKeepsInv(opening, sys, reg);
      }
    case Read(_, _, _) =>
    case Start(_, _, _) =>
    case Stage(_) =>
    case Fail(_) =>
  }

  lemma SaveKeepsProven(opening: map<nat, real>, sys: System, reg: string)
    requires Inv(opening, sys) && Proven(sys.db.books) && reg in sys.registrations
    ensures Proven(Step(sys, Save(reg)).db.books) <==> !Overwrites(sys, Save(reg))
  {
    var r := sys.registrations[reg];
    var b, b' := sys.db.books, Step(sys, Save(reg)).db.books;
    if r.txId in b.txs {
      assert CreditsFor(b.movements, r.txId) <= 1;
      if Overwrites(sys, Save(reg)) {
        NoMovement(b.movements, r.txId);
        var i :| 0 <= i < |b.movements| && b.movements[i].reference == r.txId;
        assert ProvenBy(b, b.movements[i]);
        assert !ProvenBy(b', b'.movements[i]);
      } else {
        forall i | 0 <= i < |b'.movements| ensures ProvenBy(b', b'.movements[i]) {
          assert ProvenBy(b, b.movements[i]);
          MovementCounts(b.movements, i);
        }
      }
    }
  }

  /** The exact step for the evidence: every movement stays named by its transaction if and only if the
      event overwrites none. */
  lemma StepKeepsProven(opening: map<nat, real>, sys: System, e: Event)
    requires Inv(opening, sys) && Proven(sys.db.books)
    ensures Proven(Step(sys, e).db.books) <==> !Overwrites(sys, e)
  {
    match e
    case Commit(wtxId, auditOk) =>
      if Step(sys, e).db != sys.db {
        CommitIsSerial(sys, wtxId);
        CreditKeepsProven(opening, sys.db.books, sys.sessions[wtxId].txId, wtxId, sys.sessions[wtxId].amount);
      }
    case StatusChange(txId, status) =>
      var b, b' := sys.db.books, Step(sys, e).db.books;
      forall i | 0 <= i < |b'.movements| ensures ProvenBy(b', b'.movements[i]) {
        assert ProvenBy(b, b.movements[i]);
      }
    case Save(reg) =>
      if reg in sys.registrations {
        SaveKeepsProven(opening, sys, reg);
      }
    case Read(_, _, _) =>
    case Start(_, _, _) =>
    case Stage(_) =>
    case Fail(_) =>
  }

  ghost predicate Never(sys: System, es: seq<Event>, bad: (System, Event) -> bool) {
    Runs.Never(Step, bad, sys, es)
  }

  lemma {:induction false} RunKeepsInv(opening: map<nat, real>, sys: System, es: seq<Event>)
    requires Inv(opening, sys) && Never(sys, es, Erases)
    ensures Inv(opening, Run(sys, es))
    decreases |es|
  {
    if es != [] {
      StepKeepsInv(opening, sys, es[0]);
      RunKeepsInv(opening, Step(sys, es[0]), es[1..]);
    }
  }

  lemma {:induction false} RunKeepsProven(opening: map<nat, real>, sys: System, es: seq<Event>)
    requires Inv(opening, sys) && Proven(sys.db.books) && Never(sys, es, Overwrites)
    ensures Inv(opening, Run(sys, es)) && Proven(Run(sys, es).db.books)
    decreases |es|
  {
    if es != [] {
      if Erases(sys, es[0]) {
        ErasureOverwrites(opening, sys, es[0]);
      }
      StepKeepsInv(opening, sys, es[0]);
      StepKeepsProven(opening, sys, es[0]);
      RunKeepsProven(opening, Step(sys, es[0]), es[1..]);
    }
  }

  lemma ErasureOverwrites(opening: map<nat, real>, sys: System, e: Event)
    requires Inv(opening, sys) && Proven(sys.db.books) && Erases(sys, e)
    ensures Overwrites(sys, e)
  {
    var txId := sys.registrations[e.reg].txId;
    NoMovement(sys.db.books.movements, txId);
    var i :| 0 <= i < |sys.db.books.movements| && sys.db.books.movements[i].reference == txId;
    assert ProvenBy(sys.db.books, sys.db.books.movements[i]);
  }

  // ── Whole runs ────────────────────────────────────────────────────────────

  lemma {:induction false} ChainAdds(opening: map<nat, real>, ms: seq<Movement>, user: nat)
    requires Chained(opening, ms)
    ensures LastBalance(opening, ms, user) == Balance(opening, user) + Credited(ms, user)
  {
    if ms != [] {
      ChainAdds(opening, ms[..|ms| - 1], user);
    }
  }

  /** Consecutive movements of one user: the later starts at the balance the earlier left. */
  lemma {:induction false} ChainLinks(opening: map<nat, real>, ms: seq<Movement>, i: nat, j: nat)
    requires Chained(opening, ms) && i < j < |ms| && ms[i].userId == ms[j].userId
    requires forall k :: i < k < j ==> ms[k].userId != ms[j].userId
    ensures ms[j].balanceBefore == ms[i].balanceAfter
    decreases |ms|
  {
    var front := ms[..|ms| - 1];
    if j < |ms| - 1 {
      ChainLinks(opening, front, i, j);
    } else {
      LastBalanceOf(opening, front, i, ms[j].userId);
    }
  }

  lemma {:induction false} LastBalanceOf(opening: map<nat, real>, ms: seq<Movement>, i: nat, user: nat)
    requires i < |ms| && ms[i].userId == user && forall k :: i < k < |ms| ==> ms[k].userId != user
    ensures LastBalance(opening, ms, user) == ms[i].balanceAfter
  {
    if i < |ms| - 1 {
      LastBalanceOf(opening, ms[..|ms| - 1], i, user);
    }
  }

  function Idle(b: Books): System {
    System(Versioned(b, map[], map[]), map[], map[])
  }

  /** The main result. From sound books and nothing in flight, in every interleaving of every number of
      refund sessions, failures, status changes and registrations in which no registration without a
      reference saves over a credit it did not see: no transaction is credited twice, every wallet holds
      its opening balance plus its refund movements, the movements chain, and the audit log mirrors them
      one for one. */
  lemma EveryRunIsSound(opening: map<nat, real>, b: Books, es: seq<Event>, txId: string, user: nat)
    requires Sound(opening, b) && Never(Idle(b), es, Erases)
    ensures var b' := Run(Idle(b), es).db.books;
            && CreditsFor(b'.movements, txId) <= 1
            && (CreditsFor(b'.movements, txId) == 1 ==> txId in b'.txs && HasEvidence(b'.txs[txId]))
            && Balance(b'.wallets, user) == Balance(opening, user) + Credited(b'.movements, user)
            && Chained(opening, b'.movements)
            && AuditMirrors(b')
  {
    RunKeepsInv(opening, Idle(b), es);
    ChainAdds(opening, Run(Idle(b), es).db.books.movements, user);
  }

  /** And while no registration saves other evidence over that of a credit, every movement is the one
      its transaction names. */
  lemma EveryRunIsProven(opening: map<nat, real>, b: Books, es: seq<Event>)
    requires Sound(opening, b) && Proven(b) && Never(Idle(b), es, Overwrites)
    ensures Sound(opening, Run(Idle(b), es).db.books) && Proven(Run(Idle(b), es).db.books)
  {
    RunKeepsProven(opening, Idle(b), es);
  }

  /** A refund that meets nobody else runs through the protocol exactly as the handler does. */
  lemma LoneAttempt(sys: System, wtxId: string, txId: string, amount: real, auditOk: bool)
    requires wtxId != "" && wtxId !in sys.sessions
    ensures var sys' := Run(sys, [Start(wtxId, txId, amount), Stage(wtxId), Commit(wtxId, auditOk)]);
            && sys'.db.books == WalletRefund(sys.db.books, txId, wtxId, amount, auditOk)
            && wtxId in sys'.sessions
            && (sys'.sessions[wtxId].Committed? <==>
                  auditOk && PlanWalletRefund(sys.db.books, txId, wtxId, amount).Credit?)
  {
    var sys1 := Step(sys, Start(wtxId, txId, amount));
    var sys2 := Step(sys1, Stage(wtxId));
    var sys3 := Step(sys2, Commit(wtxId, auditOk));
    Runs.Three(Step, sys, Start(wtxId, txId, amount), Stage(wtxId), Commit(wtxId, auditOk));
  }

  // ── A credit erased ───────────────────────────────────────────────────────

  function Attempt(wtxId: string, txId: string, amount: real): seq<Event> {
    [Start(wtxId, txId, amount), Stage(wtxId), Commit(wtxId, true)]
  }

  lemma AttemptNeverErases(sys: System, wtxId: string, txId: string, amount: real)
    ensures Never(sys, Attempt(wtxId, txId, amount), Erases)
  {
    var es := Attempt(wtxId, txId, amount);
    assert es == es[..2] + [es[2]] && es[..2] == [es[0], es[1]];
    Runs.NeverSplit(Step, Erases, sys, es[..2], [es[2]]);
    Runs.NeverTwo(Step, Erases, sys, es[0], es[1]);
    Runs.NeverOne(Step, Erases, Run(sys, es[..2]), es[2]);
  }

  /** The next session credits the transaction again. */
  lemma ErasedIsCreditedAgain(opening: map<nat, real>, sys: System, e: Event, wtxId: string, amount: real)
    requires Inv(opening, sys) && Erases(sys, e) && wtxId != "" && wtxId !in sys.sessions
    ensures var txId := sys.registrations[e.reg].txId;
            CreditsFor(Run(Step(sys, e), Attempt(wtxId, txId, amount)).db.books.movements, txId) == 2
  {
    var txId := sys.registrations[e.reg].txId;
    LoneAttempt(Step(sys, e), wtxId, txId, amount, true);
    CreditCounts(Step(sys, e).db.books, txId, wtxId, amount);
  }

  /** The exact condition: after an event some run without a further erasure credits a transaction twice
      if and only if the event is an erasure. */
  lemma ErasesExactly(opening: map<nat, real>, sys: System, e: Event, wtxId: string)
    requires Inv(opening, sys) && wtxId != "" && wtxId !in sys.sessions
    ensures Erases(sys, e) <==>
              exists es, txId :: Never(Step(sys, e), es, Erases)
                                 && CreditsFor(Run(Step(sys, e), es).db.books.movements, txId) > 1
  {
    if Erases(sys, e) {
      var txId := sys.registrations[e.reg].txId;
      ErasedIsCreditedAgain(opening, sys, e, wtxId, 1.0);
      AttemptNeverErases(Step(sys, e), wtxId, txId, 1.0);
    } else {
      StepKeepsInv(opening, sys, e);
      forall es, txId | Never(Step(sys, e), es, Erases)
        ensures CreditsFor(Run(Step(sys, e), es).db.books.movements, txId) <= 1
      {
        RunKeepsInv(opening, Step(sys, e), es);
      }
    }
  }

  /** The input: a registration without references reads, a session credits, the registration saves, and
      a second session credits the same transaction once more. */
  lemma ErasureExample(b: Books, txId: string, request: Request, amount: real)
    requires txId in b.txs && RegistrationStatus(b, txId, request, true) == 200
    requires request.kind == External && request.wtxId == "" && request.bankReference == ""
    ensures var es := [Read("r", txId, request)] + Attempt("w1", txId, amount) + [Save("r")] + Attempt("w2", txId, amount);
            var b', user := Run(Idle(b), es).db.books, b.txs[txId].userId;
            && Balance(b'.wallets, user) == Balance(b.wallets, user) + amount + amount
            && CreditsFor(b'.movements, txId) == CreditsFor(b.movements, txId) + 2
  {
    var s0 := Idle(b);
    var s1 := Step(s0, Read("r", txId, request));
    var s2 := Run(s1, Attempt("w1", txId, amount));
    LoneAttempt(s1, "w1", txId, amount, true);
    AttemptKeeps(s1, "w1", txId, amount);
    CreditCounts(s1.db.books, txId, "w1", amount);
    var s3 := Step(s2, Save("r"));
    LoneAttempt(s3, "w2", txId, amount, true);
    CreditCounts(s3.db.books, txId, "w2", amount);
    var first := [Read("r", txId, request)];
    Runs.Split(Step, s0, first + Attempt("w1", txId, amount) + [Save("r")], Attempt("w2", txId, amount));
    Runs.Split(Step, s0, first + Attempt("w1", txId, amount), [Save("r")]);
    Runs.Split(Step, s0, first, Attempt("w1", txId, amount));
    Runs.One(Step, s0, first[0]);
    Runs.One(Step, s2, Save("r"));
  }

  lemma AttemptKeeps(sys: System, wtxId: string, txId: string, amount: real)
    ensures var sys' := Run(sys, Attempt(wtxId, txId, amount));
            sys'.registrations == sys.registrations && sys'.sessions.Keys <= sys.sessions.Keys + {wtxId}
  {
    Runs.Three(Step, sys, Start(wtxId, txId, amount), Stage(wtxId), Commit(wtxId, true));
  }
}
