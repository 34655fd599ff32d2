/** Closing expired SEP-24 instructions: a batch endpoint that several operators may call at once
    while deposits keep arriving. */
module Sep24 {
  import opened Ledger
  import opened ObjectIds
  import opened Options
  import Runs

  datatype LogEntry = Closure(reason: string, previous: Status) | Notice

  /** A transaction document, keyed by its `_id`; `alias` is its alytoTransactionId. */
  datatype Doc = Doc(
    alias: Option<string>, status: Status, expiresAt: Option<int>,
    stellarTx: bool, externalRef: bool, ipnLog: seq<LogEntry>)

  datatype Blocker = NotPending | NoExpiry | StillLive | HasStellarTx | HasExternalRef | HasEvents

  datatype Result = NotFound | Skipped(target: string, blockers: seq<Blocker>) | Cancelled(target: string) | Error(target: string)

  /** The audit entry of one closing: what was read about the target and when. `call` and `line` say
      which line of which response reports it. */
  datatype ClosureRecord = ClosureRecord(target: string, seen: Doc, at: int, reason: string, call: nat, line: nat)

  /** A candidate that passed the evaluation and waits for its database session. */
  datatype Candidate = Candidate(target: string, seen: Doc)

  /** One request being served: `results` is aligned with the ids done so far. */
  datatype Call = Call(ids: seq<string>, reason: string, now: int, results: seq<Result>, candidate: Option<Candidate>)

  datatype System = System(docs: map<string, Doc>, audit: seq<ClosureRecord>, calls: seq<Call>)

  datatype Fate = Commit | AuditFails | CommitFails

  datatype Event =
    | Open(id: string, doc: Doc)                             // a new transaction
    | Deposit(id: string)                                    // the monitor reconciles a received deposit
    | Trace(id: string)                                      // a provider notice is logged, the status stays
    | Move(id: string, status: Status)                       // any other status change
    | Start(ids: seq<string>, reason: string, now: int)
    | Look(call: nat, found: Option<string>)
    | Close(call: nat, fate: Fate)

  const MAX_IDS := 100
  const MIN_REASON_LENGTH := 10

  predicate PendingSep24(s: Status) {
    s.Sep24DepositPending? || s.Sep24WithdrawPending?
  }

  /** evaluateSep24Closure. */
  function Blockers(doc: Doc, now: int): (r: seq<Blocker>)
    ensures r == [] <==>
            && PendingSep24(doc.status) && doc.expiresAt.Some? && doc.expiresAt.value < now
            && !doc.stellarTx && !doc.externalRef && doc.ipnLog == []
  {
    (if PendingSep24(doc.status) then [] else [NotPending])
    + (if doc.expiresAt.None? then [NoExpiry] else if doc.expiresAt.value >= now then [StillLive] else [])
    + (if doc.stellarTx then [HasStellarTx] else [])
    + (if doc.externalRef then [HasExternalRef] else [])
    + if doc.ipnLog != [] then [HasEvents] else []
  }

  /** The lookup filter: by alytoTransactionId, or by `_id` when the text is one. Ids are trimmed. */
  predicate Names(rawId: string, id: string, doc: Doc) {
    doc.alias == Some(rawId) || Canonical(rawId) == Some(id)
  }

  /** An answer the database may give to a lookup. */
  predicate Answers(docs: map<string, Doc>, rawId: string, found: Option<string>) {
    match found
    case Some(id) => id in docs && Names(rawId, id, docs[id])
    case None => forall id :: id in docs ==> !Names(rawId, id, docs[id])
  }

  function Closed(doc: Doc, reason: string, previous: Status): Doc {
    doc.(status := Status.Cancelled, ipnLog := doc.ipnLog + [Closure(reason, previous)])
  }

  // ── Steps ─────────────────────────────────────────────────────────────────

  function Evaluated(c: Call, docs: map<string, Doc>, found: Option<string>): Call
    requires found.Some? ==> found.value in docs
  {
    match found
    case None => c.(results := c.results + [NotFound])
    case Some(id) =>
      var blockers := Blockers(docs[id], c.now);
      if blockers != [] then c.(results := c.results + [Skipped(id, blockers)])
      else c.(candidate := Some(Candidate(id, docs[id])))
  }

  function Reported(c: Call, r: Result): Call {
    c.(results := c.results + [r], candidate := None)
  }

  predicate Idle(c: Call) {
    c.candidate.None? && |c.results| < |c.ids|
  }

  /** The session: compare-and-set on the status, audit entry, commit. */
  function CloseStep(s: System, k: nat, fate: Fate): System
    requires k < |s.calls| && s.calls[k].candidate.Some?
  {
    var c := s.calls[k];
    var id, seen := c.candidate.value.target, c.candidate.value.seen;
    if id !in s.docs || !PendingSep24(s.docs[id].status) then
      s.(calls := s.calls[k := Reported(c, Skipped(id, [NotPending]))])
    else if fate != Commit then s.(calls := s.calls[k := Reported(c, Error(id))])
    else
      System(
        s.docs[id := Closed(s.docs[id], c.reason, seen.status)],
        s.audit + [ClosureRecord(id, seen, c.now, c.reason, k, |c.results|)],
        s.calls[k := Reported(c, Result.Cancelled(id))])
  }

  predicate Accepted(ids: seq<string>, reason: string) {
    1 <= |ids| <= MAX_IDS && |reason| >= MIN_REASON_LENGTH
  }

  /** One step of the environment or of a request; an event that cannot happen changes nothing. */
  function Step(s: System, e: Event): System {
    match e
    case Open(id, doc) =>
      if id in s.docs || doc.ipnLog != [] then s else s.(docs := s.docs[id := doc])
    case Deposit(id) =>
      if id in s.docs && s.docs[id].status.Sep24DepositPending?
      then s.(docs := s.docs[id := s.docs[id].(status := Completed, stellarTx := true)]) else s
    case Trace(id) =>
      if id in s.docs then s.(docs := s.docs[id := s.docs[id].(ipnLog := s.docs[id].ipnLog + [Notice])]) else s
    case Move(id, status) =>
      if id in s.docs && !PendingSep24(status)
      then s.(docs := s.docs[id := s.docs[id].(status := status, ipnLog := s.docs[id].ipnLog + [Notice])]) else s
    case Start(ids, reason, now) =>
      if Accepted(ids, reason) then s.(calls := s.calls + [Call(ids, reason, now, [], None)]) else s
    case Look(k, found) =>
      if k < |s.calls| && Idle(s.calls[k]) && Answers(s.docs, s.calls[k].ids[|s.calls[k].results|], found)
      then s.(calls := s.calls[k := Evaluated(s.calls[k], s.docs, found)]) else s
    case Close(k, fate) =>
      if k < |s.calls| && s.calls[k].candidate.Some? then CloseStep(s, k, fate) else s
  }

  function Run(s: System, es: seq<Event>): System {
    Runs.Run(Step, s, es)
  }

  // ── The endpoint, served alone ────────────────────────────────────────────

  /** One id of the only request: the lookup, then the session if there is a candidate. */
  function Line(s: System, found: Option<string>, fate: Fate): System {
    Step(Step(s, Look(0, found)), Close(0, fate))
  }

  /** The system after the first `n` ids of its only request, with the database's answers. */
  function Batch(s: System, found: seq<Option<string>>, fates: seq<Fate>, n: nat): System
    requires n <= |found| && n <= |fates|
  {
    if n == 0 then s
    else Line(Batch(s, found, fates, n - 1), found[n - 1], fates[n - 1])
  }

  class Desk {
    var docs: map<string, Doc>
    var audit: seq<ClosureRecord>

    constructor (d: map<string, Doc>)
      ensures docs == d && audit == []
    {
      docs, audit := d, [];
    }

    /** cancelExpiredSep24 with nothing else running is the batch of steps of its single call. */
    method CancelExpired(ids: seq<string>, reason: string, now: int, found: seq<Option<string>>, fates: seq<Fate>)
      returns (code: nat, results: seq<Result>)
      requires |found| == |ids| == |fates|
      requires forall i :: 0 <= i < |ids| ==> Answers(docs, ids[i], found[i])
      modifies this
      ensures code == if 1 <= |ids| <= 100 && |reason| >= 10 then 200 else 400
      ensures code == 400 ==> docs == old(docs) && audit == old(audit) && results == []
      ensures code == 200 ==>
                System(docs, audit, [Call(ids, reason, now, results, None)]) ==
                Batch(System(old(docs), old(audit), [Call(ids, reason, now, [], None)]), found, fates, |ids|)
    {
      results := [];
      if ids == [] || |ids| > MAX_IDS || |reason| < MIN_REASON_LENGTH {
        return 400, [];
      }
      ghost var s0 := System(docs, audit, [Call(ids, reason, now, [], None)]);
      for i := 0 to |ids|
        invariant |results| == i
        invariant forall j :: 0 <= j < |ids| ==> Answers(docs, ids[j], found[j])
        invariant System(docs, audit, [Call(ids, reason, now, results, None)]) == Batch(s0, found, fates, i)
      {
        ghost var before := System(docs, audit, [Call(ids, reason, now, results, None)]);
        LineAlone(before, found[i], fates[i]);
        AnswersKept(before, found[i], fates[i], ids, found);
        var r := CancelOne(Call(ids, reason, now, results, None), found[i], fates[i]);
        results := results + [r];
      }
      return 200, results;
    }

    /** The body of the loop: evaluate the document, then close it in a session of its own. */
    method CancelOne(c: Call, found: Option<string>, fate: Fate) returns (r: Result)
      requires ServedAlone(System(docs, audit, [c]), found)
      modifies this
      ensures System(docs, audit, [Reported(c, r)]) == Served(System(old(docs), old(audit), [c]), found, fate)
    {
      if found.None? {
        return NotFound;
      }
      var id := found.value;
      var tx := docs[id];
      var blockers := Blockers(tx, c.now);
      if blockers != [] {
        return Skipped(id, blockers);
      }
      if fate != Commit {
        return Error(id);
      }
      docs := docs[id := Closed(tx, c.reason, tx.status)];
      audit := audit + [ClosureRecord(id, tx, c.now, c.reason, 0, |c.results|)];
      return Result.Cancelled(id);
    }
  }

  /** A single request, to whose next id the database answers `found`. */
  predicate ServedAlone(s: System, found: Option<string>) {
    |s.calls| == 1 && Idle(s.calls[0]) && Answers(s.docs, s.calls[0].ids[|s.calls[0].results|], found)
  }

  /** What the line of one id writes when nothing else is running. */
  function Served(s: System, found: Option<string>, fate: Fate): System
    requires ServedAlone(s, found)
  {
    var c := s.calls[0];
    if found.None? then s.(calls := [Reported(c, NotFound)])
    else
      var id, doc := found.value, s.docs[found.value];
      if Blockers(doc, c.now) != [] then s.(calls := [Reported(c, Skipped(id, Blockers(doc, c.now)))])
      else if fate != Commit then s.(calls := [Reported(c, Error(id))])
      else
        System(s.docs[id := Closed(doc, c.reason, doc.status)],
               s.audit + [ClosureRecord(id, doc, c.now, c.reason, 0, |c.results|)],
               [Reported(c, Result.Cancelled(id))])
  }

  lemma LineAlone(s: System, found: Option<string>, fate: Fate)
    requires ServedAlone(s, found)
    ensures Line(s, found, fate) == Served(s, found, fate)
  {
  }

  /** What one line reports and changes: not found exactly when the lookup found nothing; skipped with its
      blockers exactly when there are some; otherwise cancelled, with the status, one log entry and one audit
      record, if the session commits, and an error that changes nothing if not. */
  lemma LineTakesEffect(s: System, found: Option<string>, fate: Fate)
    requires ServedAlone(s, found)
    ensures var s', c := Served(s, found, fate), s.calls[0];
            && |s'.calls| == 1 && |s'.calls[0].results| == |c.results| + 1 && c.results <= s'.calls[0].results
            && (var line := s'.calls[0].results[|c.results|];
                && (found.None? ==> line == NotFound && s'.docs == s.docs && s'.audit == s.audit)
                && (found.Some? ==>
                      var id, doc := found.value, s.docs[found.value];
                      var clear := (doc.status == Sep24DepositPending || doc.status == Sep24WithdrawPending)
                                   && doc.expiresAt.Some? && doc.expiresAt.value < c.now
                                   && !doc.stellarTx && !doc.externalRef && doc.ipnLog == [];
                      && (!clear ==> line.Skipped? && line.target == id && line.blockers != []
                                     && s'.docs == s.docs && s'.audit == s.audit)
                      && (clear && fate == Commit ==>
                            && line == Result.Cancelled(id)
                            && s'.docs == s.docs[id := doc.(status := Status.Cancelled, ipnLog := [Closure(c.reason, doc.status)])]
                            && s'.audit == s.audit + [ClosureRecord(id, doc, c.now, c.reason, 0, |c.results|)])
                      && (clear && fate != Commit ==> line == Error(id) && s'.docs == s.docs && s'.audit == s.audit)))
  {
    if found.Some? && s.docs[found.value].ipnLog == [] {
      var doc, entry := s.docs[found.value], Closure(s.calls[0].reason, s.docs[found.value].status);
      assert doc.ipnLog + [entry] == [entry];
    }
  }

  /** The reasons, one by one. */
  lemma BlockersExactly(doc: Doc, now: int, b: Blocker)
    ensures b in Blockers(doc, now) <==>
              match b
              case NotPending => doc.status != Sep24DepositPending && doc.status != Sep24WithdrawPending
              case NoExpiry => doc.expiresAt == None
              case StillLive => doc.expiresAt.Some? && now <= doc.expiresAt.value
              case HasStellarTx => doc.stellarTx
              case HasExternalRef => doc.externalRef
              case HasEvents => doc.ipnLog != []
  {
  }

  /** Which document an id names: by alytoTransactionId, or by its 24 hex digits in either case. */
  lemma NamesExactly(rawId: string, id: string, doc: Doc)
    ensures Names(rawId, id, doc) <==>
              || doc.alias == Some(rawId)
              || (|rawId| == 24 && (forall i :: 0 <= i < 24 ==> HexDigit(rawId[i])) && LowerHex(rawId) == id)
  {
  }

  /** Closing a document does not change which ids name it. */
  lemma AnswersKept(s: System, found: Option<string>, fate: Fate, ids: seq<string>, answers: seq<Option<string>>)
    requires ServedAlone(s, found) && |ids| == |answers|
    requires forall j :: 0 <= j < |ids| ==> Answers(s.docs, ids[j], answers[j])
    ensures forall j :: 0 <= j < |ids| ==> Answers(Served(s, found, fate).docs, ids[j], answers[j])
  {
    var docs := Served(s, found, fate).docs;
    assert docs.Keys == s.docs.Keys && forall id :: id in docs ==> docs[id].alias == s.docs[id].alias;
    forall j | 0 <= j < |ids| ensures Answers(docs, ids[j], answers[j]) {
      assert Answers(s.docs, ids[j], answers[j]);
    }
  }

  // ── Invariants ────────────────────────────────────────────────────────────

  /** The sep24_expired_cancelled entries of a log. */
  function Closures(log: seq<LogEntry>): seq<LogEntry> {
    if log == [] then []
    else
      var rest := Closures(log[..|log| - 1]);
      if log[|log| - 1].Closure? then rest + [log[|log| - 1]] else rest
  }

  lemma ClosuresAppend(log: seq<LogEntry>, e: LogEntry)
    ensures Closures(log + [e]) == Closures(log) + if e.Closure? then [e] else []
  {
    assert (log + [e])[..|log|] == log;
  }

  predicate Safe(doc: Doc, now: int) {
    Blockers(doc, now) == []
  }

  /** A record, the log entry of its document and the result line that reports it. */
  ghost predicate RecordOk(s: System, r: ClosureRecord) {
    && r.target in s.docs
    && Closures(s.docs[r.target].ipnLog) == [Closure(r.reason, r.seen.status)]
    && !PendingSep24(s.docs[r.target].status)
    && Safe(r.seen, r.at) && s.docs[r.target].expiresAt == r.seen.expiresAt
    && r.call < |s.calls| && r.line < |s.calls[r.call].results|
    && s.calls[r.call].results[r.line] == Result.Cancelled(r.target)
    && s.calls[r.call].now == r.at && s.calls[r.call].reason == r.reason
    && r.line < |s.calls[r.call].ids|
    && Names(s.calls[r.call].ids[r.line], r.target, s.docs[r.target])
  }

  ghost predicate Recorded(s: System, id: string) {
    exists a :: 0 <= a < |s.audit| && s.audit[a].target == id
  }

  ghost predicate ReportRecorded(s: System, k: nat, i: nat)
    requires k < |s.calls| && i < |s.calls[k].results|
  {
    s.calls[k].results[i].Cancelled? ==>
      exists a :: 0 <= a < |s.audit| && s.audit[a].call == k && s.audit[a].line == i
                  && s.audit[a].target == s.calls[k].results[i].target
  }

  /** A waiting candidate was safe when it was read, and its document still has its name and expiry. */
  ghost predicate CandidateOk(s: System, c: Call) {
    && |c.results| <= |c.ids|
    && (c.candidate.Some? ==>
          var id, seen := c.candidate.value.target, c.candidate.value.seen;
          && |c.results| < |c.ids|
          && id in s.docs && Safe(seen, c.now) && s.docs[id].expiresAt == seen.expiresAt
          && Names(c.ids[|c.results|], id, s.docs[id]))
  }

  ghost predicate AuditOk(s: System) {
    && (forall a :: 0 <= a < |s.audit| ==> RecordOk(s, s.audit[a]))
    && (forall a, b :: 0 <= a < b < |s.audit| ==> s.audit[a].target != s.audit[b].target)
  }

  ghost predicate DocsOk(s: System) {
    forall id :: id in s.docs && Closures(s.docs[id].ipnLog) != [] ==> Recorded(s, id)
  }

  ghost predicate CallsOk(s: System) {
    && (forall k :: 0 <= k < |s.calls| ==> CandidateOk(s, s.calls[k]))
    && (forall k, i :: 0 <= k < |s.calls| && 0 <= i < |s.calls[k].results| ==> ReportRecorded(s, k, i))
  }

  ghost predicate Inv(s: System) {
    AuditOk(s) && DocsOk(s) && CallsOk(s)
  }

  /** A change of one document that neither closes it nor makes it pending again. */
  ghost predicate Harmless(d: Doc, d': Doc) {
    && Closures(d'.ipnLog) == Closures(d.ipnLog) && d'.expiresAt == d.expiresAt && d'.alias == d.alias
    && (PendingSep24(d'.status) ==> PendingSep24(d.status))
  }

  lemma DocChangeKeepsInv(s: System, id: string, d: Doc)
    requires Inv(s) && (if id in s.docs then Harmless(s.docs[id], d) else Closures(d.ipnLog) == [])
    ensures Inv(s.(docs := s.docs[id := d]))
  {
    var s' := s.(docs := s.docs[id := d]);
    forall a | 0 <= a < |s.audit| ensures RecordOk(s', s'.audit[a]) {
      assert RecordOk(s, s.audit[a]);
    }
    forall k | 0 <= k < |s.calls| ensures CandidateOk(s', s'.calls[k]) {
      assert CandidateOk(s, s.calls[k]);
    }
    forall k, i | 0 <= k < |s.calls| && 0 <= i < |s.calls[k].results| ensures ReportRecorded(s', k, i) {
      assert ReportRecorded(s, k, i);
    }
    forall j | j in s'.docs && Closures(s'.docs[j].ipnLog) != [] ensures Recorded(s', j) {
      assert Recorded(s, j);
    }
  }

  /** A call that gains a result line other than a cancellation, or a candidate. */
  lemma CallChangeKeepsInv(s: System, k: nat, c: Call)
    requires Inv(s) && k < |s.calls|
    requires c.ids == s.calls[k].ids && c.now == s.calls[k].now && c.reason == s.calls[k].reason
    requires s.calls[k].results <= c.results
    requires forall i :: |s.calls[k].results| <= i < |c.results| ==> !c.results[i].Cancelled?
    requires CandidateOk(s, c)
    ensures Inv(s.(calls := s.calls[k := c]))
  {
    var s' := s.(calls := s.calls[k := c]);
    forall a | 0 <= a < |s.audit| ensures RecordOk(s', s'.audit[a]) {
      assert RecordOk(s, s.audit[a]);
    }
    forall j | 0 <= j < |s.calls| ensures CandidateOk(s', s'.calls[j]) {
      assert CandidateOk(s, s.calls[j]);
    }
    forall j, i | 0 <= j < |s'.calls| && 0 <= i < |s'.calls[j].results| ensures ReportRecorded(s', j, i) {
      if i < |s.calls[j].results| {
        assert ReportRecorded(s, j, i);
      }
    }
    forall j | j in s'.docs && Closures(s'.docs[j].ipnLog) != [] ensures Recorded(s', j) {
      assert Recorded(s, j);
    }
  }

  /** The closing itself. */
  lemma CommitKeepsInv(s: System, k: nat)
    requires Inv(s) && k < |s.calls| && s.calls[k].candidate.Some?
    requires var id := s.calls[k].candidate.value.target; id in s.docs && PendingSep24(s.docs[id].status)
    ensures Inv(CloseStep(s, k, Commit))
  {
    var s' := CloseStep(s, k, Commit);
    var c := s.calls[k];
    var id, seen := c.candidate.value.target, c.candidate.value.seen;
    assert CandidateOk(s, c);
    forall a | 0 <= a < |s.audit| ensures s.audit[a].target != id {
      assert RecordOk(s, s.audit[a]);
    }
    assert !Recorded(s, id) && Closures(s.docs[id].ipnLog) == [];
    ClosuresAppend(s.docs[id].ipnLog, Closure(c.reason, seen.status));
    CommitRecords(s, k);
    forall j | 0 <= j < |s.calls| ensures CandidateOk(s', s'.calls[j]) {
      assert CandidateOk(s, s.calls[j]);
    }
    forall j, i | 0 <= j < |s'.calls| && 0 <= i < |s'.calls[j].results| ensures ReportRecorded(s', j, i) {
      CommitReports(s, k, j, i);
    }
    forall j | j in s'.docs && Closures(s'.docs[j].ipnLog) != [] ensures Recorded(s', j) {
      if j == id {
        assert s'.audit[|s.audit|].target == id;
      } else {
        assert Recorded(s, j);
        var a :| 0 <= a < |s.audit| && s.audit[a].target == j;
        assert s'.audit[a].target == j;
      }
    }
  }

  lemma CommitRecords(s: System, k: nat)
    requires Inv(s) && k < |s.calls| && s.calls[k].candidate.Some?
    requires var id := s.calls[k].candidate.value.target; id in s.docs && PendingSep24(s.docs[id].status)
    requires Closures(s.docs[s.calls[k].candidate.value.target].ipnLog) == []
    ensures AuditOk(CloseStep(s, k, Commit))
  {
    var s' := CloseStep(s, k, Commit);
    forall a | 0 <= a < |s.audit|
      ensures RecordOk(s', s'.audit[a]) && s'.audit[a].target != s.calls[k].candidate.value.target
    {
      OldRecord(s, k, s.audit[a]);
    }
    NewRecord(s, k);
  }

  lemma NewRecord(s: System, k: nat)
    requires k < |s.calls| && s.calls[k].candidate.Some? && CandidateOk(s, s.calls[k])
    requires var id := s.calls[k].candidate.value.target;
             id in s.docs && PendingSep24(s.docs[id].status) && Closures(s.docs[id].ipnLog) == []
    ensures var s' := CloseStep(s, k, Commit);
            RecordOk(s', s'.audit[|s.audit|]) && s'.audit[|s.audit|].target == s.calls[k].candidate.value.target
  {
    var c := s.calls[k];
    var id, seen := c.candidate.value.target, c.candidate.value.seen;
    ClosuresAppend(s.docs[id].ipnLog, Closure(c.reason, seen.status));
  }

  /** A closing leaves the earlier records as they are. */
  lemma OldRecord(s: System, k: nat, r: ClosureRecord)
    requires RecordOk(s, r) && k < |s.calls| && s.calls[k].candidate.Some?
    requires var id := s.calls[k].candidate.value.target; id in s.docs && PendingSep24(s.docs[id].status)
    ensures RecordOk(CloseStep(s, k, Commit), r) && r.target != s.calls[k].candidate.value.target
  {
  }

  lemma CommitReports(s: System, k: nat, j: nat, i: nat)
    requires Inv(s) && k < |s.calls| && s.calls[k].candidate.Some?
    requires var id := s.calls[k].candidate.value.target; id in s.docs && PendingSep24(s.docs[id].status)
    requires var s' := CloseStep(s, k, Commit); j < |s'.calls| && i < |s'.calls[j].results|
    ensures ReportRecorded(CloseStep(s, k, Commit), j, i)
  {
    var s' := CloseStep(s, k, Commit);
    if j == k && i == |s.calls[k].results| {
      assert s'.audit[|s.audit|].call == k && s'.audit[|s.audit|].line == i;
    } else {
      assert ReportRecorded(s, j, i);
      if s.calls[j].results[i].Cancelled? {
        var a :| 0 <= a < |s.audit| && s.audit[a].call == j && s.audit[a].line == i
                 && s.audit[a].target == s.calls[j].results[i].target;
        assert s'.audit[a] == s.audit[a];
      }
    }
  }

  lemma StartKeepsInv(s: System, c: Call)
    requires Inv(s) && c.results == [] && c.candidate.None?
    ensures Inv(s.(calls := s.calls + [c]))
  {
    var s' := s.(calls := s.calls + [c]);
    forall a | 0 <= a < |s.audit| ensures RecordOk(s', s'.audit[a]) {
      assert RecordOk(s, s.audit[a]);
    }
    forall j | 0 <= j < |s'.calls| ensures CandidateOk(s', s'.calls[j]) {
      if j < |s.calls| {
        assert CandidateOk(s, s.calls[j]);
      }
    }
    forall j, i | 0 <= j < |s'.calls| && 0 <= i < |s'.calls[j].results| ensures ReportRecorded(s', j, i) {
      assert ReportRecorded(s, j, i);
    }
    forall j | j in s'.docs && Closures(s'.docs[j].ipnLog) != [] ensures Recorded(s', j) {
      assert Recorded(s, j);
    }
  }

  lemma StepKeepsInv(s: System, e: Event)
    requires Inv(s)
    ensures Inv(Step(s, e))
  {
    if Step(s, e) != s {
      match e
      case Open(id, doc) => DocChangeKeepsInv(s, id, doc);
      case Deposit(id) => DocChangeKeepsInv(s, id, s.docs[id].(status := Completed, stellarTx := true));
      case Trace(id) =>
        ClosuresAppend(s.docs[id].ipnLog, Notice);
        DocChangeKeepsInv(s, id, s.docs[id].(ipnLog := s.docs[id].ipnLog + [Notice]));
      case Move(id, status) =>
        ClosuresAppend(s.docs[id].ipnLog, Notice);
        DocChangeKeepsInv(s, id, s.docs[id].(status := status, ipnLog := s.docs[id].ipnLog + [Notice]));
      case Start(ids, reason, now) => StartKeepsInv(s, Call(ids, reason, now, [], None));
      case Look(k, found) =>
        assert CandidateOk(s, s.calls[k]);
        CallChangeKeepsInv(s, k, Evaluated(s.calls[k], s.docs, found));
      case Close(k, fate) =>
        assert CandidateOk(s, s.calls[k]);
        var id := s.calls[k].candidate.value.target;
        if !PendingSep24(s.docs[id].status) {
          CallChangeKeepsInv(s, k, Reported(s.calls[k], Skipped(id, [NotPending])));
        } else if fate != Commit {
          CallChangeKeepsInv(s, k, Reported(s.calls[k], Error(id)));
        } else {
          CommitKeepsInv(s, k);
        }
    }
  }

  lemma RunKeepsInv(s: System, es: seq<Event>)
    requires Inv(s)
    ensures Inv(Run(s, es))
  {
    forall t, e | Inv(t) ensures Inv(Step(t, e)) {
      StepKeepsInv(t, e);
    }
    Runs.KeepsAlways(Step, Inv, s, es);
  }

  ghost predicate Initial(s: System) {
    s.audit == [] && s.calls == [] && forall id :: id in s.docs ==> Closures(s.docs[id].ipnLog) == []
  }

  predicate Reports(s: System, k: int, i: int, id: string) {
    0 <= k < |s.calls| && 0 <= i < |s.calls[k].results| && s.calls[k].results[i] == Result.Cancelled(id)
  }

  lemma ReportedIsRecorded(s: System, k: nat, i: nat, id: string) returns (a: nat)
    requires Inv(s) && Reports(s, k, i, id)
    ensures a < |s.audit| && s.audit[a].target == id && s.audit[a].call == k && s.audit[a].line == i
  {
    assert ReportRecorded(s, k, i);
    a :| 0 <= a < |s.audit| && s.audit[a].call == k && s.audit[a].line == i && s.audit[a].target == id;
  }

  lemma OneReport(s: System, id: string, k: nat, i: nat, l: nat, j: nat)
    requires Inv(s) && Reports(s, k, i, id) && Reports(s, l, j, id)
    ensures k == l && i == j
  {
    var a := ReportedIsRecorded(s, k, i, id);
    var b := ReportedIsRecorded(s, l, j, id);
    assert a == b;
  }

  lemma OneClosure(s: System, id: string)
    requires Inv(s) && id in s.docs
    ensures |Closures(s.docs[id].ipnLog)| <= 1
    ensures Closures(s.docs[id].ipnLog) != [] <==> Recorded(s, id)
    ensures Recorded(s, id) <==> exists k, i :: Reports(s, k, i, id)
  {
    if Recorded(s, id) {
      var a :| 0 <= a < |s.audit| && s.audit[a].target == id;
      assert RecordOk(s, s.audit[a]);
      assert Reports(s, s.audit[a].call, s.audit[a].line, id);
    }
    if k, i :| Reports(s, k, i, id) {
      var a := ReportedIsRecorded(s, k, i, id);
    }
  }

  /** What every run guarantees, whatever the operators, aliases and interleaving: closed documents,
      their single log entry, their single audit record and their single 'cancelled' result line name
      each other one to one; each was named by its request and safe when it was read. */
  lemma EveryRunIsOneToOne(s: System, es: seq<Event>)
    requires Initial(s)
    ensures AuditOk(Run(s, es))
    ensures var s' := Run(s, es);
            forall id :: id in s'.docs ==>
              && |Closures(s'.docs[id].ipnLog)| <= 1
              && (Closures(s'.docs[id].ipnLog) != [] <==> Recorded(s', id))
              && (Recorded(s', id) <==> exists k, i :: Reports(s', k, i, id))
    ensures var s' := Run(s, es);
            forall id, k: nat, i: nat, l: nat, j: nat :: Reports(s', k, i, id) && Reports(s', l, j, id) ==> k == l && i == j
  {
    RunKeepsInv(s, es);
    var s' := Run(s, es);
    forall id | id in s'.docs
      ensures |Closures(s'.docs[id].ipnLog)| <= 1
      ensures Closures(s'.docs[id].ipnLog) != [] <==> Recorded(s', id)
      ensures Recorded(s', id) <==> exists k, i :: Reports(s', k, i, id)
    {
      OneClosure(s', id);
    }
    forall id, k: nat, i: nat, l: nat, j: nat | Reports(s', k, i, id) && Reports(s', l, j, id)
      ensures k == l && i == j
    {
      OneReport(s', id, k, i, l, j);
    }
  }

  // ── Traces that arrive in between ─────────────────────────────────────────

  /** The document has left the pending statuses; nothing takes it back there. */
  lemma {:induction false} GoneStaysGone(s: System, es: seq<Event>, id: string)
    requires id in s.docs && !PendingSep24(s.docs[id].status)
    ensures id in Run(s, es).docs && !PendingSep24(Run(s, es).docs[id].status)
    decreases |es|
  {
    if es != [] {
      GoneStaysGone(Step(s, es[0]), es[1..], id);
    }
  }

  /** A trace stays in the document. */
  lemma {:induction false} TraceStays(s: System, es: seq<Event>, id: string)
    requires id in s.docs && s.docs[id].ipnLog != []
    ensures id in Run(s, es).docs && Run(s, es).docs[id].ipnLog != []
    decreases |es|
  {
    if es != [] {
      TraceStays(Step(s, es[0]), es[1..], id);
    }
  }

  /** What one event does to a pending document. */
  lemma PendingStep(s: System, e: Event, id: string)
    requires id in s.docs && PendingSep24(s.docs[id].status)
    ensures var s' := Step(s, e);
            && id in s'.docs
            && (PendingSep24(s'.docs[id].status) && e != Trace(id) ==> s'.docs[id] == s.docs[id])
            && (e == Trace(id) ==> s'.docs[id].ipnLog != [])
  {
  }

  /** A pending, safe document after any run: if it is still pending, it is safe exactly when none of its
      traces arrived. */
  lemma {:induction false} SafeUntilTrace(s: System, es: seq<Event>, id: string, now: int)
    requires id in s.docs && Safe(s.docs[id], now)
    ensures var s' := Run(s, es);
            id in s'.docs && (PendingSep24(s'.docs[id].status) ==> (Safe(s'.docs[id], now) <==> Trace(id) !in es))
    decreases |es|
  {
    if es != [] {
      var s1 := Step(s, es[0]);
      PendingStep(s, es[0], id);
      assert es == [es[0]] + es[1..];
      if !PendingSep24(s1.docs[id].status) {
        GoneStaysGone(s1, es[1..], id);
      } else if es[0] == Trace(id) {
        TraceStays(s1, es[1..], id);
      } else {
        SafeUntilTrace(s1, es[1..], id, now);
      }
    }
  }

  /** A waiting candidate waits until its own session runs. */
  lemma {:induction false} CandidateWaits(s: System, es: seq<Event>, k: nat)
    requires k < |s.calls| && s.calls[k].candidate.Some?
    requires forall i :: 0 <= i < |es| ==> !(es[i].Close? && es[i].call == k)
    ensures var s' := Run(s, es);
            k < |s'.calls| && s'.calls[k] == s.calls[k]
    decreases |es|
  {
    if es != [] {
      CandidateWaits(Step(s, es[0]), es[1..], k);
    }
  }

  /** The exact condition for one closing. Between the lookup that makes a document a candidate and the
      session that closes it anything may happen: the session closes it if and only if it is still
      pending, and then it is safe at that very moment if and only if no trace of it was logged in
      between. */
  lemma ClosesSafeExactly(s: System, k: nat, id: string, es: seq<Event>)
    requires k < |s.calls| && s.calls[k].candidate.None?
    requires var c := Step(s, Look(k, Some(id))).calls[k]; c.candidate.Some?
    requires forall i :: 0 <= i < |es| ==> !(es[i].Close? && es[i].call == k)
    ensures var before := Run(Step(s, Look(k, Some(id))), es);
            var after := Step(before, Close(k, Commit));
            && id in before.docs && k < |before.calls|
            && (after.docs != before.docs <==> PendingSep24(before.docs[id].status))
            && (PendingSep24(before.docs[id].status) ==>
                  && after.docs[id].status == Status.Cancelled
                  && (Safe(before.docs[id], before.calls[k].now) <==> Trace(id) !in es))
  {
    var s1 := Step(s, Look(k, Some(id)));
    CandidateWaits(s1, es, k);
    SafeUntilTrace(s1, es, id, s1.calls[k].now);
    var before := Run(s1, es);
    if PendingSep24(before.docs[id].status) {
      var after := Step(before, Close(k, Commit));
      assert after.docs[id].status == Status.Cancelled;
    }
  }

  /** The compare-and-set looks at the status only: a notice logged after the evaluation does not
      stop the closing. */
  lemma StaleEvaluationExample()
    ensures var doc := Doc(Some("T1"), Sep24DepositPending, Some(10), false, false, []);
            var s := System(map["a" := doc], [], []);
            var s' := Run(s, [Start(["T1"], "no funds ever", 20), Look(0, Some("a")), Trace("a"), Close(0, Commit)]);
            s'.docs["a"].status == Status.Cancelled && s'.docs["a"].ipnLog[0] == Notice
  {
    var doc := Doc(Some("T1"), Sep24DepositPending, Some(10), false, false, []);
    var s := System(map["a" := doc], [], []);
    var c := Call(["T1"], "no funds ever", 20, [], None);
    var es := [Start(["T1"], "no funds ever", 20), Look(0, Some("a")), Trace("a"), Close(0, Commit)];
    var s1 := Step(s, es[0]);
    assert s1.calls == [c];
    var s2 := Step(s1, es[1]);
    assert s2.calls == [c.(candidate := Some(Candidate("a", doc)))];
    var s3 := Step(s2, es[2]);
    assert s3.docs["a"] == doc.(ipnLog := [Notice]);
    assert es[1..][0] == es[1] && es[1..][1..] == es[2..] && es[2..][1..] == es[3..] && es[3..][1..] == [];
    assert Run(s, es) == Run(s2, es[2..]) == Step(s3, es[3]);
  }

  /** An operator's step leaves every document alone but the one its current id names. */
  lemma UnnamedUntouched(s: System, e: Event, id: string)
    requires Inv(s) && id in s.docs && (e.Look? || e.Close? || e.Start?)
    ensures Step(s, e).docs.Keys == s.docs.Keys
    ensures Step(s, e).docs[id] != s.docs[id] ==>
              && e.Close? && e.fate == Commit && e.call < |s.calls|
              && (var c := s.calls[e.call];
                  && |c.results| < |c.ids| && Names(c.ids[|c.results|], id, s.docs[id])
                  && PendingSep24(s.docs[id].status)
                  && Step(s, e).docs[id] == Closed(s.docs[id], c.reason, c.candidate.value.seen.status))
  {
    if e.Close? && e.call < |s.calls| {
      assert CandidateOk(s, s.calls[e.call]);
    }
  }
}
