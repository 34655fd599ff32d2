/** Admin edits of a user: sensitive fields are audited before they are applied. */
module UserAudit {
  import opened Options
  import opened ObjectIds
  import Runs

  datatype Field = AccountType | LegalEntity | KycStatus | Role | IsActive | SanctionsFlag

  /** A JSON scalar of the request body. */
  datatype Value = Flag(b: bool) | Text(s: string) | Number(n: int) | Null

  datatype User = User(fields: map<Field, Value>, tokenVersion: nat)

  datatype BodyEntry = BodyEntry(key: string, val: Value)

  datatype AuditEntry = AuditEntry(
    actor: string, target: string, before: map<Field, Value>, after: map<Field, Value>, reason: string)

  /** `reason` is trimmed; `auditOk` and `writeOk` say whether the two database writes succeed. */
  datatype Request = Request(
    actor: string, rawId: string, body: seq<BodyEntry>, reason: string, breakGlass: bool, auditOk: bool, writeOk: bool)

  datatype State = State(users: map<string, User>, audit: seq<AuditEntry>)

  const MIN_REASON_LENGTH := 10

  function FieldOf(key: string): Option<Field> {
    if key == "accountType" then Some(AccountType)
    else if key == "legalEntity" then Some(LegalEntity)
    else if key == "kycStatus" then Some(KycStatus)
    else if key == "role" then Some(Role)
    else if key == "isActive" then Some(IsActive)
    else if key == "sanctionsFlag" then Some(SanctionsFlag)
    else None
  }

  predicate Sensitive(f: Field) {
    f.Role? || f.KycStatus? || f.SanctionsFlag?
  }

  predicate BooleanField(f: Field) {
    f.IsActive? || f.SanctionsFlag?
  }

  function Normalize(f: Field, v: Value): Value {
    if BooleanField(f) && v == Text("true") then Flag(true)
    else if BooleanField(f) && v == Text("false") then Flag(false)
    else v
  }

  function Default(f: Field): Value {
    match f
    case Role => Text("user")
    case IsActive => Flag(true)
    case SanctionsFlag => Flag(false)
    case KycStatus => Text("pending")
    case _ => Null
  }

  /** `user[field] ?? default`. */
  function Current(fields: map<Field, Value>, f: Field): Value {
    if f in fields && fields[f] != Null then fields[f] else Default(f)
  }

  predicate InEnum(f: Field, v: Value) {
    match f
    case Role => v in {Text("user"), Text("admin")}
    case KycStatus => v in {Text("pending"), Text("in_review"), Text("approved"), Text("rejected"), Text("expired")}
    case LegalEntity => v in {Text("LLC"), Text("SpA"), Text("SRL")}
    case AccountType => v in {Text("personal"), Text("business")}
    case _ => true
  }

  /** What the schema stores for a value, if it accepts it. */
  function Cast(f: Field, v: Value): Option<Value> {
    if !BooleanField(f) || v.Null? then Some(v)
    else if v in {Flag(true), Text("true"), Number(1), Text("1"), Text("yes")} then Some(Flag(true))
    else if v in {Flag(false), Text("false"), Number(0), Text("0"), Text("no")} then Some(Flag(false))
    else None
  }

  // ── The handler ───────────────────────────────────────────────────────────

  function Requested(body: seq<BodyEntry>): map<Field, Value> {
    if body == [] then map[]
    else
      var e := body[|body| - 1];
      var rest := Requested(body[..|body| - 1]);
      match FieldOf(e.key)
      case Some(f) => rest[f := Normalize(f, e.val)]
      case None => rest
  }

  function Updates(fields: map<Field, Value>, requested: map<Field, Value>): map<Field, Value> {
    map f | f in requested && Current(fields, f) != requested[f] :: requested[f]
  }

  predicate TouchesSensitive(updates: map<Field, Value>) {
    exists f :: f in updates && Sensitive(f)
  }

  /** The refusals, in the handler's order; 200 when the edit goes on to be audited and applied. */
  function Screening(r: Request, target: string, updates: map<Field, Value>): nat {
    if exists f :: f in updates && !InEnum(f, updates[f]) then 400
    else if Role in updates && !r.breakGlass then 403
    else if TouchesSensitive(updates) && target == r.actor then 403
    else if TouchesSensitive(updates) && |r.reason| < MIN_REASON_LENGTH then 400
    else if TouchesSensitive(updates) && !r.auditOk then 500
    else 200
  }

  function Entry(r: Request, target: string, fields: map<Field, Value>, updates: map<Field, Value>): AuditEntry {
    AuditEntry(
      r.actor, target,
      map f | f in updates && Sensitive(f) :: Current(fields, f),
      map f | f in updates && Sensitive(f) :: updates[f],
      r.reason)
  }

  predicate Writable(r: Request, updates: map<Field, Value>) {
    r.writeOk && forall f :: f in updates ==> Cast(f, updates[f]).Some?
  }

  function Apply(u: User, updates: map<Field, Value>): User
    requires forall f :: f in updates ==> Cast(f, updates[f]).Some?
  {
    User(
      u.fields + (map f | f in updates :: Cast(f, updates[f]).value),
      u.tokenVersion + if IsActive in updates && updates[IsActive] == Flag(false) then 1 else 0)
  }

  /** Status code and new state of one request. */
  function Update(s: State, r: Request): (nat, State) {
    match Canonical(r.rawId)
    case None => (400, s)
    case Some(target) =>
      var requested := Requested(r.body);
      if requested == map[] then (400, s)
      else if target !in s.users then (404, s)
      else
        var u := s.users[target];
        var updates := Updates(u.fields, requested);
        if updates == map[] then (200, s)
        else
          var code := Screening(r, target, updates);
          if code != 200 then (code, s)
          else
            var audited := if TouchesSensitive(updates) then s.audit + [Entry(r, target, u.fields, updates)] else s.audit;
            if !Writable(r, updates) then (500, s.(audit := audited))
            else (200, State(s.users[target := Apply(u, updates)], audited))
  }

  class UserAdmin {
    var users: map<string, User>
    var audit: seq<AuditEntry>

    function Contents(): State
      reads this
    {
      State(users, audit)
    }

    constructor (s: State)
      ensures Contents() == s
    {
      users, audit := s.users, s.audit;
    }

    method UpdateUser(r: Request) returns (code: nat)
      modifies this
      ensures (code, Contents()) == Update(old(Contents()), r)
    {
      var id := Canonical(r.rawId);
      if id.None? {
        return 400;
      }
      var target := id.value;
      var requested := map[];
      for i := 0 to |r.body|
        invariant requested == Requested(r.body[..i])
      {
        assert r.body[..i + 1][..i] == r.body[..i];
        match FieldOf(r.body[i].key) {
          case Some(f) => requested := requested[f := Normalize(f, r.body[i].val)];
          case None =>
        }
      }
      assert r.body[..|r.body|] == r.body;
      if requested == map[] {
        return 400;
      }
      if target !in users {
        return 404;
      }
      var u := users[target];
      var updates := Updates(u.fields, requested);
      if updates == map[] {
        return 200;
      }
      code := Screening(r, target, updates);
      if code != 200 {
        return;
      }
      if TouchesSensitive(updates) {
        audit := audit + [Entry(r, target, u.fields, updates)];
      }
      if !Writable(r, updates) {
        return 500;
      }
      users := users[target := Apply(u, updates)];
    }
  }

  /** The state after a request, whatever it answered. */
  function After(s: State, r: Request): State {
    Update(s, r).1
  }

  function Run(s: State, rs: seq<Request>): State {
    Runs.Run(After, s, rs)
  }

  // ── Replay ────────────────────────────────────────────────────────────────

  /** The value an audited change leaves in effect. */
  function Effective(f: Field, v: Value): Value {
    match Cast(f, v)
    case Some(Null) => Default(f)
    case Some(w) => w
    case None => v
  }

  /** Folding the audit entries of one user and field over the value it started with. */
  function Replay(audit: seq<AuditEntry>, target: string, f: Field, start: Value): Value {
    if audit == [] then start
    else
      var e := audit[|audit| - 1];
      if e.target == target && f in e.after then Effective(f, e.after[f])
      else Replay(audit[..|audit| - 1], target, f, start)
  }

  /** The updates a request comes down to, when it names an existing user. */
  function UpdatesOf(s: State, r: Request): Option<map<Field, Value>> {
    var id := Canonical(r.rawId);
    if id.None? || id.value !in s.users then None
    else
      var updates := Updates(s.users[id.value].fields, Requested(r.body));
      if updates == map[] then None else Some(updates)
  }

  /** The request passes every check, is audited, and its final write fails. */
  predicate AuditedOnly(s: State, r: Request) {
    var updates := UpdatesOf(s, r);
    && updates.Some? && TouchesSensitive(updates.value)
    && Screening(r, Canonical(r.rawId).value, updates.value) == 200
    && !Writable(r, updates.value)
  }

  /** Such a request whose audit entry promises a value that is not in effect. */
  predicate Misleads(s: State, r: Request) {
    && AuditedOnly(s, r)
    && (var fields, updates := s.users[Canonical(r.rawId).value].fields, UpdatesOf(s, r).value;
        exists f :: f in updates && Sensitive(f) && Effective(f, updates[f]) != Current(fields, f))
  }

  /** No request of the run misleads. */
  ghost predicate NeverMisleads(s: State, rs: seq<Request>)
    decreases |rs|
  {
    rs == [] || (!Misleads(s, rs[0]) && NeverMisleads(Update(s, rs[0]).1, rs[1..]))
  }

  function Start(s0: State, target: string, f: Field): Value {
    if target in s0.users then Current(s0.users[target].fields, f) else Default(f)
  }

  ghost predicate EntriesOk(s0: State, audit: seq<AuditEntry>) {
    forall i :: 0 <= i < |audit| ==>
      var e := audit[i];
      && e.actor != e.target
      && e.before.Keys == e.after.Keys
      && |e.reason| >= MIN_REASON_LENGTH
      && (forall f :: f in e.after ==> Sensitive(f) && e.before[f] != e.after[f])
  }

  /** Each entry's "before" is what the earlier entries replay to. */
  ghost predicate Chained(s0: State, audit: seq<AuditEntry>) {
    forall i :: 0 <= i < |audit| ==>
      forall f :: f in audit[i].before ==>
        audit[i].before[f] == Replay(audit[..i], audit[i].target, f, Start(s0, audit[i].target, f))
  }

  ghost predicate Replays(s0: State, s: State) {
    forall target, f :: target in s.users && Sensitive(f) ==>
      Current(s.users[target].fields, f) == Replay(s.audit, target, f, Start(s0, target, f))
  }

  /** What a request that audits something appends, and what it does to the target. */
  lemma UpdateFacts(s: State, r: Request)
    ensures var s' := Update(s, r).1;
            && s'.users.Keys == s.users.Keys
            && (s'.audit != s.audit ==>
                  && Canonical(r.rawId).Some? && Canonical(r.rawId).value in s.users
                  && (var target := Canonical(r.rawId).value;
                      var u := s.users[target];
                      var updates := Updates(u.fields, Requested(r.body));
                      && s'.audit == s.audit + [Entry(r, target, u.fields, updates)]
                      && target != r.actor && |r.reason| >= MIN_REASON_LENGTH
                      && (Role in updates ==> r.breakGlass)))
            && (s'.users != s.users ==>
                  && Canonical(r.rawId).Some? && Canonical(r.rawId).value in s.users
                  && (var target := Canonical(r.rawId).value;
                      var u := s.users[target];
                      var updates := Updates(u.fields, Requested(r.body));
                      && (forall f :: f in updates ==> Cast(f, updates[f]).Some? && InEnum(f, updates[f]))
                      && s'.users == s.users[target := Apply(u, updates)]
                      && (TouchesSensitive(updates) <==> s'.audit != s.audit)))
  {
  }

  lemma AppliedValue(u: User, requested: map<Field, Value>, f: Field)
    requires forall g :: g in Updates(u.fields, requested) ==>
               Cast(g, Updates(u.fields, requested)[g]).Some? && InEnum(g, Updates(u.fields, requested)[g])
    requires Sensitive(f)
    ensures var updates := Updates(u.fields, requested);
            Current(Apply(u, updates).fields, f) ==
              if f in updates then Effective(f, updates[f]) else Current(u.fields, f)
  {
  }

  /** What an audited request does to the users: nothing exactly when it cannot be written, up to values
      that are there already. */
  lemma AuditedOnlyFacts(s: State, r: Request)
    ensures AuditedOnly(s, r) ==>
              var target, updates := Canonical(r.rawId).value, UpdatesOf(s, r).value;
              Update(s, r).1 == s.(audit := s.audit + [Entry(r, target, s.users[target].fields, updates)])
    ensures Update(s, r).1.audit != s.audit && !AuditedOnly(s, r) ==>
              var target, updates := Canonical(r.rawId).value, UpdatesOf(s, r).value;
              && Canonical(r.rawId).Some? && target in s.users && UpdatesOf(s, r).Some? && Writable(r, updates)
              && (forall f :: f in updates ==> InEnum(f, updates[f]))
              && Update(s, r).1 == State(s.users[target := Apply(s.users[target], updates)],
                                         s.audit + [Entry(r, target, s.users[target].fields, updates)])
  {
    UpdateFacts(s, r);
  }

  /** One field of one user after the entry of a request has been appended. */
  lemma ReplayAppended(s0: State, s: State, r: Request, id: string, f: Field)
    requires UpdatesOf(s, r).Some? && Sensitive(f)
    ensures var target, updates := Canonical(r.rawId).value, UpdatesOf(s, r).value;
            var log := s.audit + [Entry(r, target, s.users[target].fields, updates)];
            Replay(log, id, f, Start(s0, id, f)) ==
              if id == target && f in updates then Effective(f, updates[f]) else Replay(s.audit, id, f, Start(s0, id, f))
  {
    var target, updates := Canonical(r.rawId).value, UpdatesOf(s, r).value;
    var log := s.audit + [Entry(r, target, s.users[target].fields, updates)];
    assert log[..|log| - 1] == s.audit;
  }

  /** The field of the entry's target that the entry is wrong about, if any. */
  predicate WrongAbout(s: State, r: Request, id: string, f: Field)
    requires UpdatesOf(s, r).Some? && id in s.users
  {
    var updates := UpdatesOf(s, r).value;
    id == Canonical(r.rawId).value && f in updates && Effective(f, updates[f]) != Current(s.users[id].fields, f)
  }

  lemma AuditedOnlyField(s0: State, s: State, r: Request, id: string, f: Field)
    requires Replays(s0, s) && AuditedOnly(s, r) && id in s.users && Sensitive(f)
    ensures var s' := Update(s, r).1;
            && s'.users == s.users
            && (Current(s'.users[id].fields, f) == Replay(s'.audit, id, f, Start(s0, id, f)) <==> !WrongAbout(s, r, id, f))
  {
    AuditedOnlyFacts(s, r);
    ReplayAppended(s0, s, r, id, f);
    assert Current(s.users[id].fields, f) == Replay(s.audit, id, f, Start(s0, id, f));
  }

  lemma AuditedOnlyReplays(s0: State, s: State, r: Request)
    requires Replays(s0, s) && AuditedOnly(s, r)
    ensures Replays(s0, Update(s, r).1) <==> !Misleads(s, r)
  {
    var s' := Update(s, r).1;
    forall id, f | id in s.users && Sensitive(f)
      ensures s'.users == s.users
      ensures Current(s'.users[id].fields, f) == Replay(s'.audit, id, f, Start(s0, id, f)) <==> !WrongAbout(s, r, id, f)
    {
      AuditedOnlyField(s0, s, r, id, f);
    }
    AuditedOnlyFacts(s, r);
    if Misleads(s, r) {
      var target, updates := Canonical(r.rawId).value, UpdatesOf(s, r).value;
      var f :| f in updates && Sensitive(f) && Effective(f, updates[f]) != Current(s.users[target].fields, f);
      assert WrongAbout(s, r, target, f);
    } else {
      assert forall id, f :: id in s.users && Sensitive(f) ==> !WrongAbout(s, r, id, f);
    }
  }

  lemma WrittenReplays(s0: State, s: State, r: Request)
    requires Replays(s0, s) && !AuditedOnly(s, r)
    ensures Replays(s0, Update(s, r).1)
  {
    UpdateFacts(s, r);
    AuditedOnlyFacts(s, r);
    var s' := Update(s, r).1;
    forall id, f | id in s'.users && Sensitive(f)
      ensures Current(s'.users[id].fields, f) == Replay(s'.audit, id, f, Start(s0, id, f))
    {
      assert Current(s.users[id].fields, f) == Replay(s.audit, id, f, Start(s0, id, f));
      if s'.users != s.users {
        AppliedValue(s.users[Canonical(r.rawId).value], Requested(r.body), f);
      }
      if s'.audit != s.audit {
        AppliedValue(s.users[Canonical(r.rawId).value], Requested(r.body), f);
        ReplayAppended(s0, s, r, id, f);
      }
    }
  }

  /** The exact step: the audit log still replays to the users after a request if and only if the request
      is not one that was audited, could not be written and promised another value; its entries chain and
      are well formed either way. */
  lemma StepReplaysExactly(s0: State, s: State, r: Request)
    requires Replays(s0, s) && Chained(s0, s.audit) && EntriesOk(s0, s.audit)
    ensures var s' := Update(s, r).1;
            && (Replays(s0, s') <==> !Misleads(s, r))
            && Chained(s0, s'.audit) && EntriesOk(s0, s'.audit)
  {
    AppendedEntryOk(s0, s, r);
    if AuditedOnly(s, r) {
      AuditedOnlyReplays(s0, s, r);
    } else {
      WrittenReplays(s0, s, r);
    }
  }

  /** The failing input: a user with a pending KYC, an approval that is audited, a write that fails. The
      log says approved, the user is still pending. */
  lemma FailedWriteExample(s: State, r: Request, target: string)
    requires Canonical(r.rawId) == Some(target) && target in s.users && target != r.actor
    requires Current(s.users[target].fields, KycStatus) == Text("pending")
    requires r.body == [BodyEntry("kycStatus", Text("approved"))] && |r.reason| >= MIN_REASON_LENGTH
    requires r.auditOk && !r.writeOk
    ensures Misleads(s, r)
    ensures var s' := Update(s, r).1;
            && Current(s'.users[target].fields, KycStatus) == Text("pending")
            && Replay(s'.audit, target, KycStatus, Text("pending")) == Text("approved")
  {
    ApprovalRequested(r.body);
    assert Updates(s.users[target].fields, Requested(r.body)) == map[KycStatus := Text("approved")];
    assert Sensitive(KycStatus);
    AuditedOnlyFacts(s, r);
  }

  lemma ApprovalRequested(body: seq<BodyEntry>)
    requires body == [BodyEntry("kycStatus", Text("approved"))]
    ensures Requested(body) == map[KycStatus := Text("approved")]
  {
    assert Requested(body[..0]) == map[];
  }

  lemma AppendedEntryOk(s0: State, s: State, r: Request)
    requires Replays(s0, s) && Chained(s0, s.audit) && EntriesOk(s0, s.audit)
    ensures Chained(s0, Update(s, r).1.audit) && EntriesOk(s0, Update(s, r).1.audit)
  {
    UpdateFacts(s, r);
    var s' := Update(s, r).1;
    if s'.audit != s.audit {
      var n := |s.audit|;
      assert forall i :: 0 <= i <= n ==> s'.audit[..i] == s.audit[..i];
      forall i | 0 <= i < |s'.audit|
        ensures forall f :: f in s'.audit[i].before ==>
                  s'.audit[i].before[f] == Replay(s'.audit[..i], s'.audit[i].target, f, Start(s0, s'.audit[i].target, f))
      {
        if i == n {
          assert s'.audit[..n] == s.audit;
        }
      }
    }
  }

  /** The main result: over any run of edits in which none misleads, the sensitive fields of every user
      are what the audit log replays to, and the log chains and never lets an actor change himself. */
  lemma {:induction false} RunReplays(s0: State, s: State, rs: seq<Request>)
    requires Replays(s0, s) && Chained(s0, s.audit) && EntriesOk(s0, s.audit)
    requires NeverMisleads(s, rs)
    ensures var s' := Run(s, rs);
            Replays(s0, s') && Chained(s0, s'.audit) && EntriesOk(s0, s'.audit)
    decreases |rs|
  {
    if rs != [] {
      StepReplaysExactly(s0, s, rs[0]);
      RunReplays(s0, Update(s, rs[0]).1, rs[1..]);
    }
  }

  lemma AuditReplaysToState(s0: State, rs: seq<Request>, target: string, f: Field)
    requires s0.audit == [] && NeverMisleads(s0, rs)
    requires target in Run(s0, rs).users && Sensitive(f)
    ensures Current(Run(s0, rs).users[target].fields, f) == Replay(Run(s0, rs).audit, target, f, Start(s0, target, f))
    ensures EntriesOk(s0, Run(s0, rs).audit) && Chained(s0, Run(s0, rs).audit)
  {
    RunReplays(s0, s0, rs);
  }

  // ── With failed writes ────────────────────────────────────────────────────

  /** Some entry of the log records the change that left this value in effect. */
  ghost predicate Recorded(audit: seq<AuditEntry>, target: string, f: Field, v: Value) {
    exists i :: 0 <= i < |audit| && audit[i].target == target && f in audit[i].after && Effective(f, audit[i].after[f]) == v
  }

  /** The value is the one the run started with, or is recorded. */
  ghost predicate Accounted(s0: State, s: State, target: string, f: Field) {
    && target in s.users
    && (Current(s.users[target].fields, f) == Start(s0, target, f)
        || Recorded(s.audit, target, f, Current(s.users[target].fields, f)))
  }

  lemma RecordedStays(audit: seq<AuditEntry>, longer: seq<AuditEntry>, target: string, f: Field, v: Value)
    requires audit <= longer && Recorded(audit, target, f, v)
    ensures Recorded(longer, target, f, v)
  {
    var i :| 0 <= i < |audit| && audit[i].target == target && f in audit[i].after && Effective(f, audit[i].after[f]) == v;
    assert longer[i] == audit[i];
  }

  lemma ChangeRecorded(s0: State, s: State, r: Request, target: string, f: Field)
    requires Accounted(s0, s, target, f) && Sensitive(f)
    ensures Accounted(s0, Update(s, r).1, target, f) && s.audit <= Update(s, r).1.audit
  {
    var s' := Update(s, r).1;
    UpdateFacts(s, r);
    if Recorded(s.audit, target, f, Current(s.users[target].fields, f)) {
      RecordedStays(s.audit, s'.audit, target, f, Current(s.users[target].fields, f));
    }
    if s'.users != s.users && target == Canonical(r.rawId).value {
      AppliedValue(s.users[target], Requested(r.body), f);
      if f in Updates(s.users[target].fields, Requested(r.body)) {
        var e := s'.audit[|s.audit|];
        assert e.target == target && f in e.after && Effective(f, e.after[f]) == Current(s'.users[target].fields, f);
      }
    }
  }

  lemma EntriesOkStep(s0: State, s: State, r: Request)
    requires EntriesOk(s0, s.audit)
    ensures EntriesOk(s0, Update(s, r).1.audit)
  {
    UpdateFacts(s, r);
  }

  /** Even when final writes fail, the log only grows, no sensitive field holds a value that was
      neither there at the start nor recorded, and no actor is ever his own target. */
  lemma {:induction false} EveryChangeRecorded(s0: State, s: State, rs: seq<Request>, target: string, f: Field)
    requires Accounted(s0, s, target, f) && Sensitive(f) && EntriesOk(s0, s.audit)
    ensures var s' := Run(s, rs);
            Accounted(s0, s', target, f) && s.audit <= s'.audit && EntriesOk(s0, s'.audit)
    decreases |rs|
  {
    if rs != [] {
      ChangeRecorded(s0, s, rs[0], target, f);
      EntriesOkStep(s0, s, rs[0]);
      EveryChangeRecorded(s0, Update(s, rs[0]).1, rs[1..], target, f);
    }
  }

  /** While the break-glass is off nobody's role changes and no entry mentions a role. */
  lemma {:induction false} RoleFrozen(s: State, rs: seq<Request>, target: string)
    requires forall i :: 0 <= i < |rs| ==> !rs[i].breakGlass
    requires target in s.users
    ensures var s' := Run(s, rs);
            && target in s'.users
            && Current(s'.users[target].fields, Role) == Current(s.users[target].fields, Role)
            && (forall i :: |s.audit| <= i < |s'.audit| ==> Role !in s'.audit[i].after)
            && s.audit <= s'.audit
    decreases |rs|
  {
    if rs != [] {
      var r := rs[0];
      var s' := Update(s, r).1;
      UpdateFacts(s, r);
      if s'.users != s.users {
        AppliedValue(s.users[Canonical(r.rawId).value], Requested(r.body), Role);
      }
      RoleFrozen(s', rs[1..], target);
    }
  }

  /** Suspending a user also moves the token version, exactly when the request says `false` or
      'false': the other values the schema takes for false suspend without it. */
  lemma SuspensionMovesVersion(s: State, r: Request, target: string)
    requires target in s.users && target in Update(s, r).1.users
    requires Current(s.users[target].fields, IsActive) == Flag(true)
    requires Current(Update(s, r).1.users[target].fields, IsActive) == Flag(false)
    ensures IsActive in Requested(r.body)
    ensures Update(s, r).1.users[target].tokenVersion == s.users[target].tokenVersion + 1
            <==> Requested(r.body)[IsActive] == Flag(false)
    ensures Requested(r.body)[IsActive] == Flag(false)
            || Requested(r.body)[IsActive] in {Number(0), Text("0"), Text("no")}
  {
    UpdateFacts(s, r);
    RequestedNormal(r.body);
  }

  lemma {:induction false} RequestedNormal(body: seq<BodyEntry>)
    ensures IsActive in Requested(body) ==> Requested(body)[IsActive] != Text("false")
  {
    if body != [] {
      RequestedNormal(body[..|body| - 1]);
    }
  }

  // ── What an edit does ─────────────────────────────────────────────────────

  /** The body's last value for a field, with the panel's 'true' and 'false' as booleans. */
  lemma {:induction false} RequestedIsLast(body: seq<BodyEntry>, i: nat, f: Field)
    requires i < |body| && FieldOf(body[i].key) == Some(f)
    requires forall j :: i < j < |body| ==> FieldOf(body[j].key) != Some(f)
    ensures f in Requested(body)
    ensures Requested(body)[f] ==
              if (f == IsActive || f == SanctionsFlag) && body[i].val == Text("true") then Flag(true)
              else if (f == IsActive || f == SanctionsFlag) && body[i].val == Text("false") then Flag(false)
              else body[i].val
  {
    if i < |body| - 1 {
      RequestedIsLast(body[..|body| - 1], i, f);
    }
  }

  lemma {:induction false} RequestedOnlyNamed(body: seq<BodyEntry>, f: Field)
    ensures f in Requested(body) <==> exists i :: 0 <= i < |body| && FieldOf(body[i].key) == Some(f)
  {
    if body != [] {
      var n := |body| - 1;
      RequestedOnlyNamed(body[..n], f);
      assert forall i :: 0 <= i < n ==> body[..n][i] == body[i];
    }
  }

  lemma FieldNames()
    ensures FieldOf("accountType") == Some(AccountType) && FieldOf("legalEntity") == Some(LegalEntity)
    ensures FieldOf("kycStatus") == Some(KycStatus) && FieldOf("role") == Some(Role)
    ensures FieldOf("isActive") == Some(IsActive) && FieldOf("sanctionsFlag") == Some(SanctionsFlag)
    ensures FieldOf("tokenVersion") == None
    ensures forall f :: Sensitive(f) <==> f == Role || f == KycStatus || f == SanctionsFlag
  {
  }

  /** An accepted edit takes effect: each requested field holds the requested value, as the schema stores it,
      unless it was in effect already; every other field and every other user is as before. */
  lemma EditTakesEffect(s: State, r: Request)
    requires Update(s, r).0 == 200
    ensures var target, s' := Canonical(r.rawId), Update(s, r).1;
            && target.Some? && target.value in s.users
            && s'.users == s.users[target.value := s'.users[target.value]]
            && (forall f :: f in Requested(r.body) && Current(s.users[target.value].fields, f) != Requested(r.body)[f] ==>
                  && f in s'.users[target.value].fields
                  && Some(s'.users[target.value].fields[f]) == Cast(f, Requested(r.body)[f]))
            && (forall f :: f !in Requested(r.body) || Current(s.users[target.value].fields, f) == Requested(r.body)[f] ==>
                  Current(s'.users[target.value].fields, f) == Current(s.users[target.value].fields, f))
  {
    var target := Canonical(r.rawId).value;
    var u, requested := s.users[target], Requested(r.body);
    var updates := Updates(u.fields, requested);
    assert forall f :: f in updates <==> f in requested && Current(u.fields, f) != requested[f];
    if updates != map[] {
      assert UpdatesOf(s, r) == Some(updates);
      AcceptedIsApplied(s, r);
    }
  }

  lemma AcceptedIsApplied(s: State, r: Request)
    requires Update(s, r).0 == 200 && UpdatesOf(s, r).Some?
    ensures var target, updates := Canonical(r.rawId).value, UpdatesOf(s, r).value;
            && (forall f :: f in updates ==> Cast(f, updates[f]).Some?)
            && Update(s, r).1.users == s.users[target := Apply(s.users[target], updates)]
  {
  }

  /** What an edit of an existing user amounts to: the requested values that differ from those in effect. */
  lemma ChangesAre(s: State, r: Request, f: Field)
    requires UpdatesOf(s, r).Some?
    ensures var u, requested, updates := s.users[Canonical(r.rawId).value], Requested(r.body), UpdatesOf(s, r).value;
            && (f in updates <==> f in requested && requested[f] != Current(u.fields, f))
            && (f in updates ==> updates[f] == requested[f])
  {
  }

  /** The value in effect: the stored one, or what the schema fills in. */
  lemma InEffect(fields: map<Field, Value>, f: Field)
    ensures f in fields && fields[f] != Null ==> Current(fields, f) == fields[f]
    ensures f !in fields || fields[f] == Null ==>
              Current(fields, f) == if f == Role then Text("user") else if f == KycStatus then Text("pending")
                                    else if f == IsActive then Flag(true) else if f == SanctionsFlag then Flag(false)
                                    else Null
  {
  }

  /** The audit trail of an edit: an accepted one, and one whose final write failed, leave an entry exactly
      for a sensitive change, with the values in effect and the values promised; a refused one leaves none. */
  lemma EditIsAudited(s: State, r: Request)
    requires UpdatesOf(s, r).Some?
    ensures var updates, target, s' := UpdatesOf(s, r).value, Canonical(r.rawId).value, Update(s, r).1;
            var sensitive := Role in updates || KycStatus in updates || SanctionsFlag in updates;
            && (Update(s, r).0 in {400, 403} || !sensitive || !r.auditOk ==> s'.audit == s.audit)
            && (Update(s, r).0 in {200, 500} && sensitive && r.auditOk ==>
                  && |s'.audit| == |s.audit| + 1 && s.audit <= s'.audit
                  && (var e := s'.audit[|s.audit|];
                      && e.actor == r.actor && e.target == target && e.reason == r.reason
                      && e.before.Keys == e.after.Keys
                      && (forall f :: f in e.after <==> f in updates && f in {Role, KycStatus, SanctionsFlag})
                      && (forall f :: f in e.after ==>
                            e.before[f] == Current(s.users[target].fields, f) && e.after[f] == updates[f])))
  {
    var updates := UpdatesOf(s, r).value;
    assert Sensitive(Role) && Sensitive(KycStatus) && Sensitive(SanctionsFlag);
    assert TouchesSensitive(updates) <==> Role in updates || KycStatus in updates || SanctionsFlag in updates;
  }

  /** What the schema stores: the two flags as booleans, everything else as it is. */
  lemma StoredFlag(f: Field, v: Value)
    requires f == IsActive || f == SanctionsFlag
    ensures Cast(f, v) == Some(Flag(true)) <==>
              v == Flag(true) || v == Text("true") || v == Number(1) || v == Text("1") || v == Text("yes")
    ensures Cast(f, v) == Some(Flag(false)) <==>
              v == Flag(false) || v == Text("false") || v == Number(0) || v == Text("0") || v == Text("no")
    ensures Cast(f, v) == Some(Null) <==> v == Null
  {
  }

  lemma StoredAsIs(f: Field, v: Value)
    requires f != IsActive && f != SanctionsFlag
    ensures Cast(f, v) == Some(v)
  {
  }

  /** The answers to an edit of an existing user that changes something: 400 for a value outside its list
      or, for a sensitive change, too short a reason; 403 for a role with the break-glass off and for a
      sensitive change of oneself; 500 when the audit or the final write fails. */
  lemma EditAnswers(s: State, r: Request)
    requires UpdatesOf(s, r).Some?
    ensures var updates, target := UpdatesOf(s, r).value, Canonical(r.rawId).value;
            var listed := forall f :: f in updates ==> InEnum(f, updates[f]);
            var sensitive := Role in updates || KycStatus in updates || SanctionsFlag in updates;
            var code := Update(s, r).0;
            && (code == 403 <==> listed && ((Role in updates && !r.breakGlass) || (sensitive && target == r.actor)))
            && (code == 400 <==> !listed || (sensitive && code != 403 && |r.reason| < 10))
            && (code == 500 <==> code != 400 && code != 403 && ((sensitive && !r.auditOk) || !r.writeOk
                                                                || exists f :: f in updates && Cast(f, updates[f]).None?))
            && (code in {200, 400, 403, 500})
            && (code != 200 ==> Update(s, r).1.users == s.users)
  {
    var updates := UpdatesOf(s, r).value;
    assert Sensitive(Role) && Sensitive(KycStatus) && Sensitive(SanctionsFlag);
    assert TouchesSensitive(updates) <==> Role in updates || KycStatus in updates || SanctionsFlag in updates;
  }

  /** The lists. */
  lemma ListedValues(v: Value)
    ensures InEnum(Role, v) <==> v == Text("user") || v == Text("admin")
    ensures InEnum(AccountType, v) <==> v == Text("personal") || v == Text("business")
    ensures InEnum(LegalEntity, v) <==> v == Text("LLC") || v == Text("SpA") || v == Text("SRL")
    ensures InEnum(KycStatus, v) <==>
              v == Text("pending") || v == Text("in_review") || v == Text("approved") || v == Text("rejected")
              || v == Text("expired")
    ensures InEnum(IsActive, v) && InEnum(SanctionsFlag, v)
  {
  }

  /** And to one that names no user or changes nothing. */
  lemma OtherAnswers(s: State, r: Request)
    requires UpdatesOf(s, r).None?
    ensures var id := Canonical(r.rawId);
            && Update(s, r).1 == s
            && Update(s, r).0 ==
                 if id.None? || Requested(r.body) == map[] then 400
                 else if id.value !in s.users then 404 else 200
  {
  }
}
