/** Sessions: one live token per user, kept by a revocation list whose records expire on their own.
    Times are milliseconds; token expiries are whole seconds, as in the `exp` claim. */
module Sessions {
  import opened Options
  import Runs

  type User = string
  type Jti = string

  datatype Token = Token(user: User, exp: int, version: nat)

  datatype Account = Account(active: Option<Jti>, tokenVersion: nat)

  /** `tokens` are the tokens handed out; `revoked` maps a jti to its record's expiresAt. */
  datatype Db = Db(now: int, accounts: map<User, Account>, tokens: map<Jti, Token>, revoked: map<Jti, int>)

  datatype Stage = Loaded | Signed(jti: Jti, exp: int) | Settled(jti: Jti, exp: int)

  /** A registration or a password login in progress: the session it read as the active one. */
  datatype Login = Login(user: User, version: nat, previous: Option<Jti>, lifetime: nat, stage: Stage)

  /** `registrationLifetime` is JWT_EXPIRES_IN in seconds; `closing` are logouts past their first write. */
  datatype State = State(db: Db, logins: map<nat, Login>, closing: set<Jti>, registrationLifetime: nat)

  datatype Event =
    | Register(login: nat, user: User)
    | Load(login: nat, user: User, rememberMe: bool)
    | Sign(login: nat, jti: Jti)
    | Revoke(login: nat)
    | Deliver(login: nat)
    | Fail(login: nat)
    | Logout(jti: Jti)
    | Clear(jti: Jti)
    | BumpVersion(user: User)      // password reset, account deletion
    | ResetVersion(user: User)     // back to zero, by an administrator
    | Reissue(user: User, jti: Jti, rememberMe: bool)  // a changed password: no revocation
    | Tick(ms: nat)
    | Purge(jti: Jti)

  const DAY := 86400
  const WEEK := 604800

  function Lifetime(rememberMe: bool): nat {
    if rememberMe then WEEK else DAY
  }

  /** `exp` of a token signed now. */
  function Expiry(now: int, lifetime: nat): int {
    now / 1000 + lifetime
  }

  /** What `jwt.verify` checks: the clock, in whole seconds, has not reached `exp`. */
  predicate Unexpired(db: Db, t: Token) {
    db.now / 1000 < t.exp
  }

  /** Issued, unexpired and unrevoked. */
  predicate Live(db: Db, jti: Jti) {
    jti in db.tokens && Unexpired(db, db.tokens[jti]) && jti !in db.revoked
  }

  /** What `protect` lets through. */
  predicate Admits(db: Db, jti: Jti) {
    && Live(db, jti) && db.tokens[jti].user in db.accounts
    && db.tokens[jti].version == db.accounts[db.tokens[jti].user].tokenVersion
  }

  // ── Database writes ───────────────────────────────────────────────────────

  /** An upsert with $setOnInsert: an existing record keeps its expiry. */
  function AddRevocation(db: Db, jti: Jti, expiresAt: int): Db {
    if jti in db.revoked then db else db.(revoked := db.revoked[jti := expiresAt])
  }

  /** A new login revokes the session it found; the record lives for the longest lifetime. */
  function RevokePrevious(db: Db, previous: Option<Jti>): Db {
    if previous.Some? then AddRevocation(db, previous.value, db.now + WEEK * 1000) else db
  }

  function SetActive(db: Db, user: User, active: Option<Jti>): Db {
    if user in db.accounts then db.(accounts := db.accounts[user := db.accounts[user].(active := active)]) else db
  }

  function HandOut(db: Db, jti: Jti, t: Token): Db {
    SetActive(db, t.user, Some(jti)).(tokens := db.tokens[jti := t])
  }

  function ClearActive(db: Db, jti: Jti): Db {
    if jti in db.tokens && db.tokens[jti].user in db.accounts && db.accounts[db.tokens[jti].user].active == Some(jti)
    then SetActive(db, db.tokens[jti].user, None) else db
  }

  function SetVersion(db: Db, user: User, version: nat): Db {
    if user in db.accounts then db.(accounts := db.accounts[user := db.accounts[user].(tokenVersion := version)]) else db
  }

  // ── Steps ─────────────────────────────────────────────────────────────────

  /** Random identifiers do not repeat. */
  predicate Unused(s: State, jti: Jti) {
    && jti !in s.db.tokens
    && forall l :: l in s.logins && !s.logins[l].stage.Loaded? ==> s.logins[l].stage.jti != jti
  }

  function Step(s: State, e: Event): State {
    match e
    case Register(l, user) =>
      if l in s.logins || user in s.db.accounts then s
      else
        s.(db := s.db.(accounts := s.db.accounts[user := Account(None, 0)]),
           logins := s.logins[l := Login(user, 0, None, s.registrationLifetime, Loaded)])
    case Load(l, user, rememberMe) =>
      if l in s.logins || user !in s.db.accounts then s
      else
        var a := s.db.accounts[user];
        s.(logins := s.logins[l := Login(user, a.tokenVersion, a.active, Lifetime(rememberMe), Loaded)])
    case Sign(l, jti) =>
      if l !in s.logins || !s.logins[l].stage.Loaded? || !Unused(s, jti) then s
      else s.(logins := s.logins[l := s.logins[l].(stage := Signed(jti, Expiry(s.db.now, s.logins[l].lifetime)))])
    case Revoke(l) =>
      if l !in s.logins || !s.logins[l].stage.Signed? then s
      else
        var g := s.logins[l];
        s.(db := RevokePrevious(s.db, g.previous), logins := s.logins[l := g.(stage := Settled(g.stage.jti, g.stage.exp))])
    case Deliver(l) =>
      if l !in s.logins || !s.logins[l].stage.Settled? then s
      else
        var g := s.logins[l];
        s.(db := HandOut(s.db, g.stage.jti, Token(g.user, g.stage.exp, g.version)), logins := s.logins - {l})
    case Fail(l) => s.(logins := s.logins - {l})
    case Logout(jti) =>
      if jti !in s.db.tokens then s
      else s.(db := AddRevocation(s.db, jti, s.db.tokens[jti].exp * 1000), closing := s.closing + {jti})
    case Clear(jti) =>
      if jti !in s.closing then s else s.(db := ClearActive(s.db, jti), closing := s.closing - {jti})
    case BumpVersion(user) =>
      if user in s.db.accounts then s.(db := SetVersion(s.db, user, s.db.accounts[user].tokenVersion + 1)) else s
    case ResetVersion(user) => s.(db := SetVersion(s.db, user, 0))
    case Reissue(user, jti, rememberMe) =>
      if user !in s.db.accounts || !Unused(s, jti) then s
      else
        var version := s.db.accounts[user].tokenVersion + 1;
        var t := Token(user, Expiry(s.db.now, Lifetime(rememberMe)), version);
        s.(db := HandOut(SetVersion(s.db, user, version), jti, t))
    case Tick(ms) => s.(db := s.db.(now := s.db.now + ms))
    case Purge(jti) =>
      if jti in s.db.revoked && s.db.revoked[jti] <= s.db.now
      then s.(db := s.db.(revoked := s.db.revoked - {jti})) else s
  }

  function Run(s: State, es: seq<Event>): State {
    Runs.Run(Step, s, es)
  }

  // ── The handlers ──────────────────────────────────────────────────────────

  /** The writes of `issueSession`, which stops at the first that fails. */
  function Issue(db: Db, user: User, version: nat, previous: Option<Jti>, jti: Jti, rememberMe: bool,
                 onlySession: bool, revokeOk: bool, saveOk: bool): Db
  {
    var revokes := onlySession && previous.Some? && previous.value != jti;
    if revokes && !revokeOk then db
    else
      var db' := if revokes then RevokePrevious(db, previous) else db;
      if !saveOk then db' else HandOut(db', jti, Token(user, Expiry(db.now, Lifetime(rememberMe)), version))
  }

  class SessionStore {
    var now: int
    var accounts: map<User, Account>
    var tokens: map<Jti, Token>
    var revoked: map<Jti, int>

    function Contents(): Db
      reads this
    {
      Db(now, accounts, tokens, revoked)
    }

    constructor (db: Db)
      ensures Contents() == db
    {
      now, accounts, tokens, revoked := db.now, db.accounts, db.tokens, db.revoked;
    }

    method IssueSession(user: User, version: nat, previous: Option<Jti>, jti: Jti, rememberMe: bool,
                        onlySession: bool, revokeOk: bool, saveOk: bool)
      returns (token: Option<Token>)
      requires user in accounts
      modifies this
      ensures Contents() == Issue(old(Contents()), user, version, previous, jti, rememberMe, onlySession, revokeOk, saveOk)
      ensures token.Some? ==> jti in tokens && tokens[jti] == token.value && accounts[user].active == Some(jti)
      ensures token.None? ==> accounts == old(accounts) && tokens == old(tokens)
    {
      var t := Token(user, now / 1000 + Lifetime(rememberMe), version);
      if onlySession && previous.Some? && previous.value != jti {
        if !revokeOk {
          return None;
        }
        if previous.value !in revoked {
          revoked := revoked[previous.value := now + WEEK * 1000];
        }
      }
      if !saveOk {
        return None;
      }
      accounts := accounts[user := accounts[user].(active := Some(jti))];
      tokens := tokens[jti := t];
      return Some(t);
    }

    /** Logging out with a token that names its session. */
    method LogoutUser(jti: Jti, revokeOk: bool, clearOk: bool) returns (code: nat)
      requires jti in tokens
      modifies this
      ensures var db := AddRevocation(old(Contents()), jti, old(tokens)[jti].exp * 1000);
              Contents() == if !revokeOk then old(Contents()) else if !clearOk then db else ClearActive(db, jti)
      ensures code == if revokeOk && clearOk then 200 else 500
    {
      var claims := tokens[jti];
      if !revokeOk {
        return 500;
      }
      if jti !in revoked {
        revoked := revoked[jti := claims.exp * 1000];
      }
      if !clearOk {
        return 500;
      }
      if claims.user in accounts && accounts[claims.user].active == Some(jti) {
        accounts := accounts[claims.user := accounts[claims.user].(active := None)];
      }
      return 200;
    }

    method ResetPassword(user: User, linkValid: bool) returns (code: nat)
      requires user in accounts
      modifies this
      ensures code == if linkValid then 200 else 400
      ensures Contents() ==
              if linkValid then SetVersion(old(Contents()), user, old(accounts)[user].tokenVersion + 1) else old(Contents())
    {
      if !linkValid {
        return 400;
      }
      accounts := accounts[user := accounts[user].(tokenVersion := accounts[user].tokenVersion + 1)];
      return 200;
    }
  }

  /** A login served without interruption is its four steps. */
  lemma LoginIsItsSteps(s: State, l: nat, user: User, rememberMe: bool, jti: Jti)
    requires l !in s.logins && user in s.db.accounts && Unused(s, jti)
    requires s.db.accounts[user].active != Some(jti)
    ensures var a := s.db.accounts[user];
            var s' := Step(Step(Step(Step(s, Load(l, user, rememberMe)), Sign(l, jti)), Revoke(l)), Deliver(l));
            s' == s.(db := Issue(s.db, user, a.tokenVersion, a.active, jti, rememberMe, true, true, true))
  {
    var a := s.db.accounts[user];
    var s1 := Step(s, Load(l, user, rememberMe));
    var s2 := Step(s1, Sign(l, jti));
    var s3 := Step(s2, Revoke(l));
    assert Unused(s1, jti);
    assert s3.logins[l] == Login(user, a.tokenVersion, a.active, Lifetime(rememberMe), Settled(jti, Expiry(s.db.now, Lifetime(rememberMe))));
    assert s3.logins - {l} == s.logins;
  }

  // ── What the handlers write ───────────────────────────────────────────────

  /** Issuing a session: first the session found is revoked for seven days, unless it is on the list already,
      then the new token, valid for seven days or for one, becomes the active one; each failure stops there. */
  lemma IssueTakesEffect(db: Db, user: User, version: nat, previous: Option<Jti>, jti: Jti, rememberMe: bool,
                         onlySession: bool, revokeOk: bool, saveOk: bool)
    requires user in db.accounts
    ensures var db' := Issue(db, user, version, previous, jti, rememberMe, onlySession, revokeOk, saveOk);
            var revokes := onlySession && previous.Some? && previous.value != jti;
            var stopped := revokes && !revokeOk;
            && db'.now == db.now
            && db'.revoked == (if revokes && revokeOk && previous.value !in db.revoked
                               then db.revoked[previous.value := db.now + 7 * 24 * 60 * 60 * 1000] else db.revoked)
            && db'.tokens == (if !stopped && saveOk
                              then db.tokens[jti := Token(user, db.now / 1000 + (if rememberMe then 7 else 1) * 24 * 60 * 60, version)]
                              else db.tokens)
            && db'.accounts == (if !stopped && saveOk
                                then db.accounts[user := Account(Some(jti), db.accounts[user].tokenVersion)] else db.accounts)
  {
  }

  /** Logging out: the token is on the list until its own expiry, or as long as it was already; and it is no
      longer the active session if it was. */
  lemma LogoutTakesEffect(db: Db, jti: Jti)
    requires jti in db.tokens && db.tokens[jti].user in db.accounts
    ensures var user := db.tokens[jti].user;
            var db' := ClearActive(AddRevocation(db, jti, db.tokens[jti].exp * 1000), jti);
            && jti in db'.revoked
            && db'.revoked[jti] == (if jti in db.revoked then db.revoked[jti] else db.tokens[jti].exp * 1000)
            && db'.revoked - {jti} == db.revoked - {jti}
            && db'.tokens == db.tokens && !Live(db', jti)
            && db'.accounts == (if db.accounts[user].active == Some(jti)
                                then db.accounts[user := db.accounts[user].(active := None)] else db.accounts)
  {
  }

  /** A registration creates an account without a session and goes on as a login does, with the configured
      lifetime; a password reset moves the version by one and an administrator's reset to zero. */
  lemma OtherWrites(s: State, l: nat, user: User)
    ensures l !in s.logins && user !in s.db.accounts ==>
              var s' := Step(s, Register(l, user));
              && s'.db == s.db.(accounts := s.db.accounts[user := Account(None, 0)])
              && s'.logins == s.logins[l := Login(user, 0, None, s.registrationLifetime, Loaded)]
    ensures user in s.db.accounts ==>
              && Step(s, BumpVersion(user)).db.accounts ==
                   s.db.accounts[user := s.db.accounts[user].(tokenVersion := s.db.accounts[user].tokenVersion + 1)]
              && Step(s, ResetVersion(user)).db.accounts == s.db.accounts[user := s.db.accounts[user].(tokenVersion := 0)]
    ensures Step(s, BumpVersion(user)).db.revoked == Step(s, ResetVersion(user)).db.revoked == s.db.revoked
  {
  }

  // ── Invariants ────────────────────────────────────────────────────────────

  /** No expiry lies further than a week ahead. */
  ghost predicate ShortLived(s: State) {
    && s.registrationLifetime <= WEEK
    && (forall j :: j in s.db.tokens ==> s.db.tokens[j].exp <= Expiry(s.db.now, WEEK))
    && (forall l :: l in s.logins ==>
          s.logins[l].lifetime <= WEEK
          && (s.logins[l].stage.Loaded? || s.logins[l].stage.exp <= Expiry(s.db.now, WEEK)))
  }

  /** Every revocation record outlives the token it is about. */
  ghost predicate RecordsOutlive(s: State) {
    forall j :: j in s.db.revoked ==> j in s.db.tokens && s.db.revoked[j] >= s.db.tokens[j].exp * 1000
  }

  ghost predicate KnownSession(db: Db, user: User, active: Option<Jti>) {
    active.Some? ==> active.value in db.tokens && db.tokens[active.value].user == user
  }

  ghost predicate AccountsOk(s: State) {
    && (forall u :: u in s.db.accounts ==> KnownSession(s.db, u, s.db.accounts[u].active))
    && (forall j :: j in s.db.tokens ==> s.db.tokens[j].user in s.db.accounts)
  }

  ghost predicate LoginOk(s: State, g: Login) {
    && g.user in s.db.accounts && KnownSession(s.db, g.user, g.previous)
    && (!g.stage.Loaded? ==> g.stage.jti !in s.db.tokens)
    && (g.stage.Settled? && g.previous.Some? ==> !Live(s.db, g.previous.value))
  }

  ghost predicate LoginsOk(s: State) {
    && (forall l :: l in s.logins ==> LoginOk(s, s.logins[l]))
    && (forall l, k ::
          (l in s.logins && k in s.logins && l != k && !s.logins[l].stage.Loaded? && !s.logins[k].stage.Loaded?)
          ==> s.logins[l].stage.jti != s.logins[k].stage.jti)
  }

  ghost predicate ClosingOk(s: State) {
    forall j :: j in s.closing ==> j in s.db.tokens && !Live(s.db, j)
  }

  ghost predicate Inv(s: State) {
    ShortLived(s) && RecordsOutlive(s) && AccountsOk(s) && LoginsOk(s) && ClosingOk(s)
  }

  /** At most one session: a live token is its user's active one. */
  ghost predicate SingleSession(db: Db) {
    forall j :: Live(db, j) ==> db.tokens[j].user in db.accounts && db.accounts[db.tokens[j].user].active == Some(j)
  }

  /** A token that has been handed out and is not live never becomes live again. */
  lemma DeadStaysDead(s: State, e: Event, j: Jti)
    requires Inv(s) && j in s.db.tokens && !Live(s.db, j)
    ensures j in Step(s, e).db.tokens && !Live(Step(s, e).db, j)
  {
  }

  lemma TokensStay(s: State, e: Event, j: Jti)
    requires Inv(s) && j in s.db.tokens
    ensures j in Step(s, e).db.tokens && Step(s, e).db.tokens[j] == s.db.tokens[j]
  {
  }

  lemma StepKeepsShortLived(s: State, e: Event)
    requires Inv(s)
    ensures ShortLived(Step(s, e))
  {
    match e
    case Sign(_, _) => ExpiryWithinWeek(s, e);
    case Reissue(_, _, _) => ExpiryWithinWeek(s, e);
    case _ =>
  }

  /** A token signed now expires within a week. */
  lemma ExpiryWithinWeek(s: State, e: Event)
    requires ShortLived(s) && (e.Sign? || e.Reissue?)
    ensures ShortLived(Step(s, e))
  {
  }

  /** A record written now outlives its token: a week, or the token's own expiry. */
  lemma StepKeepsRecords(s: State, e: Event)
    requires Inv(s)
    ensures RecordsOutlive(Step(s, e))
  {
    match e
    case Revoke(l) =>
      if l in s.logins {
        assert LoginOk(s, s.logins[l]);
      }
    case _ =>
  }

  lemma StepKeepsAccounts(s: State, e: Event)
    requires Inv(s)
    ensures AccountsOk(Step(s, e)) && ClosingOk(Step(s, e))
  {
    var s' := Step(s, e);
    forall j | j in s'.closing ensures j in s'.db.tokens && !Live(s'.db, j) {
      if j in s.closing {
        DeadStaysDead(s, e, j);
      }
    }
  }

  lemma StepKeepsLogins(s: State, e: Event)
    requires Inv(s)
    ensures LoginsOk(Step(s, e))
  {
    var s' := Step(s, e);
    forall l | l in s'.logins ensures LoginOk(s', s'.logins[l]) {
      StepKeepsLogin(s, e, l);
    }
  }

  lemma StepKeepsLogin(s: State, e: Event, l: nat)
    requires Inv(s) && l in Step(s, e).logins
    ensures LoginOk(Step(s, e), Step(s, e).logins[l])
  {
    if l in s.logins {
      assert LoginOk(s, s.logins[l]);
      var g := s.logins[l];
      if g.previous.Some? {
        TokensStay(s, e, g.previous.value);
        if !Live(s.db, g.previous.value) {
          DeadStaysDead(s, e, g.previous.value);
        }
      }
    }
  }

  lemma StepKeepsInv(s: State, e: Event)
    requires Inv(s)
    ensures Inv(Step(s, e))
  {
    StepKeepsShortLived(s, e);
    StepKeepsRecords(s, e);
    StepKeepsAccounts(s, e);
    StepKeepsLogins(s, e);
  }

  // ── One session per user ──────────────────────────────────────────────────

  /** The user whose active session the step replaces. */
  function Installs(s: State, e: Event): Option<User> {
    match e
    case Deliver(l) => if l in s.logins && s.logins[l].stage.Settled? then Some(s.logins[l].user) else None
    case Reissue(user, jti, _) => if user in s.db.accounts && Unused(s, jti) then Some(user) else None
    case _ => None
  }

  /** A live session stops being the active one without having been revoked. */
  predicate Displaces(s: State, e: Event) {
    var u := Installs(s, e);
    && u.Some? && u.value in s.db.accounts && s.db.accounts[u.value].active.Some?
    && Live(s.db, s.db.accounts[u.value].active.value)
  }

  /** The exact step: it keeps "one session per user" if and only if it displaces no live session. */
  lemma StepKeepsSingleSession(s: State, e: Event)
    requires Inv(s) && SingleSession(s.db)
    ensures SingleSession(Step(s, e).db) <==> !Displaces(s, e)
  {
    var s' := Step(s, e);
    if Displaces(s, e) {
      var u := Installs(s, e).value;
      var j := s.db.accounts[u].active.value;
      TokensStay(s, e, j);
      assert Live(s'.db, j);
      assert s'.db.accounts[u].active != Some(j);
    } else {
      forall j | Live(s'.db, j)
        ensures s'.db.tokens[j].user in s'.db.accounts && s'.db.accounts[s'.db.tokens[j].user].active == Some(j)
      {
        if j in s.db.tokens {
          if !Live(s.db, j) {
            DeadStaysDead(s, e, j);
          }
        }
      }
    }
  }

  /** Between the login's read and its write another session became the active one. */
  predicate Overtaken(s: State, e: Event) {
    && e.Deliver? && e.login in s.logins && s.logins[e.login].stage.Settled?
    && (var g := s.logins[e.login];
        g.user in s.db.accounts && s.db.accounts[g.user].active.Some? && s.db.accounts[g.user].active != g.previous)
  }

  lemma OnlyOvertakenDisplaces(s: State, e: Event)
    requires Inv(s) && Displaces(s, e)
    ensures e.Reissue? || Overtaken(s, e)
  {
    if e.Deliver? {
      assert LoginOk(s, s.logins[e.login]);
    }
  }

  /** Only registrations, undisturbed logins, logouts, password resets, deletions and version resets. */
  ghost predicate Undisturbed(s: State, es: seq<Event>)
    decreases |es|
  {
    es == [] || (!es[0].Reissue? && !Overtaken(s, es[0]) && Undisturbed(Step(s, es[0]), es[1..]))
  }

  /** Over every such run, whatever write fails, the issued, unexpired, unrevoked tokens of a user are
      contained in {activeSessionJti}. */
  lemma {:induction false} RunKeepsSingleSession(s: State, es: seq<Event>)
    requires Inv(s) && SingleSession(s.db) && Undisturbed(s, es)
    ensures SingleSession(Run(s, es).db) && Inv(Run(s, es))
    decreases |es|
  {
    if es != [] {
      StepKeepsInv(s, es[0]);
      if Displaces(s, es[0]) {
        OnlyOvertakenDisplaces(s, es[0]);
      }
      StepKeepsSingleSession(s, es[0]);
      RunKeepsSingleSession(Step(s, es[0]), es[1..]);
    }
  }

  /** At most one session per user, now and at every point of the run. */
  ghost predicate AlwaysSingle(s: State, es: seq<Event>)
    decreases |es|
  {
    SingleSession(s.db) && (es == [] || AlwaysSingle(Step(s, es[0]), es[1..]))
  }

  ghost predicate NeverDisplaces(s: State, es: seq<Event>)
    decreases |es|
  {
    es == [] || (!Displaces(s, es[0]) && NeverDisplaces(Step(s, es[0]), es[1..]))
  }

  /** The exact condition on runs: one session per user at every point, if and only if no step displaces a
      live session. */
  lemma {:induction false} AlwaysSingleExactly(s: State, es: seq<Event>)
    requires Inv(s) && SingleSession(s.db)
    ensures AlwaysSingle(s, es) <==> NeverDisplaces(s, es)
    decreases |es|
  {
    if es != [] {
      StepKeepsInv(s, es[0]);
      StepKeepsSingleSession(s, es[0]);
      if !Displaces(s, es[0]) {
        AlwaysSingleExactly(Step(s, es[0]), es[1..]);
      }
    }
  }

  function Empty(now: int, registrationLifetime: nat): State {
    State(Db(now, map[], map[], map[]), map[], {}, registrationLifetime)
  }

  lemma OneLiveToken(now: int, registrationLifetime: nat, es: seq<Event>, i: Jti, j: Jti)
    requires registrationLifetime <= WEEK && Undisturbed(Empty(now, registrationLifetime), es)
    requires var db := Run(Empty(now, registrationLifetime), es).db;
             Live(db, i) && Live(db, j) && db.tokens[i].user == db.tokens[j].user
    ensures i == j
  {
    RunKeepsSingleSession(Empty(now, registrationLifetime), es);
  }

  /** No revoked token comes back, in any run at all. */
  lemma {:induction false} RevokedForGood(s: State, es: seq<Event>, j: Jti)
    requires Inv(s) && j in s.db.tokens && !Live(s.db, j)
    ensures j in Run(s, es).db.tokens && !Live(Run(s, es).db, j)
    decreases |es|
  {
    if es != [] {
      DeadStaysDead(s, es[0], j);
      StepKeepsInv(s, es[0]);
      RevokedForGood(Step(s, es[0]), es[1..], j);
    }
  }

  // ── Where it ends ─────────────────────────────────────────────────────────

  /** Two logins of one user, each read before either is written. */
  function TwoLogins(user: User, a: Jti, b: Jti): seq<Event> {
    [Load(1, user, false), Load(2, user, false), Sign(1, a), Sign(2, b)] + [Revoke(1), Revoke(2), Deliver(1), Deliver(2)]
  }

  lemma BothSigned(s: State, user: User, a: Jti, b: Jti)
    requires s.logins == map[] && user in s.db.accounts && a != b && a !in s.db.tokens && b !in s.db.tokens
    ensures var account := s.db.accounts[user];
            var exp := Expiry(s.db.now, DAY);
            Run(s, [Load(1, user, false), Load(2, user, false), Sign(1, a), Sign(2, b)]) ==
            s.(logins := map[1 := Login(user, account.tokenVersion, account.active, DAY, Signed(a, exp)),
                             2 := Login(user, account.tokenVersion, account.active, DAY, Signed(b, exp))])
  {
    Runs.Four(Step, s, Load(1, user, false), Load(2, user, false), Sign(1, a), Sign(2, b));
    BothLoaded(s, user);
    BothSign(Step(Step(s, Load(1, user, false)), Load(2, user, false)), a, b);
  }

  lemma BothSign(s: State, a: Jti, b: Jti)
    requires s.logins.Keys == {1, 2} && s.logins[1].stage.Loaded? && s.logins[2].stage.Loaded?
    requires a != b && a !in s.db.tokens && b !in s.db.tokens
    ensures var g, h := s.logins[1], s.logins[2];
            Step(Step(s, Sign(1, a)), Sign(2, b)) ==
            s.(logins := map[1 := g.(stage := Signed(a, Expiry(s.db.now, g.lifetime))),
                             2 := h.(stage := Signed(b, Expiry(s.db.now, h.lifetime)))])
  {
    var s1 := Step(s, Sign(1, a));
    assert Unused(s, a) && Unused(s1, b);
    assert s1.logins == s.logins[1 := s.logins[1].(stage := Signed(a, Expiry(s.db.now, s.logins[1].lifetime)))];
  }

  lemma BothLoaded(s: State, user: User)
    requires s.logins == map[] && user in s.db.accounts
    ensures var account := s.db.accounts[user];
            var g := Login(user, account.tokenVersion, account.active, DAY, Loaded);
            Step(Step(s, Load(1, user, false)), Load(2, user, false)) == s.(logins := map[1 := g, 2 := g])
  {
  }

  lemma BothDelivered(s: State, g: Login, h: Login)
    requires s.logins == map[1 := g, 2 := h] && g.user == h.user && g.user in s.db.accounts
    requires g.stage.Signed? && h.stage.Signed? && g.stage.jti != h.stage.jti && g.previous == h.previous == None
    ensures var s' := Run(s, [Revoke(1), Revoke(2), Deliver(1), Deliver(2)]);
            && s'.db.now == s.db.now && s'.db.revoked == s.db.revoked
            && s'.db.tokens == s.db.tokens[g.stage.jti := Token(g.user, g.stage.exp, g.version)]
                                          [h.stage.jti := Token(h.user, h.stage.exp, h.version)]
  {
    Runs.Four(Step, s, Revoke(1), Revoke(2), Deliver(1), Deliver(2));
    var s2 := Step(Step(s, Revoke(1)), Revoke(2));
    assert s2.logins[1].stage == Settled(g.stage.jti, g.stage.exp) && s2.logins[2].stage == Settled(h.stage.jti, h.stage.exp);
  }

  /** Two logins that both find no active session leave two live tokens. */
  lemma InterleavedLogins(s: State, user: User, a: Jti, b: Jti)
    requires s.logins == map[] && user in s.db.accounts && s.db.accounts[user].active.None?
    requires a != b && a !in s.db.tokens && b !in s.db.tokens && a !in s.db.revoked && b !in s.db.revoked
    ensures var db := Run(s, TwoLogins(user, a, b)).db;
            Live(db, a) && Live(db, b) && db.tokens[a].user == db.tokens[b].user == user
  {
    BothSigned(s, user, a, b);
    var s1 := Run(s, [Load(1, user, false), Load(2, user, false), Sign(1, a), Sign(2, b)]);
    BothDelivered(s1, s1.logins[1], s1.logins[2]);
    Runs.Split(Step, s, [Load(1, user, false), Load(2, user, false), Sign(1, a), Sign(2, b)], [Revoke(1), Revoke(2), Deliver(1), Deliver(2)]);
  }

  function Registration(user: User, jti: Jti): seq<Event> {
    [Register(0, user), Sign(0, jti), Revoke(0), Deliver(0)]
  }

  function PasswordLogin(user: User, jti: Jti): seq<Event> {
    [Load(1, user, false), Sign(1, jti), Revoke(1), Deliver(1)]
  }

  lemma AfterRegistration(user: User, a: Jti, lifetime: nat)
    ensures Run(Empty(0, lifetime), Registration(user, a)) ==
            State(Db(0, map[user := Account(Some(a), 0)], map[a := Token(user, lifetime, 0)], map[]), map[], {}, lifetime)
  {
    var s0 := Empty(0, lifetime);
    Runs.Four(Step, s0, Register(0, user), Sign(0, a), Revoke(0), Deliver(0));
    var s2 := Step(Step(s0, Register(0, user)), Sign(0, a));
    assert s2.logins == map[0 := Login(user, 0, None, lifetime, Signed(a, lifetime))];
  }

  lemma AfterLogin(user: User, a: Jti, b: Jti, lifetime: nat)
    requires a != b
    ensures var s := Run(Run(Empty(0, lifetime), Registration(user, a)), PasswordLogin(user, b));
            && s.db.now == 0 && s.db.revoked == map[a := WEEK * 1000]
            && a in s.db.tokens && s.db.tokens[a] == Token(user, lifetime, 0)
  {
    AfterRegistration(user, a, lifetime);
    var s1 := Run(Empty(0, lifetime), Registration(user, a));
    Runs.Four(Step, s1, Load(1, user, false), Sign(1, b), Revoke(1), Deliver(1));
    var s3 := Step(Step(s1, Load(1, user, false)), Sign(1, b));
    assert s3.logins == map[1 := Login(user, 0, Some(a), DAY, Signed(b, DAY))];
  }

  /** What a registration hands out comes back once its revocation record is purged. */
  lemma LongRegistrationRevives(user: User, a: Jti, b: Jti, lifetime: nat)
    requires lifetime > WEEK && a != b
    ensures !Reliable(lifetime, Registration(user, a) + PasswordLogin(user, b), [Tick(WEEK * 1000), Purge(a)], a)
  {
    var s0 := Empty(0, lifetime);
    Runs.Split(Step, s0, Registration(user, a), PasswordLogin(user, b));
    AfterLogin(user, a, b, lifetime);
    var s2 := Run(s0, Registration(user, a) + PasswordLogin(user, b));
    var s3 := Step(s2, Tick(WEEK * 1000));
    Runs.Two(Step, s2, Tick(WEEK * 1000), Purge(a));
  }

  /** A token no longer live after one run is not live after any continuation. */
  predicate Reliable(lifetime: nat, earlier: seq<Event>, later: seq<Event>, j: Jti) {
    var s := Run(Empty(0, lifetime), earlier);
    j in s.db.tokens && !Live(s.db, j) ==> !Live(Run(s, later).db, j)
  }

  /** Revocation is for good in all runs exactly when registrations live no longer than a week. */
  lemma RevocationHoldsExactly(lifetime: nat)
    ensures (forall earlier, later, j :: Reliable(lifetime, earlier, later, j)) <==> lifetime <= WEEK
  {
    if lifetime <= WEEK {
      forall earlier, later, j ensures Reliable(lifetime, earlier, later, j) {
        ReachableInv(lifetime, earlier);
        var s := Run(Empty(0, lifetime), earlier);
        if j in s.db.tokens && !Live(s.db, j) {
          RevokedForGood(s, later, j);
        }
      }
    } else {
      LongRegistrationRevives("u", "a", "b", lifetime);
    }
  }

  lemma ReachableInv(lifetime: nat, es: seq<Event>)
    requires lifetime <= WEEK
    ensures Inv(Run(Empty(0, lifetime), es))
  {
    forall t, e | Inv(t) ensures Inv(Step(t, e)) {
      StepKeepsInv(t, e);
    }
    Runs.KeepsAlways(Step, Inv, Empty(0, lifetime), es);
  }

  // ── The global counter ────────────────────────────────────────────────────

  /** No token or login carries a version its account has not reached. */
  ghost predicate VersionsReached(s: State) {
    && (forall j :: j in s.db.tokens ==>
          s.db.tokens[j].user in s.db.accounts
          && s.db.tokens[j].version <= s.db.accounts[s.db.tokens[j].user].tokenVersion)
    && (forall l :: l in s.logins ==>
          s.logins[l].user in s.db.accounts
          && s.logins[l].version <= s.db.accounts[s.logins[l].user].tokenVersion)
  }

  lemma StepKeepsVersions(s: State, e: Event)
    requires VersionsReached(s) && !e.ResetVersion?
    ensures VersionsReached(Step(s, e))
  {
  }

  lemma {:induction false} RunKeepsVersions(s: State, es: seq<Event>)
    requires VersionsReached(s) && forall i :: 0 <= i < |es| ==> !es[i].ResetVersion?
    ensures VersionsReached(Run(s, es))
    decreases |es|
  {
    if es != [] {
      StepKeepsVersions(s, es[0]);
      RunKeepsVersions(Step(s, es[0]), es[1..]);
    }
  }

  /** As long as nobody resets the counter, a password reset or a deletion shuts out every token of the
      user handed out before, revoked or not. */
  lemma ResetShutsOut(lifetime: nat, earlier: seq<Event>, user: User, later: seq<Event>, j: Jti)
    requires lifetime <= WEEK
    requires forall i :: 0 <= i < |earlier| ==> !earlier[i].ResetVersion?
    requires forall i :: 0 <= i < |later| ==> !later[i].ResetVersion?
    requires var s := Run(Empty(0, lifetime), earlier); j in s.db.tokens && s.db.tokens[j].user == user
    ensures !Admits(Run(Step(Run(Empty(0, lifetime), earlier), BumpVersion(user)), later).db, j)
  {
    ReachableInv(lifetime, earlier);
    RunKeepsVersions(Empty(0, lifetime), earlier);
    var s := Run(Empty(0, lifetime), earlier);
    Bumped(s, user, j);
    StaysShutOut(Step(s, BumpVersion(user)), later, j);
  }

  lemma Bumped(s: State, user: User, j: Jti)
    requires Inv(s) && VersionsReached(s) && j in s.db.tokens && s.db.tokens[j].user == user
    ensures var s' := Step(s, BumpVersion(user));
            && Inv(s') && j in s'.db.tokens && s'.db.tokens[j].user in s'.db.accounts
            && s'.db.tokens[j].version < s'.db.accounts[s'.db.tokens[j].user].tokenVersion
  {
    StepKeepsInv(s, BumpVersion(user));
  }

  lemma {:induction false} StaysShutOut(s: State, es: seq<Event>, j: Jti)
    requires Inv(s) && j in s.db.tokens && s.db.tokens[j].user in s.db.accounts
    requires s.db.tokens[j].version < s.db.accounts[s.db.tokens[j].user].tokenVersion
    requires forall i :: 0 <= i < |es| ==> !es[i].ResetVersion?
    ensures !Admits(Run(s, es).db, j)
    decreases |es|
  {
    if es != [] {
      StillBehind(s, es[0], j);
      StepKeepsInv(s, es[0]);
      StaysShutOut(Step(s, es[0]), es[1..], j);
    }
  }

  lemma StillBehind(s: State, e: Event, j: Jti)
    requires Inv(s) && !e.ResetVersion? && j in s.db.tokens && s.db.tokens[j].user in s.db.accounts
    requires s.db.tokens[j].version < s.db.accounts[s.db.tokens[j].user].tokenVersion
    ensures var db := Step(s, e).db;
            && j in db.tokens && db.tokens[j].user in db.accounts
            && db.tokens[j].version < db.accounts[db.tokens[j].user].tokenVersion
  {
    TokensStay(s, e, j);
  }

  /** The counter alone would not do: setting it back to zero lets a token in again that a password
      reset had shut out, exactly when the token is live and carries version zero. */
  lemma VersionResetReadmits(s: State, user: User, j: Jti)
    requires j in s.db.tokens && s.db.tokens[j].user == user && user in s.db.accounts
    ensures Admits(Step(Step(s, BumpVersion(user)), ResetVersion(user)).db, j)
            <==> Live(s.db, j) && s.db.tokens[j].version == 0
  {
  }
}
