/** The business-account workflow: an application, extra documents, an administrator's review. Each
    handler writes the profile first and the user second, without a database session. */
module Kyb {
  import opened Options
  import Runs

  datatype KybStatus = NotStarted | Pending | UnderReview | Approved | Rejected | MoreInfo

  datatype AccountType = Personal | Business

  datatype User = User(
    kycApproved: bool, legalEntity: string, accountType: AccountType, kybStatus: KybStatus, profileId: Option<string>)

  datatype Limits = Limits(single: real, monthly: real, currency: string)

  datatype Profile = Profile(
    userId: string, kybStatus: KybStatus, documents: seq<string>, limits: Limits,
    note: Option<string>, rejectionReason: Option<string>)

  /** The businessData field once parsed: the three fields an application must carry. */
  datatype Company = Company(legalName: string, taxId: string, country: string)

  /** New limits an approval may carry; an absent one is `None`, and zero counts as absent. */
  datatype NewLimits = NewLimits(single: Option<real>, monthly: Option<real>)

  /** An approving or rejecting review, in the order they were made. */
  datatype Verdict = Verdict(userId: string, approved: bool)

  datatype State = State(users: map<string, User>, profiles: map<string, Profile>, verdicts: seq<Verdict>)

  /** `saveOk` and `linkOk` say whether the profile and the user are written. Ids of new profiles are
      chosen by the database; text fields are trimmed. */
  datatype Request =
    | Apply(userId: string, newId: string, company: Option<Company>, files: seq<string>, saveOk: bool, linkOk: bool)
    | Upload(userId: string, files: seq<string>, saveOk: bool, linkOk: bool)
    | Review(profileId: string, status: Option<KybStatus>, note: Option<string>, reason: Option<string>,
             limits: Option<NewLimits>, saveOk: bool, linkOk: bool)

  // ── Pieces ────────────────────────────────────────────────────────────────

  function InitialLimits(legalEntity: string): Limits {
    if legalEntity == "SRL" then Limits(49999.0, 300000.0, "BOB") else Limits(50000.0, 80000.0, "USD")
  }

  function ProfilesOf(profiles: map<string, Profile>, userId: string): set<string> {
    set id | id in profiles && profiles[id].userId == userId
  }

  predicate Complete(company: Option<Company>, files: seq<string>) {
    && company.Some? && files != []
    && company.value.legalName != "" && company.value.taxId != "" && company.value.country != ""
  }

  predicate Reviewable(status: Option<KybStatus>) {
    status.Some? && !status.value.NotStarted? && !status.value.Pending?
  }

  predicate Truthy(x: Option<real>) {
    x.Some? && x.value != 0.0
  }

  function Reviewed(p: Profile, status: KybStatus, note: Option<string>, reason: Option<string>, limits: Option<NewLimits>): Profile {
    var lim :=
      if status.Approved? && limits.Some? then
        Limits(if Truthy(limits.value.single) then limits.value.single.value else p.limits.single,
               if Truthy(limits.value.monthly) then limits.value.monthly.value else p.limits.monthly,
               p.limits.currency)
      else p.limits;
    p.(kybStatus := status, note := note, rejectionReason := if status.Rejected? then reason else None, limits := lim)
  }

  function Linked(u: User, status: KybStatus): User {
    u.(kybStatus := status,
       accountType := if status.Approved? then Business else if status.Rejected? then Personal else u.accountType)
  }

  function Verdicts(userId: string, status: KybStatus): seq<Verdict> {
    if status.Approved? then [Verdict(userId, true)]
    else if status.Rejected? then [Verdict(userId, false)]
    else []
  }

  // ── Handlers as functions of the state ────────────────────────────────────

  function ApplyTo(s: State, r: Request): (nat, State)
    requires r.Apply?
  {
    if r.userId !in s.users then (401, s)
    else
      var u := s.users[r.userId];
      if !u.kycApproved then (403, s)
      else
        var existing := ProfilesOf(s.profiles, r.userId);
        if exists id :: id in existing && !s.profiles[id].kybStatus.Rejected? then (409, s)
        else
          var s1 := s.(profiles := s.profiles - existing);
          if !Complete(r.company, r.files) then (400, s1)
          else if !r.saveOk then (500, s1)
          else
            var p := Profile(r.userId, Pending, r.files, InitialLimits(u.legalEntity), None, None);
            var s2 := s1.(profiles := s1.profiles[r.newId := p]);
            if !r.linkOk then (500, s2)
            else (201, s2.(users := s.users[r.userId := u.(kybStatus := Pending, profileId := Some(r.newId))]))
  }

  function UploadTo(s: State, r: Request): (nat, State)
    requires r.Upload?
  {
    if r.userId !in s.users then (401, s)
    else
      var u := s.users[r.userId];
      if u.profileId.None? || u.profileId.value !in s.profiles then (404, s)
      else
        var p := s.profiles[u.profileId.value];
        if !p.kybStatus.MoreInfo? then (409, s)
        else if r.files == [] then (400, s)
        else if !r.saveOk then (500, s)
        else
          var p' := p.(documents := p.documents + r.files, kybStatus := Pending);
          var s1 := s.(profiles := s.profiles[u.profileId.value := p']);
          if !r.linkOk then (500, s1)
          else (200, s1.(users := s.users[r.userId := u.(kybStatus := Pending)]))
  }

  function ReviewOf(s: State, r: Request): (nat, State)
    requires r.Review?
  {
    if !Reviewable(r.status) then (400, s)
    else if r.profileId !in s.profiles then (404, s)
    else
      var p := s.profiles[r.profileId];
      if p.userId !in s.users then (404, s)
      else if !r.saveOk then (500, s)
      else
        var p' := Reviewed(p, r.status.value, r.note, r.reason, r.limits);
        var s1 := State(s.users, s.profiles[r.profileId := p'], s.verdicts + Verdicts(p.userId, r.status.value));
        if !r.linkOk then (500, s1)
        else (200, s1.(users := s.users[p.userId := Linked(s.users[p.userId], r.status.value)]))
  }

  function Step(s: State, r: Request): (nat, State) {
    match r
    case Apply(_, _, _, _, _, _) => ApplyTo(s, r)
    case Upload(_, _, _, _) => UploadTo(s, r)
    case Review(_, _, _, _, _, _, _) => ReviewOf(s, r)
  }

  /** The state after a request, whatever it answered. */
  function After(s: State, r: Request): State {
    Step(s, r).1
  }

  function Run(s: State, rs: seq<Request>): State {
    Runs.Run(After, s, rs)
  }

  // ── The handlers ──────────────────────────────────────────────────────────

  class KybDesk {
    var users: map<string, User>
    var profiles: map<string, Profile>
    var verdicts: seq<Verdict>

    function Contents(): State
      reads this
    {
      State(users, profiles, verdicts)
    }

    constructor (s: State)
      ensures Contents() == s
    {
      users, profiles, verdicts := s.users, s.profiles, s.verdicts;
    }

    method ApplyKYB(userId: string, newId: string, company: Option<Company>, files: seq<string>, saveOk: bool, linkOk: bool)
      returns (code: nat)
      requires OneEach(profiles)
      modifies this
      ensures (code, Contents()) == ApplyTo(old(Contents()), Apply(userId, newId, company, files, saveOk, linkOk))
    {
      if userId !in users {
        return 401;
      }
      var user := users[userId];
      if !user.kycApproved {
        return 403;
      }
      ghost var others := ProfilesOf(profiles, userId);
      if existing :| existing in profiles && profiles[existing].userId == userId {
        assert others == {existing};
        if !profiles[existing].kybStatus.Rejected? {
          return 409;
        }
        profiles := profiles - {existing};
      } else {
        assert others == {};
        assert profiles - {} == profiles;
      }
      if !Complete(company, files) {
        return 400;
      }
      if !saveOk {
        return 500;
      }
      profiles := profiles[newId := Profile(userId, Pending, files, InitialLimits(user.legalEntity), None, None)];
      if !linkOk {
        return 500;
      }
      users := users[userId := user.(kybStatus := Pending, profileId := Some(newId))];
      return 201;
    }

    method UploadKYBDocuments(userId: string, files: seq<string>, saveOk: bool, linkOk: bool) returns (code: nat)
      modifies this
      ensures (code, Contents()) == UploadTo(old(Contents()), Upload(userId, files, saveOk, linkOk))
    {
      if userId !in users {
        return 401;
      }
      var user := users[userId];
      if user.profileId.None? || user.profileId.value !in profiles {
        return 404;
      }
      var profile := profiles[user.profileId.value];
      if profile.kybStatus != MoreInfo {
        return 409;
      }
      if files == [] {
        return 400;
      }
      profile := profile.(documents := profile.documents + files);
      profile := profile.(kybStatus := Pending);
      if !saveOk {
        return 500;
      }
      profiles := profiles[user.profileId.value := profile];
      if !linkOk {
        return 500;
      }
      users := users[userId := user.(kybStatus := Pending)];
      return 200;
    }

    method ReviewKYBApplication(profileId: string, status: Option<KybStatus>, note: Option<string>, reason: Option<string>,
                                limits: Option<NewLimits>, saveOk: bool, linkOk: bool)
      returns (code: nat)
      modifies this
      ensures (code, Contents()) == ReviewOf(old(Contents()), Review(profileId, status, note, reason, limits, saveOk, linkOk))
    {
      if !Reviewable(status) {
        return 400;
      }
      if profileId !in profiles {
        return 404;
      }
      var profile, st := profiles[profileId], status.value;
      if profile.userId !in users {
        return 404;
      }
      profile := profile.(kybStatus := st, note := note);
      profile := profile.(rejectionReason := if st.Rejected? then reason else None);
      if st.Approved? && limits.Some? {
        if Truthy(limits.value.single) {
          profile := profile.(limits := profile.limits.(single := limits.value.single.value));
        }
        if Truthy(limits.value.monthly) {
          profile := profile.(limits := profile.limits.(monthly := limits.value.monthly.value));
        }
      }
      if !saveOk {
        return 500;
      }
      profiles := profiles[profileId := profile];
      verdicts := verdicts + Verdicts(profile.userId, st);
      if !linkOk {
        return 500;
      }
      users := users[profile.userId := Linked(users[profile.userId], st)];
      return 200;
    }
  }

  // ── Agreement ─────────────────────────────────────────────────────────────

  /** At most one profile per user. */
  ghost predicate OneEach(profiles: map<string, Profile>) {
    forall i, j :: i in profiles && j in profiles && profiles[i].userId == profiles[j].userId ==> i == j
  }

  function LatestVerdict(verdicts: seq<Verdict>, userId: string): Option<bool> {
    if verdicts == [] then None
    else
      var v := verdicts[|verdicts| - 1];
      if v.userId == userId then Some(v.approved) else LatestVerdict(verdicts[..|verdicts| - 1], userId)
  }

  /** A user and the profile it owns point at each other and carry the same status; a reason for
      rejection is only shown while the status is rejected. */
  predicate ProfileAgrees(s: State, id: string)
    requires id in s.profiles
  {
    var p := s.profiles[id];
    && p.userId in s.users && !p.kybStatus.NotStarted? && (p.rejectionReason.Some? ==> p.kybStatus.Rejected?)
    && s.users[p.userId].profileId == Some(id) && s.users[p.userId].kybStatus == p.kybStatus
  }

  /** The account is a business one exactly when the latest verdict was an approval; a pointer is either
      to the user's profile or to a rejected one that is gone. */
  predicate UserAgrees(s: State, userId: string)
    requires userId in s.users
  {
    var u := s.users[userId];
    && (u.accountType.Business? <==> LatestVerdict(s.verdicts, userId) == Some(true))
    && (u.kybStatus.Approved? ==> u.accountType.Business?)
    && (u.kybStatus.Rejected? ==> u.accountType.Personal?)
    && (u.profileId.None? <==> u.kybStatus.NotStarted?)
    && (u.profileId.Some? ==>
          if u.profileId.value in s.profiles then s.profiles[u.profileId.value].userId == userId
          else u.kybStatus.Rejected?)
  }

  ghost predicate Agreement(s: State) {
    && OneEach(s.profiles)
    && (forall id :: id in s.profiles ==> ProfileAgrees(s, id))
    && (forall u :: u in s.users ==> UserAgrees(s, u))
  }

  /** No user points at a profile that is gone. */
  ghost predicate NoneDangling(s: State) {
    forall u :: u in s.users && s.users[u].profileId.Some? ==> s.users[u].profileId.value in s.profiles
  }

  /** The id of a new profile has never been used. */
  predicate NewIdUnused(s: State, r: Request) {
    r.Apply? ==> r.newId !in s.profiles && forall u :: u in s.users ==> s.users[u].profileId != Some(r.newId)
  }

  /** The profile was written, the user was not, and that write would have changed it. */
  predicate HalfWritten(s: State, r: Request) {
    !r.linkOk && Linking(s, r).Some? && Linking(s, r).value
  }

  /** Whether the request reaches its second write, and whether that write changes the user. */
  function Linking(s: State, r: Request): Option<bool> {
    match r
    case Apply(userId, newId, company, files, saveOk, _) =>
      if userId in s.users && s.users[userId].kycApproved && Complete(company, files) && saveOk
         && (forall id :: id in ProfilesOf(s.profiles, userId) ==> s.profiles[id].kybStatus.Rejected?)
      then Some(true) else None
    case Upload(userId, files, saveOk, _) =>
      if userId in s.users && s.users[userId].profileId.Some? && s.users[userId].profileId.value in s.profiles
         && s.profiles[s.users[userId].profileId.value].kybStatus.MoreInfo? && files != [] && saveOk
      then Some(true) else None
    case Review(id, status, _, _, _, saveOk, _) =>
      if Reviewable(status) && id in s.profiles && s.profiles[id].userId in s.users && saveOk
      then Some(status.value != s.profiles[id].kybStatus) else None
  }

  /** A re-application after a rejection that is then refused: the rejected profile is already gone. */
  predicate Discards(s: State, r: Request) {
    && r.Apply? && r.userId in s.users && s.users[r.userId].kycApproved
    && (exists id :: id in ProfilesOf(s.profiles, r.userId))
    && (forall id :: id in ProfilesOf(s.profiles, r.userId) ==> s.profiles[id].kybStatus.Rejected?)
    && !(Complete(r.company, r.files) && r.saveOk)
  }

  lemma VerdictAppend(verdicts: seq<Verdict>, userId: string, status: KybStatus, other: string)
    ensures LatestVerdict(verdicts + Verdicts(userId, status), other) ==
              if other == userId && status.Approved? then Some(true)
              else if other == userId && status.Rejected? then Some(false)
              else LatestVerdict(verdicts, other)
  {
    var all := verdicts + Verdicts(userId, status);
    if Verdicts(userId, status) == [] {
      assert all == verdicts;
    } else {
      assert all[..|all| - 1] == verdicts;
    }
  }

  /** Deleting the rejected profile of a user leaves a dangling pointer, but no disagreement. */
  lemma DropKeepsAgreement(s: State, userId: string)
    requires Agreement(s)
    requires forall id :: id in ProfilesOf(s.profiles, userId) ==> s.profiles[id].kybStatus.Rejected?
    ensures Agreement(s.(profiles := s.profiles - ProfilesOf(s.profiles, userId)))
  {
    var gone := ProfilesOf(s.profiles, userId);
    var s1 := s.(profiles := s.profiles - gone);
    forall id | id in s1.profiles ensures ProfileAgrees(s1, id) {
      assert ProfileAgrees(s, id);
    }
    forall u | u in s.users ensures UserAgrees(s1, u) {
      assert UserAgrees(s, u);
      var pointer := s.users[u].profileId;
      if pointer.Some? && pointer.value in gone {
        assert ProfileAgrees(s, pointer.value);
      }
    }
  }

  /** A new profile for a user who owns none, with and without the pointer to it. */
  lemma CreateKeepsAgreement(s: State, userId: string, newId: string, p: Profile)
    requires Agreement(s) && userId in s.users && ProfilesOf(s.profiles, userId) == {}
    requires newId !in s.profiles && forall u :: u in s.users ==> s.users[u].profileId != Some(newId)
    requires p.userId == userId && p.kybStatus.Pending? && p.rejectionReason.None?
    requires s.users[userId].accountType.Business? <==> LatestVerdict(s.verdicts, userId) == Some(true)
    ensures !Agreement(s.(profiles := s.profiles[newId := p]))
    ensures var u := s.users[userId].(kybStatus := Pending, profileId := Some(newId));
            Agreement(State(s.users[userId := u], s.profiles[newId := p], s.verdicts))
  {
    var half := s.(profiles := s.profiles[newId := p]);
    assert !ProfileAgrees(half, newId);
    var u := s.users[userId].(kybStatus := Pending, profileId := Some(newId));
    var s' := State(s.users[userId := u], s.profiles[newId := p], s.verdicts);
    forall id | id in s'.profiles ensures ProfileAgrees(s', id) && (id != newId ==> s'.profiles[id].userId != userId) {
      if id != newId {
        assert ProfileAgrees(s, id);
        assert id !in ProfilesOf(s.profiles, userId);
      }
    }
    forall v | v in s'.users ensures UserAgrees(s', v) {
      assert UserAgrees(s, v);
    }
  }

  lemma ApplyKeepsAgreement(s: State, r: Request)
    requires Agreement(s) && NewIdUnused(s, r) && r.Apply?
    ensures Agreement(ApplyTo(s, r).1) <==> !HalfWritten(s, r)
  {
    if r.userId in s.users && s.users[r.userId].kycApproved
       && forall id :: id in ProfilesOf(s.profiles, r.userId) ==> s.profiles[id].kybStatus.Rejected?
    {
      DropKeepsAgreement(s, r.userId);
      if Complete(r.company, r.files) && r.saveOk {
        var u := s.users[r.userId];
        assert UserAgrees(s, r.userId);
        var s1 := s.(profiles := s.profiles - ProfilesOf(s.profiles, r.userId));
        assert ProfilesOf(s1.profiles, r.userId) == {};
        CreateKeepsAgreement(s1, r.userId, r.newId, Profile(r.userId, Pending, r.files, InitialLimits(u.legalEntity), None, None));
      }
    }
  }

  lemma UploadKeepsAgreement(s: State, r: Request)
    requires Agreement(s) && r.Upload?
    ensures Agreement(UploadTo(s, r).1) <==> !HalfWritten(s, r)
  {
    if r.userId in s.users {
      assert UserAgrees(s, r.userId);
    }
  }

  lemma ReviewKeepsAgreement(s: State, r: Request)
    requires Agreement(s) && r.Review?
    ensures Agreement(ReviewOf(s, r).1) <==> !HalfWritten(s, r)
  {
    if Linking(s, r).Some? {
      if HalfWritten(s, r) {
        assert ProfileAgrees(s, r.profileId);
        assert !ProfileAgrees(ReviewOf(s, r).1, r.profileId);
      } else {
        ReviewedAgreement(s, r);
      }
    }
  }

  lemma ReviewedAgreement(s: State, r: Request)
    requires Agreement(s) && r.Review? && Linking(s, r).Some? && !HalfWritten(s, r)
    ensures Agreement(ReviewOf(s, r).1)
  {
    var s' := ReviewOf(s, r).1;
    assert ProfileAgrees(s, r.profileId);
    forall u | u in s'.users ensures UserAgrees(s', u) {
      assert UserAgrees(s, u);
      VerdictAppend(s.verdicts, s.profiles[r.profileId].userId, r.status.value, u);
    }
    forall id | id in s'.profiles ensures ProfileAgrees(s', id) {
      assert ProfileAgrees(s, id);
    }
  }

  /** The exact step: every handler keeps user and profile in agreement if and only if it is not cut
      short between its two writes. */
  lemma StepKeepsAgreement(s: State, r: Request)
    requires Agreement(s) && NewIdUnused(s, r)
    ensures Agreement(Step(s, r).1) <==> !HalfWritten(s, r)
  {
    match r
    case Apply(_, _, _, _, _, _) => ApplyKeepsAgreement(s, r);
    case Upload(_, _, _, _) => UploadKeepsAgreement(s, r);
    case Review(_, _, _, _, _, _, _) => ReviewKeepsAgreement(s, r);
  }

  ghost predicate Uninterrupted(s: State, rs: seq<Request>)
    decreases |rs|
  {
    rs == [] || (NewIdUnused(s, rs[0]) && !HalfWritten(s, rs[0]) && Uninterrupted(Step(s, rs[0]).1, rs[1..]))
  }

  ghost predicate Initial(s: State) {
    && s.profiles == map[] && s.verdicts == []
    && forall u :: u in s.users ==>
         s.users[u].profileId.None? && s.users[u].kybStatus.NotStarted? && s.users[u].accountType.Personal?
  }

  lemma {:induction false} RunKeepsAgreement(s: State, rs: seq<Request>)
    requires Agreement(s) && Uninterrupted(s, rs)
    ensures Agreement(Run(s, rs))
    decreases |rs|
  {
    if rs != [] {
      StepKeepsAgreement(s, rs[0]);
      RunKeepsAgreement(Step(s, rs[0]).1, rs[1..]);
    }
  }

  /** Over every run of applications, uploads and reviews in which both writes of each handler
      succeed: one profile per user, pointing both ways with one status, and a business account exactly
      when the latest approving or rejecting review approved. */
  lemma EveryRunAgrees(s: State, rs: seq<Request>, id: string)
    requires Initial(s) && Uninterrupted(s, rs) && id in Run(s, rs).profiles
    ensures var s' := Run(s, rs);
            var owner := s'.profiles[id].userId;
            && owner in s'.users
            && (forall j :: j in s'.profiles && s'.profiles[j].userId == owner ==> j == id)
            && s'.users[owner].profileId == Some(id)
            && s'.users[owner].kybStatus == s'.profiles[id].kybStatus
            && (s'.profiles[id].rejectionReason.Some? ==> s'.profiles[id].kybStatus.Rejected?)
            && (s'.users[owner].accountType.Business? <==> LatestVerdict(s'.verdicts, owner) == Some(true))
  {
    RunKeepsAgreement(s, rs);
    assert ProfileAgrees(Run(s, rs), id);
    assert UserAgrees(Run(s, rs), Run(s, rs).profiles[id].userId);
  }

  // ── The dangling pointer ──────────────────────────────────────────────────

  /** The exact step: a pointer is left dangling if and only if a rejected user's re-application is
      refused for its contents or its first write fails. */
  lemma StepKeepsPointers(s: State, r: Request)
    requires Agreement(s) && NoneDangling(s) && NewIdUnused(s, r) && !HalfWritten(s, r)
    ensures NoneDangling(Step(s, r).1) <==> !Discards(s, r)
  {
    match r
    case Apply(_, _, _, _, _, _) =>
      if Discards(s, r) {
        DiscardDangles(s, r);
      } else {
        ApplyKeepsPointers(s, r);
      }
    case Upload(_, _, _, _) =>
    case Review(_, _, _, _, _, _, _) =>
  }

  lemma DiscardDangles(s: State, r: Request)
    requires Agreement(s) && Discards(s, r)
    ensures !NoneDangling(ApplyTo(s, r).1)
  {
    var s' := ApplyTo(s, r).1;
    var id :| id in ProfilesOf(s.profiles, r.userId);
    assert ProfileAgrees(s, id);
    assert s'.users[r.userId].profileId == Some(id) && id !in s'.profiles;
  }

  lemma ApplyKeepsPointers(s: State, r: Request)
    requires Agreement(s) && NoneDangling(s) && r.Apply? && !Discards(s, r) && !HalfWritten(s, r)
    ensures NoneDangling(ApplyTo(s, r).1)
  {
    var s' := ApplyTo(s, r).1;
    forall u | u in s'.users && s'.users[u].profileId.Some? ensures s'.users[u].profileId.value in s'.profiles {
      assert UserAgrees(s, u);
    }
  }

  /** A refused re-application leaves a user with no profile at all, whose uploads find nothing, and a
      later complete application mends it. */
  lemma DiscardedUser(s: State, r: Request, again: Request)
    requires Agreement(s) && Discards(s, r)
    requires again.Apply? && again.userId == r.userId && Complete(again.company, again.files) && again.saveOk && again.linkOk
    ensures var s' := Step(s, r).1;
            && s'.users == s.users && s'.users[r.userId].kybStatus.Rejected?
            && ProfilesOf(s'.profiles, r.userId) == {}
            && (forall files, saveOk, linkOk :: Step(s', Upload(r.userId, files, saveOk, linkOk)).0 == 404)
            && Step(s', again).0 == 201
            && Step(s', again).1.users[r.userId].profileId == Some(again.newId)
  {
    var id :| id in ProfilesOf(s.profiles, r.userId);
    assert ProfileAgrees(s, id);
    var s' := Step(s, r).1;
    assert s'.profiles == s.profiles - ProfilesOf(s.profiles, r.userId);
    assert ProfilesOf(s'.profiles, r.userId) == {};
  }

  // ── Limits ────────────────────────────────────────────────────────────────

  /** A profile's limits change only when a review approves it, and never its currency. */
  lemma LimitsChangeOnlyOnApproval(s: State, r: Request, id: string)
    requires NewIdUnused(s, r) && id in s.profiles && id in Step(s, r).1.profiles
    ensures var p, p' := s.profiles[id], Step(s, r).1.profiles[id];
            && p'.limits.currency == p.limits.currency
            && (p'.limits != p.limits ==>
                  && r.Review? && r.profileId == id && r.status == Some(Approved) && r.saveOk && p'.kybStatus.Approved?
                  && r.limits.Some?
                  && (p'.limits.single == p.limits.single || Some(p'.limits.single) == r.limits.value.single)
                  && (p'.limits.monthly == p.limits.monthly || Some(p'.limits.monthly) == r.limits.value.monthly))
            && p.documents <= p'.documents && p'.userId == p.userId
  {
  }

  /** Until somebody approves it, a profile keeps the limits it was created with. */
  lemma {:induction false} LimitsOverRun(s: State, rs: seq<Request>, id: string)
    requires id in s.profiles && Uninterrupted(s, rs) && Agreement(s)
    requires forall i :: 0 <= i < |rs| ==> !Approves(rs[i], id) && !(rs[i].Apply? && rs[i].newId == id)
    ensures id in Run(s, rs).profiles ==> Run(s, rs).profiles[id].limits == s.profiles[id].limits
    decreases |rs|
  {
    if rs != [] {
      var s1 := Step(s, rs[0]).1;
      StepKeepsAgreement(s, rs[0]);
      if id in s1.profiles {
        LimitsChangeOnlyOnApproval(s, rs[0], id);
        LimitsOverRun(s1, rs[1..], id);
      } else {
        GoneForGood(s1, rs[1..], id);
      }
    }
  }

  /** An application's limits follow the legal entity: 49 999 and 300 000 bolivianos for SRL, 50 000 and
      80 000 dollars elsewhere, until an approval replaces them. */
  lemma LimitsOfApplication(s: State, r: Request, rs: seq<Request>)
    requires Agreement(s) && NewIdUnused(s, r) && r.Apply? && Step(s, r).0 == 201
    requires Uninterrupted(Step(s, r).1, rs)
    requires forall i :: 0 <= i < |rs| ==> !Approves(rs[i], r.newId) && !(rs[i].Apply? && rs[i].newId == r.newId)
    ensures var s' := Run(Step(s, r).1, rs);
            r.newId in s'.profiles ==>
              s'.profiles[r.newId].limits ==
                if s.users[r.userId].legalEntity == "SRL" then Limits(49999.0, 300000.0, "BOB")
                else Limits(50000.0, 80000.0, "USD")
  {
    StepKeepsAgreement(s, r);
    LimitsOverRun(Step(s, r).1, rs, r.newId);
  }

  predicate Approves(r: Request, id: string) {
    r.Review? && r.profileId == id && r.status == Some(Approved)
  }

  /** A deleted profile's id is not used again. */
  lemma {:induction false} GoneForGood(s: State, rs: seq<Request>, id: string)
    requires id !in s.profiles
    requires forall i :: 0 <= i < |rs| ==> !(rs[i].Apply? && rs[i].newId == id)
    ensures id !in Run(s, rs).profiles
    decreases |rs|
  {
    if rs != [] {
      GoneForGood(Step(s, rs[0]).1, rs[1..], id);
    }
  }

  // ── What the handlers do ──────────────────────────────────────────────────

  /** An accepted application: the user's rejected profile, if any, is gone, and a new pending one holds the
      files and is the one the user points at; an accepted one is all that creates a profile. */
  lemma ApplyTakesEffect(s: State, r: Request)
    requires r.Apply? && ApplyTo(s, r).0 == 201 && NewIdUnused(s, r)
    ensures r.userId in s.users && r.company.Some? && r.files != []
    ensures var s' := ApplyTo(s, r).1;
            && r.newId in s'.profiles && s'.profiles[r.newId].userId == r.userId
            && s'.profiles[r.newId].kybStatus == Pending && s'.profiles[r.newId].documents == r.files
            && s'.users == s.users[r.userId := s'.users[r.userId]]
            && s'.users[r.userId] == s.users[r.userId].(kybStatus := Pending, profileId := Some(r.newId))
            && (forall id :: id in s.profiles && s.profiles[id].userId != r.userId ==>
                  id in s'.profiles && s'.profiles[id] == s.profiles[id])
            && (forall id :: id in s'.profiles && id != r.newId ==> id in s.profiles && s.profiles[id].userId != r.userId)
            && s'.verdicts == s.verdicts
  {
  }

  /** The answers to an application: 403 without an approved identity, 409 while another is under way, 400
      when the three company fields or the files are missing, 500 when a write fails. */
  lemma ApplyAnswers(s: State, r: Request)
    requires r.Apply? && r.userId in s.users
    ensures var known := s.users[r.userId].kycApproved;
            var open := exists id :: id in s.profiles && s.profiles[id].userId == r.userId && s.profiles[id].kybStatus != Rejected;
            var complete := r.company.Some? && r.files != [] && r.company.value.legalName != ""
                            && r.company.value.taxId != "" && r.company.value.country != "";
            var code := ApplyTo(s, r).0;
            && (code == 403 <==> !known)
            && (code == 409 <==> known && open)
            && (code == 400 <==> known && !open && !complete)
            && (code == 500 <==> known && !open && complete && !(r.saveOk && r.linkOk))
            && (code == 201 <==> known && !open && complete && r.saveOk && r.linkOk)
            && (code in {403, 409} ==> ApplyTo(s, r).1 == s)
  {
    if id :| id in ProfilesOf(s.profiles, r.userId) && !s.profiles[id].kybStatus.Rejected? {
      assert s.profiles[id].kybStatus != Rejected;
    }
    if id :| id in s.profiles && s.profiles[id].userId == r.userId && s.profiles[id].kybStatus != Rejected {
      assert id in ProfilesOf(s.profiles, r.userId) && !s.profiles[id].kybStatus.Rejected?;
    }
  }

  /** An accepted upload: the files follow the documents already there, and the request is pending again in
      both collections. It is accepted exactly when more information was asked for and files came. */
  lemma UploadTakesEffect(s: State, r: Request)
    requires r.Upload? && r.userId in s.users
    ensures var (code, s') := UploadTo(s, r);
            var pointer := s.users[r.userId].profileId;
            var found := pointer.Some? && pointer.value in s.profiles;
            && (code == 404 <==> !found)
            && (code == 409 <==> found && s.profiles[pointer.value].kybStatus != MoreInfo)
            && (code == 400 <==> found && s.profiles[pointer.value].kybStatus == MoreInfo && r.files == [])
            && (code == 200 ==> r.saveOk && r.linkOk)
            && (code == 200 <==> found && s.profiles[pointer.value].kybStatus == MoreInfo && r.files != []
                                 && r.saveOk && r.linkOk)
            && (code in {400, 404, 409} ==> s' == s)
            && (code == 200 ==>
                  && s'.profiles == s.profiles[pointer.value := s'.profiles[pointer.value]]
                  && s'.profiles[pointer.value] == s.profiles[pointer.value].(
                       documents := s.profiles[pointer.value].documents + r.files, kybStatus := Pending)
                  && s'.users == s.users[r.userId := s.users[r.userId].(kybStatus := Pending)]
                  && s'.verdicts == s.verdicts)
  {
  }

  /** An accepted review: status and note in the profile, the reason only with a rejection, each limit
      replaced only by an approval that carries a new one, the status and the account type in the user, and
      the verdict on record. */
  lemma ReviewTakesEffect(s: State, r: Request)
    requires r.Review? && ReviewOf(s, r).0 == 200
    ensures r.status.Some? && r.profileId in s.profiles && s.profiles[r.profileId].userId in s.users
    ensures var s', p, status := ReviewOf(s, r).1, s.profiles[r.profileId], r.status.value;
            var p', owner := s'.profiles[r.profileId], p.userId;
            && s'.profiles == s.profiles[r.profileId := p'] && s'.users == s.users[owner := s'.users[owner]]
            && p'.kybStatus == status && p'.note == r.note && p'.documents == p.documents && p'.userId == owner
            && p'.rejectionReason == (if status == Rejected then r.reason else None)
            && p'.limits.single ==
                 (if status == Approved && r.limits.Some? && r.limits.value.single.Some? && r.limits.value.single.value != 0.0
                  then r.limits.value.single.value else p.limits.single)
            && p'.limits.monthly ==
                 (if status == Approved && r.limits.Some? && r.limits.value.monthly.Some? && r.limits.value.monthly.value != 0.0
                  then r.limits.value.monthly.value else p.limits.monthly)
            && s'.users[owner].kybStatus == status
            && s'.users[owner].accountType ==
                 (if status == Approved then Business else if status == Rejected then Personal else s.users[owner].accountType)
            && LatestVerdict(s'.verdicts, owner) ==
                 (if status == Approved then Some(true) else if status == Rejected then Some(false)
                  else LatestVerdict(s.verdicts, owner))
  {
    VerdictAppend(s.verdicts, s.profiles[r.profileId].userId, r.status.value, s.profiles[r.profileId].userId);
  }

  /** The answers to a review: 400 for a status a review cannot give, 404 without profile or user, 500 when a
      write fails. */
  lemma ReviewAnswers(s: State, r: Request)
    requires r.Review?
    ensures var gives := r.status == Some(Approved) || r.status == Some(Rejected) || r.status == Some(MoreInfo)
                         || r.status == Some(UnderReview);
            var found := r.profileId in s.profiles && s.profiles[r.profileId].userId in s.users;
            var code := ReviewOf(s, r).0;
            && (code == 400 <==> !gives)
            && (code == 404 <==> gives && !found)
            && (code == 500 <==> gives && found && !(r.saveOk && r.linkOk))
            && (code == 200 <==> gives && found && r.saveOk && r.linkOk)
            && (code in {400, 404} ==> ReviewOf(s, r).1 == s)
  {
  }
}
