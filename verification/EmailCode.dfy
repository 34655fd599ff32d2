/** Email verification codes: five guesses a code, one code a minute. Times are milliseconds. */
module EmailCode {
  import opened Options
  import Runs

  const CODE_TTL_MS := 900000
  const RESEND_COOLDOWN_MS := 60000
  const MAX_ATTEMPTS := 5

  /** The verification fields of a user. The stored hash is taken to determine the code. */
  datatype User = User(verified: bool, code: Option<string>, expires: Option<int>, attempts: nat, lastSent: Option<int>)

  datatype Answer =
    | BadFormat | AlreadyVerified | NoCode | Expired | TooManyAttempts | Wrong(attemptsLeft: nat) | Verified
    | Wait(retryAfter: int) | Sent | ServerError

  /** `saveOk` says whether the document is written. */
  datatype Event =
    | Verify(guess: string, saveOk: bool)
    | Resend(newCode: string, saveOk: bool)
    | Tick(ms: nat)

  /** `wrong` and `resent` count recorded wrong guesses and renewed codes; `compared` counts every wrong
      comparison, `lost` the comparisons whose document could not be written. */
  datatype State = State(now: int, user: User, wrong: nat, resent: nat, compared: nat, lost: nat)

  predicate SixDigits(s: string) {
    |s| == 6 && forall i :: 0 <= i < 6 ==> '0' <= s[i] <= '9'
  }

  function Registered(now: int, code: string): User {
    User(false, Some(code), Some(now + CODE_TTL_MS), 0, Some(now))
  }

  /** The guess may be compared with the stored code. */
  predicate Comparable(u: User, now: int, guess: string) {
    && SixDigits(guess) && !u.verified && u.code.Some? && u.expires.Some? && now <= u.expires.value
    && u.attempts < MAX_ATTEMPTS
  }

  function Renewed(u: User, now: int, newCode: string): User {
    u.(code := Some(newCode), expires := Some(now + CODE_TTL_MS), attempts := 0, lastSent := Some(now))
  }

  predicate CoolingDown(u: User, now: int) {
    u.lastSent.Some? && now - u.lastSent.value < RESEND_COOLDOWN_MS
  }

  /** What a guess does to the user. */
  function Guessed(u: User, now: int, guess: string, saveOk: bool): User {
    if !Comparable(u, now, guess) || !saveOk then u
    else if Some(guess) != u.code then u.(attempts := u.attempts + 1)
    else User(true, None, None, 0, u.lastSent)
  }

  function Step(s: State, e: Event): State {
    match e
    case Verify(guess, saveOk) =>
      var compares := Comparable(s.user, s.now, guess);
      var misses := compares && Some(guess) != s.user.code;
      s.(user := Guessed(s.user, s.now, guess, saveOk),
         wrong := s.wrong + if misses && saveOk then 1 else 0,
         compared := s.compared + if misses then 1 else 0,
         lost := s.lost + if compares && !saveOk then 1 else 0)
    case Resend(newCode, saveOk) =>
      if s.user.verified || CoolingDown(s.user, s.now) || !saveOk then s
      else s.(user := Renewed(s.user, s.now, newCode), resent := s.resent + 1)
    case Tick(ms) => s.(now := s.now + ms)
  }

  function Run(s: State, es: seq<Event>): State {
    Runs.Run(Step, s, es)
  }

  // ── The handlers ──────────────────────────────────────────────────────────

  function CeilSeconds(ms: int): int {
    -((-ms) / 1000)
  }

  class EmailVerification {
    var verified: bool
    var code: Option<string>
    var expires: Option<int>
    var attempts: nat
    var lastSent: Option<int>

    function Contents(): User
      reads this
    {
      User(verified, code, expires, attempts, lastSent)
    }

    constructor (now: int, newCode: string)
      ensures Contents() == Registered(now, newCode)
    {
      verified, code, expires, attempts, lastSent := false, Some(newCode), Some(now + CODE_TTL_MS), 0, Some(now);
    }

    method VerifyEmail(now: int, guess: string, saveOk: bool) returns (a: Answer)
      modifies this
      ensures Contents() == Guessed(old(Contents()), now, guess, saveOk)
      ensures a.Verified? <==>
              Comparable(old(Contents()), now, guess) && Some(guess) == old(code) && saveOk
      ensures a.Wrong? <==>
              Comparable(old(Contents()), now, guess) && Some(guess) != old(code) && saveOk
      ensures a.Wrong? ==> a.attemptsLeft + attempts == MAX_ATTEMPTS
      ensures a.BadFormat? <==> !SixDigits(guess)
      ensures a.AlreadyVerified? <==> SixDigits(guess) && old(verified)
      ensures a.NoCode? <==> SixDigits(guess) && !old(verified) && (old(code).None? || old(expires).None?)
      ensures a.Expired? <==>
              SixDigits(guess) && !old(verified) && old(code).Some? && old(expires).Some? && old(expires).value < now
      ensures a.TooManyAttempts? <==>
              SixDigits(guess) && !old(verified) && old(code).Some? && old(expires).Some? && now <= old(expires).value
              && old(attempts) >= MAX_ATTEMPTS
      ensures a.ServerError? <==> Comparable(old(Contents()), now, guess) && !saveOk
    {
      if !SixDigits(guess) {
        return BadFormat;
      }
      if verified {
        return AlreadyVerified;
      }
      if code.None? || expires.None? {
        return NoCode;
      }
      if expires.value < now {
        return Expired;
      }
      if attempts >= MAX_ATTEMPTS {
        return TooManyAttempts;
      }
      if !saveOk {
        return ServerError;
      }
      if guess != code.value {
        attempts := attempts + 1;
        return Wrong(MAX_ATTEMPTS - attempts);
      }
      verified := true;
      code := None;
      expires := None;
      attempts := 0;
      return Verified;
    }

    method ResendVerification(now: int, newCode: string, saveOk: bool) returns (a: Answer)
      modifies this
      ensures Contents() ==
              if a.Sent? then Renewed(old(Contents()), now, newCode) else old(Contents())
      ensures a.Sent? <==> !old(verified) && !CoolingDown(old(Contents()), now) && saveOk
      ensures a.AlreadyVerified? <==> old(verified)
      ensures a.Wait? <==> !old(verified) && CoolingDown(old(Contents()), now)
      ensures a.ServerError? <==> !old(verified) && !CoolingDown(old(Contents()), now) && !saveOk
      ensures a.Wait? ==> // waiting that long is enough, a second less is not
                && !CoolingDown(old(Contents()), now + a.retryAfter * 1000)
                && CoolingDown(old(Contents()), now + (a.retryAfter - 1) * 1000)
    {
      if verified {
        return AlreadyVerified;
      }
      if lastSent.Some? {
        var elapsed := now - lastSent.value;
        if elapsed < RESEND_COOLDOWN_MS {
          return Wait(CeilSeconds(RESEND_COOLDOWN_MS - elapsed));
        }
      }
      if !saveOk {
        return ServerError;
      }
      code := Some(newCode);
      expires := Some(now + CODE_TTL_MS);
      attempts := 0;
      lastSent := Some(now);
      return Sent;
    }
  }

  // ── What a guess and a renewal do ─────────────────────────────────────────

  /** A guess is compared when it is six digits, the email is unverified, there is a code issued no more
      than its time ago, and fewer than five guesses have missed. */
  lemma ComparedExactly(u: User, now: int, guess: string)
    ensures Comparable(u, now, guess) <==>
              && |guess| == 6 && (forall i :: 0 <= i < |guess| ==> '0' <= guess[i] <= '9')
              && u.verified == false && u.code != None && u.expires != None && now <= u.expires.value && u.attempts <= 4
  {
  }

  /** A compared guess that is saved costs one attempt, or verifies the email and spends the code; any other
      changes nothing. */
  lemma GuessTakesEffect(u: User, now: int, guess: string, saveOk: bool)
    ensures var v := Guessed(u, now, guess, saveOk);
            && v.lastSent == u.lastSent
            && (!Comparable(u, now, guess) || !saveOk ==> v == u)
            && (Comparable(u, now, guess) && saveOk && u.code != Some(guess) ==>
                  v.attempts == u.attempts + 1 && v.code == u.code && v.expires == u.expires && !v.verified)
            && (Comparable(u, now, guess) && saveOk && u.code == Some(guess) ==>
                  v.verified && v.code == None && v.expires == None && v.attempts == 0)
  {
  }

  /** A code lives for a quarter of an hour, and comes with five new attempts; another may be asked for after
      a minute. */
  lemma CodeTimes(u: User, now: int, later: int, newCode: string, guess: string)
    ensures var v := Renewed(u, now, newCode);
            && v.code == Some(newCode) && v.attempts == 0 && v.verified == u.verified
            && (SixDigits(guess) && !u.verified ==> (Comparable(v, later, guess) <==> later <= now + 15 * 60 * 1000))
            && (CoolingDown(v, later) <==> later < now + 60 * 1000)
    ensures Registered(now, newCode) == Renewed(User(false, None, None, 0, None), now, newCode)
    ensures !CoolingDown(User(false, None, None, 0, None), now)
  {
  }

  // ── The guess bound ───────────────────────────────────────────────────────

  function Start(t0: int, code: string): State {
    State(t0, Registered(t0, code), 0, 0, 0, 0)
  }

  /** Each renewed code is at least a minute younger than the one before and takes at most five wrong
      guesses. */
  predicate Paced(s: State, t0: int) {
    && s.user.lastSent.Some? && s.user.lastSent.value <= s.now
    && t0 + RESEND_COOLDOWN_MS * s.resent <= s.user.lastSent.value
    && s.user.attempts <= MAX_ATTEMPTS
    && s.compared <= s.wrong + s.lost
    && s.wrong <= MAX_ATTEMPTS * s.resent + if s.user.verified then MAX_ATTEMPTS else s.user.attempts
  }

  lemma {:induction false} RunPaced(s: State, t0: int, es: seq<Event>)
    requires Paced(s, t0)
    ensures Paced(Run(s, es), t0)
    decreases |es|
  {
    if es != [] {
      RunPaced(Step(s, es[0]), t0, es[1..]);
    }
  }

  /** In every run from the registration at t0, the wrong guesses recorded by time t number at most
      5 * (1 + floor((t - t0) / 60 s)), and the wrong comparisons made at most as many more as there were
      comparisons whose save failed. */
  lemma GuessBound(t0: int, code: string, es: seq<Event>)
    ensures var s := Run(Start(t0, code), es);
            && s.now >= t0 && s.wrong <= MAX_ATTEMPTS * (1 + (s.now - t0) / RESEND_COOLDOWN_MS)
            && s.compared <= MAX_ATTEMPTS * (1 + (s.now - t0) / RESEND_COOLDOWN_MS) + s.lost
  {
    RunPaced(Start(t0, code), t0, es);
    var s := Run(Start(t0, code), es);
    assert RESEND_COOLDOWN_MS * s.resent <= s.now - t0;
    assert s.resent <= (s.now - t0) / RESEND_COOLDOWN_MS;
  }

  /** Five wrong guesses at the current code. */
  function FiveMisses(guess: string): seq<Event> {
    [Verify(guess, true), Verify(guess, true), Verify(guess, true), Verify(guess, true), Verify(guess, true)]
  }

  /** The fastest guesser: five misses, then a new code every minute with five more. */
  function Fastest(guess: string, code: string, minutes: nat): seq<Event> {
    if minutes == 0 then FiveMisses(guess)
    else Fastest(guess, code, minutes - 1) + [Tick(RESEND_COOLDOWN_MS), Resend(code, true)] + FiveMisses(guess)
  }

  lemma {:induction false} Misses(s: State, guess: string, n: nat)
    requires n + s.user.attempts <= MAX_ATTEMPTS && SixDigits(guess) && !s.user.verified
    requires s.user.code.Some? && s.user.code != Some(guess) && s.user.expires.Some? && s.now <= s.user.expires.value
    ensures Run(s, seq(n, _ => Verify(guess, true))) ==
            s.(user := s.user.(attempts := s.user.attempts + n), wrong := s.wrong + n, compared := s.compared + n)
    decreases n
  {
    var es := seq(n, _ => Verify(guess, true));
    if n > 0 {
      assert es[1..] == seq(n - 1, _ => Verify(guess, true));
      Misses(Step(s, es[0]), guess, n - 1);
    }
  }

  /** The bound is reached at every minute. */
  lemma {:induction false} GuessBoundIsTight(t0: int, code: string, guess: string, minutes: nat)
    requires SixDigits(guess) && guess != code
    ensures var s := Run(Start(t0, code), Fastest(guess, code, minutes));
            && s.now == t0 + RESEND_COOLDOWN_MS * minutes
            && s.wrong == MAX_ATTEMPTS * (1 + (s.now - t0) / RESEND_COOLDOWN_MS)
            && s.user == Registered(s.now, code).(attempts := MAX_ATTEMPTS)
    decreases minutes
  {
    assert FiveMisses(guess) == seq(5, _ => Verify(guess, true));
    if minutes == 0 {
      Misses(Start(t0, code), guess, 5);
    } else {
      GuessBoundIsTight(t0, code, guess, minutes - 1);
      var es := Fastest(guess, code, minutes - 1);
      var pair := [Tick(RESEND_COOLDOWN_MS), Resend(code, true)];
      Runs.Split(Step, Start(t0, code), es + pair, FiveMisses(guess));
      Runs.Split(Step, Start(t0, code), es, pair);
      var s := Run(Start(t0, code), es);
      var s1 := Step(s, pair[0]);
      Runs.Two(Step, s, pair[0], pair[1]);
      Misses(Step(s1, Resend(code, true)), guess, 5);
    }
  }

  /** The only way to a verified email, at each step; nothing takes it back, and once there no guess is
      ever compared again. */
  lemma {:induction false} VerifiedOnlyByMatch(s: State, es: seq<Event>)
    ensures Run(s, es).user.verified <==>
              s.user.verified || exists i :: 0 <= i < |es| && MatchesAt(Run(s, es[..i]), es[i])
    ensures s.user.verified ==> Run(s, es).user == s.user && Run(s, es).wrong == s.wrong
    decreases |es|
  {
    if es != [] {
      var s1 := Step(s, es[0]);
      VerifiedOnlyByMatch(s1, es[1..]);
      assert Run(s, es[..0]) == s;
      forall i | 0 < i <= |es| ensures Run(s, es[..i]) == Run(s1, es[1..][..i - 1]) {
        assert es[..i][1..] == es[1..][..i - 1];
      }
      if MatchesAt(s, es[0]) {
        assert MatchesAt(Run(s, es[..0]), es[0]);
      }
      if i :| 0 <= i < |es| - 1 && MatchesAt(Run(s1, es[1..][..i]), es[1..][i]) {
        assert MatchesAt(Run(s, es[..i + 1]), es[i + 1]);
      }
      if i :| 0 <= i < |es| && MatchesAt(Run(s, es[..i]), es[i]) {
        if i > 0 {
          assert MatchesAt(Run(s1, es[1..][..i - 1]), es[1..][i - 1]);
        }
      }
    }
  }

  /** The right code, unexpired, with attempts left. */
  predicate MatchesAt(s: State, e: Event) {
    && e.Verify? && e.saveOk && SixDigits(e.guess) && !s.user.verified
    && s.user.code == Some(e.guess) && s.user.expires.Some? && s.now <= s.user.expires.value
    && s.user.attempts < MAX_ATTEMPTS
  }
}
