/** The email-code second factor (accounts/mfa.py, accounts/views.py): its session keys, the attempt and resend caps,
    and the login limiter that bounds how many challenges can be started. One request is one atomic step on its
    session. */
module Mfa {
  import opened Wrappers
  import opened RateLimit

  const OTP_EXPIRY_SECONDS := 600
  const MAX_MFA_ATTEMPTS := 5
  const MAX_MFA_RESENDS := 3
  const LOGIN_RATE_LIMIT: nat := 15
  const LOGIN_WINDOW: nat := 3600

  /** Every comparison one challenge can ever see. */
  const MAX_COMPARISONS := MAX_MFA_ATTEMPTS * (MAX_MFA_RESENDS + 1)

  /** The session keys `mfa_user_id`, `mfa_code`, `mfa_expires_at`, `mfa_attempts` and `mfa_resend_count`. */
  datatype Session = Session(
    userId: Option<nat>, code: Option<string>, expiresAt: Option<int>, attempts: Option<nat>, resendCount: Option<nat>)

  const CLEARED := Session(None, None, None, None, None)

  datatype Outcome = ToLogin | WrongCode | LoggedIn(user: nat) | CodeSent

  function OrZero(n: Option<nat>): nat {
    if n.Some? then n.value else 0
  }

  // ----- what each request does to the session -----

  /** `start_mfa_challenge`: a fresh code with its own attempts; the resend count is the caller's business. */
  function Start(s: Session, user: nat, code: string, now: int): Session {
    Session(Some(user), Some(code), Some(now + OTP_EXPIRY_SECONDS), Some(0), s.resendCount)
  }

  /** `_begin_mfa_challenge_if_required`, when a challenge is required. */
  function Begin(s: Session, user: nat, code: string, now: int): Session {
    Start(s, user, code, now).(resendCount := Some(0))
  }

  /** The submitted code is compared with the stored one. */
  predicate Compares(s: Session, now: int) {
    && s.userId.Some?
    && s.expiresAt.Some? && now <= s.expiresAt.value
    && OrZero(s.attempts) < MAX_MFA_ATTEMPTS
  }

  /** `MFAVerifyView`: dispatch and post. */
  function Verify(s: Session, submitted: string, now: int): (Session, Outcome) {
    if s.userId.None? then (s, ToLogin)
    else if !Compares(s, now) then (CLEARED, ToLogin)
    else if s.code != Some(submitted) then (s.(attempts := Some(OrZero(s.attempts) + 1)), WrongCode)
    else (CLEARED, LoggedIn(s.userId.value))
  }

  /** `resend_mfa_code`. */
  function Resend(s: Session, code: string, now: int): (Session, Outcome) {
    if s.userId.None? then (s, ToLogin)
    else if OrZero(s.resendCount) >= MAX_MFA_RESENDS then (CLEARED, ToLogin)
    else (Start(s.(resendCount := Some(OrZero(s.resendCount) + 1)), s.userId.value, code, now), CodeSent)
  }

  /** The pending session, written key by key. */
  class PendingSession {
    var userId: Option<nat>
    var code: Option<string>
    var expiresAt: Option<int>
    var attempts: Option<nat>
    var resendCount: Option<nat>

    ghost function State(): Session
      reads this
    {
      Session(userId, code, expiresAt, attempts, resendCount)
    }

    constructor ()
      ensures State() == CLEARED
    {
      userId, code, expiresAt, attempts, resendCount := None, None, None, None, None;
    }

    method StartChallenge(user: nat, newCode: string, now: int)
      modifies this
      ensures State() == Start(old(State()), user, newCode, now)
    {
      userId := Some(user);
      code := Some(newCode);
      expiresAt := Some(now + OTP_EXPIRY_SECONDS);
      attempts := Some(0);
    }

    method BeginChallenge(user: nat, newCode: string, now: int)
      modifies this
      ensures State() == Begin(old(State()), user, newCode, now)
    {
      StartChallenge(user, newCode, now);
      resendCount := Some(0);
    }

    method ClearMfa()
      modifies this
      ensures State() == CLEARED
    {
      userId, code, expiresAt, attempts, resendCount := None, None, None, None, None;
    }

    /** A submitted code signs the pending user in, or counts as a wrong one, only in time and within the attempts. */
    method VerifyCode(submitted: string, now: int) returns (outcome: Outcome)
      modifies this
      ensures (State(), outcome) == Verify(old(State()), submitted, now)
      ensures outcome.LoggedIn? <==>
              && old(userId).Some? && old(expiresAt).Some? && now <= old(expiresAt).value
              && OrZero(old(attempts)) < MAX_MFA_ATTEMPTS && old(code) == Some(submitted)
      ensures outcome.LoggedIn? ==> Some(outcome.user) == old(userId)
      ensures outcome.WrongCode? <==>
              && old(userId).Some? && old(expiresAt).Some? && now <= old(expiresAt).value
              && OrZero(old(attempts)) < MAX_MFA_ATTEMPTS && old(code) != Some(submitted)
      ensures outcome.WrongCode? ==>
                State() == old(State()).(attempts := Some(OrZero(old(attempts)) + 1))
    {
      if userId.None? {
        return ToLogin;
      }
      if expiresAt.None? || now > expiresAt.value {
        ClearMfa();
        return ToLogin;
      }
      var tried := OrZero(attempts);
      if tried >= MAX_MFA_ATTEMPTS {
        ClearMfa();
        return ToLogin;
      }
      if code != Some(submitted) {
        attempts := Some(tried + 1);
        return WrongCode;
      }
      var user := userId.value;
      ClearMfa();
      return LoggedIn(user);
    }

    method ResendCode(newCode: string, now: int) returns (outcome: Outcome)
      modifies this
      ensures (State(), outcome) == Resend(old(State()), newCode, now)
    {
      if userId.None? {
        return ToLogin;
      }
      var sent := OrZero(resendCount);
      if sent >= MAX_MFA_RESENDS {
        ClearMfa();
        return ToLogin;
      }
      resendCount := Some(sent + 1);
      StartChallenge(userId.value, newCode, now);
      return CodeSent;
    }

    /** Whatever a browser asks for, in order, and how each request is answered. */
    method HandleAll(requests: seq<SessionRequest>) returns (outcomes: seq<Outcome>)
      modifies this
      ensures State() == HandledAll(old(State()), requests)
      ensures |outcomes| == |requests|
      ensures forall n :: 0 <= n < |requests| ==> outcomes[n] == OutcomeOf(old(State()), requests, n)
    {
      ghost var before := State();
      outcomes := [];
      var i := 0;
      while i < |requests|
        invariant 0 <= i <= |requests| && |outcomes| == i
        invariant State() == HandledAll(before, requests[..i])
        invariant forall n :: 0 <= n < i ==> outcomes[n] == OutcomeOf(before, requests, n)
      {
        HandledNext(before, requests, i);
        var outcome := CodeSent;
        match requests[i] {
          case Starts(user, code, now) => BeginChallenge(user, code, now);
          case Verifies(submitted, now) => outcome := VerifyCode(submitted, now);
          case Resends(code, now) => outcome := ResendCode(code, now);
        }
        outcomes := outcomes + [outcome];
        i := i + 1;
      }
      assert requests[..i] == requests;
    }
  }

  // ----- one session -----

  datatype SessionRequest =
    | Starts(user: nat, code: string, now: int)
    | Verifies(submitted: string, now: int)
    | Resends(code: string, now: int)

  function Handled(s: Session, r: SessionRequest): Session {
    match r
    case Starts(user, code, now) => Begin(s, user, code, now)
    case Verifies(submitted, now) => Verify(s, submitted, now).0
    case Resends(code, now) => Resend(s, code, now).0
  }

  function HandledAll(s: Session, requests: seq<SessionRequest>): Session
    decreases |requests|
  {
    if requests == [] then s else HandledAll(Handled(s, requests[0]), requests[1..])
  }

  /** The answer to the n-th request. */
  function OutcomeOf(s: Session, requests: seq<SessionRequest>, n: nat): Outcome
    requires n < |requests|
  {
    var before := HandledAll(s, requests[..n]);
    match requests[n]
    case Starts(user, code, now) => CodeSent
    case Verifies(submitted, now) => Verify(before, submitted, now).1
    case Resends(code, now) => Resend(before, code, now).1
  }

  lemma {:induction false} HandledSnoc(s: Session, requests: seq<SessionRequest>, r: SessionRequest)
    ensures HandledAll(s, requests + [r]) == Handled(HandledAll(s, requests), r)
    decreases |requests|
  {
    if requests == [] {
      assert [r][1..] == [] && [] + [r] == [r];
    } else {
      assert (requests + [r])[1..] == requests[1..] + [r];
      HandledSnoc(Handled(s, requests[0]), requests[1..], r);
    }
  }

  lemma HandledNext(s: Session, requests: seq<SessionRequest>, n: nat)
    requires n < |requests|
    ensures HandledAll(s, requests[..n + 1]) == Handled(HandledAll(s, requests[..n]), requests[n])
  {
    assert requests[..n + 1] == requests[..n] + [requests[n]];
    HandledSnoc(s, requests[..n], requests[n]);
  }

  // ----- which code signs in -----

  /** Between the i-th and the n-th request only wrong codes were submitted, in the time of the code the i-th sent. */
  predicate OnlyWrongCodes(requests: seq<SessionRequest>, i: nat, n: nat)
    requires i < n <= |requests| && !requests[i].Verifies?
  {
    forall k :: i < k < n ==>
                  && requests[k].Verifies? && requests[k].submitted != requests[i].code
                  && requests[k].now <= requests[i].now + OTP_EXPIRY_SECONDS
  }

  /** The i-th request sends a code for this user: it starts a challenge, or it is its `resends`-th resend, at most the
      third, of a challenge that has not been ended by a late code, a sixth or a right one. */
  ghost predicate SendsCode(requests: seq<SessionRequest>, i: nat, resends: nat, user: nat)
    requires i < |requests|
    decreases i
  {
    match requests[i]
    case Starts(u, code, now) => u == user && resends == 0
    case Verifies(submitted, now) => false
    case Resends(code, now) =>
      1 <= resends <= 3
      && exists p :: 0 <= p < i && SendsCode(requests, p, resends - 1, user) && OnlyWrongCodes(requests, p, i)
                     && i - p - 1 <= 5
  }

  /** Before the n-th request the code sent by the i-th is the latest one and its challenge is still pending. */
  ghost predicate IsPending(requests: seq<SessionRequest>, i: nat, resends: nat, user: nat, n: nat) {
    && i < n <= |requests| && SendsCode(requests, i, resends, user) && OnlyWrongCodes(requests, i, n)
    && n - i - 1 <= 5
  }

  lemma {:induction false} PendingSessionIs(requests: seq<SessionRequest>, i: nat, resends: nat, user: nat, n: nat)
    requires IsPending(requests, i, resends, user, n)
    ensures HandledAll(CLEARED, requests[..n])
         == Session(Some(user), Some(requests[i].code), Some(requests[i].now + OTP_EXPIRY_SECONDS), Some(n - i - 1),
                    Some(resends))
    decreases n
  {
    HandledNext(CLEARED, requests, n - 1);
    if n > i + 1 {
      PendingSessionIs(requests, i, resends, user, n - 1);
    } else if requests[i].Resends? {
      var p :| 0 <= p < i && SendsCode(requests, p, resends - 1, user) && OnlyWrongCodes(requests, p, i)
               && i - p - 1 <= 5;
      PendingSessionIs(requests, p, resends - 1, user, i);
    }
  }

  /** And a session that is pending is so because of some code sent. */
  lemma {:induction false} SomeCodePending(requests: seq<SessionRequest>, n: nat)
    returns (i: nat, resends: nat, user: nat)
    requires n <= |requests| && HandledAll(CLEARED, requests[..n]).userId.Some?
    ensures IsPending(requests, i, resends, user, n)
    decreases n
  {
    HandledNext(CLEARED, requests, n - 1);
    if requests[n - 1].Starts? {
      i, resends, user := n - 1, 0, requests[n - 1].user;
    } else {
      i, resends, user := SomeCodePending(requests, n - 1);
      PendingSessionIs(requests, i, resends, user, n - 1);
      if requests[n - 1].Resends? {
        i, resends := n - 1, resends + 1;
      }
    }
  }

  /** Over every list of requests of one session: the n-th signs a user in if and only if it submits the code of the
      latest start or allowed resend of that user's challenge, no later than 600 seconds after it, with fewer than five
      wrong codes - all of them in time - in between and nothing else. */
  lemma SignsInExactlyWhen(requests: seq<SessionRequest>, n: nat, user: nat)
    requires n < |requests|
    ensures OutcomeOf(CLEARED, requests, n) == LoggedIn(user)
       <==> && requests[n].Verifies?
            && exists i: nat, resends: nat ::
                 && IsPending(requests, i, resends, user, n) && n - i - 1 < 5
                 && requests[n].submitted == requests[i].code
                 && requests[n].now <= requests[i].now + 600
  {
    var before := HandledAll(CLEARED, requests[..n]);
    if requests[n].Verifies? && before.userId.Some? {
      var i, resends, u := SomeCodePending(requests, n);
      PendingSessionIs(requests, i, resends, u, n);
    }
    forall i: nat, resends: nat | IsPending(requests, i, resends, user, n)
      ensures before.userId == Some(user) && before.code == Some(requests[i].code)
      ensures before.expiresAt == Some(requests[i].now + OTP_EXPIRY_SECONDS) && before.attempts == Some(n - i - 1)
    {
      PendingSessionIs(requests, i, resends, user, n);
    }
  }

  /** How often the submitted code is compared in the course of the requests. */
  function ComparisonsIn(s: Session, requests: seq<SessionRequest>): nat
    decreases |requests|
  {
    if requests == [] then 0
    else (if requests[0].Verifies? && Compares(s, requests[0].now) then 1 else 0)
         + ComparisonsIn(Handled(s, requests[0]), requests[1..])
  }

  predicate NoneStarts(requests: seq<SessionRequest>) {
    forall i :: 0 <= i < |requests| ==> !requests[i].Starts?
  }

  /** What a pending session may still be compared. */
  function ComparisonsLeft(s: Session): nat {
    if s.userId.None? || OrZero(s.resendCount) > MAX_MFA_RESENDS then 0
    else Max(0, MAX_MFA_ATTEMPTS - OrZero(s.attempts))
         + MAX_MFA_ATTEMPTS * (MAX_MFA_RESENDS - OrZero(s.resendCount))
  }

  /** However a browser mixes verifying and resending, codes expiring in between or not, no more comparisons are made
      than were left. */
  lemma {:induction false} SessionComparisons(s: Session, requests: seq<SessionRequest>)
    requires NoneStarts(requests) && OrZero(s.resendCount) <= MAX_MFA_RESENDS
    ensures ComparisonsIn(s, requests) <= ComparisonsLeft(s)
    decreases |requests|
  {
    if requests != [] {
      assert !requests[0].Starts?;
      SessionComparisons(Handled(s, requests[0]), requests[1..]);
    }
  }

  /** For a fresh challenge that is 20. */
  lemma FreshChallengeComparisons(s: Session, user: nat, code: string, now: int, requests: seq<SessionRequest>)
    requires NoneStarts(requests)
    ensures ComparisonsIn(Begin(s, user, code, now), requests) <= 20
  {
    SessionComparisons(Begin(s, user, code, now), requests);
  }

  // ----- the whole system: browsers, challenges and the login limiter -----

  /** A challenge: who started it by password login (and with which limiter call), and its comparisons so far. */
  datatype Challenge = Challenge(username: Option<string>, login: nat, comparisons: nat)

  /** A browser session and the challenge it is working on. */
  datatype Browser = Browser(session: Session, challenge: nat)

  datatype World = World(logins: seq<Event>, browsers: map<nat, Browser>, challenges: seq<Challenge>)

  datatype Request =
    | PasswordLogin(b: nat, username: string, accepted: bool, user: nat, code: string, now: int)
    | OtherLogin(b: nat, user: nat, code: string, now: int)   // Google sign-in: not counted by the login limiter
    | VerifyCode(b: nat, submitted: string, now: int)
    | ResendCode(b: nat, code: string, now: int)

  function LoginKey(username: string): Key {
    "login:" + username
  }

  function LoginEvent(username: string, now: int): Event {
    Event(Call(LoginKey(username), LOGIN_RATE_LIMIT, LOGIN_WINDOW, now), {})
  }

  function SessionOf(w: World, b: nat): Session {
    if b in w.browsers then w.browsers[b].session else CLEARED
  }

  function Challenged(w: World, b: nat, user: nat, code: string, now: int, c: Challenge): World {
    w.(browsers := w.browsers[b := Browser(Begin(SessionOf(w, b), user, code, now), |w.challenges|)],
       challenges := w.challenges + [c])
  }

  function OneMoreComparison(challenges: seq<Challenge>, k: nat): (after: seq<Challenge>)
    ensures |after| == |challenges|
    ensures forall i :: 0 <= i < |challenges| ==>
              after[i] == challenges[i].(comparisons := challenges[i].comparisons + if i == k then 1 else 0)
  {
    if k < |challenges| then challenges[k := challenges[k].(comparisons := challenges[k].comparisons + 1)]
    else challenges
  }

  /** `accepted`: the password was right, MFA is required and the device is not trusted. An empty user name is not
      counted, and the form refuses it. */
  function Step(w: World, r: Request): World {
    match r
    case PasswordLogin(b, username, accepted, user, code, now) =>
      if username == "" then w
      else
        var e := LoginEvent(username, now);
        var refused := CacheStep(Cache(w.logins), e.call).1;
        var w' := w.(logins := w.logins + [e]);
        if refused || !accepted then w'
        else Challenged(w', b, user, code, now, Challenge(Some(username), |w.logins|, 0))
    case OtherLogin(b, user, code, now) =>
      Challenged(w, b, user, code, now, Challenge(None, 0, 0))
    case VerifyCode(b, submitted, now) =>
      if b !in w.browsers then w
      else
        var s, k := w.browsers[b].session, w.browsers[b].challenge;
        w.(browsers := w.browsers[b := Browser(Verify(s, submitted, now).0, k)],
           challenges := if Compares(s, now) then OneMoreComparison(w.challenges, k) else w.challenges)
    case ResendCode(b, code, now) =>
      if b !in w.browsers then w
      else w.(browsers := w.browsers[b := w.browsers[b].(session := Resend(w.browsers[b].session, code, now).0)])
  }

  function Run(requests: seq<Request>): World {
    if requests == [] then World([], map[], [])
    else Step(Run(requests[..|requests| - 1]), requests[|requests| - 1])
  }

  /** The limiter call of a request: every password login with a user name is one. */
  function LoginCall(r: Request): seq<Event> {
    if r.PasswordLogin? && r.username != "" then [LoginEvent(r.username, r.now)] else []
  }

  /** Those of a list of requests, in their order. */
  function LoginCalls(requests: seq<Request>): seq<Event> {
    if requests == [] then []
    else LoginCalls(requests[..|requests| - 1]) + LoginCall(requests[|requests| - 1])
  }

  lemma StepLimitsLogins(w: World, r: Request)
    ensures Step(w, r).logins == w.logins + LoginCall(r)
  {
    assert w.logins + [] == w.logins;
  }

  lemma {:induction false} LoginsAreLimited(requests: seq<Request>)
    ensures Run(requests).logins == LoginCalls(requests)
  {
    if requests != [] {
      LoginsAreLimited(requests[..|requests| - 1]);
      StepLimitsLogins(Run(requests[..|requests| - 1]), requests[|requests| - 1]);
    }
  }

  /** After any requests, the next one starts a challenge if and only if it is a Google sign-in, or a password login
      that is accepted and that the limiter - counting all password logins so far - does not refuse. */
  lemma ChallengeStartsExactlyWhen(requests: seq<Request>, r: Request)
    ensures |Step(Run(requests), r).challenges| > |Run(requests).challenges|
       <==> r.OtherLogin?
            || (r.PasswordLogin? && r.username != "" && r.accepted
                && !CacheStep(Cache(LoginCalls(requests)), LoginEvent(r.username, r.now).call).1)
  {
    LoginsAreLimited(requests);
  }

  // ----- one challenge -----

  /** A pending session has used up all but its remaining attempts and resends. */
  predicate Budgeted(s: Session, comparisons: nat) {
    s.userId.Some? ==>
      && s.attempts.Some? && s.attempts.value <= MAX_MFA_ATTEMPTS
      && s.resendCount.Some? && s.resendCount.value <= MAX_MFA_RESENDS
      && comparisons <= MAX_MFA_ATTEMPTS * s.resendCount.value + s.attempts.value
  }

  ghost predicate Inv(w: World) {
    && (forall b :: b in w.browsers ==> w.browsers[b].challenge < |w.challenges|)
    && (forall b :: b in w.browsers ==>
          Budgeted(w.browsers[b].session, w.challenges[w.browsers[b].challenge].comparisons))
    && (forall a, b :: a in w.browsers && b in w.browsers && a != b ==>
          w.browsers[a].challenge != w.browsers[b].challenge)
    && (forall k :: 0 <= k < |w.challenges| ==> w.challenges[k].comparisons <= MAX_COMPARISONS)
  }

  lemma VerifyKeepsInv(w: World, b: nat, submitted: string, now: int)
    requires Inv(w)
    ensures Inv(Step(w, VerifyCode(b, submitted, now)))
  {
    if b in w.browsers {
      var k := w.browsers[b].challenge;
      assert Budgeted(w.browsers[b].session, w.challenges[k].comparisons);
    }
  }

  lemma StepKeepsInv(w: World, r: Request)
    requires Inv(w)
    ensures Inv(Step(w, r))
  {
    match r
    case PasswordLogin(b, username, accepted, user, code, now) =>
      if username != "" {
        ChallengedKeepsInv(w.(logins := w.logins + [LoginEvent(username, now)]), b, user, code, now,
                           Challenge(Some(username), |w.logins|, 0));
      }
    case OtherLogin(b, user, code, now) =>
      ChallengedKeepsInv(w, b, user, code, now, Challenge(None, 0, 0));
    case VerifyCode(b, submitted, now) =>
      VerifyKeepsInv(w, b, submitted, now);
    case ResendCode(b, code, now) =>
  }

  lemma ChallengedKeepsInv(w: World, b: nat, user: nat, code: string, now: int, c: Challenge)
    requires Inv(w) && c.comparisons == 0
    ensures Inv(Challenged(w, b, user, code, now, c))
  {
  }

  lemma {:induction false} RunKeepsInv(requests: seq<Request>)
    ensures Inv(Run(requests))
  {
    if requests != [] {
      RunKeepsInv(requests[..|requests| - 1]);
      StepKeepsInv(Run(requests[..|requests| - 1]), requests[|requests| - 1]);
    }
  }

  /** Over any interleaving of verifications, resends, expiries and new logins, one challenge is compared against at
      most 20 times. */
  lemma ComparisonsPerChallenge(requests: seq<Request>, k: nat)
    requires k < |Run(requests).challenges|
    ensures Run(requests).challenges[k].comparisons <= 5 * (3 + 1)
  {
    RunKeepsInv(requests);
  }

  // ----- challenges per login window -----

  /** A challenge this user name started by password with one of the limiter calls from the j-th to before the m-th. */
  predicate StartedIn(c: Challenge, username: string, j: nat, m: nat) {
    c.username == Some(username) && j <= c.login < m
  }

  /** How many there are. */
  function Started(challenges: seq<Challenge>, username: string, j: nat, m: nat): nat {
    if challenges == [] then 0
    else
      var n := |challenges| - 1;
      Started(challenges[..n], username, j, m) + if StartedIn(challenges[n], username, j, m) then 1 else 0
  }

  /** Their comparisons, added up. */
  function Comparisons(challenges: seq<Challenge>, username: string, j: nat, m: nat): nat {
    if challenges == [] then 0
    else
      var n := |challenges| - 1;
      Comparisons(challenges[..n], username, j, m)
      + if StartedIn(challenges[n], username, j, m) then challenges[n].comparisons else 0
  }

  lemma {:induction false} ComparisonsBounded(challenges: seq<Challenge>, username: string, j: nat, m: nat)
    requires forall k :: 0 <= k < |challenges| ==> challenges[k].comparisons <= MAX_COMPARISONS
    ensures Comparisons(challenges, username, j, m) <= MAX_COMPARISONS * Started(challenges, username, j, m)
  {
    if challenges != [] {
      ComparisonsBounded(challenges[..|challenges| - 1], username, j, m);
    }
  }

  lemma {:induction false} StartedIgnoresComparisons(
    a: seq<Challenge>, b: seq<Challenge>, username: string, j: nat, m: nat)
    requires |a| == |b|
    requires forall k :: 0 <= k < |a| ==> a[k].username == b[k].username && a[k].login == b[k].login
    ensures Started(a, username, j, m) == Started(b, username, j, m)
  {
    if a != [] {
      StartedIgnoresComparisons(a[..|a| - 1], b[..|b| - 1], username, j, m);
    }
  }

  lemma StartedSnoc(challenges: seq<Challenge>, c: Challenge, username: string, j: nat, m: nat)
    ensures Started(challenges + [c], username, j, m)
         == Started(challenges, username, j, m) + if StartedIn(c, username, j, m) then 1 else 0
  {
    assert (challenges + [c])[..|challenges|] == challenges;
  }

  lemma VerifyKeepsStarters(w: World, b: nat, submitted: string, now: int)
    ensures var after := Step(w, VerifyCode(b, submitted, now)).challenges;
      && |after| == |w.challenges|
      && forall k :: 0 <= k < |after| ==>
           after[k].username == w.challenges[k].username && after[k].login == w.challenges[k].login
  {
  }

  /** The first `m` limiter calls, or all there are. */
  function UpTo(logins: seq<Event>, m: nat): seq<Event> {
    if m <= |logins| then logins[..m] else logins
  }

  /** One more limiter call: it is among the first `m`, and adds to them, unless there are that many already. */
  lemma OneMoreLogin(logins: seq<Event>, e: Event, key: Key, j: nat, m: nat)
    ensures AllowedByCache(UpTo(logins + [e], m), key, j)
         == AllowedByCache(UpTo(logins, m), key, j)
            + if j <= |logins| < m && e.call.key == key && !CacheStep(Cache(logins), e.call).1 then 1 else 0
  {
    var all := logins + [e];
    assert all[..|logins|] == logins;
    if |logins| < m {
      assert UpTo(all, m) == all && UpTo(logins, m) == logins;
      assert |logins| < j ==> AllowedByCache(logins, key, j) == 0;
    } else {
      assert all[..m] == logins[..m];
    }
  }

  /** What was started in a stretch of limiter calls is no more than what the limiter allowed in it. */
  predicate StartedWithinAllowed(w: World, username: string, j: nat, m: nat) {
    Started(w.challenges, username, j, m) <= AllowedByCache(UpTo(w.logins, m), LoginKey(username), j)
  }

  lemma StepStartsWithinAllowed(w: World, r: Request, username: string, j: nat, m: nat)
    requires StartedWithinAllowed(w, username, j, m)
    ensures StartedWithinAllowed(Step(w, r), username, j, m)
  {
    match r
    case PasswordLogin(b, u, accepted, user, code, now) =>
      OneMoreLogin(w.logins, LoginEvent(u, now), LoginKey(username), j, m);
      StartedSnoc(w.challenges, Challenge(Some(u), |w.logins|, 0), username, j, m);
    case OtherLogin(b, user, code, now) =>
      StartedSnoc(w.challenges, Challenge(None, 0, 0), username, j, m);
    case VerifyCode(b, submitted, now) =>
      VerifyKeepsStarters(w, b, submitted, now);
      StartedIgnoresComparisons(w.challenges, Step(w, VerifyCode(b, submitted, now)).challenges, username, j, m);
    case ResendCode(b, code, now) =>
  }

  /** Every challenge a password login starts is paid for with one allowed call of the login limiter, in any stretch of
      the limiter's calls and whatever the run does afterwards. */
  lemma {:induction false} StartedByAllowedLogins(requests: seq<Request>, username: string, j: nat, m: nat)
    ensures StartedWithinAllowed(Run(requests), username, j, m)
  {
    if requests != [] {
      StartedByAllowedLogins(requests[..|requests| - 1], username, j, m);
      StepStartsWithinAllowed(Run(requests[..|requests| - 1]), requests[|requests| - 1], username, j, m);
    }
  }

  lemma PaidFor(w: World, username: string, j: nat, m: nat)
    requires Inv(w) && StartedWithinAllowed(w, username, j, m)
    ensures Comparisons(w.challenges, username, j, m)
         <= MAX_COMPARISONS * AllowedByCache(UpTo(w.logins, m), LoginKey(username), j)
  {
    ComparisonsBounded(w.challenges, username, j, m);
  }

  lemma ComparisonsPaidFor(requests: seq<Request>, username: string, j: nat, m: nat)
    ensures Comparisons(Run(requests).challenges, username, j, m)
         <= MAX_COMPARISONS * AllowedByCache(UpTo(Run(requests).logins, m), LoginKey(username), j)
  {
    RunKeepsInv(requests);
    StartedByAllowedLogins(requests, username, j, m);
    PaidFor(Run(requests), username, j, m);
  }

  lemma {:induction false} LoginsUniform(requests: seq<Request>, key: Key)
    ensures Uniform(Run(requests).logins, key, LOGIN_RATE_LIMIT, LOGIN_WINDOW)
  {
    if requests != [] {
      LoginsUniform(requests[..|requests| - 1], key);
    }
  }

  /** The j-th limiter call opens a window of the key, and the last of these calls still falls into it. */
  predicate OneLoginWindow(logins: seq<Event>, key: Key, j: nat) {
    && InTime(logins) && j < |logins| && logins[j].call.key == key
    && LiveEntry(Cache(logins[..j]), key, logins[j].call.now).None?
    && logins[|logins| - 1].call.now < logins[j].call.now + LOGIN_WINDOW
  }

  lemma LoginsInOneWindow(w: World, username: string, j: nat, m: nat)
    requires m <= |w.logins| && OneLoginWindow(w.logins[..m], LoginKey(username), j)
    requires Uniform(w.logins, LoginKey(username), LOGIN_RATE_LIMIT, LOGIN_WINDOW)
    requires Comparisons(w.challenges, username, j, m)
          <= MAX_COMPARISONS * AllowedByCache(UpTo(w.logins, m), LoginKey(username), j)
    ensures Comparisons(w.challenges, username, j, m) <= MAX_COMPARISONS * LOGIN_RATE_LIMIT
  {
    OneWindowAllowsTheLimit(w.logins[..m], LoginKey(username), j, LOGIN_RATE_LIMIT, LOGIN_WINDOW);
  }

  /** One counter window of the login limiter, opened by the j-th limiter call: the challenges that password logins for
      this user name start before the m-th call, the last that falls into it or an earlier one, see at most 15 * 20
      comparisons in the whole run - whenever those happen, and whoever signs in later. */
  lemma ComparisonsPerLoginWindow(requests: seq<Request>, username: string, j: nat, m: nat)
    requires m <= |Run(requests).logins| && OneLoginWindow(Run(requests).logins[..m], LoginKey(username), j)
    ensures Comparisons(Run(requests).challenges, username, j, m) <= 300
  {
    ComparisonsPaidFor(requests, username, j, m);
    LoginsUniform(requests, LoginKey(username));
    LoginsInOneWindow(Run(requests), username, j, m);
  }

  /** The limiter calls from the j-th on fall into an hour. */
  predicate OneHour(logins: seq<Event>, j: nat, from: int) {
    && InTime(logins) && j < |logins|
    && from <= logins[j].call.now && logins[|logins| - 1].call.now <= from + LOGIN_WINDOW
  }

  lemma LoginsInOneHour(w: World, username: string, j: nat, m: nat, from: int)
    requires m <= |w.logins| && OneHour(w.logins[..m], j, from)
    requires Uniform(w.logins, LoginKey(username), LOGIN_RATE_LIMIT, LOGIN_WINDOW)
    requires Comparisons(w.challenges, username, j, m)
          <= MAX_COMPARISONS * AllowedByCache(UpTo(w.logins, m), LoginKey(username), j)
    ensures Comparisons(w.challenges, username, j, m) <= 2 * MAX_COMPARISONS * LOGIN_RATE_LIMIT
  {
    AtMostTwiceTheLimit(w.logins[..m], LoginKey(username), j, LOGIN_RATE_LIMIT, LOGIN_WINDOW, from);
  }

  /** Any hour of logins, aligned with the counter's windows or not, leads to at most twice that, whatever comes before
      and after. */
  lemma ComparisonsPerHour(requests: seq<Request>, username: string, j: nat, m: nat, from: int)
    requires m <= |Run(requests).logins| && OneHour(Run(requests).logins[..m], j, from)
    ensures Comparisons(Run(requests).challenges, username, j, m) <= 600
  {
    ComparisonsPaidFor(requests, username, j, m);
    LoginsUniform(requests, LoginKey(username));
    LoginsInOneHour(Run(requests), username, j, m, from);
  }
}
