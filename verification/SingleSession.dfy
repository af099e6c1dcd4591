/** One signed-in browser per account (accounts/single_session.py, accounts/middleware.py, accounts/views.py): logins,
    first-token adoption and sign-out-everywhere, with every request split into its database and session steps, beside
    the forms that read a user row and later save all of it. Fresh random tokens are numbers never used before. */
module SingleSession {
  import opened Wrappers

  type Token = nat

  /** Where a request of session `s` stands. */
  datatype Request =
    | Begun(s: nat, mine: Option<Token>)                             // session data loaded
    | RowRead(s: nat, mine: Option<Token>, current: Option<Token>)   // user row loaded
    | LostRace(s: nat, mine: Option<Token>)                          // its conditional UPDATE changed no row
    | Writing(s: nat, token: Token)                                  // the row holds its token, the session not yet
    | Refused(s: nat)                                                // about to be logged out
    | Passed(s: nat)

  /** `account` is the user row's token (None: empty), `sessions` the token in each session's data, `copies` the token
      in user objects that some form read and may save. The rest records history: which session a token was made for
      (None: sign-out-everywhere), and how often the row was adopted or replaced. */
  datatype State = State(
    account: Option<Token>, sessions: map<nat, Option<Token>>, requests: map<nat, Request>,
    copies: map<nat, Option<Token>>, nextToken: Token, madeFor: map<Token, Option<nat>>,
    attempts: nat, adoptions: nat, replacements: nat)

  datatype Action =
    | Begin(r: nat, s: nat)
    | ReadRow(r: nat)
    | Check(r: nat)              // compare, or try to adopt when the row read was empty
    | Reread(r: nat)             // compare against the fresh row after a lost race
    | LoginUpdate(r: nat, s: nat)
    | WriteSession(r: nat)       // request.session[SESSION_KEY] = token
    | Logout(r: nat)             // a refused request flushes its session
    | SignOutAll(r: nat, s: nat) // a token nobody holds, and this session is flushed
    | LoadUser(p: nat)           // a profile, password or role form reads the user row
    | SaveUser(p: nat)           // and saves every field of it, the token as it was read included

  function Held(st: State, s: nat): Option<Token> {
    if s in st.sessions then st.sessions[s] else None
  }

  /** `bool(mine) and bool(current) and compare_digest(mine, current)`. */
  function Verdict(s: nat, mine: Option<Token>, current: Option<Token>): Request {
    if mine.Some? && mine == current then Passed(s) else Refused(s)
  }

  /** Write a fresh token into the row. */
  function Replace(st: State, holder: Option<nat>): State {
    st.(account := Some(st.nextToken), nextToken := st.nextToken + 1,
        madeFor := st.madeFor[st.nextToken := holder])
  }

  function Step(st: State, a: Action): State {
    match a
    case Begin(r, s) =>
      if r in st.requests then st else st.(requests := st.requests[r := Begun(s, Held(st, s))])
    case ReadRow(r) =>
      if r in st.requests && st.requests[r].Begun?
      then st.(requests := st.requests[r := RowRead(st.requests[r].s, st.requests[r].mine, st.account)]) else st
    case Check(r) =>
      if r !in st.requests || !st.requests[r].RowRead? then st
      else
        var RowRead(s, mine, current) := st.requests[r];
        if current.Some? then st.(requests := st.requests[r := Verdict(s, mine, current)])
        else if st.account.None? then
          Replace(st, Some(s)).(requests := st.requests[r := Writing(s, st.nextToken)],
                                attempts := st.attempts + 1, adoptions := st.adoptions + 1)
        else st.(requests := st.requests[r := LostRace(s, mine)], attempts := st.attempts + 1)
    case Reread(r) =>
      if r in st.requests && st.requests[r].LostRace?
      then st.(requests := st.requests[r := Verdict(st.requests[r].s, st.requests[r].mine, st.account)]) else st
    case LoginUpdate(r, s) =>
      if r in st.requests then st
      else Replace(st, Some(s)).(requests := st.requests[r := Writing(s, st.nextToken)],
                                 replacements := st.replacements + 1)
    case WriteSession(r) =>
      if r in st.requests && st.requests[r].Writing?
      then st.(sessions := st.sessions[st.requests[r].s := Some(st.requests[r].token)],
               requests := st.requests[r := Passed(st.requests[r].s)]) else st
    case Logout(r) =>
      if r in st.requests && st.requests[r].Refused?
      then st.(sessions := st.sessions[st.requests[r].s := None]) else st
    case SignOutAll(r, s) =>
      Replace(st, None).(sessions := st.sessions[s := None], replacements := st.replacements + 1)
    case LoadUser(p) => st.(copies := st.copies[p := st.account])
    case SaveUser(p) => if p in st.copies then st.(account := st.copies[p]) else st
  }

  function Run(st: State, actions: seq<Action>): State
    decreases |actions|
  {
    if actions == [] then st else Run(Step(st, actions[0]), actions[1..])
  }

  /** An account before this feature: no token, any number of sessions without one. */
  const FRESH := State(None, map[], map[], map[], 0, map[], 0, 0, 0)

  // ----- what every step keeps, stale saves included -----

  predicate Made(st: State, t: Option<Token>) {
    t.Some? ==> t.value in st.madeFor
  }

  predicate MadeFor(st: State, t: Option<Token>, s: nat) {
    t.Some? ==> t.value in st.madeFor && st.madeFor[t.value] == Some(s)
  }

  predicate RequestOk(st: State, r: Request) {
    match r
    case Begun(s, mine) => MadeFor(st, mine, s)
    case RowRead(s, mine, current) => MadeFor(st, mine, s) && Made(st, current)
    case LostRace(s, mine) => MadeFor(st, mine, s)
    case Writing(s, token) => MadeFor(st, Some(token), s)
    case _ => true
  }

  ghost predicate RowOk(st: State) {
    && (forall t :: t in st.madeFor ==> t < st.nextToken)
    && Made(st, st.account)
    && (forall p :: p in st.copies ==> Made(st, st.copies[p]))
  }

  ghost predicate SessionsOk(st: State) {
    forall s :: s in st.sessions ==> MadeFor(st, st.sessions[s], s)
  }

  ghost predicate RequestsOk(st: State) {
    forall r :: r in st.requests ==> RequestOk(st, st.requests[r])
  }

  /** Tokens travel only to the session they were made for; the row and its copies hold tokens that were made. */
  ghost predicate Inv(st: State) {
    RowOk(st) && SessionsOk(st) && RequestsOk(st)
  }

  lemma StepKeepsRow(st: State, a: Action)
    requires RowOk(st)
    ensures RowOk(Step(st, a))
    ensures forall t :: Made(st, t) ==> Made(Step(st, a), t)
    ensures forall t, s :: MadeFor(st, t, s) ==> MadeFor(Step(st, a), t, s)
  {
  }

  lemma StepKeepsSessions(st: State, a: Action)
    requires RowOk(st) && SessionsOk(st) && RequestsOk(st)
    ensures SessionsOk(Step(st, a))
  {
    StepKeepsRow(st, a);
    if a.WriteSession? && a.r in st.requests {
      assert RequestOk(st, st.requests[a.r]);
    }
  }

  lemma OldRequestStaysOk(st: State, a: Action, r: Request)
    requires RowOk(st) && RequestOk(st, r)
    ensures RequestOk(Step(st, a), r)
  {
    StepKeepsRow(st, a);
  }

  /** The one request a step may change. */
  lemma OwnRequestStaysOk(st: State, a: Action)
    requires RowOk(st) && SessionsOk(st) && RequestsOk(st)
    requires !a.LoadUser? && !a.SaveUser? && a.r in Step(st, a).requests
    ensures RequestOk(Step(st, a), Step(st, a).requests[a.r])
  {
    StepKeepsRow(st, a);
    if a.r in st.requests {
      assert RequestOk(st, st.requests[a.r]);
    } else if a.Begin? {
      assert MadeFor(st, Held(st, a.s), a.s);
    }
  }

  lemma OtherRequestsUntouched(st: State, a: Action, r: nat)
    requires r in Step(st, a).requests && (a.LoadUser? || a.SaveUser? || a.r != r)
    ensures r in st.requests && Step(st, a).requests[r] == st.requests[r]
  {
  }

  lemma StepKeepsRequest(st: State, a: Action, r: nat)
    requires RowOk(st) && SessionsOk(st) && RequestsOk(st) && r in Step(st, a).requests
    ensures RequestOk(Step(st, a), Step(st, a).requests[r])
  {
    if a.LoadUser? || a.SaveUser? || a.r != r {
      OtherRequestsUntouched(st, a, r);
      OldRequestStaysOk(st, a, st.requests[r]);
    } else {
      OwnRequestStaysOk(st, a);
    }
  }

  lemma {:induction false} RunKeepsInv(st: State, actions: seq<Action>)
    requires Inv(st)
    ensures Inv(Run(st, actions))
    decreases |actions|
  {
    if actions != [] {
      var next := Step(st, actions[0]);
      StepKeepsRow(st, actions[0]);
      StepKeepsSessions(st, actions[0]);
      forall r | r in next.requests
        ensures RequestOk(next, next.requests[r])
      {
        StepKeepsRequest(st, actions[0], r);
      }
      RunKeepsInv(next, actions[1..]);
    }
  }

  /** No two sessions ever hold the same token, so at most one matches the account's. */
  lemma TokensAreNeverShared(actions: seq<Action>, a: nat, b: nat)
    requires var st := Run(FRESH, actions);
      a != b && a in st.sessions && b in st.sessions && st.sessions[a].Some? && st.sessions[b].Some?
    ensures var st := Run(FRESH, actions);
      st.sessions[a] != st.sessions[b] && (st.sessions[a] == st.account ==> st.sessions[b] != st.account)
  {
    RunKeepsInv(FRESH, actions);
  }

  /** Sign-out-everywhere, after any run whatever: the session it comes from holds no token any more, and no session
      holds the account's. */
  lemma SignOutAllLeavesNobody(actions: seq<Action>, r: nat, s: nat, other: nat)
    ensures var st := Step(Run(FRESH, actions), SignOutAll(r, s));
      && Held(st, s).None?
      && (Held(st, other).Some? ==> Held(st, other) == Held(Run(FRESH, actions), other) != st.account)
      && st.account.Some? && st.account != Run(FRESH, actions).account
  {
    RunKeepsInv(FRESH, actions);
    var st := Run(FRESH, actions);
    assert other in st.sessions ==> MadeFor(st, st.sessions[other], other);
  }

  // ----- the row holds the newest token exactly when no save is stale -----

  /** The save writes back the token the row holds anyway. */
  predicate Clean(st: State, a: Action) {
    a.SaveUser? && a.p in st.copies ==> st.copies[a.p] == st.account
  }

  predicate AllClean(st: State, actions: seq<Action>)
    decreases |actions|
  {
    actions == [] || (Clean(st, actions[0]) && AllClean(Step(st, actions[0]), actions[1..]))
  }

  /** The row holds the token that was made last. */
  predicate HoldsNewest(st: State) {
    st.account == if st.nextToken == 0 then None else Some(st.nextToken - 1)
  }

  predicate AlwaysNewest(st: State, actions: seq<Action>)
    decreases |actions|
  {
    HoldsNewest(st) && (actions == [] || AlwaysNewest(Step(st, actions[0]), actions[1..]))
  }

  /** The newest login, adoption or sign-out-everywhere is what counts in every state of a run if and only if no save
      writes back a row whose token changed since it was read. */
  lemma {:induction false} NewestTokenCountsExactlyWhenClean(st: State, actions: seq<Action>)
    requires HoldsNewest(st)
    ensures AlwaysNewest(st, actions) <==> AllClean(st, actions)
    decreases |actions|
  {
    if actions != [] {
      assert HoldsNewest(Step(st, actions[0])) <==> Clean(st, actions[0]);
      if Clean(st, actions[0]) {
        NewestTokenCountsExactlyWhenClean(Step(st, actions[0]), actions[1..]);
      }
    }
  }

  // ----- the token never becomes empty again exactly when no save empties it -----

  predicate Empties(st: State, a: Action) {
    a.SaveUser? && a.p in st.copies && st.copies[a.p].None? && st.account.Some?
  }

  predicate NoneEmpties(st: State, actions: seq<Action>)
    decreases |actions|
  {
    actions == [] || (!Empties(st, actions[0]) && NoneEmpties(Step(st, actions[0]), actions[1..]))
  }

  predicate AlwaysSet(st: State, actions: seq<Action>)
    decreases |actions|
  {
    st.account.Some? && (actions == [] || AlwaysSet(Step(st, actions[0]), actions[1..]))
  }

  /** Once set, the account's token stays set through a run if and only if no save in it writes back an empty one. */
  lemma {:induction false} TokenNeverEmptyAgainExactlyWhen(st: State, actions: seq<Action>)
    requires st.account.Some?
    ensures AlwaysSet(st, actions) <==> NoneEmpties(st, actions)
    ensures NoneEmpties(st, actions) ==> Run(st, actions).account.Some?
    decreases |actions|
  {
    if actions != [] {
      assert Step(st, actions[0]).account.Some? <==> !Empties(st, actions[0]);
      if !Empties(st, actions[0]) {
        TokenNeverEmptyAgainExactlyWhen(Step(st, actions[0]), actions[1..]);
      }
    }
  }

  /** The row is set as soon as anybody wrote a token, and then nobody adopts. */
  ghost predicate Counted(st: State) {
    && st.adoptions <= 1
    && (st.adoptions + st.replacements > 0 <==> st.account.Some?)
    && (st.attempts > 0 ==> st.account.Some?)
    && (forall p :: p in st.copies && st.copies[p].Some? ==> st.account.Some?)
  }

  lemma StepKeepsCounts(st: State, a: Action)
    requires Counted(st) && !Empties(st, a)
    ensures Counted(Step(st, a))
  {
  }

  lemma {:induction false} RunKeepsCounts(st: State, actions: seq<Action>)
    requires Counted(st) && NoneEmpties(st, actions)
    ensures Counted(Run(st, actions))
    decreases |actions|
  {
    if actions != [] {
      StepKeepsCounts(st, actions[0]);
      RunKeepsCounts(Step(st, actions[0]), actions[1..]);
    }
  }

  /** Of all racing adoptions at most one ever wins, unless a save empties the row again; exactly one does when anybody
      tried and no login or sign-out-everywhere wrote the row. */
  lemma OneAdoptionWins(actions: seq<Action>)
    requires NoneEmpties(FRESH, actions)
    ensures var st := Run(FRESH, actions);
      && st.adoptions <= 1
      && (st.attempts > 0 && st.replacements == 0 ==> st.adoptions == 1)
  {
    RunKeepsCounts(FRESH, actions);
  }

  /** Once the row is set, a step lets a new request adopt it again if and only if it is a save that empties it. */
  lemma AdoptedAgainExactlyWhenEmptied(st: State, a: Action, r: nat, s: nat)
    requires st.account.Some? && r !in Step(st, a).requests
    ensures var next := Step(st, a);
      Run(next, [Begin(r, s), ReadRow(r), Check(r)]).adoptions > next.adoptions <==> Empties(st, a)
  {
    RunThree(Step(st, a), Begin(r, s), ReadRow(r), Check(r));
  }

  // ----- a superseded session stays refused exactly when no save puts its token back -----

  predicate Stands(st: State, r: nat, request: Request) {
    r in st.requests && st.requests[r] == request
  }

  predicate Belongs(a: Action, r: nat) {
    !a.LoadUser? && !a.SaveUser? && a.r == r
  }

  /** Steps of other requests and forms leave a request alone. */
  lemma {:induction false} OthersLeaveARequestAlone(st: State, actions: seq<Action>, r: nat)
    requires r in st.requests
    requires forall i :: 0 <= i < |actions| ==> !Belongs(actions[i], r)
    ensures r in Run(st, actions).requests && Run(st, actions).requests[r] == st.requests[r]
    decreases |actions|
  {
    if actions != [] {
      assert !Belongs(actions[0], r);
      OthersLeaveARequestAlone(Step(st, actions[0]), actions[1..], r);
    }
  }

  /** A newer login elsewhere, or a sign-out-everywhere, holds the account. */
  predicate Superseded(st: State, s: nat) {
    st.account.Some? && !MadeFor(st, st.account, s)
  }

  /** A save that brings back an empty token or one of the session's own. */
  predicate PutsBack(st: State, a: Action, s: nat) {
    a.SaveUser? && a.p in st.copies && MadeFor(st, st.copies[a.p], s)
  }

  /** Session `s` itself signs in again. */
  predicate LogsIn(a: Action, s: nat) {
    a.LoginUpdate? && a.s == s
  }

  predicate NonePutsBack(st: State, actions: seq<Action>, s: nat)
    decreases |actions|
  {
    actions == [] || (!PutsBack(st, actions[0], s) && NonePutsBack(Step(st, actions[0]), actions[1..], s))
  }

  predicate AlwaysSuperseded(st: State, actions: seq<Action>, s: nat)
    decreases |actions|
  {
    Superseded(st, s) && (actions == [] || AlwaysSuperseded(Step(st, actions[0]), actions[1..], s))
  }

  lemma SupersededStep(st: State, a: Action, s: nat)
    requires RowOk(st) && Superseded(st, s) && !LogsIn(a, s)
    ensures Superseded(Step(st, a), s) <==> !PutsBack(st, a, s)
  {
    StepKeepsRow(st, a);
  }

  /** A superseded session that does not sign in again stays superseded through a run if and only if no save in it puts
      back an empty token or one of its own. */
  lemma {:induction false} SupersededExactlyWhenNonePutsBack(st: State, actions: seq<Action>, s: nat)
    requires RowOk(st) && Superseded(st, s)
    requires forall i :: 0 <= i < |actions| ==> !LogsIn(actions[i], s)
    ensures AlwaysSuperseded(st, actions, s) <==> NonePutsBack(st, actions, s)
    ensures NonePutsBack(st, actions, s) ==> Superseded(Run(st, actions), s)
    decreases |actions|
  {
    if actions != [] {
      assert !LogsIn(actions[0], s);
      SupersededStep(st, actions[0], s);
      StepKeepsRow(st, actions[0]);
      if !PutsBack(st, actions[0], s) {
        SupersededExactlyWhenNonePutsBack(Step(st, actions[0]), actions[1..], s);
      }
    }
  }

  /** In particular when every save is clean. */
  lemma {:induction false} CleanPutsNothingBack(st: State, actions: seq<Action>, s: nat)
    requires RowOk(st) && Superseded(st, s) && AllClean(st, actions)
    requires forall i :: 0 <= i < |actions| ==> !LogsIn(actions[i], s)
    ensures NonePutsBack(st, actions, s)
    decreases |actions|
  {
    if actions != [] {
      assert !LogsIn(actions[0], s);
      SupersededStep(st, actions[0], s);
      StepKeepsRow(st, actions[0]);
      CleanPutsNothingBack(Step(st, actions[0]), actions[1..], s);
    }
  }

  /** After a newer login elsewhere, or a sign-out-everywhere, any request of a session that reads the row from then on
      is refused - whatever it loaded from its session before and whatever happens in between - as long as that session
      does not sign in again and no save puts its token back. */
  lemma LaterReadsAreRefused(
    before: seq<Action>, since: seq<Action>, r: nat, s: nat, between: seq<Action>)
    requires Superseded(Run(FRESH, before), s) && NonePutsBack(Run(FRESH, before), since, s)
    requires forall i :: 0 <= i < |since| ==> !LogsIn(since[i], s)
    requires var st := Run(Run(FRESH, before), since);
      r in st.requests && st.requests[r].Begun? && st.requests[r].s == s
    requires forall i :: 0 <= i < |between| ==> !Belongs(between[i], r)
    ensures var st := Run(Step(Run(Run(FRESH, before), since), ReadRow(r)), between);
      Stands(Step(st, Check(r)), r, Refused(s))
  {
    RunKeepsInv(FRESH, before);
    SupersededExactlyWhenNonePutsBack(Run(FRESH, before), since, s);
    RunKeepsInv(Run(FRESH, before), since);
    ReadWhileSuperseded(Run(Run(FRESH, before), since), r, s, between);
  }

  lemma ReadWhileSuperseded(st: State, r: nat, s: nat, between: seq<Action>)
    requires Inv(st) && Superseded(st, s)
    requires r in st.requests && st.requests[r].Begun? && st.requests[r].s == s
    requires forall i :: 0 <= i < |between| ==> !Belongs(between[i], r)
    ensures Stands(Step(Run(Step(st, ReadRow(r)), between), Check(r)), r, Refused(s))
  {
    assert RequestOk(st, st.requests[r]);
    OthersLeaveARequestAlone(Step(st, ReadRow(r)), between, r);
  }

  // ----- who is refused -----

  /** The request carries the row's token when it reads it; or it finds the row empty twice and adopts it; or it loses
      the race for an empty row and carries the token it then finds. */
  predicate Welcome(mine: Option<Token>, read: Option<Token>, checked: Option<Token>, reread: Option<Token>) {
    if read.Some? then mine == read
    else checked.None? || (mine.Some? && mine == reread)
  }

  /** The exact fate of a request, by the three reads it makes of the row: it ends up refused if and only if it is not
      welcome. Others may do anything in between. */
  lemma RefusedExactlyWhen(
    st: State, r: nat, s: nat, mine: Option<Token>, beforeCheck: seq<Action>, beforeReread: seq<Action>)
    requires Stands(st, r, Begun(s, mine))
    requires forall i :: 0 <= i < |beforeCheck| ==> !Belongs(beforeCheck[i], r)
    requires forall i :: 0 <= i < |beforeReread| ==> !Belongs(beforeReread[i], r)
    ensures var checking := Run(Step(st, ReadRow(r)), beforeCheck);
      var rereading := Run(Step(checking, Check(r)), beforeReread);
      Stands(Step(rereading, Reread(r)), r, Refused(s))
      <==> !Welcome(mine, st.account, checking.account, rereading.account)
  {
    OthersLeaveARequestAlone(Step(st, ReadRow(r)), beforeCheck, r);
    var checking := Run(Step(st, ReadRow(r)), beforeCheck);
    assert Stands(checking, r, RowRead(s, mine, st.account));
    Checked(checking, r, s, mine, st.account);
    var checked := Step(checking, Check(r));
    OthersLeaveARequestAlone(checked, beforeReread, r);
  }

  lemma Checked(st: State, r: nat, s: nat, mine: Option<Token>, read: Option<Token>)
    requires Stands(st, r, RowRead(s, mine, read))
    ensures var after := if read.Some? then Verdict(s, mine, read)
                         else if st.account.None? then Writing(s, st.nextToken) else LostRace(s, mine);
      Stands(Step(st, Check(r)), r, after)
  {
  }

  /** A request that loaded its session before it held a token is refused exactly when somebody wrote the row before it
      could adopt it itself - even if it was a request of its own browser that did. */
  lemma TokenlessRefusedExactlyWhen(
    st: State, r: nat, s: nat, beforeCheck: seq<Action>, beforeReread: seq<Action>)
    requires Stands(st, r, Begun(s, None))
    requires forall i :: 0 <= i < |beforeCheck| ==> !Belongs(beforeCheck[i], r)
    requires forall i :: 0 <= i < |beforeReread| ==> !Belongs(beforeReread[i], r)
    ensures var checking := Run(Step(st, ReadRow(r)), beforeCheck);
      var rereading := Run(Step(checking, Check(r)), beforeReread);
      Stands(Step(rereading, Reread(r)), r, Refused(s))
      <==> st.account.Some? || checking.account.Some?
  {
    RefusedExactlyWhen(st, r, s, None, beforeCheck, beforeReread);
  }

  /** The session a token was made for passes, as long as its token is the account's when the row is read. */
  lemma CurrentSessionPasses(st: State, r: nat, s: nat, between: seq<Action>)
    requires r !in st.requests && Held(st, s).Some? && Held(st, s) == st.account
    requires forall i :: 0 <= i < |between| ==> !Belongs(between[i], r)
    ensures var read := Step(Step(st, Begin(r, s)), ReadRow(r));
      Stands(Step(Run(read, between), Check(r)), r, Passed(s))
  {
    OthersLeaveARequestAlone(Step(Step(st, Begin(r, s)), ReadRow(r)), between, r);
  }

  // ----- runs that show the conditions are needed -----

  lemma RunTwo(st: State, a: Action, b: Action)
    ensures Run(st, [a, b]) == Step(Step(st, a), b)
  {
    assert [a, b][1..] == [b] && [b][1..] == [];
    assert Run(Step(st, a), [b]) == Step(Step(st, a), b);
  }

  lemma RunThree(st: State, a: Action, b: Action, c: Action)
    ensures Run(st, [a, b, c]) == Step(Step(Step(st, a), b), c)
  {
    assert [a, b, c][1..] == [b, c];
    RunTwo(Step(st, a), b, c);
  }

  /** A password-reset form and a first request read the empty row. */
  lemma BothReadTheEmptyRow()
    ensures Run(FRESH, [Begin(1, 7), ReadRow(1), LoadUser(9)])
         == FRESH.(requests := map[1 := RowRead(7, None, None)], copies := map[9 := None])
  {
    RunThree(FRESH, Begin(1, 7), ReadRow(1), LoadUser(9));
    var begun := Step(FRESH, Begin(1, 7));
    assert begun == FRESH.(requests := map[1 := Begun(7, None)]);
    assert Step(begun, ReadRow(1)) == FRESH.(requests := map[1 := RowRead(7, None, None)]);
  }

  /** From there the request adopts a token, saving the form empties the row again, and a second adoption wins. */
  lemma StaleSaveLetsASecondAdoptionWin(read: State)
    requires read == FRESH.(requests := map[1 := RowRead(7, None, None)], copies := map[9 := None])
    ensures var saved := Run(read, [Check(1), WriteSession(1), SaveUser(9)]);
      var last := Run(saved, [Begin(2, 8), ReadRow(2), Check(2)]);
      && Step(read, Check(1)).adoptions == 1 && saved.account.None?
      && last.adoptions == 2 && last.account == Some(1)
  {
    RunThree(read, Check(1), WriteSession(1), SaveUser(9));
    var saved := Run(read, [Check(1), WriteSession(1), SaveUser(9)]);
    var checked := Step(read, Check(1));
    assert checked.requests == map[1 := Writing(7, 0)] && checked.copies == map[9 := None];
    assert saved.requests == map[1 := Passed(7)] && saved.account.None? && saved.adoptions == 1;
    SecondAdoption(saved, 2, 8);
  }

  lemma SecondAdoption(st: State, r: nat, s: nat)
    requires st.account.None? && r !in st.requests
    ensures var last := Run(st, [Begin(r, s), ReadRow(r), Check(r)]);
      last.adoptions == st.adoptions + 1 && last.account == Some(st.nextToken)
  {
    RunThree(st, Begin(r, s), ReadRow(r), Check(r));
  }

  /** Session 7 has signed in, and its profile form has read the row. */
  lemma FormOfTheSignedInSession()
    ensures var first := Run(FRESH, [LoginUpdate(1, 7), WriteSession(1), LoadUser(9)]);
      && first.requests == map[1 := Passed(7)] && first.sessions == map[7 := Some(0)]
      && first.copies == map[9 := Some(0)] && first.account == Some(0)
      && first.madeFor == map[0 := Some(7)] && first.nextToken == 1
  {
    RunThree(FRESH, LoginUpdate(1, 7), WriteSession(1), LoadUser(9));
    var signing := Step(FRESH, LoginUpdate(1, 7));
    assert signing.requests == map[1 := Writing(7, 0)] && signing.madeFor == map[0 := Some(7)];
  }

  /** From there session 8 signs in; saving the form puts the old token back, so that session 7 is the current one
      again and session 8 is superseded by it. */
  lemma StaleSaveRevivesASupersededSession(first: State)
    requires first.requests == map[1 := Passed(7)] && first.sessions == map[7 := Some(0)]
    requires first.copies == map[9 := Some(0)] && first.account == Some(0)
    requires first.madeFor == map[0 := Some(7)] && first.nextToken == 1
    ensures var second := Run(first, [LoginUpdate(2, 8), WriteSession(2)]);
      var last := Step(second, SaveUser(9));
      && Superseded(second, 7) && Held(second, 8) == second.account
      && Superseded(last, 8) && Held(last, 7).Some? && Held(last, 7) == last.account
  {
    RunTwo(first, LoginUpdate(2, 8), WriteSession(2));
    var signing := Step(first, LoginUpdate(2, 8));
    assert signing.madeFor == map[0 := Some(7), 1 := Some(8)] && signing.requests[2] == Writing(8, 1);
    var second := Step(signing, WriteSession(2));
    assert second.sessions == map[7 := Some(0), 8 := Some(1)];
  }

  /** Two requests of one browser have both read the empty row; the first adopts. */
  lemma RaceChecked(read: State)
    requires read.account.None? && read.sessions == map[] && read.nextToken == 0
    requires read.requests == map[1 := RowRead(7, None, None), 2 := RowRead(7, None, None)]
    ensures var st := Run(read, [Check(1), Check(2)]);
      st.account == Some(0) && st.sessions == map[] && st.adoptions == read.adoptions + 1
      && st.requests == map[1 := Writing(7, 0), 2 := LostRace(7, None)]
  {
    RunTwo(read, Check(1), Check(2));
  }

  /** "At most one session is current" cannot be read as "exactly one": two first requests of the same browser race,
      one adopts, and the other - which loaded the session before it held a token - is refused and signs the browser
      out, winner included. */
  lemma AdoptionRaceCanSignOutItsOwnBrowser(read: State)
    requires read.account.None? && read.sessions == map[] && read.nextToken == 0
    requires read.requests == map[1 := RowRead(7, None, None), 2 := RowRead(7, None, None)]
    ensures var won := Step(Run(read, [Check(1), Check(2)]), WriteSession(1));
      var st := Run(won, [Reread(2), Logout(2)]);
      && won.adoptions == read.adoptions + 1 && won.sessions == map[7 := won.account]
      && st.account.Some? && st.sessions == map[7 := None]
  {
    RaceChecked(read);
    var won := Step(Run(read, [Check(1), Check(2)]), WriteSession(1));
    assert won.requests == map[1 := Passed(7), 2 := LostRace(7, None)] && won.sessions == map[7 := Some(0)];
    LoserSignsOut(won);
  }

  lemma LoserSignsOut(won: State)
    requires won.account == Some(0) && won.sessions == map[7 := Some(0)]
    requires 2 in won.requests && won.requests[2] == LostRace(7, None)
    ensures var last := Run(won, [Reread(2), Logout(2)]);
      last.account == Some(0) && last.sessions == map[7 := None]
  {
    RunTwo(won, Reread(2), Logout(2));
    assert Step(won, Reread(2)).requests[2] == Refused(7);
  }

  /** That state is reached by two first requests of the browser. */
  lemma RaceIsReachable()
    ensures Run(Run(FRESH, [Begin(1, 7), Begin(2, 7)]), [ReadRow(1), ReadRow(2)])
         == FRESH.(requests := map[1 := RowRead(7, None, None), 2 := RowRead(7, None, None)])
  {
    RunTwo(FRESH, Begin(1, 7), Begin(2, 7));
    var begun := Run(FRESH, [Begin(1, 7), Begin(2, 7)]);
    assert begun == FRESH.(requests := map[1 := Begun(7, None), 2 := Begun(7, None)]);
    RunTwo(begun, ReadRow(1), ReadRow(2));
  }
}
