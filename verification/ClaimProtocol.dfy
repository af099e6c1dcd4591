/** The claim on a pending reply (chat/views.py, `stream_message`, `event_stream` and `regenerate_message`): one
    database row, any number of concurrent requests, and a timeout after which an abandoned claim may be taken over.
    Each database statement is one step; a request may be interrupted between any two of its steps, the two UPDATEs of
    its `finally` block included. */
module ClaimProtocol {
  import opened Wrappers

  /** `STALE_GENERATION_TIMEOUT`: ten minutes, in seconds. */
  const TIMEOUT: int := 600

  datatype Row = Row(content: string, isGenerating: bool, startedAt: Option<int>)

  /** The two claim fields of a message object as a request read them, before it claims the row. */
  datatype Memory = Memory(isGenerating: bool, startedAt: Option<int>)

  /** A generator between its claim and its `finally`. One between the two UPDATEs of `finally` is finishing. */
  datatype Generator = Generator(claimedAt: int, memory: Memory, partialText: string)

  datatype State = State(
    row: Row, now: int, reading: map<nat, Memory>, live: map<nat, Generator>, finishing: set<nat>)

  datatype Action =
    | Tick(seconds: nat)
    | Read(r: nat)                         // the request loads the message; it must still be empty
    | Claim(r: nat)                        // the conditional UPDATE
    | Stream(r: nat, partialText: string)  // one more chunk reached the client
    | SaveContent(r: nat, text: string)    // message.save(update_fields=["content", ...])
    | SaveAll(r: nat, text: string)        // message.save(): writes the claim fields read in `Read` as well
    | ReleaseText(r: nat)                  // the first UPDATE of `finally`: keep the partial text
    | ReleaseClaim(r: nat)                 // its second UPDATE: whoever holds the claim, it is cleared
    | Crash(r: nat)                        // the process dies without reaching `finally`
    | Regenerate                           // the reply is reset to empty

  /** The filter of the claiming UPDATE; a NULL start is older than nothing. */
  predicate Claimable(row: Row, now: int) {
    row.content == ""
    && (!row.isGenerating || (row.startedAt.Some? && row.startedAt.value < now - TIMEOUT))
  }

  function TextReleased(row: Row, partialText: string): Row {
    if row.content == "" && row.isGenerating then row.(content := partialText, isGenerating := false) else row
  }

  /** A request that has not read the message yet. */
  predicate Unknown(s: State, r: nat) {
    r !in s.reading && r !in s.live && r !in s.finishing
  }

  /** A step that is not enabled leaves the state as it is. */
  function Step(s: State, a: Action): State {
    match a
    case Tick(seconds) => s.(now := s.now + seconds)
    case Read(r) =>
      if s.row.content == "" && Unknown(s, r)
      then s.(reading := s.reading[r := Memory(s.row.isGenerating, s.row.startedAt)]) else s
    case Claim(r) =>
      if r !in s.reading then s
      else if Claimable(s.row, s.now)
      then State(s.row.(isGenerating := true, startedAt := Some(s.now)), s.now, s.reading - {r},
                 s.live[r := Generator(s.now, s.reading[r], "")], s.finishing)
      else s.(reading := s.reading - {r})
    case Stream(r, text) =>
      if r in s.live then s.(live := s.live[r := s.live[r].(partialText := text)]) else s
    case SaveContent(r, text) => if r in s.live then s.(row := s.row.(content := text)) else s
    case SaveAll(r, text) =>
      if r in s.live
      then s.(row := Row(text, s.live[r].memory.isGenerating, s.live[r].memory.startedAt)) else s
    case ReleaseText(r) =>
      if r in s.live
      then s.(row := TextReleased(s.row, s.live[r].partialText), live := s.live - {r}, finishing := s.finishing + {r})
      else s
    case ReleaseClaim(r) =>
      if r in s.finishing then s.(row := s.row.(isGenerating := false), finishing := s.finishing - {r}) else s
    case Crash(r) => s.(live := s.live - {r}, finishing := s.finishing - {r})
    case Regenerate => s.(row := s.row.(content := ""))
  }

  function Run(s: State, actions: seq<Action>): State
    decreases |actions|
  {
    if actions == [] then s else Run(Step(s, actions[0]), actions[1..])
  }

  /** A message as it is created: empty and unclaimed. */
  function Created(now: int): State {
    State(Row("", false, None), now, map[], map[], {})
  }

  /** What the design takes for granted: every live generator is done within the timeout, saved replies are not
      empty, a reply is regenerated only when nobody is generating it - and, which it does not say, no claim succeeds
      between the two UPDATEs of another generator's `finally`. */
  predicate Assumed(s: State, a: Action) {
    match a
    case Tick(seconds) => forall r <- s.live :: s.now + seconds <= s.live[r].claimedAt + TIMEOUT
    case Claim(r) => r in s.reading && Claimable(s.row, s.now) ==> s.finishing == {}
    case SaveContent(r, text) => text != ""
    case SaveAll(r, text) => text != ""
    case Regenerate => s.live == map[]
    case _ => true
  }

  predicate AllAssumed(s: State, actions: seq<Action>)
    decreases |actions|
  {
    actions == [] || (Assumed(s, actions[0]) && AllAssumed(Step(s, actions[0]), actions[1..]))
  }

  ghost predicate AtMostOneLive(s: State) {
    forall a, b :: a in s.live && b in s.live ==> a == b
  }

  // ----- safety -----

  predicate MemoryOk(m: Memory, now: int) {
    (m.isGenerating ==> m.startedAt.Some?) && (m.startedAt.Some? ==> m.startedAt.value <= now)
  }

  /** While a generator lives, the row is either already answered or claimed with that generator's own start. */
  ghost predicate Inv(s: State) {
    && AtMostOneLive(s)
    && (s.live != map[] ==> s.finishing == {})
    && MemoryOk(Memory(s.row.isGenerating, s.row.startedAt), s.now)
    && (forall r <- s.reading :: MemoryOk(s.reading[r], s.now))
    && (forall r <- s.live ::
          var g := s.live[r];
          && MemoryOk(g.memory, s.now)
          && g.claimedAt <= s.now <= g.claimedAt + TIMEOUT
          && (s.row.content != "" || (s.row.isGenerating && s.row.startedAt == Some(g.claimedAt))))
  }

  lemma StepKeepsInv(s: State, a: Action)
    requires Inv(s) && Assumed(s, a)
    ensures Inv(Step(s, a))
  {
    match a
    case Claim(r) =>
      if r in s.reading && Claimable(s.row, s.now) {
        assert forall q <- s.live :: false;
      }
    case _ =>
  }

  lemma {:induction false} RunKeepsInv(s: State, actions: seq<Action>)
    requires Inv(s) && AllAssumed(s, actions)
    ensures Inv(Run(s, actions))
    decreases |actions|
  {
    if actions != [] {
      StepKeepsInv(s, actions[0]);
      RunKeepsInv(Step(s, actions[0]), actions[1..]);
    }
  }

  /** Under those assumptions, in every interleaving at most one generator is between its claim and its `finally`. */
  lemma NeverTwoGenerators(now: int, actions: seq<Action>)
    requires AllAssumed(Created(now), actions)
    ensures AtMostOneLive(Run(Created(now), actions))
  {
    RunKeepsInv(Created(now), actions);
  }

  /** A claim succeeds only on an empty reply that no live generator holds. */
  lemma ClaimSucceedsOnlyWhenFree(now: int, actions: seq<Action>, r: nat)
    requires AllAssumed(Created(now), actions)
    requires var s := Run(Created(now), actions);
      r !in s.live && r in Step(s, Claim(r)).live
    ensures var s := Run(Created(now), actions);
      s.row.content == "" && s.live == map[]
  {
    RunKeepsInv(Created(now), actions);
    var s := Run(Created(now), actions);
    assert forall q <- s.live :: false;
  }

  // ----- recovery -----

  /** A crashed holder does not wedge the message: once nobody is live, an unanswered row can be claimed by any new
      request after the timeout, whatever happened before. */
  lemma AbandonedClaimIsTakenOver(now: int, actions: seq<Action>, seconds: nat, r: nat)
    requires AllAssumed(Created(now), actions)
    requires var s := Run(Created(now), actions);
      s.live == map[] && s.row.content == "" && Unknown(s, r)
    requires seconds > TIMEOUT
    ensures r in Run(Run(Created(now), actions), [Tick(seconds), Read(r), Claim(r)]).live
  {
    RunKeepsInv(Created(now), actions);
    var s := Run(Created(now), actions);
    var s1 := Step(s, Tick(seconds));
    var s2 := Step(s1, Read(r));
    assert [Tick(seconds), Read(r), Claim(r)][1..] == [Read(r), Claim(r)];
    assert [Read(r), Claim(r)][1..] == [Claim(r)];
    assert [Claim(r)][1..] == [];
    assert Run(s2, [Claim(r)]) == Step(s2, Claim(r));
  }

  lemma {:induction false} TimePasses(s: State, actions: seq<Action>)
    ensures s.now <= Run(s, actions).now
    decreases |actions|
  {
    if actions != [] {
      TimePasses(Step(s, actions[0]), actions[1..]);
    }
  }

  /** A row whose holder is gone without a trace but for its claim. */
  predicate Orphaned(s: State, claimedAt: int) {
    s.live == map[] && s.finishing == {} && s.row == Row("", true, Some(claimedAt))
  }

  lemma {:induction false} OrphanStays(s: State, claimedAt: int, actions: seq<Action>)
    requires Orphaned(s, claimedAt) && Run(s, actions).now <= claimedAt + TIMEOUT
    ensures Orphaned(Run(s, actions), claimedAt)
    decreases |actions|
  {
    if actions != [] {
      TimePasses(s, actions);
      TimePasses(Step(s, actions[0]), actions[1..]);
      OrphanStays(Step(s, actions[0]), claimedAt, actions[1..]);
    }
  }

  /** Until the timeout a crashed holder's claim keeps everyone out: after any assumed run in which a generator crashes
      on an unanswered row, nothing anybody does - no assumption is made about it - gets a new generator in before the
      timeout has passed. */
  lemma CrashedClaimHoldsUntilTimeout(now: int, before: seq<Action>, r: nat, after: seq<Action>)
    requires AllAssumed(Created(now), before)
    requires var s := Run(Created(now), before);
      && r in s.live && s.row.content == ""
      && Run(Step(s, Crash(r)), after).now <= s.live[r].claimedAt + TIMEOUT
    ensures Run(Step(Run(Created(now), before), Crash(r)), after).live == map[]
  {
    RunKeepsInv(Created(now), before);
    var s := Run(Created(now), before);
    assert forall q <- s.live :: q == r;
    assert (s.live - {r}).Keys == {};
    OrphanStays(Step(s, Crash(r)), s.live[r].claimedAt, after);
  }

  /** The first UPDATE of `finally` never overwrites a saved reply and stores the partial text otherwise. */
  lemma ReleaseKeepsTheReply(now: int, actions: seq<Action>, r: nat)
    requires AllAssumed(Created(now), actions)
    requires r in Run(Created(now), actions).live
    ensures var s := Run(Created(now), actions);
      var t := Step(s, ReleaseText(r));
      && t.live == map[] && t.finishing == {r}
      && t.row.content == (if s.row.content != "" then s.row.content else s.live[r].partialText)
      && Step(t, ReleaseClaim(r)).row == Row(t.row.content, false, s.row.startedAt)
  {
    RunKeepsInv(Created(now), actions);
    var s := Run(Created(now), actions);
    assert forall q <- s.live :: q == r;
    assert (s.live - {r}).Keys == {};
  }

  predicate AlwaysAnswered(s: State, actions: seq<Action>)
    decreases |actions|
  {
    s.row.content != "" && (actions == [] || AlwaysAnswered(Step(s, actions[0]), actions[1..]))
  }

  /** Nobody starts on an answered message: while the row stays answered, a request that has not read it yet never gets
      as far as trying to claim it, and one that has tries in vain. */
  lemma {:induction false} AnsweredRowAdmitsNobody(s: State, actions: seq<Action>, r: nat)
    requires AlwaysAnswered(s, actions) && r !in s.live && r !in s.finishing
    ensures r !in Run(s, actions).live
    ensures Unknown(s, r) ==> Unknown(Run(s, actions), r)
    decreases |actions|
  {
    if actions != [] {
      AnsweredRowAdmitsNobody(Step(s, actions[0]), actions[1..], r);
    }
  }

  /** What a request does once it does no more than once: after its claim, won or lost, and after its crash there is
      nothing left for it to do. */
  lemma OneTryEach(s: State, r: nat)
    ensures Step(Step(s, Claim(r)), Claim(r)) == Step(s, Claim(r))
    ensures var t := Step(s, Crash(r));
      && t.row == s.row && Step(t, ReleaseText(r)) == t && Step(t, ReleaseClaim(r)) == t
      && forall text :: Step(t, SaveAll(r, text)) == t && Step(t, SaveContent(r, text)) == t
  {
    var t := Step(s, Claim(r));
    assert r !in t.reading;
  }

  // ----- the unsaid assumption, met by releases that leave an answer -----

  /** The assumptions again, with two a generator can meet by itself in place of the one about claims: the row is
      answered once `finally` has stored the partial text, and nobody regenerates while a generator is finishing. */
  predicate AssumedAnswering(s: State, a: Action) {
    match a
    case Claim(r) => true
    case ReleaseText(r) => r in s.live ==> s.row.content != "" || s.live[r].partialText != ""
    case Regenerate => s.live == map[] && s.finishing == {}
    case _ => Assumed(s, a)
  }

  predicate AllAssumedAnswering(s: State, actions: seq<Action>)
    decreases |actions|
  {
    actions == [] || (AssumedAnswering(s, actions[0]) && AllAssumedAnswering(Step(s, actions[0]), actions[1..]))
  }

  lemma {:induction false} AnsweringRunsAreAssumed(s: State, actions: seq<Action>)
    requires Inv(s) && (s.finishing != {} ==> s.row.content != "") && AllAssumedAnswering(s, actions)
    ensures AllAssumed(s, actions)
    decreases |actions|
  {
    if actions != [] {
      StepKeepsInv(s, actions[0]);
      AnsweringRunsAreAssumed(Step(s, actions[0]), actions[1..]);
    }
  }

  /** A generator that never leaves an unanswered row behind needs no assumption about the claims of others. */
  lemma AnsweringGeneratorsNeverOverlap(now: int, actions: seq<Action>)
    requires AllAssumedAnswering(Created(now), actions)
    ensures AtMostOneLive(Run(Created(now), actions))
  {
    AnsweringRunsAreAssumed(Created(now), actions);
    NeverTwoGenerators(now, actions);
  }

  // ----- exactly which steps open the door -----

  /** A claim that the filter respects; one without a start never goes stale. */
  predicate Fresh(isGenerating: bool, startedAt: Option<int>, now: int) {
    isGenerating && (startedAt.Some? ==> now - TIMEOUT <= startedAt.value)
  }

  /** While somebody is live, the row is answered or freshly claimed. */
  ghost predicate Guarded(s: State) {
    && AtMostOneLive(s)
    && (s.live != map[] ==> s.row.content != "" || Fresh(s.row.isGenerating, s.row.startedAt, s.now))
  }

  /** What the one live generator must not suffer: time passing its unanswered claim, an empty reply saved without a
      fresh claim to cover it, a regeneration without one, and the second UPDATE of another generator's `finally`
      landing on its unanswered claim. */
  predicate Harmless(s: State, a: Action) {
    match a
    case Tick(seconds) =>
      s.live != map[] && s.row.content == "" ==> Fresh(s.row.isGenerating, s.row.startedAt, s.now + seconds)
    case SaveContent(r, text) =>
      r in s.live && text == "" ==> Fresh(s.row.isGenerating, s.row.startedAt, s.now)
    case SaveAll(r, text) =>
      r in s.live && text == "" ==> Fresh(s.live[r].memory.isGenerating, s.live[r].memory.startedAt, s.now)
    case ReleaseClaim(r) => r in s.finishing && s.live != map[] ==> s.row.content != ""
    case Regenerate => s.live != map[] ==> Fresh(s.row.isGenerating, s.row.startedAt, s.now)
    case _ => true
  }

  lemma HarmlessKeepsGuarded(s: State, a: Action)
    requires Guarded(s)
    ensures AtMostOneLive(Step(s, a))
    ensures Guarded(Step(s, a)) <==> Harmless(s, a)
  {
    var t := Step(s, a);
    if s.live != map[] {
      var r :| r in s.live;
      match a
      case SaveContent(q, text) => assert r in t.live;
      case SaveAll(q, text) => assert r in t.live;
      case Regenerate => assert r in t.live;
      case ReleaseClaim(q) => assert r in t.live;
      case Tick(seconds) => assert r in t.live;
      case _ =>
    }
  }

  /** A new request gets in beside a live generator exactly when the row is not guarded. */
  lemma UnguardedLetsAnotherIn(s: State, q: nat)
    requires AtMostOneLive(s) && Unknown(s, q)
    ensures AtMostOneLive(Run(s, [Read(q), Claim(q)])) <==> Guarded(s)
  {
    assert [Read(q), Claim(q)][1..] == [Claim(q)] && [Claim(q)][1..] == [];
    var s1 := Step(s, Read(q));
    var t := Step(s1, Claim(q));
    assert Run(s1, [Claim(q)]) == t;
    if s.live != map[] {
      var r :| r in s.live;
      assert q in t.live ==> r in t.live && r != q;
    }
  }

  /** The exact condition: from any guarded state, a step lets a new request become a second generator if and only if
      it is one of the harmful ones. */
  lemma SecondGeneratorExactlyWhenHarmed(s: State, a: Action, q: nat)
    requires Guarded(s) && Unknown(Step(s, a), q)
    ensures AtMostOneLive(Run(Step(s, a), [Read(q), Claim(q)])) <==> Harmless(s, a)
  {
    HarmlessKeepsGuarded(s, a);
    UnguardedLetsAnotherIn(Step(s, a), q);
  }

  predicate AllHarmless(s: State, actions: seq<Action>)
    decreases |actions|
  {
    actions == [] || (Harmless(s, actions[0]) && AllHarmless(Step(s, actions[0]), actions[1..]))
  }

  ghost predicate AlwaysGuarded(s: State, actions: seq<Action>)
    decreases |actions|
  {
    Guarded(s) && (actions == [] || AlwaysGuarded(Step(s, actions[0]), actions[1..]))
  }

  /** Over whole runs: the row is guarded in every state exactly when no step is harmful, and then there is never more
      than one live generator. */
  lemma {:induction false} GuardedExactlyWhenHarmless(s: State, actions: seq<Action>)
    requires Guarded(s)
    ensures AlwaysGuarded(s, actions) <==> AllHarmless(s, actions)
    ensures AllHarmless(s, actions) ==> AtMostOneLive(Run(s, actions))
    decreases |actions|
  {
    if actions != [] {
      HarmlessKeepsGuarded(s, actions[0]);
      if Harmless(s, actions[0]) {
        GuardedExactlyWhenHarmless(Step(s, actions[0]), actions[1..]);
      }
    }
  }

  // ----- none of the four assumptions can be dropped -----

  predicate BothIn(s: State, a: nat, b: nat) {
    a in s.live && b in s.live
  }

  function TwoClaims(between: seq<Action>): seq<Action> {
    [Read(1), Read(2), Claim(1)] + between + [Claim(2)]
  }

  /** A provider that finishes without any text saves an empty reply, and the full save hands the claim back while
      the generator is still on its way to `finally`. */
  lemma EmptyReplyLetsASecondGeneratorIn()
    ensures BothIn(Run(Created(0), TwoClaims([SaveAll(1, "")])), 1, 2)
    ensures !BothIn(Run(Created(0), TwoClaims([SaveContent(1, "")])), 1, 2)
  {
    assert TwoClaims([SaveAll(1, "")]) == [Read(1), Read(2), Claim(1), SaveAll(1, ""), Claim(2)];
    assert TwoClaims([SaveContent(1, "")]) == [Read(1), Read(2), Claim(1), SaveContent(1, ""), Claim(2)];
    RunFive(Created(0), Read(1), Read(2), Claim(1), SaveAll(1, ""), Claim(2));
    RunFive(Created(0), Read(1), Read(2), Claim(1), SaveContent(1, ""), Claim(2));
  }

  lemma SlowGeneratorLosesItsClaim()
    ensures BothIn(Run(Created(0), TwoClaims([Tick(601)])), 1, 2)
    ensures !BothIn(Run(Created(0), TwoClaims([Tick(600)])), 1, 2)
  {
    assert TwoClaims([Tick(601)]) == [Read(1), Read(2), Claim(1), Tick(601), Claim(2)];
    assert TwoClaims([Tick(600)]) == [Read(1), Read(2), Claim(1), Tick(600), Claim(2)];
    RunFive(Created(0), Read(1), Read(2), Claim(1), Tick(601), Claim(2));
    RunFive(Created(0), Read(1), Read(2), Claim(1), Tick(600), Claim(2));
  }

  lemma RegenerateUnderALiveGenerator()
    ensures BothIn(Run(Created(0), [Read(1), Read(2), Claim(1), SaveAll(1, "answer"), Regenerate] + [Claim(2)]), 1, 2)
  {
    var head := [Read(1), Read(2), Claim(1), SaveAll(1, "answer"), Regenerate];
    assert head + [Claim(2)] == [Read(1)] + [Read(2), Claim(1), SaveAll(1, "answer"), Regenerate, Claim(2)];
    assert (head + [Claim(2)])[1..] == [Read(2), Claim(1), SaveAll(1, "answer"), Regenerate, Claim(2)];
    RunFive(Step(Created(0), Read(1)), Read(2), Claim(1), SaveAll(1, "answer"), Regenerate, Claim(2));
  }

  /** Between the two UPDATEs of a `finally` that had nothing to store, a second request claims the row; the second
      UPDATE clears that claim, and a third request gets in. Without the claim in between it does not. */
  lemma SecondUpdateClearsAnotherClaim()
    ensures var s := Run(Created(0), [Read(1), Read(2), Read(3), Claim(1), ReleaseText(1)]);
      var t := Run(s, [Claim(2), ReleaseClaim(1), Claim(3)]);
      && 2 in t.live && 3 in t.live
      && 3 !in Run(s, [ReleaseClaim(1), Claim(2), Claim(3)]).live
  {
    BetweenTheUpdates();
    var s := Run(Created(0), [Read(1), Read(2), Read(3), Claim(1), ReleaseText(1)]);
    ClaimedInBetween(s);
    ClaimedAfterwards(s);
  }

  const UNREAD := Memory(false, None)

  /** Request 1 has released an empty row but not its claim; requests 2 and 3 have read the message. */
  predicate HalfReleased(s: State) {
    s == State(Row("", false, Some(0)), 0, map[2 := UNREAD, 3 := UNREAD], map[], {1})
  }

  lemma BetweenTheUpdates()
    ensures HalfReleased(Run(Created(0), [Read(1), Read(2), Read(3), Claim(1), ReleaseText(1)]))
  {
    RunFive(Created(0), Read(1), Read(2), Read(3), Claim(1), ReleaseText(1));
    var read := Step(Step(Step(Created(0), Read(1)), Read(2)), Read(3));
    assert read == State(Row("", false, None), 0, map[1 := UNREAD, 2 := UNREAD, 3 := UNREAD], map[], {});
    var claimed := Step(read, Claim(1));
    assert claimed.reading == map[2 := UNREAD, 3 := UNREAD] && claimed.live.Keys == {1};
  }

  lemma ClaimedInBetween(s: State)
    requires HalfReleased(s)
    ensures BothIn(Run(s, [Claim(2), ReleaseClaim(1), Claim(3)]), 2, 3)
  {
    RunThree(s, Claim(2), ReleaseClaim(1), Claim(3));
  }

  lemma ClaimedAfterwards(s: State)
    requires HalfReleased(s)
    ensures 3 !in Run(s, [ReleaseClaim(1), Claim(2), Claim(3)]).live
  {
    RunThree(s, ReleaseClaim(1), Claim(2), Claim(3));
  }

  lemma RunThree(s: State, a: Action, b: Action, c: Action)
    ensures Run(s, [a, b, c]) == Step(Step(Step(s, a), b), c)
  {
    assert [a, b, c][1..] == [b, c];
    assert [b, c][1..] == [c];
    assert [c][1..] == [];
    var s1 := Step(s, a);
    var s2 := Step(s1, b);
    assert Run(s, [a, b, c]) == Run(s1, [b, c]);
    assert Run(s2, [c]) == Step(s2, c);
  }

  lemma RunFive(s: State, a: Action, b: Action, c: Action, d: Action, e: Action)
    ensures Run(s, [a, b, c, d, e]) == Step(Step(Step(Step(Step(s, a), b), c), d), e)
  {
    assert [a, b, c, d, e][1..] == [b, c, d, e];
    assert [b, c, d, e][1..] == [c, d, e];
    assert [c, d, e][1..] == [d, e];
    assert [d, e][1..] == [e];
    assert [e][1..] == [];
    var s1 := Step(s, a);
    var s2 := Step(s1, b);
    var s3 := Step(s2, c);
    assert Run(s, [a, b, c, d, e]) == Run(s1, [b, c, d, e]) == Run(s2, [c, d, e]);
    assert Run(s3, [d, e]) == Run(Step(s3, d), [e]);
  }
}
