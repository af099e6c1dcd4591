/** The generators of `ReplyEngine` as the requests of `ClaimProtocol` (chat/views.py, `event_stream`): what each of
    them does to the row, step by step, and when any number of them, interleaved, keep out of each other's way. */
module ConcurrentReplies {
  import opened Wrappers
  import R = ReplyEngine
  import P = ClaimProtocol

  /** What a request generates, and where its client goes away. */
  datatype Job = Job(t: R.Texts, setup: R.Setup, cut: Option<nat>)

  // ----- a generator's steps on the row -----

  /** The steps of `r` on the row up to its `finally`, when `sent` events have been sent. */
  function OwnActions(r: nat, effects: seq<R.Effect>, sent: nat, cut: Option<nat>): seq<P.Action>
    decreases |effects|
  {
    if effects == [] then []
    else
      match effects[0]
      case SetPartial(text) => [P.Stream(r, text)] + OwnActions(r, effects[1..], sent, cut)
      case Yield(event) => if cut == Some(sent) then [] else OwnActions(r, effects[1..], sent + 1, cut)
      case Save(text) => [P.SaveContent(r, text)] + OwnActions(r, effects[1..], sent, cut)
      case SaveRow(text) => [P.SaveAll(r, text)] + OwnActions(r, effects[1..], sent, cut)
      case Raise => []
  }

  function JobActions(r: nat, job: Job): seq<P.Action> {
    OwnActions(r, R.Effects(job.t, job.setup), 0, job.cut)
  }

  /** All of them, the two UPDATEs of `finally` included. */
  function Script(r: nat, job: Job): seq<P.Action> {
    JobActions(r, job) + [P.ReleaseText(r), P.ReleaseClaim(r)]
  }

  /** The row and the live generator are as `ReplyEngine` has them. */
  predicate Mirrors(s: P.State, r: nat, reply: R.Reply, stale: bool) {
    && r in s.live && s.live[r].partialText == reply.partialText && s.live[r].memory.isGenerating == stale
    && s.row.content == reply.content && s.row.isGenerating == reply.isGenerating
  }

  /** Nothing but the row and the generator's partial text has changed. */
  predicate OnlyIts(s: P.State, t: P.State, r: nat) {
    t.reading == s.reading && t.finishing == s.finishing && t.live.Keys == s.live.Keys && t.live - {r} == s.live - {r}
    && t.now == s.now
  }

  lemma {:induction false} OwnActionsMirror(
    s: P.State, r: nat, reply: R.Reply, effects: seq<R.Effect>, cut: Option<nat>, stale: bool)
    requires Mirrors(s, r, reply, stale) && reply.open
    ensures var t := P.Run(s, OwnActions(r, effects, |reply.sent|, cut));
      Mirrors(t, r, R.Exec(reply, effects, cut, stale), stale) && OnlyIts(s, t, r)
    decreases |effects|
  {
    if effects != [] {
      var after := R.Perform(reply, effects[0], cut, stale);
      var rest := OwnActions(r, effects[1..], |after.sent|, cut);
      match effects[0] {
        case Yield(event) =>
          if after.open {
            OwnActionsMirror(s, r, after, effects[1..], cut, stale);
          }
        case Raise =>
        case _ =>
          var a := OwnActions(r, effects, |reply.sent|, cut)[0];
          assert OwnActions(r, effects, |reply.sent|, cut) == [a] + rest && ([a] + rest)[1..] == rest;
          OwnActionsMirror(P.Step(s, a), r, after, effects[1..], cut, stale);
      }
    }
  }

  lemma {:induction false} RunConcat(s: P.State, a: seq<P.Action>, b: seq<P.Action>)
    ensures P.Run(s, a + b) == P.Run(P.Run(s, a), b)
    decreases |a|
  {
    if a == [] {
      assert a + b == b;
    } else {
      assert (a + b)[1..] == a[1..] + b;
      RunConcat(P.Step(s, a[0]), a[1..], b);
    }
  }

  /** A generator that has just claimed the row. */
  predicate JustClaimed(s: P.State, r: nat) {
    r in s.live && s.live[r].partialText == "" && s.row.content == "" && s.row.isGenerating
  }

  /** Left alone, a request's steps leave the row exactly as the generator's own run does. */
  lemma ScriptLeavesTheResult(s: P.State, r: nat, job: Job)
    requires JustClaimed(s, r)
    ensures var t := P.Run(s, Script(r, job));
      var f := R.Result(job.t, job.setup, job.cut, s.live[r].memory.isGenerating);
      t.row.content == f.content && t.row.isGenerating == f.isGenerating && t.live == s.live - {r}
  {
    var stale := s.live[r].memory.isGenerating;
    OwnActionsMirror(s, r, R.CLAIMED, R.Effects(job.t, job.setup), job.cut, stale);
    RunConcat(s, JobActions(r, job), [P.ReleaseText(r), P.ReleaseClaim(r)]);
    var t := P.Run(s, JobActions(r, job));
    assert [P.ReleaseText(r), P.ReleaseClaim(r)][1..] == [P.ReleaseClaim(r)] && [P.ReleaseClaim(r)][1..] == [];
    var u := P.Step(t, P.ReleaseText(r));
    assert P.Run(u, [P.ReleaseClaim(r)]) == P.Step(u, P.ReleaseClaim(r));
  }

  // ----- any number of requests -----

  /** The row, and what each request that has claimed it still has to do. */
  datatype World = World(s: P.State, todo: map<nat, seq<P.Action>>)

  function Start(now: int): World {
    World(P.Created(now), map[])
  }

  /** Requests read, claim and crash as they like and otherwise do what is next for them; nobody outlives the timeout or
      regenerates under a generator. */
  predicate May(w: World, a: P.Action) {
    match a
    case Tick(seconds) => P.AssumedAnswering(w.s, a)
    case Regenerate => P.AssumedAnswering(w.s, a)
    case Read(r) => true
    case Claim(r) => true
    case Crash(r) => true
    case _ => IsNext(w, a.r, a)
  }

  predicate IsNext(w: World, r: nat, a: P.Action) {
    r in w.todo && w.todo[r] != [] && w.todo[r][0] == a
  }

  /** `jobs` says what each request would generate. */
  function Move(w: World, jobs: nat -> Job, a: P.Action): World
    requires May(w, a)
  {
    var s := P.Step(w.s, a);
    match a
    case Claim(r) => World(s, if r !in w.s.live && r in s.live then w.todo[r := Script(r, jobs(r))] else w.todo)
    case Crash(r) => World(s, w.todo - {r})
    case Tick(seconds) => World(s, w.todo)
    case Regenerate => World(s, w.todo)
    case Read(r) => World(s, w.todo)
    case _ => World(s, w.todo[a.r := w.todo[a.r][1..]])
  }

  /** The actions are an interleaving of what the requests do. */
  predicate Interleaving(w: World, jobs: nat -> Job, actions: seq<P.Action>)
    decreases |actions|
  {
    actions == [] || (May(w, actions[0]) && Interleaving(Move(w, jobs, actions[0]), jobs, actions[1..]))
  }

  // ----- generators that answer -----

  /** What is still to do saves texts only, and leaves an answered row. */
  predicate WillAnswer(todo: seq<P.Action>, answered: bool, partialText: string)
    decreases |todo|
  {
    && todo != []
    && match todo[0]
       case Stream(r, text) => WillAnswer(todo[1..], answered, text)
       case SaveContent(r, text) => text != "" && WillAnswer(todo[1..], true, partialText)
       case SaveAll(r, text) => text != "" && WillAnswer(todo[1..], true, partialText)
       case ReleaseText(r) => (answered || partialText != "") && OnlyReleases(todo[1..])
       case _ => false
  }

  predicate OnlyReleases(todo: seq<P.Action>) {
    forall i :: 0 <= i < |todo| ==> todo[i].ReleaseClaim?
  }

  /** Live generators will answer; others have at most their claim to release. */
  ghost predicate AllWillAnswer(w: World) {
    && (forall r :: r in w.s.live ==>
          r !in w.s.reading && r in w.todo && WillAnswer(w.todo[r], w.s.row.content != "", w.s.live[r].partialText))
    && (forall r :: r in w.todo && r !in w.s.live ==> OnlyReleases(w.todo[r]))
  }

  lemma {:induction false} AnsweredHelps(todo: seq<P.Action>, answered: bool, partialText: string)
    requires WillAnswer(todo, false, partialText)
    ensures WillAnswer(todo, answered, partialText)
    decreases |todo|
  {
    match todo[0]
    case Stream(r, text) => AnsweredHelps(todo[1..], answered, text);
    case _ =>
  }

  ghost predicate AllAnswer(jobs: nat -> Job) {
    forall r :: !R.LeavesNothing(jobs(r).t, jobs(r).setup, jobs(r).cut)
  }

  // ----- a generator with something to leave will answer -----

  predicate OnlyYields(effects: seq<R.Effect>) {
    forall i :: 0 <= i < |effects| ==> effects[i].Yield?
  }

  /** One save at most, after which only events are sent, and none of an empty text while there is a partial one. */
  predicate Tidy(effects: seq<R.Effect>, partialText: string)
    decreases |effects|
  {
    effects == []
    || match effects[0]
       case SetPartial(text) => Tidy(effects[1..], text)
       case Yield(event) => Tidy(effects[1..], partialText)
       case Save(text) => (text == "" ==> partialText == "") && OnlyYields(effects[1..])
       case SaveRow(text) => (text == "" ==> partialText == "") && OnlyYields(effects[1..])
       case Raise => true
  }

  lemma {:induction false} StreamIsTidy(chunks: seq<string>, text: string, tail: seq<R.Effect>)
    requires Tidy(tail, text + R.Concat(chunks))
    ensures Tidy(R.Stream(chunks, text) + tail, text)
    decreases |chunks|
  {
    if chunks == [] {
      assert [] + tail == tail && text + "" == text;
    } else if chunks[0] == "" {
      assert R.Concat(chunks) == R.Concat(chunks[1..]);
      StreamIsTidy(chunks[1..], text, tail);
    } else {
      assert text + R.Concat(chunks) == text + chunks[0] + R.Concat(chunks[1..]);
      StreamIsTidy(chunks[1..], text + chunks[0], tail);
      var rest := R.Stream(chunks[1..], text + chunks[0]) + tail;
      var all := R.Stream(chunks, text) + tail;
      assert all == [R.SetPartial(text + chunks[0]), R.Yield(R.Message(chunks[0]))] + rest;
      assert all[1..] == [R.Yield(R.Message(chunks[0]))] + rest && all[1..][1..] == rest;
    }
  }

  lemma NoticeIsTidy(due: bool, text: string, tail: seq<R.Effect>, partialText: string)
    requires Tidy(tail, partialText)
    ensures Tidy(R.Notice(due, text) + tail, partialText)
  {
    assert (R.Notice(due, text) + tail)[|R.Notice(due, text)|..] == tail;
  }

  lemma CloseIsTidy(t: R.Texts, c: R.Candidate, isLast: bool)
    ensures Tidy(R.Close(t, c, isLast), R.Concat(c.chunks))
  {
    if c.ending.Completes? {
      var tail := [R.SaveRow(R.FinalText(t, c)), R.Yield(R.DONE)];
      NoticeIsTidy(R.TrimmedDue(c), t.trimmed, tail, R.Concat(c.chunks));
      NoticeIsTidy(R.TruncatedDue(c), t.truncated, R.Notice(R.TrimmedDue(c), t.trimmed) + tail, R.Concat(c.chunks));
    }
  }

  lemma {:induction false} AttemptsAreTidy(t: R.Texts, candidates: seq<R.Candidate>, partialText: string)
    ensures Tidy(R.Attempts(t, candidates), partialText)
    decreases |candidates|
  {
    if candidates != [] {
      var c, isLast := candidates[0], |candidates| == 1;
      var all := R.Attempts(t, candidates);
      if R.MovesOn(c, isLast) {
        if c.fits {
          R.SilentStream(c.chunks, "");
        }
        assert R.Attempt(t, c, isLast) == [R.SetPartial("")];
        assert all[1..] == R.Attempts(t, candidates[1..]);
        AttemptsAreTidy(t, candidates[1..], "");
      } else if c.fits {
        assert all[1..] == R.Stream(c.chunks, "") + R.Close(t, c, isLast);
        CloseIsTidy(t, c, isLast);
        assert "" + R.Concat(c.chunks) == R.Concat(c.chunks);
        StreamIsTidy(c.chunks, "", R.Close(t, c, isLast));
      } else {
        assert all[1..] == [R.Save(t.tooLarge), R.Yield(R.DONE)];
      }
    }
  }

  lemma EffectsAreTidy(t: R.Texts, setup: R.Setup)
    ensures Tidy(R.Effects(t, setup), "")
  {
    if setup.Generate? {
      AttemptsAreTidy(t, setup.candidates, "");
    }
  }

  lemma {:induction false} YieldsLeaveTheRow(
    r: nat, reply: R.Reply, effects: seq<R.Effect>, cut: Option<nat>, stale: bool, sent: nat)
    requires OnlyYields(effects)
    ensures var f := R.Exec(reply, effects, cut, stale);
      f.content == reply.content && f.partialText == reply.partialText && f.isGenerating == reply.isGenerating
    ensures OwnActions(r, effects, sent, cut) == []
    decreases |effects|
  {
    if effects != [] {
      YieldsLeaveTheRow(r, R.Perform(reply, effects[0], cut, stale), effects[1..], cut, stale, sent + 1);
    }
  }

  lemma {:induction false} TidyWillAnswer(
    r: nat, reply: R.Reply, effects: seq<R.Effect>, cut: Option<nat>, stale: bool)
    requires reply.open && reply.content == "" && reply.isGenerating && Tidy(effects, reply.partialText)
    requires R.Finally(R.Exec(reply, effects, cut, stale)).content != ""
    ensures var todo := OwnActions(r, effects, |reply.sent|, cut) + [P.ReleaseText(r), P.ReleaseClaim(r)];
      WillAnswer(todo, false, reply.partialText)
    decreases |effects|
  {
    var todo := OwnActions(r, effects, |reply.sent|, cut) + [P.ReleaseText(r), P.ReleaseClaim(r)];
    if effects != [] {
      var after := R.Perform(reply, effects[0], cut, stale);
      match effects[0]
      case SetPartial(text) =>
        TidyWillAnswer(r, after, effects[1..], cut, stale);
        assert todo[1..] == OwnActions(r, effects[1..], |after.sent|, cut) + [P.ReleaseText(r), P.ReleaseClaim(r)];
      case Yield(event) =>
        if after.open {
          TidyWillAnswer(r, after, effects[1..], cut, stale);
        }
      case Raise =>
      case _ =>
        YieldsLeaveTheRow(r, after, effects[1..], cut, stale, |reply.sent|);
        assert todo[1..] == [P.ReleaseText(r), P.ReleaseClaim(r)];
    }
  }

  lemma ScriptWillAnswer(r: nat, job: Job)
    requires !R.LeavesNothing(job.t, job.setup, job.cut)
    ensures WillAnswer(Script(r, job), false, "")
  {
    R.EmptyReplyExactlyWhen(job.t, job.setup, job.cut, false);
    EffectsAreTidy(job.t, job.setup);
    TidyWillAnswer(r, R.CLAIMED, R.Effects(job.t, job.setup), job.cut, false);
  }

  // ----- no two of them -----

  /** A step meets the assumptions, and leaves an answered row answered as long as anybody is live. */
  lemma StepIsAssumed(w: World, a: P.Action)
    requires AllWillAnswer(w) && May(w, a)
    ensures P.AssumedAnswering(w.s, a)
    ensures w.s.live != map[] && w.s.row.content != "" ==> P.Step(w.s, a).row.content != ""
  {
    match a
    case SaveContent(r, text) => assert r in w.s.live;
    case SaveAll(r, text) => assert r in w.s.live;
    case _ =>
  }

  /** The next thing request `r` had to do. */
  predicate IsOwn(a: P.Action, r: nat) {
    match a
    case Tick(seconds) => false
    case Regenerate => false
    case Read(q) => false
    case Claim(q) => false
    case Crash(q) => false
    case _ => a.r == r
  }

  lemma OtherWillAnswer(w: World, jobs: nat -> Job, a: P.Action, r: nat)
    requires AllWillAnswer(w) && May(w, a) && r in w.s.live && !IsOwn(a, r) && r in Move(w, jobs, a).s.live
    ensures var after := Move(w, jobs, a);
      r in after.todo && WillAnswer(after.todo[r], after.s.row.content != "", after.s.live[r].partialText)
  {
    StepIsAssumed(w, a);
    var after := Move(w, jobs, a);
    assert w.s.live != map[] && after.todo[r] == w.todo[r];
    assert after.s.live[r].partialText == w.s.live[r].partialText;
    if w.s.row.content == "" {
      AnsweredHelps(w.todo[r], after.s.row.content != "", w.s.live[r].partialText);
    }
  }

  lemma MoveKeepsAnswering(w: World, jobs: nat -> Job, a: P.Action)
    requires AllAnswer(jobs) && AllWillAnswer(w) && May(w, a)
    ensures AllWillAnswer(Move(w, jobs, a))
  {
    var after := Move(w, jobs, a);
    forall r | r in after.s.live
      ensures r !in after.s.reading && r in after.todo
      ensures WillAnswer(after.todo[r], after.s.row.content != "", after.s.live[r].partialText)
    {
      if r !in w.s.live {
        ScriptWillAnswer(r, jobs(r));
      } else if !IsOwn(a, r) {
        OtherWillAnswer(w, jobs, a, r);
      }
    }
  }

  lemma {:induction false} InterleavingsAnswer(w: World, jobs: nat -> Job, actions: seq<P.Action>)
    requires AllAnswer(jobs) && AllWillAnswer(w) && Interleaving(w, jobs, actions)
    ensures P.AllAssumedAnswering(w.s, actions)
    decreases |actions|
  {
    if actions != [] {
      StepIsAssumed(w, actions[0]);
      MoveKeepsAnswering(w, jobs, actions[0]);
      InterleavingsAnswer(Move(w, jobs, actions[0]), jobs, actions[1..]);
    }
  }

  /** Requests that all leave an answer never generate at the same time, however they are interleaved. */
  lemma AnsweringJobsNeverOverlap(jobs: nat -> Job, now: int, actions: seq<P.Action>)
    requires AllAnswer(jobs) && Interleaving(Start(now), jobs, actions)
    ensures P.AtMostOneLive(P.Run(P.Created(now), actions))
  {
    InterleavingsAnswer(Start(now), jobs, actions);
    P.AnsweringGeneratorsNeverOverlap(now, actions);
  }

  // ----- one that leaves nothing lets two others in -----

  function MoveAll(w: World, jobs: nat -> Job, actions: seq<P.Action>): World
    requires Interleaving(w, jobs, actions)
    decreases |actions|
  {
    if actions == [] then w else MoveAll(Move(w, jobs, actions[0]), jobs, actions[1..])
  }

  lemma {:induction false} InterleavingConcat(w: World, jobs: nat -> Job, a: seq<P.Action>, b: seq<P.Action>)
    requires Interleaving(w, jobs, a) && Interleaving(MoveAll(w, jobs, a), jobs, b)
    ensures Interleaving(w, jobs, a + b)
    decreases |a|
  {
    if a == [] {
      assert a + b == b;
    } else {
      assert (a + b)[1..] == a[1..] + b;
      InterleavingConcat(Move(w, jobs, a[0]), jobs, a[1..], b);
    }
  }

  lemma {:induction false} OwnActionsAreOwn(r: nat, effects: seq<R.Effect>, sent: nat, cut: Option<nat>)
    ensures forall i :: 0 <= i < |OwnActions(r, effects, sent, cut)| ==> IsOwn(OwnActions(r, effects, sent, cut)[i], r)
    decreases |effects|
  {
    if effects != [] {
      OwnActionsAreOwn(r, effects[1..], if effects[0].Yield? then sent + 1 else sent, cut);
    }
  }

  /** A request may do what is next for it without being interrupted. */
  lemma {:induction false} Uninterrupted(
    w: World, jobs: nat -> Job, r: nat, own: seq<P.Action>, rest: seq<P.Action>)
    requires r in w.todo && w.todo[r] == own + rest && forall i :: 0 <= i < |own| ==> IsOwn(own[i], r)
    ensures Interleaving(w, jobs, own)
    ensures MoveAll(w, jobs, own) == World(P.Run(w.s, own), w.todo[r := rest])
    decreases |own|
  {
    if own == [] {
      assert own + rest == rest && w.todo[r := rest] == w.todo;
    } else {
      assert (own + rest)[1..] == own[1..] + rest && IsOwn(own[0], r);
      var after := Move(w, jobs, own[0]);
      Uninterrupted(after, jobs, r, own[1..], rest);
      assert after.todo[r := rest] == w.todo[r := rest];
    }
  }

  lemma MoveThen(w: World, jobs: nat -> Job, a: P.Action, rest: seq<P.Action>)
    requires May(w, a) && Interleaving(Move(w, jobs, a), jobs, rest)
    ensures Interleaving(w, jobs, [a] + rest)
    ensures MoveAll(w, jobs, [a] + rest) == MoveAll(Move(w, jobs, a), jobs, rest)
  {
    assert ([a] + rest)[1..] == rest;
  }

  lemma FourMoves(w: World, jobs: nat -> Job, a: P.Action, b: P.Action, c: P.Action, d: P.Action)
    requires May(w, a)
    requires var w1 := Move(w, jobs, a);
      && May(w1, b)
      && var w2 := Move(w1, jobs, b);
         && May(w2, c)
         && May(Move(w2, jobs, c), d)
    ensures Interleaving(w, jobs, [a, b, c, d])
    ensures MoveAll(w, jobs, [a, b, c, d]) == Move(Move(Move(Move(w, jobs, a), jobs, b), jobs, c), jobs, d)
  {
    var w1 := Move(w, jobs, a);
    var w2 := Move(w1, jobs, b);
    MoveThen(Move(w2, jobs, c), jobs, d, []);
    MoveThen(w2, jobs, c, [d] + []);
    MoveThen(w1, jobs, b, [c] + ([d] + []));
    MoveThen(w, jobs, a, [b] + ([c] + ([d] + [])));
    assert [a] + ([b] + ([c] + ([d] + []))) == [a, b, c, d];
  }

  /** `r` has claimed a fresh row that two others have read. */
  predicate ClaimedFirst(w: World, r: nat, job: Job) {
    && JustClaimed(w.s, r) && w.s.live.Keys == {r} && w.s.finishing == {}
    && r + 1 in w.s.reading && r + 2 in w.s.reading
    && w.todo.Keys == {r} && w.todo[r] == Script(r, job)
  }

  lemma ClaimFirst(jobs: nat -> Job, r: nat) returns (actions: seq<P.Action>)
    ensures Interleaving(Start(0), jobs, actions)
    ensures ClaimedFirst(MoveAll(Start(0), jobs, actions), r, jobs(r))
  {
    actions := [P.Read(r), P.Read(r + 1), P.Read(r + 2), P.Claim(r)];
    FourMoves(Start(0), jobs, P.Read(r), P.Read(r + 1), P.Read(r + 2), P.Claim(r));
  }

  /** `r` has come to its `finally` and has nothing to store. */
  predicate NothingToStore(w: World, r: nat) {
    && w.s.live.Keys == {r} && w.s.finishing == {} && r + 1 in w.s.reading && r + 2 in w.s.reading
    && r in w.todo && w.todo[r] == [P.ReleaseText(r), P.ReleaseClaim(r)]
    && w.s.row.content == "" && (w.s.row.isGenerating ==> w.s.live[r].partialText == "")
  }

  lemma ReachFinally(w: World, jobs: nat -> Job, r: nat, job: Job)
    requires ClaimedFirst(w, r, job) && R.LeavesNothing(job.t, job.setup, job.cut)
    ensures Interleaving(w, jobs, JobActions(r, job)) && NothingToStore(MoveAll(w, jobs, JobActions(r, job)), r)
  {
    var stale := w.s.live[r].memory.isGenerating;
    R.EmptyReplyExactlyWhen(job.t, job.setup, job.cut, stale);
    OwnActionsMirror(w.s, r, R.CLAIMED, R.Effects(job.t, job.setup), job.cut, stale);
    OwnActionsAreOwn(r, R.Effects(job.t, job.setup), 0, job.cut);
    Uninterrupted(w, jobs, r, JobActions(r, job), [P.ReleaseText(r), P.ReleaseClaim(r)]);
  }

  /** The claim of the second request is cleared by the first one's second UPDATE, and the third gets in beside it. */
  lemma TwoMoreClaim(w: World, jobs: nat -> Job, r: nat) returns (actions: seq<P.Action>)
    requires NothingToStore(w, r)
    ensures Interleaving(w, jobs, actions) && !P.AtMostOneLive(MoveAll(w, jobs, actions).s)
  {
    actions := [P.ReleaseText(r), P.Claim(r + 1), P.ReleaseClaim(r), P.Claim(r + 2)];
    var w1 := Move(w, jobs, P.ReleaseText(r));
    assert w1.s.live.Keys == {} && w1.todo[r] == [P.ReleaseClaim(r)];
    var w2 := Move(w1, jobs, P.Claim(r + 1));
    assert r + 1 in w2.s.live && w2.todo[r] == [P.ReleaseClaim(r)];
    var w3 := Move(w2, jobs, P.ReleaseClaim(r));
    assert r + 1 in w3.s.live && r + 2 in w3.s.reading;
    var w4 := Move(w3, jobs, P.Claim(r + 2));
    assert r + 1 in w4.s.live && r + 2 in w4.s.live;
    FourMoves(w, jobs, P.ReleaseText(r), P.Claim(r + 1), P.ReleaseClaim(r), P.Claim(r + 2));
  }

  lemma {:induction false} MovesAreSteps(w: World, jobs: nat -> Job, actions: seq<P.Action>)
    requires Interleaving(w, jobs, actions)
    ensures MoveAll(w, jobs, actions).s == P.Run(w.s, actions)
    decreases |actions|
  {
    if actions != [] {
      MovesAreSteps(Move(w, jobs, actions[0]), jobs, actions[1..]);
    }
  }

  /** A request with nothing to leave: some interleaving with two others ends with both of them generating. */
  lemma NothingLeftLetsTwoIn(jobs: nat -> Job, r: nat) returns (actions: seq<P.Action>)
    requires R.LeavesNothing(jobs(r).t, jobs(r).setup, jobs(r).cut)
    ensures Interleaving(Start(0), jobs, actions) && !P.AtMostOneLive(P.Run(P.Created(0), actions))
  {
    var first := ClaimFirst(jobs, r);
    var w1 := MoveAll(Start(0), jobs, first);
    ReachFinally(w1, jobs, r, jobs(r));
    var w2 := MoveAll(w1, jobs, JobActions(r, jobs(r)));
    var last := TwoMoreClaim(w2, jobs, r);
    JoinRuns(Start(0), jobs, first, JobActions(r, jobs(r)), last);
    actions := first + (JobActions(r, jobs(r)) + last);
  }

  lemma JoinRuns(w: World, jobs: nat -> Job, a: seq<P.Action>, b: seq<P.Action>, c: seq<P.Action>)
    requires Interleaving(w, jobs, a) && Interleaving(MoveAll(w, jobs, a), jobs, b)
    requires Interleaving(MoveAll(MoveAll(w, jobs, a), jobs, b), jobs, c)
    ensures Interleaving(w, jobs, a + (b + c))
    ensures P.Run(w.s, a + (b + c)) == MoveAll(MoveAll(MoveAll(w, jobs, a), jobs, b), jobs, c).s
  {
    var w1 := MoveAll(w, jobs, a);
    var w2 := MoveAll(w1, jobs, b);
    InterleavingConcat(w1, jobs, b, c);
    InterleavingConcat(w, jobs, a, b + c);
    RunConcat(w.s, a, b + c);
    RunConcat(w1.s, b, c);
    MovesAreSteps(w, jobs, a);
    MovesAreSteps(w1, jobs, b);
    MovesAreSteps(w2, jobs, c);
  }

  /** The whole of it, for any jobs of any number of requests: no interleaving ever has two live generators if and only
      if every job leaves an answer. */
  lemma OneAtATimeExactlyWhenAllAnswer(jobs: nat -> Job)
    ensures AllAnswer(jobs)
       <==> forall now, actions ::
              Interleaving(Start(now), jobs, actions) ==> P.AtMostOneLive(P.Run(P.Created(now), actions))
  {
    if AllAnswer(jobs) {
      forall now, actions | Interleaving(Start(now), jobs, actions)
        ensures P.AtMostOneLive(P.Run(P.Created(now), actions))
      {
        AnsweringJobsNeverOverlap(jobs, now, actions);
      }
    } else {
      var r :| R.LeavesNothing(jobs(r).t, jobs(r).setup, jobs(r).cut);
      var actions := NothingLeftLetsTwoIn(jobs, r);
    }
  }
}
