/** The reply generator of chat/views.py (`_generate_reply` inside `event_stream`): candidates are tried in order, text
    is streamed as it arrives, something is saved on every exit, and the client may disconnect at any yield. Provider
    outcomes are given as data; the chat row and the generator's own variables are fields that are updated in place. */
module ReplyEngine {
  import opened Wrappers
  import opened Sse

  /** The fixed texts: the two notices, the refusal of an oversized message and the failure text. Most are
      translated, so they are not constants. */
  datatype Texts = Texts(truncated: string, trimmed: string, tooLarge: string, problem: string)

  /** How a provider's stream ends: normally, with a ProviderError, or with any other exception. */
  datatype Ending = Completes | ProviderFails | Raises

  /** One candidate: whether the context fits its window, whether the trimming notice is due, and what it streams. */
  datatype Candidate = Candidate(fits: bool, announce: bool, chunks: seq<string>, truncated: bool, ending: Ending)

  /** What is decided before the candidate loop. */
  datatype Setup =
    | Refused(text: string)                 // no model, no Claude for research, or the plan's token cap
    | NoStories(text: string)               // live intelligence found nothing: saved, then shown
    | Cached(text: string)                  // an exact repeat: shown, then saved
    | Generate(candidates: seq<Candidate>)

  // ----- the run as a list of effects -----

  datatype Effect =
    | SetPartial(text: string)
    | Yield(event: Event)
    | Save(text: string)      // writes the content only
    | SaveRow(text: string)   // writes every field, the claim flag as it was read before the claim included
    | Raise

  /** The observable state: what the client got, the row, and the partial text `finally` falls back on. */
  datatype Reply = Reply(sent: seq<Event>, content: string, isGenerating: bool, partialText: string, open: bool)

  function Message(text: string): Event {
    Event("message", text)
  }

  const DONE := Event("done", "")

  /** Perform one effect. `cut` is the index of the yield at which the client goes away; `stale` is the claim flag in
      the request's in-memory copy of the row. */
  function Perform(r: Reply, e: Effect, cut: Option<nat>, stale: bool): Reply {
    match e
    case SetPartial(text) => r.(partialText := text)
    case Yield(event) => r.(sent := r.sent + [event], open := cut != Some(|r.sent|))
    case Save(text) => r.(content := text)
    case SaveRow(text) => r.(content := text, isGenerating := stale)
    case Raise => r.(open := false)
  }

  /** Perform effects until the list or the generator ends. */
  function Exec(r: Reply, effects: seq<Effect>, cut: Option<nat>, stale: bool): Reply
    decreases |effects|
  {
    if effects == [] || !r.open then r else Exec(Perform(r, effects[0], cut, stale), effects[1..], cut, stale)
  }

  function Stream(chunks: seq<string>, text: string): seq<Effect>
    decreases |chunks|
  {
    if chunks == [] then []
    else if chunks[0] == "" then Stream(chunks[1..], text)
    else [SetPartial(text + chunks[0]), Yield(Message(chunks[0]))] + Stream(chunks[1..], text + chunks[0])
  }

  /** The text a candidate streams. */
  function Concat(chunks: seq<string>): string {
    if chunks == [] then "" else chunks[0] + Concat(chunks[1..])
  }

  /** A note appended to a finished reply when it is due, as an effect and as text. */
  function Notice(due: bool, text: string): seq<Effect> {
    if due then [Yield(Message(text))] else []
  }

  function NoticeText(due: bool, text: string): string {
    if due then text else ""
  }

  predicate TruncatedDue(c: Candidate) {
    c.truncated && Concat(c.chunks) != ""
  }

  predicate TrimmedDue(c: Candidate) {
    c.announce && Concat(c.chunks) != ""
  }

  /** The reply a candidate that completes leaves in the row. */
  function FinalText(t: Texts, c: Candidate): string {
    Concat(c.chunks) + NoticeText(TruncatedDue(c), t.truncated) + NoticeText(TrimmedDue(c), t.trimmed)
  }

  /** The loop goes on to the next candidate: this one does not fit, or fails before any visible text. */
  predicate MovesOn(c: Candidate, isLast: bool) {
    !isLast && (!c.fits || (c.ending == ProviderFails && Concat(c.chunks) == ""))
  }

  /** How an attempt that streamed everything ends. */
  function Close(t: Texts, c: Candidate, isLast: bool): seq<Effect> {
    match c.ending
    case Completes =>
      Notice(TruncatedDue(c), t.truncated)
      + (Notice(TrimmedDue(c), t.trimmed) + [SaveRow(FinalText(t, c)), Yield(DONE)])
    case ProviderFails =>
      if MovesOn(c, isLast) then []
      else [Save(if Concat(c.chunks) != "" then Concat(c.chunks) else t.problem), Yield(DONE)]
    case Raises => [Raise]
  }

  function Attempt(t: Texts, c: Candidate, isLast: bool): seq<Effect> {
    [SetPartial("")]
    + if c.fits then Stream(c.chunks, "") + Close(t, c, isLast)
      else if isLast then [Save(t.tooLarge), Yield(DONE)] else []
  }

  function Attempts(t: Texts, candidates: seq<Candidate>): seq<Effect> {
    if candidates == [] then []
    else
      Attempt(t, candidates[0], |candidates| == 1)
      + if MovesOn(candidates[0], |candidates| == 1) then Attempts(t, candidates[1..]) else []
  }

  function Effects(t: Texts, setup: Setup): seq<Effect> {
    match setup
    case Refused(text) => [Save(text), Yield(DONE)]
    case NoStories(text) => [Save(text), Yield(Message(text)), Yield(DONE)]
    case Cached(text) => [Yield(Message(text)), SaveRow(text), Yield(DONE)]
    case Generate(candidates) => Attempts(t, candidates)
  }

  /** The `finally` block of `event_stream`. */
  function Finally(r: Reply): Reply {
    if r.content == "" && r.isGenerating then r.(content := r.partialText, isGenerating := false)
    else r.(isGenerating := false)
  }

  /** A freshly claimed row. */
  const CLAIMED := Reply([], "", true, "", true)

  function Result(t: Texts, setup: Setup, cut: Option<nat>, stale: bool): Reply {
    Finally(Exec(CLAIMED, Effects(t, setup), cut, stale))
  }

  // ----- the generator itself -----

  lemma {:induction false} ExecConcat(r: Reply, a: seq<Effect>, b: seq<Effect>, cut: Option<nat>, stale: bool)
    ensures Exec(r, a + b, cut, stale) == Exec(Exec(r, a, cut, stale), b, cut, stale)
    decreases |a|
  {
    if a == [] {
      assert a + b == b;
    } else if r.open {
      assert (a + b)[1..] == a[1..] + b;
      ExecConcat(Perform(r, a[0], cut, stale), a[1..], b, cut, stale);
    }
  }

  lemma ExecOne(r: Reply, e: Effect, cut: Option<nat>, stale: bool)
    requires r.open
    ensures Exec(r, [e], cut, stale) == Perform(r, e, cut, stale)
  {
    assert [e][1..] == [];
  }

  lemma ExecStep(r: Reply, e: Effect, rest: seq<Effect>, cut: Option<nat>, stale: bool)
    requires r.open
    ensures Exec(r, [e] + rest, cut, stale) == Exec(Perform(r, e, cut, stale), rest, cut, stale)
  {
    assert ([e] + rest)[1..] == rest;
  }

  /** One chunk: the partial text is updated first, then the chunk is shown. */
  function AfterChunk(r: Reply, chunk: string, cut: Option<nat>, stale: bool): Reply {
    Perform(Perform(r, SetPartial(r.partialText + chunk), cut, stale), Yield(Message(chunk)), cut, stale)
  }

  lemma StreamStep(r: Reply, chunks: seq<string>, cut: Option<nat>, stale: bool)
    requires r.open && chunks != [] && chunks[0] != ""
    ensures Exec(r, Stream(chunks, r.partialText), cut, stale)
         == Exec(AfterChunk(r, chunks[0], cut, stale), Stream(chunks[1..], r.partialText + chunks[0]), cut, stale)
  {
    var text := r.partialText + chunks[0];
    var rest := Stream(chunks[1..], text);
    ExecStep(r, SetPartial(text), [Yield(Message(chunks[0]))] + rest, cut, stale);
    ExecStep(Perform(r, SetPartial(text), cut, stale), Yield(Message(chunks[0])), rest, cut, stale);
    assert Stream(chunks, r.partialText) == [SetPartial(text)] + ([Yield(Message(chunks[0]))] + rest);
  }

  lemma NextChunk(chunks: seq<string>, i: nat, text: string)
    requires i < |chunks|
    ensures chunks[i..][0] == chunks[i] && chunks[i..][1..] == chunks[i + 1..]
    ensures text + Concat(chunks[i..]) == text + chunks[i] + Concat(chunks[i + 1..])
    ensures chunks[i] == "" ==> Stream(chunks[i..], text) == Stream(chunks[i + 1..], text) && text + chunks[i] == text
  {
  }

  class Generator {
    var sent: seq<Event>
    var content: string
    var isGenerating: bool
    var partialText: string
    var open: bool
    const cut: Option<nat>
    const stale: bool
    const t: Texts

    constructor (cut: Option<nat>, stale: bool, t: Texts)
      ensures State() == CLAIMED && this.cut == cut && this.stale == stale && this.t == t
    {
      sent, content, isGenerating, partialText, open := [], "", true, "", true;
      this.cut, this.stale, this.t := cut, stale, t;
    }

    ghost function State(): Reply
      reads this
    {
      Reply(sent, content, isGenerating, partialText, open)
    }

    /** `yield _sse_event(...)`: the generator is closed here if the client has gone. */
    method Send(event: Event)
      requires open
      modifies this
      ensures State() == Perform(old(State()), Yield(event), cut, stale)
    {
      open := cut != Some(|sent|);
      sent := sent + [event];
    }

    method SaveContent(text: string)
      requires open
      modifies this
      ensures State() == Perform(old(State()), Save(text), cut, stale)
    {
      content := text;
    }

    method SaveEverything(text: string)
      requires open
      modifies this
      ensures State() == Perform(old(State()), SaveRow(text), cut, stale)
    {
      content, isGenerating := text, stale;
    }

    /** Save, then `done`: how most exits end. */
    method SaveAndFinish(text: string)
      requires open
      modifies this
      ensures State() == Exec(old(State()), [Save(text), Yield(DONE)], cut, stale)
    {
      ghost var before := State();
      SaveContent(text);
      ghost var saved := State();
      Send(DONE);
      ExecStep(before, Save(text), [Yield(DONE)], cut, stale);
      ExecOne(saved, Yield(DONE), cut, stale);
      assert [Save(text), Yield(DONE)] == [Save(text)] + [Yield(DONE)];
    }

    /** The loop over the chunks of one provider stream. */
    method StreamChunks(chunks: seq<string>) returns (fullText: string)
      requires open && partialText == ""
      modifies this
      ensures State() == Exec(old(State()), Stream(chunks, ""), cut, stale)
      ensures open ==> fullText == Concat(chunks)
    {
      fullText := "";
      ghost var goal := Exec(State(), Stream(chunks, ""), cut, stale);
      var i := 0;
      while i < |chunks|
        invariant 0 <= i <= |chunks| && open
        invariant partialText == fullText
        invariant Exec(State(), Stream(chunks[i..], fullText), cut, stale) == goal
        invariant fullText + Concat(chunks[i..]) == Concat(chunks)
      {
        NextChunk(chunks, i, fullText);
        if chunks[i] != "" {
          ghost var before := State();
          StreamStep(before, chunks[i..], cut, stale);
          fullText := fullText + chunks[i];
          partialText := fullText;
          Send(Message(chunks[i]));
          assert State() == AfterChunk(before, chunks[i], cut, stale);
          if !open {
            return;
          }
        }
        i := i + 1;
      }
    }

    /** One candidate. `moveOn` asks the loop for the next one. */
    method TryCandidate(c: Candidate, isLast: bool) returns (moveOn: bool)
      requires open
      modifies this
      ensures State() == Exec(old(State()), Attempt(t, c, isLast), cut, stale)
      ensures moveOn <==> open && MovesOn(c, isLast)
    {
      moveOn := false;
      ghost var start := State();
      partialText := "";
      ghost var ready := State();
      ghost var rest := Attempt(t, c, isLast)[1..];
      assert Attempt(t, c, isLast) == [SetPartial("")] + rest;
      ExecStep(start, SetPartial(""), rest, cut, stale);
      if !c.fits {
        if !isLast {
          return true;
        }
        SaveAndFinish(t.tooLarge);
        return;
      }
      var fullText := StreamChunks(c.chunks);
      ExecConcat(ready, Stream(c.chunks, ""), Close(t, c, isLast), cut, stale);
      if open {
        moveOn := CloseCandidate(c, isLast, fullText);
      }
    }

    /** What follows the stream: the error paths, or the notices and the final save. */
    method CloseCandidate(c: Candidate, isLast: bool, fullText: string) returns (moveOn: bool)
      requires open && c.fits && fullText == Concat(c.chunks)
      modifies this
      ensures State() == Exec(old(State()), Close(t, c, isLast), cut, stale)
      ensures moveOn <==> open && MovesOn(c, isLast)
    {
      moveOn := false;
      match c.ending
      case ProviderFails =>
        if fullText == "" && !isLast {
          return true;
        }
        SaveAndFinish(if fullText != "" then fullText else t.problem);
      case Raises =>
        ExecOne(State(), Raise, cut, stale);
        open := false;
      case Completes =>
        Complete(c, fullText);
    }

    method SendNotice(due: bool, text: string, ghost rest: seq<Effect>)
      requires open
      modifies this
      ensures Exec(State(), rest, cut, stale) == Exec(old(State()), Notice(due, text) + rest, cut, stale)
    {
      if due {
        ExecStep(State(), Yield(Message(text)), rest, cut, stale);
        Send(Message(text));
      } else {
        assert Notice(due, text) + rest == rest;
      }
    }

    /** A stream that ended normally: the notices that are due, then the full save. */
    method Complete(c: Candidate, fullText: string)
      requires open && fullText == Concat(c.chunks) && c.ending == Completes
      modifies this
      ensures State() == Exec(old(State()), Close(t, c, true), cut, stale)
    {
      var truncatedDue := c.truncated && fullText != "";
      var finalText := fullText + NoticeText(truncatedDue, t.truncated);
      ghost var tail := [SaveRow(FinalText(t, c)), Yield(DONE)];
      SendNotice(truncatedDue, t.truncated, Notice(TrimmedDue(c), t.trimmed) + tail);
      if !open {
        return;
      }
      var trimmedDue := c.announce && fullText != "";
      finalText := finalText + NoticeText(trimmedDue, t.trimmed);
      SendNotice(trimmedDue, t.trimmed, tail);
      if !open {
        return;
      }
      assert tail == [SaveRow(finalText)] + [Yield(DONE)];
      ExecStep(State(), SaveRow(finalText), [Yield(DONE)], cut, stale);
      SaveEverything(finalText);
      ExecOne(State(), Yield(DONE), cut, stale);
      Send(DONE);
    }

    /** The loop over the candidates. */
    method TryCandidates(candidates: seq<Candidate>)
      requires open
      modifies this
      ensures State() == Exec(old(State()), Attempts(t, candidates), cut, stale)
    {
      var i := 0;
      ghost var goal := Exec(State(), Attempts(t, candidates), cut, stale);
      assert candidates[0..] == candidates;
      while i < |candidates|
        invariant 0 <= i <= |candidates| && open
        invariant Exec(State(), Attempts(t, candidates[i..]), cut, stale) == goal
      {
        ghost var rest := candidates[i..];
        var isLast := i == |candidates| - 1;
        assert rest[0] == candidates[i] && (|rest| == 1 <==> isLast) && rest[1..] == candidates[i + 1..];
        ghost var next := if MovesOn(candidates[i], isLast) then Attempts(t, candidates[i + 1..]) else [];
        ExecConcat(State(), Attempt(t, candidates[i], isLast), next, cut, stale);
        var moveOn := TryCandidate(candidates[i], isLast);
        if !moveOn {
          return;
        }
        i := i + 1;
      }
    }

    /** `event_stream`: run the generator, and release the claim whatever happened. */
    method EventStream(setup: Setup)
      requires State() == CLAIMED
      modifies this
      ensures State() == Result(t, setup, cut, stale)
    {
      match setup {
        case Refused(text) =>
          SaveAndFinish(text);
        case NoStories(text) =>
          ghost var start := State();
          SaveContent(text);
          ghost var saved := State();
          Send(Message(text));
          ExecStep(start, Save(text), [Yield(Message(text))] + [Yield(DONE)], cut, stale);
          ExecStep(saved, Yield(Message(text)), [Yield(DONE)], cut, stale);
          assert Effects(t, setup) == [Save(text)] + ([Yield(Message(text))] + [Yield(DONE)]);
          if open {
            ExecOne(State(), Yield(DONE), cut, stale);
            Send(DONE);
          }
        case Cached(text) =>
          ghost var start := State();
          Send(Message(text));
          ExecStep(start, Yield(Message(text)), [SaveRow(text)] + [Yield(DONE)], cut, stale);
          assert Effects(t, setup) == [Yield(Message(text))] + ([SaveRow(text)] + [Yield(DONE)]);
          if open {
            ghost var shown := State();
            SaveEverything(text);
            ExecStep(shown, SaveRow(text), [Yield(DONE)], cut, stale);
            ExecOne(State(), Yield(DONE), cut, stale);
            Send(DONE);
          }
        case Generate(candidates) =>
          TryCandidates(candidates);
      }
      if content == "" && isGenerating {
        content, isGenerating := partialText, false;
      }
      if isGenerating {
        isGenerating := false;
      }
    }
  }

  // ----- which candidate answers -----

  /** The first candidate that fits and does not fail before its first text, or the last one. */
  function Answering(candidates: seq<Candidate>): (k: nat)
    requires candidates != []
    ensures k < |candidates|
    ensures forall i :: 0 <= i < k ==> !candidates[i].fits
                                       || (candidates[i].ending == ProviderFails && Concat(candidates[i].chunks) == "")
    ensures k < |candidates| - 1 ==>
              candidates[k].fits && (candidates[k].ending == ProviderFails ==> Concat(candidates[k].chunks) != "")
  {
    if MovesOn(candidates[0], |candidates| == 1) then 1 + Answering(candidates[1..]) else 0
  }

  lemma {:induction false} SilentStream(chunks: seq<string>, text: string)
    requires Concat(chunks) == ""
    ensures Stream(chunks, text) == []
    decreases |chunks|
  {
    if chunks != [] {
      assert chunks[0] == "";
      SilentStream(chunks[1..], text);
    }
  }

  lemma MovingOnLeavesNoTrace(t: Texts, r: Reply, c: Candidate, isLast: bool, cut: Option<nat>, stale: bool)
    requires r.open && r.partialText == "" && MovesOn(c, isLast)
    ensures Exec(r, Attempt(t, c, isLast), cut, stale) == r
  {
    if c.fits {
      SilentStream(c.chunks, "");
    }
    assert Attempt(t, c, isLast) == [SetPartial("")];
    ExecOne(r, SetPartial(""), cut, stale);
  }

  /** The whole loop behaves as the one attempt of the answering candidate: those before it leave no trace. */
  lemma {:induction false} OnlyTheAnsweringCandidateShows(
    t: Texts, r: Reply, candidates: seq<Candidate>, cut: Option<nat>, stale: bool)
    requires r.open && r.partialText == "" && candidates != []
    ensures var k := Answering(candidates);
      && !MovesOn(candidates[k], k == |candidates| - 1)
      && Exec(r, Attempts(t, candidates), cut, stale)
         == Exec(r, Attempt(t, candidates[k], k == |candidates| - 1), cut, stale)
    decreases |candidates|
  {
    var isLast := |candidates| == 1;
    var rest := if MovesOn(candidates[0], isLast) then Attempts(t, candidates[1..]) else [];
    ExecConcat(r, Attempt(t, candidates[0], isLast), rest, cut, stale);
    if MovesOn(candidates[0], isLast) {
      MovingOnLeavesNoTrace(t, r, candidates[0], isLast, cut, stale);
      OnlyTheAnsweringCandidateShows(t, r, candidates[1..], cut, stale);
    } else {
      var done := Exec(r, Attempt(t, candidates[0], isLast), cut, stale);
      assert Exec(done, [], cut, stale) == done;
    }
  }

  // ----- what the client saw and what was stored -----

  /** The text of the message events, in order. */
  function Shown(sent: seq<Event>): string {
    if sent == [] then ""
    else
      var last := sent[|sent| - 1];
      Shown(sent[..|sent| - 1]) + if last.name == "message" then last.data else ""
  }

  predicate AllMessages(sent: seq<Event>) {
    forall i :: 0 <= i < |sent| ==> sent[i].name == "message"
  }

  /** Messages first; `done` at most once and last. */
  predicate InOrder(sent: seq<Event>) {
    AllMessages(sent) || (Finished(sent) && AllMessages(sent[..|sent| - 1]))
  }

  predicate Finished(sent: seq<Event>) {
    sent != [] && sent[|sent| - 1] == DONE
  }

  lemma ShownSnoc(sent: seq<Event>, e: Event)
    ensures Shown(sent + [e]) == Shown(sent) + if e.name == "message" then e.data else ""
  {
    assert (sent + [e])[..|sent|] == sent;
  }

  /** Nothing is saved yet and the partial text is exactly what the client has seen. */
  predicate Streaming(r: Reply) {
    r.content == "" && r.isGenerating && AllMessages(r.sent) && r.partialText == Shown(r.sent)
  }

  lemma ChunkShown(r: Reply, chunk: string, cut: Option<nat>, stale: bool)
    requires Streaming(r) && r.open
    ensures var s := AfterChunk(r, chunk, cut, stale);
      Streaming(s) && s.partialText == r.partialText + chunk && (cut.None? ==> s.open)
  {
    ShownSnoc(r.sent, Message(chunk));
  }

  lemma {:induction false} StreamShowsWhatItKeeps(r: Reply, chunks: seq<string>, cut: Option<nat>, stale: bool)
    requires Streaming(r)
    ensures var s := Exec(r, Stream(chunks, r.partialText), cut, stale);
      && Streaming(s)
      && (s.open ==> s.partialText == r.partialText + Concat(chunks))
      && (r.open && cut.None? ==> s.open)
    decreases |chunks|
  {
    if r.open && chunks != [] {
      if chunks[0] == "" {
        assert Concat(chunks) == Concat(chunks[1..]);
        StreamShowsWhatItKeeps(r, chunks[1..], cut, stale);
      } else {
        assert r.partialText + Concat(chunks) == r.partialText + chunks[0] + Concat(chunks[1..]);
        StreamStep(r, chunks, cut, stale);
        ChunkShown(r, chunks[0], cut, stale);
        StreamShowsWhatItKeeps(AfterChunk(r, chunks[0], cut, stale), chunks[1..], cut, stale);
      }
    }
  }

  /** The stored text is what was shown, up to notices that were shown but whose save never ran; or nothing was
      shown and one of the two fixed texts stands in. */
  ghost predicate StoredMatchesShown(t: Texts, r: Reply) {
    || r.content == Shown(r.sent)
    || r.content + t.truncated == Shown(r.sent)
    || r.content + t.trimmed == Shown(r.sent)
    || r.content + t.truncated + t.trimmed == Shown(r.sent)
    || (Shown(r.sent) == "" && r.content in {t.tooLarge, t.problem})
  }

  lemma SavedText(r: Reply, save: Effect, text: string, cut: Option<nat>, stale: bool)
    requires r.open && (save == Save(text) || save == SaveRow(text))
    ensures var s := Exec(r, [save, Yield(DONE)], cut, stale);
      s.sent == r.sent + [DONE] && s.content == text && s.partialText == r.partialText
  {
    assert [save, Yield(DONE)] == [save] + [Yield(DONE)];
    ExecStep(r, save, [Yield(DONE)], cut, stale);
    ExecOne(Perform(r, save, cut, stale), Yield(DONE), cut, stale);
  }

  lemma SaveThenDone(r: Reply, save: Effect, text: string, cut: Option<nat>, stale: bool)
    requires r.open && AllMessages(r.sent) && (save == Save(text) || save == SaveRow(text))
    ensures var s := Exec(r, [save, Yield(DONE)], cut, stale);
      && s.sent == r.sent + [DONE] && s.content == text && InOrder(s.sent) && Shown(s.sent) == Shown(r.sent)
      && (s.content == "" ==> s.partialText == r.partialText)
  {
    SavedText(r, save, text, cut, stale);
    ShownSnoc(r.sent, DONE);
    assert (r.sent + [DONE])[..|r.sent|] == r.sent;
  }

  /** The state after a notice that may be due. */
  function AfterNotice(r: Reply, due: bool, text: string, cut: Option<nat>, stale: bool): Reply {
    if due then Perform(r, Yield(Message(text)), cut, stale) else r
  }

  lemma ExecNotice(r: Reply, due: bool, text: string, rest: seq<Effect>, cut: Option<nat>, stale: bool)
    requires r.open
    ensures Exec(r, Notice(due, text) + rest, cut, stale)
         == Exec(AfterNotice(r, due, text, cut, stale), rest, cut, stale)
  {
    if due {
      ExecStep(r, Yield(Message(text)), rest, cut, stale);
    } else {
      assert Notice(due, text) + rest == rest;
    }
  }

  /** A notice shown after the stream: the partial text stays behind by exactly that notice. */
  lemma NoticeShown(r: Reply, due: bool, text: string, cut: Option<nat>, stale: bool)
    requires AllMessages(r.sent)
    ensures var s := AfterNotice(r, due, text, cut, stale);
      && AllMessages(s.sent)
      && Shown(s.sent) == Shown(r.sent) + NoticeText(due, text)
      && s.(sent := r.sent, open := r.open) == r
      && (r.open && (cut.None? || !due) ==> s.open)
  {
    ShownSnoc(r.sent, Message(text));
  }

  /** What a finished generator leaves behind. */
  ghost predicate GoodOutcome(t: Texts, f: Reply) {
    && InOrder(f.sent) && !f.isGenerating && StoredMatchesShown(t, f)
    && (Finished(f.sent) && Shown(f.sent) != "" ==> f.content == Shown(f.sent))
    && (Shown(f.sent) != "" ==> f.content <= Shown(f.sent))
  }

  lemma FailureOutcome(t: Texts, r: Reply, cut: Option<nat>, stale: bool)
    requires Streaming(r) && r.open
    ensures var text := if r.partialText != "" then r.partialText else t.problem;
      var f := Finally(Exec(r, [Save(text), Yield(DONE)], cut, stale));
      GoodOutcome(t, f) && Finished(f.sent)
  {
    var text := if r.partialText != "" then r.partialText else t.problem;
    SaveThenDone(r, Save(text), text, cut, stale);
    var f := Finally(Exec(r, [Save(text), Yield(DONE)], cut, stale));
    assert Shown(f.sent) == r.partialText;
    if text != "" {
      assert f.content == text;
    }
  }

  lemma CloseOutcome(t: Texts, r: Reply, c: Candidate, isLast: bool, cut: Option<nat>, stale: bool)
    requires Streaming(r) && r.open && r.partialText == Concat(c.chunks)
    requires c.fits && !MovesOn(c, isLast)
    ensures var f := Finally(Exec(r, Close(t, c, isLast), cut, stale));
      GoodOutcome(t, f) && (cut.None? && c.ending != Raises ==> Finished(f.sent))
  {
    match c.ending
    case Raises =>
      ExecOne(r, Raise, cut, stale);
    case ProviderFails =>
      FailureOutcome(t, r, cut, stale);
    case Completes =>
      CompletesOutcome(t, r, c, isLast, cut, stale);
  }

  /** After the notices: the client goes away, or the final save and `done` follow. */
  lemma NoticesOutcome(t: Texts, r: Reply, before: string, shown: string, cut: Option<nat>, stale: bool)
    requires AllMessages(r.sent) && r.content == "" && r.isGenerating && r.partialText == before
    requires Shown(r.sent) == shown && shown in {before, before + t.truncated, before + t.trimmed,
                                                  before + t.truncated + t.trimmed}
    ensures var f := Finally(if r.open then Exec(r, [SaveRow(shown), Yield(DONE)], cut, stale) else r);
      GoodOutcome(t, f) && (r.open ==> Finished(f.sent))
  {
    NotFinished(r.sent);
    if r.open {
      SaveThenDone(r, SaveRow(shown), shown, cut, stale);
    }
  }

  lemma CompletesOutcome(t: Texts, r: Reply, c: Candidate, isLast: bool, cut: Option<nat>, stale: bool)
    requires Streaming(r) && r.open && r.partialText == Concat(c.chunks) && c.ending == Completes
    ensures var f := Finally(Exec(r, Close(t, c, isLast), cut, stale));
      GoodOutcome(t, f) && (cut.None? ==> Finished(f.sent))
  {
    var tail := [SaveRow(FinalText(t, c)), Yield(DONE)];
    var r1 := AfterNotice(r, TruncatedDue(c), t.truncated, cut, stale);
    NoticeShown(r, TruncatedDue(c), t.truncated, cut, stale);
    ExecNotice(r, TruncatedDue(c), t.truncated, Notice(TrimmedDue(c), t.trimmed) + tail, cut, stale);
    if r1.open {
      var r2 := AfterNotice(r1, TrimmedDue(c), t.trimmed, cut, stale);
      NoticeShown(r1, TrimmedDue(c), t.trimmed, cut, stale);
      ExecNotice(r1, TrimmedDue(c), t.trimmed, tail, cut, stale);
      NoticesOutcome(t, r2, Concat(c.chunks), FinalText(t, c), cut, stale);
    } else {
      NoticesOutcome(t, r1, Concat(c.chunks), Concat(c.chunks) + NoticeText(TruncatedDue(c), t.truncated), cut, stale);
    }
  }

  lemma NotFinished(sent: seq<Event>)
    requires AllMessages(sent)
    ensures !Finished(sent)
  {
  }

  lemma AttemptOutcome(t: Texts, c: Candidate, isLast: bool, cut: Option<nat>, stale: bool)
    requires !MovesOn(c, isLast)
    ensures var f := Finally(Exec(CLAIMED, Attempt(t, c, isLast), cut, stale));
      GoodOutcome(t, f) && (cut.None? && c.ending != Raises ==> Finished(f.sent))
  {
    var rest := if c.fits then Stream(c.chunks, "") + Close(t, c, isLast) else [Save(t.tooLarge), Yield(DONE)];
    assert Attempt(t, c, isLast) == [SetPartial("")] + rest;
    ExecStep(CLAIMED, SetPartial(""), rest, cut, stale);
    assert Perform(CLAIMED, SetPartial(""), cut, stale) == CLAIMED;
    if c.fits {
      ExecConcat(CLAIMED, Stream(c.chunks, ""), Close(t, c, isLast), cut, stale);
      StreamShowsWhatItKeeps(CLAIMED, c.chunks, cut, stale);
      var r := Exec(CLAIMED, Stream(c.chunks, ""), cut, stale);
      if r.open {
        CloseOutcome(t, r, c, isLast, cut, stale);
      }
    } else {
      SaveThenDone(CLAIMED, Save(t.tooLarge), t.tooLarge, cut, stale);
    }
  }

  /** Every run of the failover loop, for every disconnect point: messages come first and `done` at most once, last;
      the claim is given up; the stored text is the shown text (or misses only notices whose save never ran); and a
      run that is neither cut off nor blown up ends with `done`. */
  lemma GenerateOutcome(t: Texts, candidates: seq<Candidate>, cut: Option<nat>, stale: bool)
    requires candidates != []
    ensures var f := Result(t, Generate(candidates), cut, stale);
      && GoodOutcome(t, f)
      && (cut.None? && candidates[Answering(candidates)].ending != Raises ==> Finished(f.sent))
  {
    OnlyTheAnsweringCandidateShows(t, CLAIMED, candidates, cut, stale);
    var k := Answering(candidates);
    AttemptOutcome(t, candidates[k], k == |candidates| - 1, cut, stale);
  }

  /** The exits before the loop keep the same promises: `done` ends every uninterrupted run, what was shown and
      finished is what is stored, and a refusal stores its text without showing any. */
  lemma RefusedOutcome(t: Texts, text: string, cut: Option<nat>, stale: bool)
    ensures var f := Result(t, Refused(text), cut, stale);
      f.sent == [DONE] && f.content == text && !f.isGenerating
  {
    SaveThenDone(CLAIMED, Save(text), text, cut, stale);
  }

  lemma NoStoriesOutcome(t: Texts, text: string, cut: Option<nat>, stale: bool)
    ensures var f := Result(t, NoStories(text), cut, stale);
      f.content == text && !f.isGenerating
      && f.sent == if cut == Some(0) then [Message(text)] else [Message(text), DONE]
  {
    var r1 := Perform(CLAIMED, Save(text), cut, stale);
    var r2 := Perform(r1, Yield(Message(text)), cut, stale);
    assert Effects(t, NoStories(text)) == [Save(text)] + ([Yield(Message(text))] + [Yield(DONE)]);
    ExecStep(CLAIMED, Save(text), [Yield(Message(text))] + [Yield(DONE)], cut, stale);
    ExecStep(r1, Yield(Message(text)), [Yield(DONE)], cut, stale);
    if r2.open {
      ExecOne(r2, Yield(DONE), cut, stale);
    }
  }

  /** A cached reply is shown before it is saved: a client that leaves in between leaves the row empty again. */
  lemma CachedOutcome(t: Texts, text: string, cut: Option<nat>, stale: bool)
    ensures var f := Result(t, Cached(text), cut, stale);
      !f.isGenerating
      && if cut == Some(0) then f.sent == [Message(text)] && f.content == ""
         else f.sent == [Message(text), DONE] && f.content == text
  {
    var r1 := Perform(CLAIMED, Yield(Message(text)), cut, stale);
    assert Effects(t, Cached(text)) == [Yield(Message(text))] + [SaveRow(text), Yield(DONE)];
    ExecStep(CLAIMED, Yield(Message(text)), [SaveRow(text), Yield(DONE)], cut, stale);
    if r1.open {
      SaveThenDone(r1, SaveRow(text), text, cut, stale);
    }
  }

  // ----- what a client that stays gets -----

  /** One message for every chunk with text. */
  function Messages(chunks: seq<string>): seq<Event> {
    if chunks == [] then []
    else if chunks[0] == "" then Messages(chunks[1..])
    else [Message(chunks[0])] + Messages(chunks[1..])
  }

  /** The state once these chunks have been streamed. */
  function Streamed(r: Reply, chunks: seq<string>): Reply {
    r.(sent := r.sent + Messages(chunks), partialText := r.partialText + Concat(chunks))
  }

  lemma Associative<T>(a: seq<T>, b: seq<T>, c: seq<T>)
    ensures (a + b) + c == a + (b + c)
  {
  }

  lemma StreamedNext(r: Reply, chunks: seq<string>, stale: bool)
    requires r.open && chunks != []
    ensures Streamed(r, chunks)
         == Streamed(if chunks[0] == "" then r else AfterChunk(r, chunks[0], None, stale), chunks[1..])
  {
    if chunks[0] == "" {
      assert "" + Concat(chunks[1..]) == Concat(chunks[1..]);
    } else {
      Associative(r.sent, [Message(chunks[0])], Messages(chunks[1..]));
      Associative(r.partialText, chunks[0], Concat(chunks[1..]));
    }
  }

  lemma {:induction false} StreamSends(r: Reply, chunks: seq<string>, stale: bool)
    requires r.open
    ensures Exec(r, Stream(chunks, r.partialText), None, stale) == Streamed(r, chunks)
    decreases |chunks|
  {
    if chunks != [] {
      StreamedNext(r, chunks, stale);
      if chunks[0] == "" {
        StreamSends(r, chunks[1..], stale);
      } else {
        StreamStep(r, chunks, None, stale);
        StreamSends(AfterChunk(r, chunks[0], None, stale), chunks[1..], stale);
      }
    }
  }

  /** What the client of an uninterrupted run gets, and what the row holds afterwards. */
  predicate Leaves(f: Reply, sent: seq<Event>, content: string) {
    f.sent == sent && f.content == content && !f.isGenerating
  }

  lemma SaveAndDone(r: Reply, save: Effect, text: string, stale: bool)
    requires r.open && (save == Save(text) || save == SaveRow(text)) && (text == "" ==> r.partialText == "")
    ensures Leaves(Finally(Exec(r, [save, Yield(DONE)], None, stale)), r.sent + [DONE], text)
  {
    SavedText(r, save, text, None, stale);
  }

  lemma CompletedReply(t: Texts, r: Reply, c: Candidate, isLast: bool, stale: bool)
    requires r.open && r.partialText == Concat(c.chunks) && c.ending == Completes
    ensures var cutOff, left := c.truncated && Concat(c.chunks) != "", c.announce && Concat(c.chunks) != "";
      Leaves(Finally(Exec(r, Close(t, c, isLast), None, stale)),
             r.sent + (if cutOff then [Message(t.truncated)] else []) + (if left then [Message(t.trimmed)] else [])
             + [DONE],
             Concat(c.chunks) + (if cutOff then t.truncated else "") + (if left then t.trimmed else ""))
  {
    var tail := [SaveRow(FinalText(t, c)), Yield(DONE)];
    var r1 := AfterNotice(r, TruncatedDue(c), t.truncated, None, stale);
    ExecNotice(r, TruncatedDue(c), t.truncated, Notice(TrimmedDue(c), t.trimmed) + tail, None, stale);
    var r2 := AfterNotice(r1, TrimmedDue(c), t.trimmed, None, stale);
    ExecNotice(r1, TrimmedDue(c), t.trimmed, tail, None, stale);
    SaveAndDone(r2, SaveRow(FinalText(t, c)), FinalText(t, c), stale);
  }

  lemma AttemptUninterrupted(t: Texts, c: Candidate, stale: bool, isLast: bool)
    requires !MovesOn(c, isLast)
    ensures Uninterrupted(t, c, Finally(Exec(CLAIMED, Attempt(t, c, isLast), None, stale)))
  {
    var rest := if c.fits then Stream(c.chunks, "") + Close(t, c, isLast) else [Save(t.tooLarge), Yield(DONE)];
    assert Attempt(t, c, isLast) == [SetPartial("")] + rest;
    ExecStep(CLAIMED, SetPartial(""), rest, None, stale);
    assert Perform(CLAIMED, SetPartial(""), None, stale) == CLAIMED;
    if !c.fits {
      SaveAndDone(CLAIMED, Save(t.tooLarge), t.tooLarge, stale);
    } else {
      ExecConcat(CLAIMED, Stream(c.chunks, ""), Close(t, c, isLast), None, stale);
      StreamSends(CLAIMED, c.chunks, stale);
      var r := Exec(CLAIMED, Stream(c.chunks, ""), None, stale);
      match c.ending
      case Completes => CompletedReply(t, r, c, isLast, stale);
      case ProviderFails =>
        SaveAndDone(r, Save(if Concat(c.chunks) != "" then Concat(c.chunks) else t.problem),
                    if Concat(c.chunks) != "" then Concat(c.chunks) else t.problem, stale);
      case Raises => ExecOne(r, Raise, None, stale);
    }
  }

  /** For each way a candidate can end: the events sent and the text stored. The reply is its chunks, followed by the
      notice that it was cut off if it was, and by the notice that earlier messages were left out if that is due;
      neither is added to an empty reply. A candidate that does not fit, or fails silently, leaves the text for that,
      unsent. */
  predicate Uninterrupted(t: Texts, c: Candidate, f: Reply) {
    var text := Concat(c.chunks);
    if !c.fits then Leaves(f, [DONE], t.tooLarge)
    else
      match c.ending
      case Completes =>
        var cutOff, left := c.truncated && text != "", c.announce && text != "";
        Leaves(f, Messages(c.chunks) + (if cutOff then [Message(t.truncated)] else [])
                  + (if left then [Message(t.trimmed)] else []) + [DONE],
               text + (if cutOff then t.truncated else "") + (if left then t.trimmed else ""))
      case ProviderFails => Leaves(f, Messages(c.chunks) + [DONE], if text != "" then text else t.problem)
      case Raises => Leaves(f, Messages(c.chunks), text)
  }

  /** For every candidate list, the answering candidate decides what a client that stays is sent and what is stored. */
  lemma UninterruptedReply(t: Texts, candidates: seq<Candidate>, stale: bool)
    requires candidates != []
    ensures Uninterrupted(t, candidates[Answering(candidates)], Result(t, Generate(candidates), None, stale))
  {
    OnlyTheAnsweringCandidateShows(t, CLAIMED, candidates, None, stale);
    var k := Answering(candidates);
    AttemptUninterrupted(t, candidates[k], stale, k == |candidates| - 1);
  }

  lemma {:induction false} ShownNext(text: string, rest: seq<Event>)
    ensures Shown([Message(text)] + rest) == text + Shown(rest)
    decreases |rest|
  {
    var first := [Message(text)];
    if rest == [] {
      ShownSnoc([], Message(text));
      assert first + rest == [] + first;
    } else {
      var n := |rest| - 1;
      var last := if rest[n].name == "message" then rest[n].data else "";
      ShownNext(text, rest[..n]);
      ShownSnoc(first + rest[..n], rest[n]);
      Associative(first, rest[..n], [rest[n]]);
      Associative(text, Shown(rest[..n]), last);
      assert rest == rest[..n] + [rest[n]];
    }
  }

  /** The messages joined are the text. */
  lemma {:induction false} MessagesShow(chunks: seq<string>)
    ensures Shown(Messages(chunks)) == Concat(chunks)
  {
    if chunks != [] {
      MessagesShow(chunks[1..]);
      if chunks[0] == "" {
        assert "" + Concat(chunks[1..]) == Concat(chunks[1..]);
      } else {
        ShownNext(chunks[0], Messages(chunks[1..]));
      }
    }
  }

  /** So a completed reply is shown as it is stored: its chunks joined, then exactly the notices that are due. */
  lemma CompletedReplyIsShown(t: Texts, candidates: seq<Candidate>, stale: bool)
    requires candidates != []
    requires var c := candidates[Answering(candidates)];
      c.fits && c.ending == Completes
    ensures var c := candidates[Answering(candidates)];
      var f := Result(t, Generate(candidates), None, stale);
      var text := Concat(c.chunks);
      && Shown(f.sent) == f.content && Finished(f.sent)
      && f.content == text + (if c.truncated && text != "" then t.truncated else "")
                      + (if c.announce && text != "" then t.trimmed else "")
  {
    UninterruptedReply(t, candidates, stale);
    CompletedIsShown(t, candidates[Answering(candidates)], Result(t, Generate(candidates), None, stale));
  }

  lemma CompletedIsShown(t: Texts, c: Candidate, f: Reply)
    requires Uninterrupted(t, c, f) && c.fits && c.ending == Completes
    ensures Shown(f.sent) == f.content && Finished(f.sent)
  {
    var text := Concat(c.chunks);
    NoticesShow(t, Messages(c.chunks), c.truncated && text != "", c.announce && text != "");
    MessagesShow(c.chunks);
  }

  lemma NoticesShow(t: Texts, sent: seq<Event>, cutOff: bool, left: bool)
    ensures var more := sent + (if cutOff then [Message(t.truncated)] else [])
                        + (if left then [Message(t.trimmed)] else []) + [DONE];
      Shown(more) == Shown(sent) + (if cutOff then t.truncated else "") + (if left then t.trimmed else "")
  {
    var one := sent + if cutOff then [Message(t.truncated)] else [];
    var two := one + if left then [Message(t.trimmed)] else [];
    ShownSnoc(sent, Message(t.truncated));
    ShownSnoc(one, Message(t.trimmed));
    ShownSnoc(two, DONE);
    assert !cutOff ==> one == sent;
    assert !left ==> two == one;
  }

  // ----- when nothing is left in the row -----

  /** What a generator does not get to write down: an empty fixed text, a cached reply cut off at its message, or an
      answering candidate that fits and ends without any text - unless its failure is put into words. */
  predicate LeavesNothing(t: Texts, setup: Setup, cut: Option<nat>) {
    match setup
    case Refused(text) => text == ""
    case NoStories(text) => text == ""
    case Cached(text) => text == "" || cut == Some(0)
    case Generate(candidates) =>
      candidates == []
      || var c := candidates[Answering(candidates)];
         if c.fits then Concat(c.chunks) == "" && (c.ending == ProviderFails ==> t.problem == "") else t.tooLarge == ""
  }

  /** Once there is a partial text, streaming keeps it; and a stream with text leaves one. */
  lemma {:induction false} StreamLeavesText(r: Reply, chunks: seq<string>, cut: Option<nat>, stale: bool)
    requires r.open
    ensures var s := Exec(r, Stream(chunks, r.partialText), cut, stale);
      && (s.partialText == "" <==> r.partialText == "" && Concat(chunks) == "")
      && s.content == r.content && s.isGenerating == r.isGenerating
    decreases |chunks|
  {
    if chunks != [] {
      if chunks[0] == "" {
        assert Concat(chunks) == Concat(chunks[1..]);
        StreamLeavesText(r, chunks[1..], cut, stale);
      } else {
        StreamStep(r, chunks, cut, stale);
        var s := AfterChunk(r, chunks[0], cut, stale);
        if s.open {
          StreamLeavesText(s, chunks[1..], cut, stale);
        }
      }
    }
  }

  /** What follows the stream of a candidate with text: whatever is saved or not, there is an answer. */
  lemma CloseLeavesText(t: Texts, r: Reply, c: Candidate, isLast: bool, cut: Option<nat>, stale: bool)
    requires r.open && r.content == "" && r.isGenerating && r.partialText != "" && Concat(c.chunks) != ""
    ensures Finally(Exec(r, Close(t, c, isLast), cut, stale)).content != ""
  {
    match c.ending
    case Raises =>
      ExecOne(r, Raise, cut, stale);
    case ProviderFails =>
      SavedText(r, Save(Concat(c.chunks)), Concat(c.chunks), cut, stale);
    case Completes =>
      var tail := [SaveRow(FinalText(t, c)), Yield(DONE)];
      var r1 := AfterNotice(r, TruncatedDue(c), t.truncated, cut, stale);
      ExecNotice(r, TruncatedDue(c), t.truncated, Notice(TrimmedDue(c), t.trimmed) + tail, cut, stale);
      if r1.open {
        var r2 := AfterNotice(r1, TrimmedDue(c), t.trimmed, cut, stale);
        ExecNotice(r1, TrimmedDue(c), t.trimmed, tail, cut, stale);
        if r2.open {
          SavedText(r2, SaveRow(FinalText(t, c)), FinalText(t, c), cut, stale);
        }
      }
  }

  /** And of one without: what it saves is all there is. */
  lemma CloseWithoutText(t: Texts, r: Reply, c: Candidate, isLast: bool, cut: Option<nat>, stale: bool)
    requires r.open && r.content == "" && r.partialText == "" && Concat(c.chunks) == "" && !MovesOn(c, isLast) && c.fits
    ensures Finally(Exec(r, Close(t, c, isLast), cut, stale)).content
         == if c.ending == ProviderFails then t.problem else ""
  {
    match c.ending
    case Raises =>
      ExecOne(r, Raise, cut, stale);
    case ProviderFails =>
      SavedText(r, Save(t.problem), t.problem, cut, stale);
    case Completes =>
      var tail := [SaveRow(""), Yield(DONE)];
      assert FinalText(t, c) == "";
      assert Close(t, c, isLast) == [] + ([] + tail) == tail;
      SavedText(r, SaveRow(""), "", cut, stale);
  }

  lemma AttemptLeavesNothingIff(t: Texts, c: Candidate, isLast: bool, cut: Option<nat>, stale: bool)
    requires !MovesOn(c, isLast)
    ensures Finally(Exec(CLAIMED, Attempt(t, c, isLast), cut, stale)).content == ""
       <==> if c.fits then Concat(c.chunks) == "" && (c.ending == ProviderFails ==> t.problem == "")
            else t.tooLarge == ""
  {
    var rest := if c.fits then Stream(c.chunks, "") + Close(t, c, isLast) else [Save(t.tooLarge), Yield(DONE)];
    assert Attempt(t, c, isLast) == [SetPartial("")] + rest;
    ExecStep(CLAIMED, SetPartial(""), rest, cut, stale);
    assert Perform(CLAIMED, SetPartial(""), cut, stale) == CLAIMED;
    if c.fits {
      ExecConcat(CLAIMED, Stream(c.chunks, ""), Close(t, c, isLast), cut, stale);
      StreamLeavesText(CLAIMED, c.chunks, cut, stale);
      var r := Exec(CLAIMED, Stream(c.chunks, ""), cut, stale);
      if Concat(c.chunks) == "" {
        SilentStream(c.chunks, "");
        CloseWithoutText(t, r, c, isLast, cut, stale);
      } else if r.open {
        CloseLeavesText(t, r, c, isLast, cut, stale);
      }
    } else {
      SavedText(CLAIMED, Save(t.tooLarge), t.tooLarge, cut, stale);
    }
  }

  /** For every setup, disconnect point and claim flag: the row is left without a reply if and only if the generator
      has nothing to leave. With the fixed texts in place, and unless a cached reply is cut off, that is when the
      answering candidate ends without text and without a provider's error - wherever the client goes away. */
  lemma EmptyReplyExactlyWhen(t: Texts, setup: Setup, cut: Option<nat>, stale: bool)
    ensures Result(t, setup, cut, stale).content == "" <==> LeavesNothing(t, setup, cut)
  {
    match setup
    case Refused(text) =>
      RefusedOutcome(t, text, cut, stale);
    case NoStories(text) =>
      NoStoriesOutcome(t, text, cut, stale);
    case Cached(text) =>
      CachedOutcome(t, text, cut, stale);
    case Generate(candidates) =>
      if candidates != [] {
        OnlyTheAnsweringCandidateShows(t, CLAIMED, candidates, cut, stale);
        var k := Answering(candidates);
        AttemptLeavesNothingIff(t, candidates[k], k == |candidates| - 1, cut, stale);
      }
  }

  // ----- through the wire -----

  /** The events of a finished run survive printing, parsing and unescaping. */
  lemma FinishedSurvivesTheWire(t: Texts, f: Reply)
    requires GoodOutcome(t, f) && Finished(f.sent) && NoReturns(f.sent)
    ensures Decode(Parse(PrintAll(f.sent))) == f.sent
  {
    forall i | 0 <= i < |f.sent|
      ensures PlainName(f.sent[i].name)
    {
      if i < |f.sent| - 1 && !AllMessages(f.sent) {
        assert f.sent[i] == f.sent[..|f.sent| - 1][i];
      }
    }
    StreamRoundTrip(f.sent);
  }

  /** A client that reads the bytes of a completed run by the event-stream rules and joins the message data has
      exactly the reply that was stored. */
  lemma ClientRebuildsTheStoredReply(t: Texts, candidates: seq<Candidate>, stale: bool)
    requires candidates != [] && candidates[Answering(candidates)].ending != Raises
    requires NoReturns(Result(t, Generate(candidates), None, stale).sent)
    ensures var f := Result(t, Generate(candidates), None, stale);
      var received := Decode(Parse(PrintAll(f.sent)));
      && Finished(received)
      && (Shown(received) != "" ==> Shown(received) == f.content)
  {
    GenerateOutcome(t, candidates, None, stale);
    FinishedSurvivesTheWire(t, Result(t, Generate(candidates), None, stale));
  }
}
