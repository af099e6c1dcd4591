/** What a request may draw on (chat/context_window.py, `load_window`): the newest turns with at most four images, and
    notes about the questions before them. Reading an attachment is an input: whether it could be read. */
module LoadWindow {
  import opened Wrappers
  import opened Text
  import opened ContextWindow

  const MAX_RECENT_MESSAGES := 40
  const MAX_OLDER_MESSAGES_FOR_NOTES := 60
  const MAX_IMAGES := 4

  /** `text` is the extracted text, wrapped for the prompt. */
  datatype Attachment = Nothing | Image(name: string, readable: bool) | File(name: string, text: Option<string>)

  datatype Message = Message(role: Role, content: string, attachment: Attachment)

  /** `_turn_for`. */
  function TurnFor(m: Message, allowImage: bool): (turn: Turn)
    ensures turn.role == m.role && m.content <= turn.content
    ensures turn.images == if allowImage && m.attachment.Image? && m.attachment.readable then 1 else 0
  {
    match m.attachment
    case Nothing => Turn(m.role, m.content, 0)
    case Image(name, readable) =>
      if !allowImage
      then Turn(m.role, m.content + "\n\n[Earlier image: " + name + " (not re-sent, to save context)]", 0)
      else if readable then Turn(m.role, m.content, 1)
      else Turn(m.role, m.content + "\n\n[Attached image: " + name + " (couldn't be read)]", 0)
    case File(name, Some(text)) => Turn(m.role, m.content + "\n\n" + text, 0)
    case File(name, None) =>
      Turn(m.role, m.content + "\n\n[Attached file: " + name + " (not readable by the assistant yet)]", 0)
  }

  predicate EndsWith(s: string, end: string) {
    |end| <= |s| && s[|s| - |end|..] == end
  }

  /** No attachment is dropped in silence: a file's text ends the turn, and what is not sent is named as such. Without
      one, or with the image itself, the content is the message's. */
  lemma TurnsTellOfAttachments(m: Message, allowImage: bool)
    ensures var turn := TurnFor(m, allowImage);
      && (m.attachment.Nothing? || turn.images == 1 ==> turn.content == m.content)
      && (m.attachment.File? && m.attachment.text.Some? ==>
            |turn.content| == |m.content| + 2 + |m.attachment.text.value|
            && EndsWith(turn.content, m.attachment.text.value))
      && (m.attachment.File? && m.attachment.text.None? ==>
            EndsWith(turn.content, m.attachment.name + " (not readable by the assistant yet)]"))
      && (m.attachment.Image? && !allowImage ==>
            EndsWith(turn.content, m.attachment.name + " (not re-sent, to save context)]"))
      && (m.attachment.Image? && allowImage && !m.attachment.readable ==>
            EndsWith(turn.content, m.attachment.name + " (couldn't be read)]"))
  {
    var c := m.content;
    match m.attachment
    case Nothing =>
    case Image(name, readable) =>
      Ends(c + "\n\n[Earlier image: ", name, " (not re-sent, to save context)]");
      Ends(c + "\n\n[Attached image: ", name, " (couldn't be read)]");
    case File(name, Some(text)) =>
      assert (c + "\n\n" + text)[|c| + 2..] == text;
    case File(name, None) =>
      Ends(c + "\n\n[Attached file: ", name, " (not readable by the assistant yet)]");
  }

  lemma Ends(before: string, name: string, end: string)
    ensures EndsWith(before + name + end, name + end)
  {
    assert (before + name + end)[|before|..] == name + end;
  }

  /** How many readable images the messages carry. */
  function Readable(h: seq<Message>): nat {
    if h == [] then 0 else (if h[0].attachment.Image? && h[0].attachment.readable then 1 else 0) + Readable(h[1..])
  }

  /** The turns of `h`, oldest first: a readable image is sent exactly when fewer than `MAX_IMAGES` newer ones are. */
  function TurnsOf(h: seq<Message>): (turns: seq<Turn>)
    ensures |turns| == |h|
  {
    if h == [] then [] else [TurnFor(h[0], Readable(h[1..]) < MAX_IMAGES)] + TurnsOf(h[1..])
  }

  lemma {:induction false} TurnsOfAt(h: seq<Message>, i: nat)
    requires i < |h|
    ensures TurnsOf(h)[i] == TurnFor(h[i], Readable(h[i + 1..]) < MAX_IMAGES)
  {
    if i > 0 {
      TurnsOfAt(h[1..], i - 1);
      assert h[1..][i..] == h[i + 1..];
    }
  }

  function UserMessages(h: seq<Message>): seq<string> {
    if h == [] then []
    else if h[0].role == User then [h[0].content] + UserMessages(h[1..])
    else UserMessages(h[1..])
  }

  /** First words of the messages that are not blank. */
  function Notes(contents: seq<string>): (notes: seq<string>)
    ensures |notes| <= |contents|
    ensures forall i :: 0 <= i < |notes| ==> |notes[i]| <= NOTE_CHARS_PER_MESSAGE
  {
    if contents == [] then []
    else if Words(contents[0]) != [] then [FirstWords(contents[0], NOTE_CHARS_PER_MESSAGE)] + Notes(contents[1..])
    else Notes(contents[1..])
  }

  /** Where the window begins in a conversation of `n` messages. */
  function WindowStart(n: nat): (start: nat)
    ensures start <= n
  {
    if n > MAX_RECENT_MESSAGES then n - MAX_RECENT_MESSAGES else 0
  }

  /** The newest `n`. */
  function Newest<T>(s: seq<T>, n: nat): seq<T> {
    if |s| <= n then s else s[|s| - n..]
  }

  /** Reference definition: the conversation is cut in two. What comes before the cut is only counted and noted. */
  function WindowOf(h: seq<Message>): Window {
    var start := WindowStart(|h|);
    var older, users := UserMessages(h[..start]), UserMessages(h);
    if start == 0 then Window(TurnsOf(h), 0, "", [])
    else Window(TurnsOf(h[start..]), start, FirstWords(if users == [] then "" else users[0], BRIEF_MAX_CHARS),
                Notes(Newest(older, MAX_OLDER_MESSAGES_FOR_NOTES)))
  }

  // ----- the loop over the newest messages -----

  /** The newest messages first: each is given an image if some are left. `h` is the list the other way round. */
  method BuildTurns(recent: seq<Message>, ghost h: seq<Message>) returns (turns: seq<Turn>)
    requires recent == Reverse(h)
    ensures turns == TurnsOf(h)
  {
    var reversed: seq<Turn>, imagesLeft: int := [], MAX_IMAGES;
    var i := 0;
    ReverseTwice(h);
    ReverseIndex(h);
    while i < |recent|
      invariant 0 <= i <= |recent| == |h|
      invariant reversed == Reverse(TurnsOf(h[|h| - i..]))
      invariant imagesLeft == Left(h[|h| - i..])
    {
      var allow := imagesLeft > 0;
      var turn := TurnFor(recent[i], allow);
      reversed := reversed + [turn];
      if allow && turn.images > 0 {
        imagesLeft := imagesLeft - 1;
      }
      i := i + 1;
    }
    assert h[0..] == h;
    ReverseTwice(TurnsOf(h));
    turns := Reverse(reversed);
  }

  /** How many images may still be sent before the turns of `h`. */
  function Left(h: seq<Message>): nat {
    MAX_IMAGES - Min(MAX_IMAGES, Readable(h))
  }

  lemma {:induction false} ReverseIndex<T>(s: seq<T>)
    ensures |Reverse(s)| == |s|
    ensures forall i :: 0 <= i < |s| ==> Reverse(s)[i] == s[|s| - 1 - i]
  {
    if s != [] {
      ReverseIndex(s[1..]);
      forall i | 0 <= i < |s|
        ensures Reverse(s)[i] == s[|s| - 1 - i]
      {
        assert i < |s| - 1 ==> s[1..][|s| - 2 - i] == s[|s| - 1 - i];
      }
    }
  }

  function Skipping(s: seq<string>, skip: nat, count: nat): seq<string> {
    if |s| <= skip then [] else if |s| <= skip + count then s[skip..] else s[skip..skip + count]
  }

  method CountUsers(recent: seq<Message>, ghost h: seq<Message>) returns (n: nat)
    requires recent == Reverse(h)
    ensures n == |UserMessages(h)|
  {
    n := 0;
    var i := 0;
    ReverseIndex(h);
    while i < |recent|
      invariant 0 <= i <= |recent| == |h|
      invariant n == |UserMessages(h[|h| - i..])|
    {
      var j := |h| - i - 1;
      assert recent[i] == h[j];
      assert h[j..][1..] == h[j + 1..];
      if recent[i].role == User {
        n := n + 1;
      }
      i := i + 1;
    }
    assert h[0..] == h;
  }

  /** `load_window` on the stored messages, oldest first: the source's queries read them newest first. */
  method Load(h: seq<Message>) returns (w: Window)
    ensures w == WindowOf(h)
  {
    var start := WindowStart(|h|);
    var window := h[start..];
    var recent := Reverse(window);
    var turns := BuildTurns(recent, window);
    var olderCount := |h| - |turns|;
    w := Window(turns, olderCount, "", []);
    if olderCount > 0 {
      var users := UserMessages(h);
      var first := if users == [] then "" else users[0];
      var skip := CountUsers(recent, window);
      var older := Skipping(Reverse(users), skip, MAX_OLDER_MESSAGES_FOR_NOTES);
      SkippingPastTheWindow(h, start);
      w := w.(brief := FirstWords(first, BRIEF_MAX_CHARS), olderNotes := Notes(Reverse(older)));
    } else {
      assert h[0..] == h;
    }
  }

  lemma {:induction false} UserMessagesConcat(a: seq<Message>, b: seq<Message>)
    ensures UserMessages(a + b) == UserMessages(a) + UserMessages(b)
  {
    if a == [] {
      assert a + b == b;
    } else {
      assert (a + b)[1..] == a[1..] + b;
      UserMessagesConcat(a[1..], b);
    }
  }

  /** Skipping the window's user messages leaves exactly the questions before it: none is noted twice, none is lost
      between the notes and the window. */
  lemma SkippingPastTheWindow(h: seq<Message>, start: nat)
    requires start <= |h|
    ensures var users, recent := UserMessages(h), UserMessages(h[start..]);
      Reverse(Skipping(Reverse(users), |recent|, MAX_OLDER_MESSAGES_FOR_NOTES)) ==
      Newest(UserMessages(h[..start]), MAX_OLDER_MESSAGES_FOR_NOTES)
  {
    assert h == h[..start] + h[start..];
    UserMessagesConcat(h[..start], h[start..]);
    SkippingASuffix(UserMessages(h[..start]), UserMessages(h[start..]), MAX_OLDER_MESSAGES_FOR_NOTES);
  }

  lemma SkippingASuffix(older: seq<string>, recent: seq<string>, count: nat)
    ensures Reverse(Skipping(Reverse(older + recent), |recent|, count)) == Newest(older, count)
  {
    var newest := Newest(older, count);
    var rest := older[..|older| - |newest|];
    assert older == rest + newest;
    ReverseConcat(older, recent);
    ReverseConcat(rest, newest);
    ReverseLength(recent);
    ReverseLength(newest);
    ReverseLength(rest);
    SkippingConcat(Reverse(recent), Reverse(newest), Reverse(rest), count);
    ReverseTwice(newest);
  }

  lemma SkippingConcat(skipped: seq<string>, taken: seq<string>, rest: seq<string>, count: nat)
    requires |taken| == count || (|taken| < count && rest == [])
    ensures Skipping(skipped + (taken + rest), |skipped|, count) == taken
  {
    var all := skipped + (taken + rest);
    if |taken| == count {
      assert all[|skipped|..|skipped| + count] == taken;
    }
    if rest == [] {
      assert all[|skipped|..] == taken;
    }
  }

  lemma {:induction false} ReverseLength<T>(s: seq<T>)
    ensures |Reverse(s)| == |s|
  {
    if s != [] {
      ReverseLength(s[1..]);
    }
  }

  lemma {:induction false} ReverseConcat<T>(a: seq<T>, b: seq<T>)
    ensures Reverse(a + b) == Reverse(b) + Reverse(a)
  {
    if a == [] {
      assert a + b == b;
    } else {
      assert (a + b)[1..] == a[1..] + b;
      ReverseConcat(a[1..], b);
    }
  }

  // ----- what the window promises -----

  function ImagesIn(turns: seq<Turn>): nat {
    if turns == [] then 0 else turns[0].images + ImagesIn(turns[1..])
  }

  /** As many images are sent as there are readable ones in the window, up to four. */
  lemma {:induction false} ImagesSent(h: seq<Message>)
    ensures ImagesIn(TurnsOf(h)) == Min(4, Readable(h))
  {
    if h != [] {
      ImagesSent(h[1..]);
      assert TurnsOf(h)[1..] == TurnsOf(h[1..]);
    }
  }

  /** Every message is in the window or counted as older, the newest 40 are in it, and at most four images and sixty
      notes come with them. */
  lemma WindowAccountsForEveryMessage(h: seq<Message>)
    ensures var w := WindowOf(h);
      && w.olderCount + |w.turns| == |h| && |w.turns| == Min(MAX_RECENT_MESSAGES, |h|)
      && (forall i :: 0 <= i < |w.turns| ==>
            w.turns[i].role == h[w.olderCount + i].role && h[w.olderCount + i].content <= w.turns[i].content)
      && ImagesIn(w.turns) <= MAX_IMAGES && |w.olderNotes| <= MAX_OLDER_MESSAGES_FOR_NOTES
  {
    var w, window := WindowOf(h), h[WindowStart(|h|)..];
    ImagesSent(window);
    assert h[0..] == h;
    forall i | 0 <= i < |w.turns|
      ensures w.turns[i].role == h[w.olderCount + i].role && h[w.olderCount + i].content <= w.turns[i].content
    {
      TurnsOfAt(window, i);
    }
  }

  /** What is sent are the newest messages in order, each with its role and opening with its own text - the first one
      behind what is put in front of it. */
  predicate SendsNewest(h: seq<Message>, r: Fitted) {
    && r.omitted + |r.turns| == |h| && r.turns != []
    && (forall i :: 0 <= i < |r.turns| ==> r.turns[i].role == h[r.omitted + i].role)
    && (forall i :: 1 <= i < |r.turns| ==> h[r.omitted + i].content <= r.turns[i].content)
    && Contains(r.turns[0].content, h[r.omitted].content)
  }

  /** `part` opens some suffix of `whole`. */
  predicate Contains(whole: string, part: string) {
    exists p :: 0 <= p <= |whole| && part <= whole[p..]
  }

  predicate EndsLike(h: seq<Message>, w: Window) {
    && w.olderCount + |w.turns| == |h|
    && forall i :: 0 <= i < |w.turns| ==>
         w.turns[i].role == h[w.olderCount + i].role && h[w.olderCount + i].content <= w.turns[i].content
  }

  lemma WindowEndsLike(h: seq<Message>)
    requires h != []
    ensures EndsLike(h, WindowOf(h)) && WindowOf(h).turns != []
  {
    WindowAccountsForEveryMessage(h);
  }

  lemma FitSendsNewest(h: seq<Message>, w: Window, system: string, budget: Budget)
    requires EndsLike(h, w) && w.turns != []
    ensures SendsNewest(h, FitResult(w, system, budget))
  {
    FitAccountsForEveryTurn(w, system, budget);
    var r := FitResult(w, system, budget);
    SuffixSendsNewest(h, w, r, |w.turns| - |r.turns|);
  }

  lemma SuffixSendsNewest(h: seq<Message>, w: Window, r: Fitted, k: nat)
    requires EndsLike(h, w) && r.omitted + |r.turns| == |h| && k + |r.turns| == |w.turns|
    requires r.turns != [] && r.turns[1..] == w.turns[k + 1..] && r.turns[0].role == w.turns[k].role
    requires |w.turns[k].content| <= |r.turns[0].content|
    requires r.turns[0].content[|r.turns[0].content| - |w.turns[k].content|..] == w.turns[k].content
    ensures SendsNewest(h, r)
  {
    assert r.omitted == w.olderCount + k;
    forall i | 1 <= i < |r.turns|
      ensures r.turns[i] == w.turns[k + i]
    {
      assert r.turns[1..][i - 1] == w.turns[k + 1..][i - 1];
    }
    forall i | 0 <= i < |r.turns|
      ensures r.turns[i].role == h[r.omitted + i].role
      ensures i >= 1 ==> h[r.omitted + i].content <= r.turns[i].content
    {
      assert h[w.olderCount + (k + i)].content <= w.turns[k + i].content;
    }
    var p := |r.turns[0].content| - |w.turns[k].content|;
    assert h[w.olderCount + k].content <= r.turns[0].content[p..];
  }

  /** From the stored conversation to what is sent: the turns sent are the newest messages, the current one included,
      and everything else is counted as omitted. */
  lemma RequestAccountsForEveryMessage(h: seq<Message>, system: string, budget: Budget)
    requires h != []
    ensures SendsNewest(h, FitResult(WindowOf(h), system, budget))
  {
    WindowEndsLike(h);
    FitSendsNewest(h, WindowOf(h), system, budget);
  }
}
