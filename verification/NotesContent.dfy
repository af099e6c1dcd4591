/** What the notes in front of a shortened conversation say (chat/context_window.py, `_first_words`, `load_window` and
    `_notes_block`): their lines, the questions they list and the words of each. */
module NotesContent {
  import opened Wrappers
  import opened Text
  import opened ContextWindow
  import opened LoadWindow

  // ----- the words of a text -----

  predicate IsWord(w: string) {
    w != "" && forall i :: 0 <= i < |w| ==> !IsSpace(w[i])
  }

  lemma {:induction false} WordLengthOfWord(w: string, rest: string)
    requires (forall i :: 0 <= i < |w| ==> !IsSpace(w[i])) && (rest == "" || IsSpace(rest[0]))
    ensures WordLength(w + rest) == |w|
  {
    if w != "" {
      assert (w + rest)[1..] == w[1..] + rest;
      WordLengthOfWord(w[1..], rest);
    } else {
      assert w + rest == rest;
    }
  }

  lemma {:induction false} FirstWordIsWord(s: string)
    ensures forall i :: 0 <= i < WordLength(s) ==> !IsSpace(s[i])
    ensures WordLength(s) < |s| ==> IsSpace(s[WordLength(s)])
  {
    if s != "" && !IsSpace(s[0]) {
      FirstWordIsWord(s[1..]);
      forall i | 0 <= i < WordLength(s)
        ensures !IsSpace(s[i])
      {
        assert i > 0 ==> s[i] == s[1..][i - 1];
      }
    }
  }

  lemma {:induction false} WordsAreWords(s: string)
    ensures forall i :: 0 <= i < |Words(s)| ==> IsWord(Words(s)[i])
    decreases |s|
  {
    if s != "" {
      if IsSpace(s[0]) {
        WordsAreWords(s[1..]);
      } else {
        FirstWordIsWord(s);
        WordsAreWords(s[WordLength(s)..]);
      }
    }
  }

  /** A word is the only one of itself. */
  lemma OneWord(w: string)
    requires IsWord(w)
    ensures Words(w) == [w]
  {
    WordLengthOfWord(w, "");
    assert w + "" == w && w[|w|..] == "" && w[..|w|] == w;
  }

  /** White space separates words, and nothing else does: the words before it are followed by those behind it. */
  lemma {:induction false} WordsSplitAtSpace(a: string, c: char, b: string)
    requires IsSpace(c)
    ensures Words(a + [c] + b) == Words(a) + Words(b)
    decreases |a|
  {
    if a == "" {
      SpaceInFront(c, b);
      assert a + [c] + b == [c] + b;
    } else if IsSpace(a[0]) {
      WordsSplitAtSpace(a[1..], c, b);
      SpaceInFront(a[0], a[1..] + [c] + b);
      Regroup([a[0]], a[1..], c, b);
      assert a == [a[0]] + a[1..];
    } else {
      var n := WordLength(a);
      FirstWordIsWord(a);
      WordsSplitAtSpace(a[n..], c, b);
      WordInFront(a[..n], a[n..]);
      WordInFront(a[..n], a[n..] + [c] + b);
      Regroup(a[..n], a[n..], c, b);
      assert a == a[..n] + a[n..];
    }
  }

  lemma Regroup(w: string, a: string, c: char, b: string)
    ensures (w + a) + [c] + b == w + (a + [c] + b)
  {
  }

  lemma SpaceInFront(c: char, rest: string)
    requires IsSpace(c)
    ensures Words([c] + rest) == Words(rest)
  {
    assert ([c] + rest)[1..] == rest;
  }

  lemma WordInFront(w: string, rest: string)
    requires IsWord(w) && (rest == "" || IsSpace(rest[0]))
    ensures Words(w + rest) == [w] + Words(rest)
  {
    WordLengthOfWord(w, rest);
    assert (w + rest)[..|w|] == w && (w + rest)[|w|..] == rest;
  }

  /** The text with its words separated by single spaces. */
  function Flat(text: string): string {
    Join(Words(text), ' ')
  }

  predicate OneLine(s: string) {
    '\n' !in s
  }

  lemma {:induction false} JoinedWordsAreOneLine(words: seq<string>)
    requires forall i :: 0 <= i < |words| ==> IsWord(words[i])
    ensures OneLine(Join(words, ' '))
  {
    if words != [] {
      assert IsWord(words[0]);
      if |words| > 1 {
        JoinedWordsAreOneLine(words[1..]);
      }
    }
  }

  lemma {:induction false} JoinedWordsAreTheWords(words: seq<string>)
    requires forall i :: 0 <= i < |words| ==> IsWord(words[i])
    ensures Words(Join(words, ' ')) == words
  {
    if words != [] {
      OneWord(words[0]);
      if |words| > 1 {
        JoinedWordsAreTheWords(words[1..]);
        WordsSplitAtSpace(words[0], ' ', Join(words[1..], ' '));
        assert words == [words[0]] + words[1..];
      } else {
        assert words == [words[0]];
      }
    }
  }

  /** Flattening keeps the words and leaves one line. */
  lemma FlatKeepsWords(text: string)
    ensures Words(Flat(text)) == Words(text) && OneLine(Flat(text))
  {
    WordsAreWords(text);
    JoinedWordsAreTheWords(Words(text));
    JoinedWordsAreOneLine(Words(text));
  }

  /** `note` is the flattened text if that is at most `limit` characters, and otherwise what there is room for, without
      white space at its end, and an ellipsis. */
  predicate IsNote(note: string, flat: string, limit: nat)
    requires limit >= 1
  {
    if |flat| <= limit then note == flat
    else
      && 1 <= |note| <= limit && note == flat[..|note| - 1] + "\U{2026}"
      && (|note| > 1 ==> !IsSpace(flat[|note| - 2]))
      && forall i :: |note| - 1 <= i < limit - 1 ==> IsSpace(flat[i])
  }

  /** What `_first_words` gives for every text and limit: its words as far as they go, on one line. */
  lemma FirstWordsAreItsNote(text: string, limit: nat)
    requires limit >= 1
    ensures IsNote(FirstWords(text, limit), Flat(text), limit)
    ensures OneLine(FirstWords(text, limit))
  {
    FlatKeepsWords(text);
    if |Flat(text)| > limit {
      CutIsNote(Flat(text), limit);
    }
  }

  lemma CutIsNote(flat: string, limit: nat)
    requires 1 <= limit < |flat| && OneLine(flat)
    ensures IsNote(RStrip(flat[..limit - 1]) + "\U{2026}", flat, limit)
    ensures OneLine(RStrip(flat[..limit - 1]) + "\U{2026}")
  {
    var cut := RStrip(flat[..limit - 1]);
    assert cut == flat[..|cut|];
  }

  // ----- the questions -----

  predicate Increasing(at: seq<nat>) {
    forall i, j :: 0 <= i < j < |at| ==> at[i] < at[j]
  }

  /** Positions in the rest of a list, as positions in the list. */
  function Shifted(at: seq<nat>): (shifted: seq<nat>)
    ensures |shifted| == |at| && forall i :: 0 <= i < |at| ==> shifted[i] == at[i] + 1
  {
    seq(|at|, i requires 0 <= i < |at| => at[i] + 1)
  }

  /** Each note is that of the user turn at its position. */
  predicate NotesAt(notes: seq<string>, turns: seq<Turn>, at: seq<nat>) {
    && Increasing(at) && |at| == |notes|
    && forall i :: 0 <= i < |at| ==>
                     && at[i] < |turns| && turns[at[i]].role == User
                     && notes[i] == FirstWords(turns[at[i]].content, NOTE_CHARS_PER_MESSAGE)
  }

  /** The notes are those of all user turns and of nothing else, in their order. */
  predicate NotesTheQuestions(turns: seq<Turn>, at: seq<nat>) {
    && NotesAt(UserNotes(turns), turns, at)
    && forall k :: 0 <= k < |turns| && turns[k].role == User ==> k in at
  }

  lemma {:induction false} NotesOfQuestions(turns: seq<Turn>) returns (at: seq<nat>)
    ensures NotesTheQuestions(turns, at)
  {
    if turns == [] {
      at := [];
    } else {
      var later := NotesOfQuestions(turns[1..]);
      at := (if turns[0].role == User then [0] else []) + Shifted(later);
      NotesShifted(UserNotes(turns[1..]), turns, later);
      if turns[0].role == User {
        NoteInFront(UserNotes(turns[1..]), turns, Shifted(later));
      } else {
        assert at == Shifted(later);
      }
      AllQuestions(turns, later, at);
    }
  }

  lemma {:induction false} NotesShifted(rest: seq<string>, turns: seq<Turn>, later: seq<nat>)
    requires turns != [] && NotesAt(rest, turns[1..], later)
    ensures NotesAt(rest, turns, Shifted(later))
  {
    forall i | 0 <= i < |later|
      ensures Shifted(later)[i] < |turns| && turns[Shifted(later)[i]] == turns[1..][later[i]]
    {
    }
  }

  lemma {:induction false} NoteInFront(rest: seq<string>, turns: seq<Turn>, later: seq<nat>)
    requires turns != [] && turns[0].role == User && NotesAt(rest, turns, later)
    requires forall i :: 0 <= i < |later| ==> later[i] > 0
    ensures NotesAt([FirstWords(turns[0].content, NOTE_CHARS_PER_MESSAGE)] + rest, turns, [0] + later)
  {
    var at, notes := [0] + later, [FirstWords(turns[0].content, NOTE_CHARS_PER_MESSAGE)] + rest;
    forall i | 0 <= i < |at|
      ensures at[i] < |turns| && turns[at[i]].role == User
      ensures notes[i] == FirstWords(turns[at[i]].content, NOTE_CHARS_PER_MESSAGE)
    {
      if i > 0 {
        assert at[i] == later[i - 1] && notes[i] == rest[i - 1];
      }
    }
  }

  lemma {:induction false} AllQuestions(turns: seq<Turn>, later: seq<nat>, at: seq<nat>)
    requires turns != [] && forall k :: 0 <= k < |turns[1..]| && turns[1..][k].role == User ==> k in later
    requires at == (if turns[0].role == User then [0] else []) + Shifted(later)
    ensures forall k :: 0 <= k < |turns| && turns[k].role == User ==> k in at
  {
    forall k | 0 <= k < |turns| && turns[k].role == User
      ensures k in at
    {
      if k > 0 {
        assert turns[1..][k - 1] == turns[k];
        var i :| 0 <= i < |later| && later[i] == k - 1;
        assert at[|at| - |later| + i] == k;
      }
    }
  }

  // ----- the lines of the block -----

  lemma {:induction false} DigitsAreOneLine(n: nat)
    ensures OneLine(Dec(n))
  {
    if n >= 10 {
      DigitsAreOneLine(n / 10);
    }
  }

  lemma {:induction false} BulletsAt(notes: seq<string>)
    ensures |Bullets(notes)| == |notes|
    ensures forall i :: 0 <= i < |notes| ==> Bullets(notes)[i] == "- " + notes[i]
  {
    if notes != [] {
      BulletsAt(notes[1..]);
      forall i | 0 <= i < |notes|
        ensures Bullets(notes)[i] == "- " + notes[i]
      {
        assert i > 0 ==> Bullets(notes)[i] == Bullets(notes[1..])[i - 1];
      }
    }
  }

  predicate AllOneLine(lines: seq<string>) {
    forall i :: 0 <= i < |lines| ==> OneLine(lines[i])
  }

  lemma OneLineConcat(a: string, b: string)
    requires OneLine(a) && OneLine(b)
    ensures OneLine(a + b)
  {
  }

  lemma HeaderIsOneLine(omitted: nat)
    ensures OneLine(Header(omitted))
  {
    DigitsAreOneLine(omitted);
    var upToCount := "[Earlier in this conversation, " + Dec(omitted);
    OneLineConcat("[Earlier in this conversation, ", Dec(omitted));
    OneLineConcat(upToCount, " message(s) were left out");
    OneLineConcat(upToCount + " message(s) were left out", " to fit the context window.]");
  }

  lemma LabelIsOneLine()
    ensures OneLine(NOTES_LEAD)
  {
    OneLineConcat("Earlier questions from ", "the user, oldest first:");
  }

  lemma ListIsOneLine(notes: seq<string>)
    requires AllOneLine(notes)
    ensures AllOneLine(NotesLines(notes))
  {
    BulletsAt(notes);
    LabelIsOneLine();
    BulletsAreOneLine(notes, Bullets(notes));
    LabelledIsOneLine(NOTES_LEAD, Bullets(notes));
  }

  lemma BulletsAreOneLine(notes: seq<string>, bullets: seq<string>)
    requires AllOneLine(notes) && |bullets| == |notes|
    requires forall i :: 0 <= i < |notes| ==> bullets[i] == "- " + notes[i]
    ensures AllOneLine(bullets)
  {
    forall i | 0 <= i < |bullets|
      ensures OneLine(bullets[i])
    {
      assert OneLine(notes[i]);
      OneLineConcat("- ", notes[i]);
    }
  }

  lemma LabelledIsOneLine(first: string, lines: seq<string>)
    requires OneLine(first) && AllOneLine(lines)
    ensures AllOneLine([first] + lines)
  {
  }

  lemma LinesAreOneLine(p: Parts, omitted: nat)
    requires p.header == Header(omitted) && (p.brief.Some? ==> OneLine(p.brief.value)) && AllOneLine(p.notes)
    ensures AllOneLine(Lines(p))
  {
    HeaderIsOneLine(omitted);
    ListIsOneLine(p.notes);
    assert AllOneLine([p.header]) && AllOneLine(BriefLines(p.brief));
  }

  lemma UserNotesAreOneLine(turns: seq<Turn>)
    ensures AllOneLine(UserNotes(turns))
  {
    var at := NotesOfQuestions(turns);
    forall i | 0 <= i < |UserNotes(turns)|
      ensures OneLine(UserNotes(turns)[i])
    {
      FirstWordsAreItsNote(turns[at[i]].content, NOTE_CHARS_PER_MESSAGE);
    }
  }

  /** The lines of a block, given the notes to choose from: the header with the number of messages left out, the
      beginning of the conversation if there is one and more than 80 characters are left, and as many of the newest
      notes as fit the rest, oldest first, under their label. */
  ghost predicate IsBlock(
    lines: seq<string>, brief: string, notes: seq<string>, omitted: nat, maxChars: int)
  {
    var room := maxChars - |Header(omitted)|;
    var b := if brief != "" && room > 80 then 1 else 0;
    && |lines| >= 1 + b
    && lines[0] == Header(omitted)
    && (b == 1 ==> lines[1] == BRIEF_LEAD + FirstWords(brief, Min(BRIEF_MAX_CHARS, room / 2)))
    && var left := room - if b == 1 then |FirstWords(brief, Min(BRIEF_MAX_CHARS, room / 2))| + 28 else 0;
       exists k ::
         && 0 <= k <= |notes| && IsFirstFitting(notes, Min(NOTES_MAX_CHARS, left), k)
         && ListsFrom(lines[1 + b..], notes[k..])
  }

  /** From the k-th on the notes fit, from none before. */
  predicate IsFirstFitting(notes: seq<string>, cap: int, k: nat) {
    && k <= |notes| && (k < |notes| ==> NotesSize(notes[k..]) <= cap)
    && forall i :: 0 <= i < k ==> NotesSize(notes[i..]) > cap
  }

  /** Nothing for no notes, and otherwise the label line and a line for each. */
  predicate ListsFrom(lines: seq<string>, listed: seq<string>) {
    if listed == [] then lines == []
    else
      && |lines| == 1 + |listed| && lines[0] == NOTES_LEAD
      && forall i :: 0 <= i < |listed| ==> lines[i + 1] == "- " + listed[i]
  }

  lemma NotesAreListed(listed: seq<string>)
    ensures ListsFrom(NotesLines(listed), listed)
  {
    BulletsAt(listed);
  }

  lemma BlockHasLines(window: Window, dropped: seq<Turn>, omitted: nat, maxChars: int)
    requires AllOneLine(window.olderNotes)
    ensures AllOneLine(Lines(NotesParts(window, dropped, omitted, maxChars)))
  {
    var p := NotesParts(window, dropped, omitted, maxChars);
    if p.brief.Some? {
      FirstWordsAreItsNote(window.brief, Min(BRIEF_MAX_CHARS, (maxChars - |Header(omitted)|) / 2));
    }
    UserNotesAreOneLine(dropped);
    LinesAreOneLine(p, omitted);
  }

  /** The block split at its line ends is exactly that. */
  lemma LinesOfTheBlock(window: Window, dropped: seq<Turn>, omitted: nat, maxChars: int)
    requires AllOneLine(window.olderNotes)
    ensures IsBlock(Split(NotesText(window, dropped, omitted, maxChars), '\n'), window.brief,
                    window.olderNotes + UserNotes(dropped), omitted, maxChars)
  {
    var p := NotesParts(window, dropped, omitted, maxChars);
    var notes := window.olderNotes + UserNotes(dropped);
    BlockHasLines(window, dropped, omitted, maxChars);
    SplitJoin(Lines(p), '\n');
    NotesAreListed(p.notes);
    PartsAreTheBlock(window, p, notes, omitted, maxChars);
  }

  lemma PartsAreTheBlock(window: Window, p: Parts, notes: seq<string>, omitted: nat, maxChars: int)
    requires p.header == Header(omitted) && ListsFrom(NotesLines(p.notes), p.notes)
    requires var room := maxChars - |p.header|;
      var brief := if window.brief != "" && room > 80
                   then Some(FirstWords(window.brief, Min(BRIEF_MAX_CHARS, room / 2))) else None;
      p.brief == brief && p.remaining == room - if brief.Some? then |brief.value| + 28 else 0
    requires p.notes == notes[NotesFrom(notes, Min(NOTES_MAX_CHARS, p.remaining), 0)..]
    ensures IsBlock(Lines(p), window.brief, notes, omitted, maxChars)
  {
    var k := NotesFrom(notes, Min(NOTES_MAX_CHARS, p.remaining), 0);
    var b := |BriefLines(p.brief)|;
    assert Lines(p)[1 + b..] == NotesLines(p.notes);
    assert IsFirstFitting(notes, Min(NOTES_MAX_CHARS, p.remaining), k);
  }

  // ----- the notes a window is loaded with -----

  predicate IsQuestion(m: Message) {
    m.role == User && Words(m.content) != []
  }

  /** Each note is that of the question at its position. */
  predicate QuestionsAt(notes: seq<string>, h: seq<Message>, at: seq<nat>) {
    && Increasing(at) && |at| == |notes|
    && forall i :: 0 <= i < |at| ==>
                     && at[i] < |h| && IsQuestion(h[at[i]])
                     && notes[i] == FirstWords(h[at[i]].content, NOTE_CHARS_PER_MESSAGE)
  }

  /** The notes are those of the questions with fewer than `limit` messages of the user behind them. */
  predicate NotesNewest(h: seq<Message>, limit: nat, notes: seq<string>, at: seq<nat>) {
    && QuestionsAt(notes, h, at)
    && AllNewer(h, limit, at)
  }

  /** And of no others. */
  predicate NotesNoOlder(h: seq<Message>, limit: nat, at: seq<nat>) {
    forall i :: 0 <= i < |at| ==> at[i] < |h| && Behind(h, at[i]) < limit
  }

  lemma {:induction false} QuestionsShifted(notes: seq<string>, h: seq<Message>, later: seq<nat>)
    requires h != [] && QuestionsAt(notes, h[1..], later)
    ensures QuestionsAt(notes, h, Shifted(later))
  {
    forall i | 0 <= i < |later|
      ensures Shifted(later)[i] < |h| && h[Shifted(later)[i]] == h[1..][later[i]]
    {
    }
  }

  lemma {:induction false} QuestionInFront(notes: seq<string>, h: seq<Message>, later: seq<nat>)
    requires h != [] && IsQuestion(h[0]) && QuestionsAt(notes, h, later)
    requires forall i :: 0 <= i < |later| ==> later[i] > 0
    ensures QuestionsAt([FirstWords(h[0].content, NOTE_CHARS_PER_MESSAGE)] + notes, h, [0] + later)
  {
    var at, all := [0] + later, [FirstWords(h[0].content, NOTE_CHARS_PER_MESSAGE)] + notes;
    forall i | 0 <= i < |at|
      ensures at[i] < |h| && IsQuestion(h[at[i]])
      ensures all[i] == FirstWords(h[at[i]].content, NOTE_CHARS_PER_MESSAGE)
    {
      if i > 0 {
        assert at[i] == later[i - 1] && all[i] == notes[i - 1];
      }
    }
  }

  function NewestNotes(h: seq<Message>, limit: nat): seq<string> {
    Notes(Newest(UserMessages(h), limit))
  }

  /** One more message in front. */
  lemma OlderMessage(h: seq<Message>, limit: nat)
    requires h != []
    ensures var rest := NewestNotes(h[1..], limit);
      NewestNotes(h, limit)
      == if IsQuestion(h[0]) && |UserMessages(h[1..])| < limit
         then [FirstWords(h[0].content, NOTE_CHARS_PER_MESSAGE)] + rest else rest
  {
    var users, later := UserMessages(h), UserMessages(h[1..]);
    if h[0].role == User {
      assert users == [h[0].content] + later;
      if |later| < limit {
        assert Newest(users, limit) == users && users[1..] == later;
      } else {
        assert Newest(users, limit) == Newest(later, limit);
      }
    }
  }

  lemma {:induction false} NewestQuestions(h: seq<Message>, limit: nat) returns (at: seq<nat>)
    ensures NotesNewest(h, limit, NewestNotes(h, limit), at) && NotesNoOlder(h, limit, at)
  {
    if h == [] {
      at := [];
    } else {
      var later := NewestQuestions(h[1..], limit);
      OlderMessage(h, limit);
      QuestionsShifted(NewestNotes(h[1..], limit), h, later);
      at := Shifted(later);
      if IsQuestion(h[0]) && |UserMessages(h[1..])| < limit {
        QuestionInFront(NewestNotes(h[1..], limit), h, Shifted(later));
        at := [0] + Shifted(later);
      }
      NoOlder(h, limit, later, at);
      AllNewerInFront(h, limit, later, at);
    }
  }

  /** How many messages of the user there are behind the k-th message. */
  function Behind(h: seq<Message>, k: nat): nat
    requires k < |h|
  {
    |UserMessages(h[k + 1..])|
  }

  lemma BehindInRest(h: seq<Message>, k: nat)
    requires 0 < k < |h|
    ensures Behind(h[1..], k - 1) == Behind(h, k) && h[1..][k - 1] == h[k]
  {
    assert h[1..][k..] == h[k + 1..];
  }

  lemma {:induction false} NoOlder(h: seq<Message>, limit: nat, later: seq<nat>, at: seq<nat>)
    requires h != [] && NotesNoOlder(h[1..], limit, later)
    requires at == Shifted(later) || (|UserMessages(h[1..])| < limit && at == [0] + Shifted(later))
    ensures NotesNoOlder(h, limit, at)
  {
    var shifted := Shifted(later);
    forall i | 0 <= i < |later|
      ensures shifted[i] < |h| && Behind(h, shifted[i]) < limit
    {
      assert Behind(h[1..], later[i]) < limit;
      BehindInRest(h, shifted[i]);
    }
    assert h[0 + 1..] == h[1..];
  }

  predicate AllNewer(h: seq<Message>, limit: nat, at: seq<nat>) {
    forall k :: 0 <= k < |h| && IsQuestion(h[k]) && Behind(h, k) < limit ==> k in at
  }

  lemma {:induction false} AllNewerInFront(h: seq<Message>, limit: nat, later: seq<nat>, at: seq<nat>)
    requires h != [] && AllNewer(h[1..], limit, later)
    requires at == (if IsQuestion(h[0]) && |UserMessages(h[1..])| < limit then [0] else []) + Shifted(later)
    ensures AllNewer(h, limit, at)
  {
    forall k | 0 <= k < |h| && IsQuestion(h[k]) && Behind(h, k) < limit
      ensures k in at
    {
      if k > 0 {
        BehindInRest(h, k);
        assert k - 1 in later;
        var i :| 0 <= i < |later| && later[i] == k - 1;
        assert at[|at| - |later| + i] == k;
      }
    }
  }

  /** What a window is loaded with, for every conversation of more than 40 messages: the notes on what comes before the
      newest 40 are those of the user's messages that are not blank, among the newest 60 there, oldest first; and the
      brief is taken from the first message of the user in the conversation. */
  lemma LoadedNotesAre(h: seq<Message>) returns (at: seq<nat>)
    requires |h| > MAX_RECENT_MESSAGES
    ensures var older := h[..|h| - 40];
      && QuestionsAt(WindowOf(h).olderNotes, older, at)
      && (forall k :: 0 <= k < |older| && IsQuestion(older[k]) ==>
                        (k in at <==> Behind(older, k) < 60))
      && AllOneLine(WindowOf(h).olderNotes)
  {
    var older := h[..|h| - 40];
    assert WindowOf(h).olderNotes == NewestNotes(older, MAX_OLDER_MESSAGES_FOR_NOTES);
    at := NewestExactly(older, MAX_OLDER_MESSAGES_FOR_NOTES);
  }

  lemma {:induction false} NewestExactly(h: seq<Message>, limit: nat) returns (at: seq<nat>)
    ensures QuestionsAt(NewestNotes(h, limit), h, at) && AllOneLine(NewestNotes(h, limit))
    ensures forall k :: 0 <= k < |h| && IsQuestion(h[k]) ==> (k in at <==> Behind(h, k) < limit)
  {
    at := NewestQuestions(h, limit);
    var notes := NewestNotes(h, limit);
    forall i | 0 <= i < |notes|
      ensures OneLine(notes[i])
    {
      FirstWordsAreItsNote(h[at[i]].content, NOTE_CHARS_PER_MESSAGE);
    }
  }

  lemma {:induction false} FirstUserMessage(h: seq<Message>, k: nat)
    requires k < |h| && h[k].role == User && forall i :: 0 <= i < k ==> h[i].role != User
    ensures UserMessages(h) != [] && UserMessages(h)[0] == h[k].content
  {
    if k > 0 {
      FirstUserMessage(h[1..], k - 1);
    }
  }

  /** The brief is that of the first message of the user in the whole conversation. */
  lemma BriefIsTheBeginning(h: seq<Message>, k: nat)
    requires |h| > MAX_RECENT_MESSAGES
    requires k < |h| && h[k].role == User && forall i :: 0 <= i < k ==> h[i].role != User
    ensures IsNote(WindowOf(h).brief, Flat(h[k].content), BRIEF_MAX_CHARS)
  {
    FirstUserMessage(h, k);
    FirstWordsAreItsNote(h[k].content, BRIEF_MAX_CHARS);
  }

  // ----- where the block stands -----

  /** Something is left out of what is sent: the notes pass has run. */
  lemma NotesNeededExactlyWhen(window: Window, system: string, budget: Budget)
    requires window.turns != []
    ensures var r := FitResult(window, system, budget);
      r.fits && r.omitted > 0 <==> NotesNeeded(window, system, budget)
  {
    var reserve := Reserve(budget, Base(window, system));
    if NotesNeeded(window, system, budget) && window.olderCount == 0 {
      LessLeavesMore(system, window.turns, budget, reserve);
    }
  }

  lemma LessLeavesMore(system: string, turns: seq<Turn>, budget: Budget, reserve: nat)
    requires turns != [] && KeepFrom(system, turns, budget, 0) > 0
    ensures KeepFrom(system, turns, Less(budget, reserve), 0) > 0
  {
    assert !Sendable(system, turns, budget, 0);
    assert !Sendable(system, turns, Less(budget, reserve), 0);
  }

  /** For every window and budget: when the current message fits and something is left out, the first turn sent is its
      own text behind a block that names exactly how many messages were left out and lists the questions among them;
      otherwise what is sent is sent as it is. */
  lemma FirstTurnCarriesTheBlock(window: Window, system: string, budget: Budget)
    requires window.turns != [] && AllOneLine(window.olderNotes)
    ensures var r := FitResult(window, system, budget);
      var k := |window.turns| - |r.turns|;
      if r.fits && r.omitted > 0 then
        exists block ::
          && r.turns[0] == window.turns[k].(content := block + "\n\n" + window.turns[k].content)
          && IsBlock(Split(block, '\n'), window.brief, window.olderNotes + UserNotes(window.turns[..k]), r.omitted,
                     Allowance(Reserve(budget, Base(window, system))))
      else r.turns == window.turns[k..]
  {
    NotesNeededExactlyWhen(window, system, budget);
    if NotesNeeded(window, system, budget) {
      TextInFront(window, system, budget);
      BlockInFront(window, system, budget);
    }
  }

  lemma TextInFront(window: Window, system: string, budget: Budget)
    requires window.turns != [] && NotesNeeded(window, system, budget)
    ensures var r, k := FitResult(window, system, budget), SentFrom(window, system, budget);
      && |window.turns| - |r.turns| == k && r.omitted == window.olderCount + k
      && r.turns[0] == window.turns[k].(content := Note(window, system, budget) + "\n\n" + window.turns[k].content)
  {
    ResultWithNotes(window, system, budget);
  }

  lemma {:induction false} BlockInFront(window: Window, system: string, budget: Budget)
    requires window.turns != [] && AllOneLine(window.olderNotes) && NotesNeeded(window, system, budget)
    ensures var k := SentFrom(window, system, budget);
      IsBlock(Split(Note(window, system, budget), '\n'), window.brief,
              window.olderNotes + UserNotes(window.turns[..k]), window.olderCount + k,
              Allowance(Reserve(budget, Base(window, system))))
  {
    var k := SentFrom(window, system, budget);
    LinesOfTheBlock(window, window.turns[..k], window.olderCount + k, Allowance(Reserve(budget, Base(window, system))));
  }
}
