/** Where `fit` exceeds its budget on the windows it is given, those `load_window` builds (chat/context_window.py): the
    exact condition on the reserve, and real conversations on its failing side. */
module BudgetOverrun {
  import opened Wrappers
  import opened Text
  import opened ContextWindow
  import opened LoadWindow

  /** The smallest reserve that covers every block of a conversation with fewer than 100,000 messages. */
  const SAFE_RESERVE := 1166

  const MESSAGES := 100000

  /** The current message fits, and what is sent is `excess` tokens over the budget (or under it). */
  predicate SentWith(w: Window, system: string, budget: int, reserve: nat, excess: int) {
    && w.turns != []
    && Within(Base(w, system), Some(budget)) && Reserve(Some(budget), Base(w, system)) == reserve
    && Estimate(system, FitResult(w, system, Some(budget)).turns) == budget + excess
  }

  /** A stored conversation is sent above its budget. */
  ghost predicate Overruns(h: seq<Message>, system: string, budget: int, reserve: nat) {
    h != [] && exists excess :: excess > 0 && SentWith(WindowOf(h), system, budget, reserve, excess)
  }

  // ----- what is loaded -----

  /** The window holds the turns of the newest messages. */
  lemma LoadedTurns(h: seq<Message>)
    requires h != []
    ensures var w, start := WindowOf(h), WindowStart(|h|);
      w.turns == TurnsOf(h[start..]) && w.olderCount == start && w.turns != []
  {
    assert h[0..] == h;
  }

  /** Turns depend on what comes after them only. */
  lemma {:induction false} TurnsOfSuffix(h: seq<Message>, j: nat)
    requires j <= |h|
    ensures TurnsOf(h)[j..] == TurnsOf(h[j..])
  {
    if j > 0 {
      TurnsOfSuffix(h[1..], j - 1);
      assert h[1..][j - 1..] == h[j..];
      assert TurnsOf(h)[j..] == TurnsOf(h[1..])[j - 1..];
    } else {
      assert h[0..] == h;
    }
  }

  // ----- no overrun from 1166 tokens of reserve on -----

  lemma FiveDigits(n: nat)
    requires n < MESSAGES
    ensures |Dec(n)| <= 5
  {
    assert Dec(99999) == Dec(9999) + ['9'];
    assert Dec(9999) == Dec(999) + ['9'];
    assert Dec(999) == Dec(99) + ['9'];
    assert Dec(99) == Dec(9) + ['9'];
    DecLengthMonotone(n, 99999);
  }

  lemma SafeReserve(h: seq<Message>, system: string, budget: int, reserve: nat)
    requires reserve >= SAFE_RESERVE && |h| < MESSAGES
    ensures !Overruns(h, system, budget, reserve)
  {
    if Overruns(h, system, budget, reserve) {
      LoadedTurns(h);
      HeaderLength(|h|);
      FiveDigits(|h|);
      SafeWindow(WindowOf(h), system, budget, |h|);
    }
  }

  lemma SafeWindow(w: Window, system: string, budget: int, n: nat)
    requires w.turns != [] && n == w.olderCount + |w.turns| && |Header(n)| <= 89
    requires Within(Base(w, system), Some(budget)) && Reserve(Some(budget), Base(w, system)) >= SAFE_RESERVE
    ensures Estimate(system, FitResult(w, system, Some(budget)).turns) <= budget
  {
    FitKeepsToItsBudget(w, system, budget);
  }

  // ----- shorter conversations need less -----

  predicate ShortNotes(notes: seq<string>) {
    forall i :: 0 <= i < |notes| ==> |notes[i]| <= NOTE_CHARS_PER_MESSAGE
  }

  lemma {:induction false} ShortNotesSize(notes: seq<string>)
    requires ShortNotes(notes)
    ensures NotesSize(notes) <= 143 * |notes|
  {
    if notes != [] {
      ShortNotesSize(notes[1..]);
    }
  }

  lemma {:induction false} UserNotesAreShort(turns: seq<Turn>)
    ensures ShortNotes(UserNotes(turns)) && |UserNotes(turns)| <= |turns|
  {
    if turns != [] {
      UserNotesAreShort(turns[1..]);
    }
  }

  /** At most one note of 140 characters for each message left out. */
  lemma NotesTakeAtMost(notes: seq<string>, cap: int, count: nat)
    requires ShortNotes(notes) && |notes| <= count && cap <= NOTES_MAX_CHARS
    ensures NotesTake(notes, cap) <= 47 + Min(NOTES_MAX_CHARS, 143 * count)
  {
    var k := NotesFrom(notes, cap, 0);
    if k < |notes| {
      assert ShortNotes(notes[k..]);
      ShortNotesSize(notes[k..]);
    }
  }

  /** The largest block of a conversation of `n` messages; only one of more than 40 has a brief. */
  function LargestBlock(n: nat): nat
    requires n >= 1
  {
    |Header(n)| + (if n > MAX_RECENT_MESSAGES then 26 + BRIEF_MAX_CHARS else 0)
    + 47 + Min(NOTES_MAX_CHARS, 143 * (n - 1))
  }

  lemma LoadedNotesAreShort(h: seq<Message>, k: nat)
    requires h != [] && k < |WindowOf(h).turns|
    ensures var w := WindowOf(h);
      var notes := w.olderNotes + UserNotes(w.turns[..k]);
      && ShortNotes(notes) && |notes| <= w.olderCount + k
      && (|h| <= MAX_RECENT_MESSAGES ==> w.brief == "")
  {
    var w := WindowOf(h);
    UserNotesAreShort(w.turns[..k]);
    var older := UserMessages(h[..WindowStart(|h|)]);
    UserMessagesAtMost(h[..WindowStart(|h|)]);
    assert |w.olderNotes| <= |older|;
  }

  lemma {:induction false} UserMessagesAtMost(h: seq<Message>)
    ensures |UserMessages(h)| <= |h|
  {
    if h != [] {
      UserMessagesAtMost(h[1..]);
    }
  }

  lemma SizeAtMost(w: Window, header: nat, notes: seq<string>, maxChars: int, count: nat)
    requires ShortNotes(notes) && |notes| <= count
    ensures SizeOf(header, BriefCharge(w, maxChars - header), notes, maxChars)
         <= header + (if w.brief == "" then 0 else 26 + BRIEF_MAX_CHARS) + 47 + Min(NOTES_MAX_CHARS, 143 * count)
  {
    var charge := BriefCharge(w, maxChars - header);
    NotesTakeAtMost(notes, Min(NOTES_MAX_CHARS, maxChars - header - charge), count);
  }

  lemma HeaderAtMost(omitted: nat, n: nat)
    requires omitted <= n
    ensures |Header(omitted)| <= |Header(n)|
  {
    HeaderLength(omitted);
    HeaderLength(n);
    DecLengthMonotone(omitted, n);
  }

  /** Stated on a window and what is known of it, the number of its messages included. */
  lemma BlockAtMost(w: Window, dropped: seq<Turn>, omitted: nat, maxChars: int, n: nat)
    requires var notes := w.olderNotes + UserNotes(dropped);
      ShortNotes(notes) && |notes| <= omitted < n && (n <= MAX_RECENT_MESSAGES ==> w.brief == "")
    ensures |NotesText(w, dropped, omitted, maxChars)| <= LargestBlock(n)
  {
    HeaderAtMost(omitted, n);
    SizeAtMost(w, |Header(omitted)|, w.olderNotes + UserNotes(dropped), maxChars, n - 1);
    BlockLengthOnInputs(w, dropped, omitted, maxChars);
  }

  lemma LoadedBlockAtMost(h: seq<Message>, k: nat, maxChars: int)
    requires h != [] && k < |WindowOf(h).turns|
    ensures var w := WindowOf(h);
      |NotesText(w, w.turns[..k], w.olderCount + k, maxChars)| <= LargestBlock(|h|)
  {
    var w := WindowOf(h);
    LoadedTurns(h);
    LoadedNotesAreShort(h, k);
    BlockAtMost(w, w.turns[..k], w.olderCount + k, maxChars, |h|);
  }

  /** A conversation of a given length: a reserve that covers its largest block - one note for each message that may be
      left out - keeps `fit` to its budget. */
  lemma ShortConversationsNeedLess(h: seq<Message>, system: string, budget: int, reserve: nat)
    requires h != [] && (LargestBlock(|h|) + 5) / 4 <= reserve
    ensures !Overruns(h, system, budget, reserve)
  {
    if Overruns(h, system, budget, reserve) {
      var w, b := WindowOf(h), Some(budget);
      LoadedTurns(h);
      if NotesNeeded(w, system, b) {
        LoadedBlockAtMost(h, SentFrom(w, system, b), Allowance(reserve));
        SmallNoteKeepsToTheBudget(w, system, budget);
      } else {
        FitEstimateBound(w, system, budget);
      }
    }
  }

  // ----- exactly which messages are sent -----

  /** With this reserve beyond the current message exactly the turns from the `k`-th on are sent, `slack` tokens below
      the rest of the budget, and notes stand in for the others. */
  predicate SentFromTurn(w: Window, system: string, reserve: nat, k: nat, slack: nat) {
    && k < |w.turns| && w.turns[k].role == User
    && Estimate(system, w.turns[k..]) == Base(w, system) + 3 * reserve - slack
    && (k > 0 ==> Estimate(system, w.turns[k - 1..]) > Base(w, system) + 3 * reserve)
    && (w.olderCount > 0 || Estimate(system, w.turns[0..]) > Base(w, system) + 4 * reserve)
  }

  function BudgetFor(w: Window, system: string, reserve: nat): int
    requires w.turns != []
  {
    Base(w, system) + 4 * reserve
  }

  lemma FirstSendable(system: string, turns: seq<Turn>, limit: Budget, k: nat)
    requires k < |turns| && Sendable(system, turns, limit, k)
    requires k > 0 ==> !Within(Estimate(system, turns[k - 1..]), limit)
    ensures KeepFrom(system, turns, limit, 0) == k
  {
    forall i | 0 <= i < k
      ensures !Sendable(system, turns, limit, i)
    {
      LongerSuffixCostsMore(system, turns, i, k - 1);
    }
  }

  lemma SomethingIsLeftOut(w: Window, system: string, reserve: nat, k: nat, slack: nat)
    requires SentFromTurn(w, system, reserve, k, slack)
    ensures NotesNeeded(w, system, Some(BudgetFor(w, system, reserve)))
  {
    var b := Some(BudgetFor(w, system, reserve));
    assert !(w.olderCount > 0) ==> !Sendable(system, w.turns, b, 0);
  }

  lemma SentFromThere(w: Window, system: string, reserve: nat, k: nat, slack: nat)
    requires reserve <= NOTES_RESERVE_TOKENS && SentFromTurn(w, system, reserve, k, slack)
    ensures var b := Some(BudgetFor(w, system, reserve));
      Reserve(b, Base(w, system)) == reserve && SentFrom(w, system, b) == k
  {
    SomethingIsLeftOut(w, system, reserve, k, slack);
    FirstSendable(system, w.turns, Some(Base(w, system) + 3 * reserve), k);
  }

  /** What is sent then, to the token: the budget plus what the block costs beyond the reserve. */
  lemma SentEstimate(w: Window, system: string, reserve: nat, k: nat, slack: nat)
    requires reserve <= NOTES_RESERVE_TOKENS && SentFromTurn(w, system, reserve, k, slack)
    requires |w.turns[k].content| % 4 == 3
    ensures var b := BudgetFor(w, system, reserve);
      var block := |NotesText(w, w.turns[..k], w.olderCount + k, Allowance(reserve))|;
      Estimate(system, FitResult(w, system, Some(b)).turns) == b + (block + 5) / 4 - reserve - slack
  {
    var b := Some(BudgetFor(w, system, reserve));
    var note := NotesText(w, w.turns[..k], w.olderCount + k, Allowance(reserve));
    NoteThere(w, system, reserve, k, slack);
    NoteCost(system, w.turns[k..], note);
  }

  lemma NoteThere(w: Window, system: string, reserve: nat, k: nat, slack: nat)
    requires reserve <= NOTES_RESERVE_TOKENS && SentFromTurn(w, system, reserve, k, slack)
    ensures var b := Some(BudgetFor(w, system, reserve));
      var note := NotesText(w, w.turns[..k], w.olderCount + k, Allowance(reserve));
      FitResult(w, system, b).turns == WithNote(w.turns[k..], note)
  {
    var b := Some(BudgetFor(w, system, reserve));
    SomethingIsLeftOut(w, system, reserve, k, slack);
    SentFromThere(w, system, reserve, k, slack);
    ResultWithNotes(w, system, b);
    assert Note(w, system, b) == NotesText(w, w.turns[..k], w.olderCount + k, Allowance(reserve));
  }

  // ----- conversations on the failing side -----

  function Filler(n: nat): (s: string)
    ensures |s| == n
  {
    seq(n, _ => 'a')
  }

  lemma {:induction false} FillerIsOneWord(n: nat)
    ensures WordLength(Filler(n)) == n
  {
    if n > 0 {
      assert Filler(n)[1..] == Filler(n - 1);
      FillerIsOneWord(n - 1);
    }
  }

  lemma FirstWordsOfFiller(n: nat, limit: nat)
    requires 1 <= n <= limit
    ensures Words(Filler(n)) == [Filler(n)] && FirstWords(Filler(n), limit) == Filler(n)
  {
    FillerIsOneWord(n);
    assert Filler(n)[n..] == "" && Filler(n)[..n] == Filler(n);
    assert Words(Filler(n)) == [Filler(n)];
  }

  function Question(length: nat): Message {
    Message(User, Filler(length), Nothing)
  }

  function Answer(length: nat): Message {
    Message(Assistant, Filler(length), Nothing)
  }

  /** What the portal stores: questions and replies in turn, each question with a text or an attachment. */
  predicate Stored(h: seq<Message>) {
    && h != [] && h[0].role == User && (Words(h[0].content) != [] || h[0].attachment != Nothing)
    && (|h| == 1 || (|h| >= 3 && h[1].role == Assistant && Stored(h[2..])))
  }

  lemma StoredQuestion(length: nat)
    requires length >= 1
    ensures Stored([Question(length)])
  {
    FirstWordsOfFiller(length, length);
  }

  lemma StoredExchange(q: Message, a: Message, h: seq<Message>)
    requires q.role == User && a.role == Assistant && (Words(q.content) != [] || q.attachment != Nothing) && Stored(h)
    ensures Stored([q, a] + h)
  {
    assert ([q, a] + h)[2..] == h;
  }

  // ----- plain messages -----

  predicate Plain(h: seq<Message>) {
    forall i :: 0 <= i < |h| ==> h[i].attachment.Nothing?
  }

  lemma {:induction false} PlainTurns(h: seq<Message>)
    requires Plain(h)
    ensures Readable(h) == 0
    ensures forall i :: 0 <= i < |h| ==> TurnsOf(h)[i] == Turn(h[i].role, h[i].content, 0)
  {
    if h != [] {
      PlainTurns(h[1..]);
    }
  }

  /** `n` questions of one letter with replies of one letter. */
  function Chat(n: nat, h: seq<Message>): seq<Message> {
    if n == 0 then h else [Question(1), Answer(1)] + Chat(n - 1, h)
  }

  lemma {:induction false} ChatShape(n: nat, h: seq<Message>)
    requires Plain(h) && Stored(h)
    ensures var chat := Chat(n, h);
      && |chat| == 2 * n + |h| && Plain(chat) && Stored(chat) && chat[|chat| - 1] == h[|h| - 1]
  {
    if n > 0 {
      ChatShape(n - 1, h);
      FirstWordsOfFiller(1, 1);
      StoredExchange(Question(1), Answer(1), Chat(n - 1, h));
    }
  }

  // ----- short conversations: everything fits the window -----

  lemma ShortWindow(h: seq<Message>)
    requires |h| <= MAX_RECENT_MESSAGES
    ensures WindowOf(h) == Window(TurnsOf(h), 0, "", [])
  {
    assert WindowStart(|h|) == 0;
  }

  lemma BaseOfLast(w: Window, system: string)
    requires w.turns != []
    ensures Base(w, system) == Estimate(system, w.turns[|w.turns| - 1..])
  {
    assert w.turns[|w.turns| - 1..] == [w.turns[|w.turns| - 1]];
  }

  /** The first exchange is left out, the rest is sent. */
  function Five(opening: Message, reserve: nat): seq<Message>
    requires reserve >= 3
  {
    [opening, Answer(4 * reserve), Question(4 * (3 * reserve - 8) + 3), Answer(3), Question(3)]
  }

  lemma FiveTurns(opening: Message, reserve: nat)
    requires reserve >= 3
    ensures var h := Five(opening, reserve);
      var turns := TurnsOf(h);
      && |turns| == 5 && turns[0] == TurnFor(opening, true)
      && forall i :: 1 <= i < 5 ==> turns[i] == Turn(h[i].role, h[i].content, 0)
  {
    var h := Five(opening, reserve);
    PlainTurns(h[1..]);
    assert TurnsOf(h) == [TurnFor(opening, true)] + TurnsOf(h[1..]);
  }

  /** Five turns of these costs: the last three take exactly what the reserve leaves. */
  lemma FiveAreSentFromThird(w: Window, system: string, reserve: nat)
    requires reserve >= 3 && |w.turns| == 5 && w.turns[2].role == User
    requires TurnTokens(w.turns[1]) == reserve + 4 && TurnTokens(w.turns[2]) == 3 * reserve - 4
    requires TurnTokens(w.turns[3]) == 4 && TurnTokens(w.turns[4]) == 4
    ensures SentFromTurn(w, system, reserve, 2, 0)
  {
    SuffixCost(system, w.turns, 0);
    SuffixCost(system, w.turns, 1);
    SuffixCost(system, w.turns, 2);
    SuffixCost(system, w.turns, 3);
    BaseOfLast(w, system);
  }

  lemma FiveCosts(opening: Message, system: string, reserve: nat)
    requires reserve >= 3 && opening.role == User
    ensures var w := WindowOf(Five(opening, reserve));
      && |w.turns| == 5 && w.olderCount == 0 && w.olderNotes == [] && w.brief == ""
      && w.turns[0] == TurnFor(opening, true) && w.turns[1].role == Assistant
      && |w.turns[2].content| % 4 == 3
      && SentFromTurn(w, system, reserve, 2, 0)
  {
    ShortWindow(Five(opening, reserve));
    FiveTurns(opening, reserve);
    FiveAreSentFromThird(Window(TurnsOf(Five(opening, reserve)), 0, "", []), system, reserve);
  }

  lemma OneUserNote(a: Turn, b: Turn)
    requires a.role == User && b.role == Assistant
    ensures UserNotes([a, b]) == [FirstWords(a.content, NOTE_CHARS_PER_MESSAGE)]
  {
    assert [a, b][1..] == [b] && [b][1..] == [];
    assert UserNotes([b]) == UserNotes([]) == [];
  }

  lemma NotesTakeOne(note: string, cap: int)
    ensures NotesTake([note], cap) == if |note| + 3 <= cap then |note| + 50 else 0
  {
    assert [note][0..] == [note] && [note][1..] == [];
    assert NotesSize([note]) == |note| + 3;
  }

  lemma FiveBlock(opening: Message, system: string, reserve: nat, take: nat) returns (w: Window)
    requires reserve >= 3 && opening.role == User
    requires take == NotesTake([FirstWords(TurnFor(opening, true).content, NOTE_CHARS_PER_MESSAGE)],
                               Min(NOTES_MAX_CHARS, 4 * reserve - 85))
    ensures w == WindowOf(Five(opening, reserve))
    ensures SentFromTurn(w, system, reserve, 2, 0) && |w.turns[2].content| % 4 == 3
    ensures |NotesText(w, w.turns[..2], w.olderCount + 2, Allowance(reserve))| == 85 + take
  {
    w := WindowOf(Five(opening, reserve));
    FiveCosts(opening, system, reserve);
    FirstTwoBlock(w, opening, reserve, take);
  }

  lemma FirstTwoBlock(w: Window, opening: Message, reserve: nat, take: nat)
    requires reserve > 0 && w.olderCount == 0 && w.brief == "" && w.olderNotes == []
    requires |w.turns| >= 2 && opening.role == User
    requires w.turns[0] == TurnFor(opening, true) && w.turns[1].role == Assistant
    requires take == NotesTake([FirstWords(TurnFor(opening, true).content, NOTE_CHARS_PER_MESSAGE)],
                               Min(NOTES_MAX_CHARS, 4 * reserve - 85))
    ensures |NotesText(w, w.turns[..2], w.olderCount + 2, Allowance(reserve))| == 85 + take
  {
    NotesOfTheFirstTwo(w, opening);
    var note := FirstWords(TurnFor(opening, true).content, NOTE_CHARS_PER_MESSAGE);
    OneNoteBlock(w, w.turns[..2], w.olderCount + 2, note, reserve, take);
  }

  lemma OneNoteBlock(w: Window, dropped: seq<Turn>, omitted: nat, note: string, reserve: nat, take: nat)
    requires reserve > 0 && omitted == 2 && w.brief == "" && w.olderNotes + UserNotes(dropped) == [note]
    requires take == NotesTake([note], Min(NOTES_MAX_CHARS, 4 * reserve - 85))
    ensures |NotesText(w, dropped, omitted, Allowance(reserve))| == 85 + take
  {
    PlainBlock(w, dropped, omitted, reserve, take);
  }

  lemma NotesOfTheFirstTwo(w: Window, opening: Message)
    requires |w.turns| >= 2 && w.olderNotes == [] && opening.role == User
    requires w.turns[0] == TurnFor(opening, true) && w.turns[1].role == Assistant
    ensures w.olderNotes + UserNotes(w.turns[..2])
         == [FirstWords(TurnFor(opening, true).content, NOTE_CHARS_PER_MESSAGE)]
  {
    assert w.turns[..2] == [w.turns[0], w.turns[1]];
    OneUserNote(w.turns[0], w.turns[1]);
    assert [] + UserNotes(w.turns[..2]) == UserNotes(w.turns[..2]);
  }

  lemma SizeIs(header: nat, charge: nat, notes: seq<string>, maxChars: int, take: nat)
    requires take == NotesTake(notes, Min(NOTES_MAX_CHARS, maxChars - header - charge))
    ensures SizeOf(header, charge, notes, maxChars) == header + BriefTakes(charge) + take
  {
  }

  lemma BlockSizeBy(
    w: Window, dropped: seq<Turn>, omitted: nat, maxChars: int, header: nat, charge: nat, notes: seq<string>)
    requires header == |Header(omitted)| && charge == BriefCharge(w, maxChars - header)
    requires notes == w.olderNotes + UserNotes(dropped)
    ensures BlockSize(w, dropped, omitted, maxChars) == SizeOf(header, charge, notes, maxChars)
  {
  }

  lemma BlockIs(
    w: Window, dropped: seq<Turn>, omitted: nat, maxChars: int, header: nat, charge: nat, notes: seq<string>, take: nat)
    requires header == |Header(omitted)| && charge == BriefCharge(w, maxChars - header)
    requires notes == w.olderNotes + UserNotes(dropped)
    requires take == NotesTake(notes, Min(NOTES_MAX_CHARS, maxChars - header - charge))
    ensures |NotesText(w, dropped, omitted, maxChars)| == header + BriefTakes(charge) + take
  {
    BlockLengthOnInputs(w, dropped, omitted, maxChars);
    BlockSizeBy(w, dropped, omitted, maxChars, header, charge, notes);
    SizeIs(header, charge, notes, maxChars, take);
  }

  /** The block of a window without a brief. */
  lemma PlainBlock(w: Window, dropped: seq<Turn>, omitted: nat, reserve: nat, take: nat)
    requires w.brief == "" && reserve > 0
    requires var header := 84 + |Dec(omitted)|;
      take == NotesTake(w.olderNotes + UserNotes(dropped), Min(NOTES_MAX_CHARS, 4 * reserve - header))
    ensures |NotesText(w, dropped, omitted, Allowance(reserve))| == 84 + |Dec(omitted)| + take
  {
    HeaderLength(omitted);
    BlockIs(w, dropped, omitted, Allowance(reserve), 84 + |Dec(omitted)|, 0, w.olderNotes + UserNotes(dropped), take);
  }

  lemma TurnsSent(w: Window, system: string, reserve: nat, k: nat, slack: nat, block: nat)
    requires reserve <= NOTES_RESERVE_TOKENS && SentFromTurn(w, system, reserve, k, slack)
    requires |w.turns[k].content| % 4 == 3
    requires |NotesText(w, w.turns[..k], w.olderCount + k, Allowance(reserve))| == block
    ensures SentWith(w, system, BudgetFor(w, system, reserve), reserve, (block + 5) / 4 - reserve - slack)
  {
    SentEstimate(w, system, reserve, k, slack);
    SentFromThere(w, system, reserve, k, slack);
  }

  /** A stored conversation of at most 100 messages that is sent `excess` tokens over its budget. */
  predicate Witness(h: seq<Message>, system: string, budget: int, reserve: nat, excess: int) {
    Stored(h) && |h| <= 100 && SentWith(WindowOf(h), system, budget, reserve, excess)
  }

  lemma FiveIsStored(opening: Message, reserve: nat)
    requires reserve >= 3 && opening.role == User && (Words(opening.content) != [] || opening.attachment != Nothing)
    ensures Stored(Five(opening, reserve))
  {
    var question := Question(4 * (3 * reserve - 8) + 3);
    var last := [Question(3)];
    StoredQuestion(3);
    FirstWordsOfFiller(|question.content|, |question.content|);
    StoredExchange(question, Answer(3), last);
    StoredExchange(opening, Answer(4 * reserve), [question, Answer(3)] + last);
    assert Five(opening, reserve) == [opening, Answer(4 * reserve)] + ([question, Answer(3)] + last);
  }

  lemma FiveSent(opening: Message, system: string, reserve: nat, take: nat) returns (b: int)
    requires 3 <= reserve <= NOTES_RESERVE_TOKENS && opening.role == User
    requires Words(opening.content) != [] || opening.attachment != Nothing
    requires take == NotesTake([FirstWords(TurnFor(opening, true).content, NOTE_CHARS_PER_MESSAGE)],
                               Min(NOTES_MAX_CHARS, 4 * reserve - 85))
    ensures Witness(Five(opening, reserve), system, b, reserve, (90 + take) / 4 - reserve)
  {
    var w := FiveBlock(opening, system, reserve, take);
    FiveIsStored(opening, reserve);
    TurnsSent(w, system, reserve, 2, 0, 85 + take);
    b := BudgetFor(w, system, reserve);
  }

  /** From 3 to 21 tokens of reserve the header alone is too long. */
  lemma HeaderOverruns(system: string, reserve: nat) returns (h: seq<Message>, b: int)
    requires 3 <= reserve <= 21
    ensures Witness(h, system, b, reserve, 22 - reserve)
  {
    OpeningNote(1);
    NotesTakeOne(FirstWords(TurnFor(Opening(1), true).content, NOTE_CHARS_PER_MESSAGE), 4 * reserve - 85);
    h := Five(Opening(1), reserve);
    b := FiveSent(Opening(1), system, reserve, 0);
  }

  /** An opening message whose note takes the `n` characters that are left: for none, a picture without a text. */
  function Opening(n: nat): Message {
    if n == 0 then Message(User, "", Image("photo.png", true)) else Question(n)
  }

  lemma OpeningNote(n: nat)
    requires n <= NOTE_CHARS_PER_MESSAGE
    ensures |FirstWords(TurnFor(Opening(n), true).content, NOTE_CHARS_PER_MESSAGE)| == n
    ensures Opening(n).role == User && (Words(Opening(n).content) != [] || Opening(n).attachment != Nothing)
  {
    if n > 0 {
      FirstWordsOfFiller(n, NOTE_CHARS_PER_MESSAGE);
    }
  }

  /** From 22 to 57 tokens one note can take all that is left, and the label line is 13 tokens too many. */
  lemma OneNoteOverruns(system: string, reserve: nat) returns (h: seq<Message>, b: int)
    requires 22 <= reserve <= 57
    ensures Witness(h, system, b, reserve, 13)
  {
    var n := 4 * reserve - 88;
    OpeningNote(n);
    NotesTakeOne(FirstWords(TurnFor(Opening(n), true).content, NOTE_CHARS_PER_MESSAGE), n + 3);
    h := Five(Opening(n), reserve);
    b := FiveSent(Opening(n), system, reserve, n + 50);
  }

  /** Two tokens of reserve or none: the current message is sent alone, behind a header that is too long. */
  function Three(): seq<Message> {
    [Question(1), Answer(16), Question(3)]
  }

  lemma ThreeCosts(system: string, reserve: nat)
    requires reserve <= 2
    ensures Stored(Three())
    ensures var w := WindowOf(Three());
      && |w.turns| == 3 && w.olderCount == 0 && |w.turns[2].content| == 3 && w.turns[2].images == 0
      && SentFromTurn(w, system, reserve, 2, 3 * reserve)
  {
    var h := Three();
    ShortWindow(h);
    PlainTurns(h);
    SuffixCost(system, TurnsOf(h), 0);
    SuffixCost(system, TurnsOf(h), 1);
    BaseOfLast(WindowOf(h), system);
    StoredQuestion(3);
    FirstWordsOfFiller(1, 1);
    StoredExchange(Question(1), Answer(16), [Question(3)]);
    assert h == [Question(1), Answer(16)] + [Question(3)];
  }

  lemma HeaderAloneOverruns(w: Window, system: string, reserve: nat) returns (b: int, excess: nat)
    requires reserve <= 2 && |w.turns| == 3 && |w.turns[2].content| == 3
    requires SentFromTurn(w, system, reserve, 2, 3 * reserve)
    ensures excess >= 22 - 4 * reserve && SentWith(w, system, b, reserve, excess)
  {
    var block := |NotesText(w, w.turns[..2], w.olderCount + 2, Allowance(reserve))|;
    BlockAtLeastHeader(w, w.turns[..2], w.olderCount + 2, reserve);
    TurnsSent(w, system, reserve, 2, 3 * reserve, block);
    b := BudgetFor(w, system, reserve);
    excess := (block + 5) / 4 - 4 * reserve;
  }

  lemma TinyReserveOverruns(system: string, reserve: nat) returns (h: seq<Message>, b: int, excess: nat)
    requires reserve <= 2
    ensures h == Three() && excess >= 22 - 4 * reserve && Witness(h, system, b, reserve, excess)
  {
    h := Three();
    ThreeCosts(system, reserve);
    b, excess := HeaderAloneOverruns(WindowOf(h), system, reserve);
  }

  lemma BlockAtLeastHeader(w: Window, dropped: seq<Turn>, omitted: nat, reserve: nat)
    ensures |NotesText(w, dropped, omitted, Allowance(reserve))| >= 85
  {
    BlockLengthOnInputs(w, dropped, omitted, Allowance(reserve));
    HeaderLength(omitted);
  }

  // ----- long conversations: older messages are only noted -----

  /** Questions with one-letter replies, in front of `h`. */
  function Asked(texts: seq<string>, h: seq<Message>): seq<Message> {
    if texts == [] then h else [Message(User, texts[0], Nothing), Answer(1)] + Asked(texts[1..], h)
  }

  lemma {:induction false} AskedMessages(texts: seq<string>, h: seq<Message>)
    ensures |Asked(texts, h)| == 2 * |texts| + |h|
    ensures UserMessages(Asked(texts, h)) == texts + UserMessages(h)
  {
    if texts != [] {
      var rest := Asked(texts[1..], h);
      AskedMessages(texts[1..], h);
      var all := Asked(texts, h);
      assert all[1..] == [Answer(1)] + rest && all[1..][1..] == rest;
      assert texts == [texts[0]] + texts[1..];
    }
  }

  lemma {:induction false} AskedSplit(texts: seq<string>, text: string, h: seq<Message>)
    ensures Asked(texts + [text], h) == Asked(texts, [Message(User, text, Nothing)]) + ([Answer(1)] + h)
  {
    if texts == [] {
      assert [text][1..] == [];
    } else {
      assert (texts + [text])[1..] == texts[1..] + [text];
      AskedSplit(texts[1..], text, h);
    }
  }

  lemma {:induction false} AskedIsStored(texts: seq<string>, h: seq<Message>)
    requires Stored(h) && forall i :: 0 <= i < |texts| ==> Words(texts[i]) != []
    ensures Stored(Asked(texts, h))
  {
    if texts != [] {
      AskedIsStored(texts[1..], h);
      StoredExchange(Message(User, texts[0], Nothing), Answer(1), Asked(texts[1..], h));
    }
  }

  /** A window of 40 messages behind older ones. */
  lemma LoadedAs(older: seq<Message>, window: seq<Message>)
    requires |window| == MAX_RECENT_MESSAGES && UserMessages(older) != []
    ensures var w := WindowOf(older + window);
      && w.turns == TurnsOf(window) && w.olderCount == |older|
      && w.brief == FirstWords(UserMessages(older)[0], BRIEF_MAX_CHARS)
      && w.olderNotes == Notes(Newest(UserMessages(older), MAX_OLDER_MESSAGES_FOR_NOTES))
  {
    var h := older + window;
    assert WindowStart(|h|) == |older| && older != [];
    assert h[..|older|] == older && h[|older|..] == window;
    UserMessagesConcat(older, window);
  }

  // ----- notes that fill their cap exactly -----

  /** `n` texts that make notes of full length. */
  function Texts(n: nat): seq<string> {
    if n == 0 then [] else [Filler(NOTE_CHARS_PER_MESSAGE)] + Texts(n - 1)
  }

  lemma {:induction false} TextsSize(n: nat, notes: seq<string>)
    ensures |Texts(n)| == n && NotesSize(Texts(n) + notes) == 143 * n + NotesSize(notes)
    ensures forall i :: 0 <= i < n ==> Texts(n)[i] == Filler(NOTE_CHARS_PER_MESSAGE)
  {
    if n > 0 {
      TextsSize(n - 1, notes);
      assert (Texts(n) + notes)[1..] == Texts(n - 1) + notes;
    } else {
      assert Texts(0) + notes == notes;
    }
  }

  /** Short plain texts are their own notes. */
  predicate OwnNotes(texts: seq<string>) {
    forall i :: 0 <= i < |texts| ==> 1 <= |texts[i]| <= NOTE_CHARS_PER_MESSAGE && texts[i] == Filler(|texts[i]|)
  }

  lemma {:induction false} NotesOfOwn(texts: seq<string>)
    requires OwnNotes(texts)
    ensures Notes(texts) == texts
    ensures forall i :: 0 <= i < |texts| ==> Words(texts[i]) != []
  {
    if texts != [] {
      FirstWordsOfFiller(|texts[0]|, NOTE_CHARS_PER_MESSAGE);
      NotesOfOwn(texts[1..]);
      assert texts == [texts[0]] + texts[1..];
    }
  }

  lemma {:induction false} NotesConcat(a: seq<string>, b: seq<string>)
    ensures Notes(a + b) == Notes(a) + Notes(b)
  {
    if a == [] {
      assert a + b == b;
    } else {
      assert (a + b)[1..] == a[1..] + b;
      NotesConcat(a[1..], b);
    }
  }

  /** The newest notes that fill the cap exactly are the ones listed. */
  lemma ExactFit(front: seq<string>, back: seq<string>, cap: int)
    requires back != [] && NotesSize(back) == cap
    ensures NotesTake(front + back, cap) == 47 + cap
  {
    var notes, j := front + back, |front|;
    assert notes[j..] == back;
    forall i | 0 <= i < j
      ensures NotesSize(notes[i..]) > cap
    {
      LongerNotesCostMore(notes, i, j - 1);
      assert notes[j - 1..][1..] == notes[j..];
    }
    assert NotesFrom(notes, cap, 0) == j;
  }

  /** Full notes and two shorter ones, `cap` characters with their markup. */
  function Filling(cap: nat): seq<string>
    requires 8 <= cap <= NOTES_MAX_CHARS
  {
    var q := (cap - 8) / 143;
    var y := cap - 143 * q;
    Texts(q) + [Filler(y - y / 2 - 3), Filler(y / 2 - 3)]
  }

  lemma TwoNotes(a: string, b: string)
    ensures NotesSize([a, b]) == |a| + |b| + 6
  {
    assert [a, b][1..] == [b] && [b][1..] == [];
    assert NotesSize([b]) == |b| + 3;
  }

  lemma FillingFills(cap: nat)
    requires 8 <= cap <= NOTES_MAX_CHARS
    ensures var back := Filling(cap);
      NotesSize(back) == cap && OwnNotes(back) && 2 <= |back| <= 22
  {
    var q := (cap - 8) / 143;
    var y := cap - 143 * q;
    var last := [Filler(y - y / 2 - 3), Filler(y / 2 - 3)];
    TextsSize(q, last);
    TwoNotes(last[0], last[1]);
  }

  /** Questions that make full notes, and a filling: 29 of them. */
  function Texts29(cap: nat): (texts: seq<string>)
    requires 8 <= cap <= NOTES_MAX_CHARS
    ensures |texts| == 29
  {
    FillingFills(cap);
    TextsSize(29 - |Filling(cap)|, []);
    Texts(29 - |Filling(cap)|) + Filling(cap)
  }

  lemma OpeningAndOwn(opening: string, middle: seq<string>, back: seq<string>)
    requires OwnNotes(middle + back)
    ensures Notes([opening] + (middle + back)) == (Notes([opening]) + middle) + back
  {
    NotesOfOwn(middle + back);
    NotesConcat([opening], middle + back);
  }

  lemma TextsAreOwn(cap: nat)
    requires 8 <= cap <= NOTES_MAX_CHARS
    ensures OwnNotes(Texts29(cap))
  {
    FillingFills(cap);
    TextsSize(29 - |Filling(cap)|, []);
  }

  // ----- the long conversations -----

  function Older(opening: Message, cap: nat): seq<Message>
    requires 8 <= cap <= NOTES_MAX_CHARS
  {
    [opening, Answer(1)] + Asked(Texts29(cap)[..28], [Message(User, Texts29(cap)[28], Nothing)])
  }

  /** 99 messages: the first 59 are only noted, a reply is left out of the window, the other 39 are sent. */
  function Long(opening: Message, cap: nat, tail: seq<Message>): seq<Message>
    requires 8 <= cap <= NOTES_MAX_CHARS
  {
    Older(opening, cap) + ([Answer(1)] + tail)
  }

  lemma OlderQuestions(opening: Message, cap: nat)
    requires 8 <= cap <= NOTES_MAX_CHARS && opening.role == User
    ensures |Older(opening, cap)| == 59
    ensures UserMessages(Older(opening, cap)) == [opening.content] + Texts29(cap)
  {
    var texts := Texts29(cap);
    var last := [Message(User, texts[28], Nothing)];
    AskedMessages(texts[..28], last);
    assert last[1..] == [] && UserMessages(last) == [texts[28]];
    assert texts[..28] + [texts[28]] == texts;
    UserMessagesConcat([opening, Answer(1)], Asked(texts[..28], last));
    assert [opening, Answer(1)][1..] == [Answer(1)] && [Answer(1)][1..] == [];
    assert UserMessages([Answer(1)]) == [];
  }

  lemma LongIsStored(opening: Message, cap: nat, tail: seq<Message>)
    requires 8 <= cap <= NOTES_MAX_CHARS && Stored(tail) && |tail| == 39
    requires opening.role == User && (Words(opening.content) != [] || opening.attachment != Nothing)
    ensures Stored(Long(opening, cap, tail)) && |Long(opening, cap, tail)| == 99
  {
    OlderQuestions(opening, cap);
    OlderIsStored(opening, cap, tail);
  }

  lemma OlderIsStored(opening: Message, cap: nat, tail: seq<Message>)
    requires 8 <= cap <= NOTES_MAX_CHARS && Stored(tail)
    requires opening.role == User && (Words(opening.content) != [] || opening.attachment != Nothing)
    ensures Stored(Older(opening, cap) + ([Answer(1)] + tail))
  {
    var texts := Texts29(cap);
    TextsAreOwn(cap);
    NotesOfOwn(texts);
    AskedIsStored(texts, tail);
    StoredExchange(opening, Answer(1), Asked(texts, tail));
    OlderAndTail(opening, cap, tail);
  }

  lemma OlderAndTail(opening: Message, cap: nat, tail: seq<Message>)
    requires 8 <= cap <= NOTES_MAX_CHARS
    ensures Older(opening, cap) + ([Answer(1)] + tail) == [opening, Answer(1)] + Asked(Texts29(cap), tail)
  {
    var texts := Texts29(cap);
    assert texts[..28] + [texts[28]] == texts;
    AskedSplit(texts[..28], texts[28], tail);
  }

  lemma LongWindow(opening: Message, cap: nat, tail: seq<Message>) returns (w: Window)
    requires 8 <= cap <= NOTES_MAX_CHARS && |tail| == 39 && opening.role == User
    ensures w == WindowOf(Long(opening, cap, tail))
    ensures w.turns == TurnsOf([Answer(1)] + tail) && w.olderCount == 59
    ensures w.brief == FirstWords(opening.content, BRIEF_MAX_CHARS)
    ensures w.olderNotes == Notes([opening.content] + Texts29(cap))
  {
    var older, window := Older(opening, cap), [Answer(1)] + tail;
    w := WindowOf(older + window);
    OlderQuestions(opening, cap);
    LoadedAs(older, window);
  }

  /** The block of a long conversation, given the brief's charge. */
  lemma LongBlock(w: Window, k: nat, reserve: nat, charge: nat, cap: nat, notes: seq<string>)
    requires k <= |w.turns| && 10 <= w.olderCount + k <= 99
    requires w.olderNotes + UserNotes(w.turns[..k]) == notes && NotesTake(notes, cap) == 47 + cap
    requires charge == BriefCharge(w, Allowance(reserve) - 86)
    requires cap == Min(NOTES_MAX_CHARS, Allowance(reserve) - 86 - charge)
    ensures |NotesText(w, w.turns[..k], w.olderCount + k, Allowance(reserve))| == 133 + BriefTakes(charge) + cap
  {
    var omitted := w.olderCount + k;
    TwoDigits(omitted);
    BlockIs(w, w.turns[..k], omitted, Allowance(reserve), 86, charge, notes, 47 + cap);
  }

  lemma TwoDigits(n: nat)
    requires 10 <= n <= 99
    ensures |Header(n)| == 86
  {
    HeaderLength(n);
    assert Dec(n) == Dec(n / 10) + Dec(n % 10);
  }

  lemma SameBriefSameCharge(v: Window, w: Window, room: int)
    requires v.brief == w.brief
    ensures BriefCharge(v, room) == BriefCharge(w, room)
  {
  }

  // ----- of which little is sent -----

  function Ones(n: nat): seq<string> {
    if n == 0 then [] else [Filler(1)] + Ones(n - 1)
  }

  lemma {:induction false} OnesSize(n: nat)
    ensures NotesSize(Ones(n)) == 4 * n
  {
    if n > 0 {
      OnesSize(n - 1);
      assert Ones(n)[1..] == Ones(n - 1);
    }
  }

  lemma {:induction false} NotesSizeConcat(a: seq<string>, b: seq<string>)
    ensures NotesSize(a + b) == NotesSize(a) + NotesSize(b)
  {
    if a == [] {
      assert a + b == b;
    } else {
      assert (a + b)[1..] == a[1..] + b;
      NotesSizeConcat(a[1..], b);
    }
  }

  /** A short exchange leaves one short note. */
  lemma ExchangeNote(rest: seq<Turn>)
    ensures UserNotes([Turn(User, Filler(1), 0), Turn(Assistant, Filler(1), 0)] + rest) == [Filler(1)] + UserNotes(rest)
  {
    var turns := [Turn(User, Filler(1), 0), Turn(Assistant, Filler(1), 0)] + rest;
    FirstWordsOfFiller(1, NOTE_CHARS_PER_MESSAGE);
    assert turns[1..] == [Turn(Assistant, Filler(1), 0)] + rest && turns[1..][1..] == rest;
  }

  /** The notes of `n` short exchanges. */
  lemma {:induction false} ChatNotes(n: nat, kept: seq<Message>)
    ensures |TurnsOf(Chat(n, kept))| == 2 * n + |kept|
    ensures UserNotes(TurnsOf(Chat(n, kept))[..2 * n]) == Ones(n)
    ensures TurnsOf(Chat(n, kept))[2 * n..] == TurnsOf(kept)
  {
    if n > 0 {
      var turns, rest := TurnsOf(Chat(n, kept)), TurnsOf(Chat(n - 1, kept));
      ChatNotes(n - 1, kept);
      ChatTurns(n, kept);
      ExchangeNote(rest[..2 * n - 2]);
      assert turns[..2 * n] == [Turn(User, Filler(1), 0), Turn(Assistant, Filler(1), 0)] + rest[..2 * n - 2];
      assert turns[2 * n..] == rest[2 * n - 2..];
    }
  }

  lemma NextTurn(m: Message, h: seq<Message>)
    requires m.attachment.Nothing?
    ensures TurnsOf([m] + h) == [Turn(m.role, m.content, 0)] + TurnsOf(h)
  {
    assert ([m] + h)[1..] == h;
  }

  lemma ChatTurns(n: nat, kept: seq<Message>)
    requires n > 0
    ensures TurnsOf(Chat(n, kept))
         == [Turn(User, Filler(1), 0), Turn(Assistant, Filler(1), 0)] + TurnsOf(Chat(n - 1, kept))
  {
    var rest := Chat(n - 1, kept);
    NextTurn(Answer(1), rest);
    NextTurn(Question(1), [Answer(1)] + rest);
    assert Chat(n, kept) == [Question(1)] + ([Answer(1)] + rest);
  }

  /** Notes that fill their cap, the newest `n` of them short ones. */
  lemma NotesAndOnes(opening: string, cap: nat, n: nat)
    requires 8 <= cap <= NOTES_MAX_CHARS
    ensures NotesTake(Notes([opening] + Texts29(cap)) + Ones(n), cap + 4 * n) == 47 + cap + 4 * n
  {
    FillingFills(cap);
    TextsAreOwn(cap);
    var middle, back := Texts(29 - |Filling(cap)|), Filling(cap);
    OpeningAndOwn(opening, middle, back);
    FillingAndOnes(Notes([opening]) + middle, back, cap, n);
  }

  lemma FillingAndOnes(front: seq<string>, back: seq<string>, cap: nat, n: nat)
    requires back != [] && NotesSize(back) == cap
    ensures NotesTake((front + back) + Ones(n), cap + 4 * n) == 47 + cap + 4 * n
  {
    OnesSize(n);
    NotesSizeConcat(back, Ones(n));
    assert (front + back) + Ones(n) == front + (back + Ones(n));
    ExactFit(front, back + Ones(n), cap + 4 * n);
  }

  /** `n` short exchanges and the messages that are sent, 39 in all. */
  predicate IsChatAnd(n: nat, kept: seq<Message>) {
    kept != [] && 2 * n + |kept| == 39 && Plain(kept) && Stored(kept)
  }

  lemma ChatAndIs(n: nat, kept: seq<Message>)
    requires IsChatAnd(n, kept)
    ensures |Chat(n, kept)| == 39 && Plain(Chat(n, kept)) && Stored(Chat(n, kept))
  {
    ChatShape(n, kept);
  }

  /** The window holds a reply, the short exchanges and what is sent. */
  lemma ChatWindow(n: nat, kept: seq<Message>, turns: seq<Turn>)
    requires IsChatAnd(n, kept) && turns == TurnsOf([Answer(1)] + Chat(n, kept))
    ensures |turns| == 40 && turns[2 * n + 1..] == TurnsOf(kept) && UserNotes(turns[..2 * n + 1]) == Ones(n)
  {
    var rest := TurnsOf(Chat(n, kept));
    ChatAndIs(n, kept);
    ChatNotes(n, kept);
    NextTurn(Answer(1), Chat(n, kept));
    assert turns == [Turn(Assistant, Filler(1), 0)] + rest;
    assert turns[..2 * n + 1] == [Turn(Assistant, Filler(1), 0)] + rest[..2 * n];
    assert turns[..2 * n + 1][1..] == rest[..2 * n];
    assert turns[2 * n + 1..] == rest[2 * n..];
  }

  /** What of it is sent, when that takes just what the reserve leaves. */
  lemma {:induction false} ChatCosts(w: Window, n: nat, kept: seq<Message>, system: string, reserve: nat)
    requires IsChatAnd(n, kept) && w.turns == TurnsOf([Answer(1)] + Chat(n, kept)) && w.olderCount > 0
    requires TakesTheRest(kept, system, reserve)
    ensures |w.turns| == 40 && SentFromTurn(w, system, reserve, 2 * n + 1, 0)
    ensures |w.turns[2 * n + 1].content| % 4 == 3
  {
    var k := 2 * n + 1;
    ChatWindow(n, kept, w.turns);
    PlainTurns(kept);
    assert w.turns[k..][0] == w.turns[k] && w.turns[k..][|kept| - 1..] == w.turns[39..];
    BaseOfLast(w, system);
    SuffixCost(system, w.turns, 2 * n);
  }

  predicate Opens(opening: Message) {
    opening.role == User && (Words(opening.content) != [] || opening.attachment != Nothing)
  }

  /** The brief's charge, and the characters that leaves for the notes. */
  predicate Room(w: Window, reserve: nat, charge: nat, cap: nat) {
    && charge == BriefCharge(w, Allowance(reserve) - 86)
    && cap == Min(NOTES_MAX_CHARS, Allowance(reserve) - 86 - charge)
  }

  lemma {:induction false} ChatBlock(
    w: Window, n: nat, kept: seq<Message>, notes: seq<string>, reserve: nat, charge: nat, cap: nat)
    requires IsChatAnd(n, kept) && w.turns == TurnsOf([Answer(1)] + Chat(n, kept)) && w.olderCount == 59
    requires Room(w, reserve, charge, cap)
    requires w.olderNotes + Ones(n) == notes && NotesTake(notes, cap) == 47 + cap
    ensures |w.turns| == 40
    ensures |NotesText(w, w.turns[..2 * n + 1], w.olderCount + (2 * n + 1), Allowance(reserve))|
         == 133 + BriefTakes(charge) + cap
  {
    ChatWindow(n, kept, w.turns);
    LongBlock(w, 2 * n + 1, reserve, charge, cap, notes);
  }

  /** Exactly `kept` is sent, behind a block of this length. */
  predicate SendsBehind(w: Window, n: nat, kept: seq<Message>, system: string, reserve: nat, block: nat) {
    && 2 * n + 1 < |w.turns| && w.turns[2 * n + 1..] == TurnsOf(kept) && SentFromTurn(w, system, reserve, 2 * n + 1, 0)
    && |w.turns[2 * n + 1].content| % 4 == 3
    && |NotesText(w, w.turns[..2 * n + 1], w.olderCount + (2 * n + 1), Allowance(reserve))| == block
  }

  /** The messages sent take just what the reserve leaves. */
  predicate TakesTheRest(kept: seq<Message>, system: string, reserve: nat)
    requires kept != []
  {
    && |kept[0].content| % 4 == 3
    && Estimate(system, TurnsOf(kept)) == Estimate(system, TurnsOf(kept)[|kept| - 1..]) + 3 * reserve
  }

  lemma {:induction false} WindowSends(
    w: Window, n: nat, kept: seq<Message>, system: string, notes: seq<string>, reserve: nat, charge: nat, cap: nat)
    requires IsChatAnd(n, kept) && TakesTheRest(kept, system, reserve)
    requires w.turns == TurnsOf([Answer(1)] + Chat(n, kept)) && w.olderCount == 59
    requires Room(w, reserve, charge, cap)
    requires w.olderNotes + Ones(n) == notes && NotesTake(notes, cap) == 47 + cap
    ensures SendsBehind(w, n, kept, system, reserve, 133 + BriefTakes(charge) + cap)
  {
    ChatBlock(w, n, kept, notes, reserve, charge, cap);
    ChatCosts(w, n, kept, system, reserve);
    ChatWindow(n, kept, w.turns);
  }

  /** The brief takes its charge, the notes all that is left, and exactly `kept` is sent; `v` has the same brief. */
  lemma {:induction false} SameBriefSends(
    v: Window, w: Window, n: nat, kept: seq<Message>, system: string, reserve: nat, charge: nat, cap: nat)
    requires IsChatAnd(n, kept) && TakesTheRest(kept, system, reserve)
    requires w.turns == TurnsOf([Answer(1)] + Chat(n, kept)) && w.olderCount == 59
    requires v.brief == w.brief && Room(v, reserve, charge, cap)
    requires NotesTake(w.olderNotes + Ones(n), cap) == 47 + cap
    ensures SendsBehind(w, n, kept, system, reserve, 133 + BriefTakes(charge) + cap)
  {
    SameBriefSameCharge(v, w, Allowance(reserve) - 86);
    WindowSends(w, n, kept, system, w.olderNotes + Ones(n), reserve, charge, cap);
  }

  /** A window with nothing but the brief of this opening message. */
  function BriefOnly(opening: Message): Window {
    Window([], 0, FirstWords(opening.content, BRIEF_MAX_CHARS), [])
  }

  lemma {:induction false} ChatLoaded(opening: Message, n: nat, kept: seq<Message>, older: nat) returns (w: Window)
    requires opening.role == User && IsChatAnd(n, kept) && 8 <= older <= NOTES_MAX_CHARS
    ensures w == WindowOf(Long(opening, older, Chat(n, kept)))
    ensures w.turns == TurnsOf([Answer(1)] + Chat(n, kept)) && w.olderCount == 59
    ensures w.brief == FirstWords(opening.content, BRIEF_MAX_CHARS)
    ensures NotesTake(w.olderNotes + Ones(n), older + 4 * n) == 47 + (older + 4 * n)
  {
    ChatAndIs(n, kept);
    w := LongWindow(opening, older, Chat(n, kept));
    NotesAndOnes(opening.content, older, n);
  }

  /** The messages sent: one that takes what the reserve leaves, and two short ones. */
  function LastThree(reserve: nat): seq<Message>
    requires reserve >= 3
  {
    [Question(4 * (3 * reserve - 8) + 3), Answer(3), Question(3)]
  }

  lemma LastThreeTurns(reserve: nat)
    requires reserve >= 3
    ensures var turns := TurnsOf(LastThree(reserve));
      && |turns| == 3 && turns[2..] == TurnsOf([Question(3)])
      && SumTokens(turns) == 3 * reserve + 4 && SumTokens(turns[2..]) == 4
  {
    PlainTurns(LastThree(reserve));
    PlainTurns([Question(3)]);
    var turns := TurnsOf(LastThree(reserve));
    var rest, last := turns[1..], turns[2..];
    assert rest[1..] == last && last[1..] == [] && last == TurnsOf([Question(3)]);
    assert SumTokens(rest) == TurnTokens(turns[1]) + SumTokens(last);
  }

  lemma LastThreeIsKept(reserve: nat, system: string)
    requires reserve >= 3
    ensures IsChatAnd(18, LastThree(reserve)) && TakesTheRest(LastThree(reserve), system, reserve)
  {
    var kept := LastThree(reserve);
    LastThreeTurns(reserve);
    StoredQuestion(3);
    FirstWordsOfFiller(|kept[0].content|, |kept[0].content|);
    StoredExchange(kept[0], Answer(3), [Question(3)]);
    assert kept == [kept[0], Answer(3)] + [Question(3)];
  }

  /** 99 messages of which three are sent, behind all the brief and the notes that fit. */
  lemma {:induction false} LongSent(opening: Message, system: string, reserve: nat, charge: nat, older: nat)
    returns (h: seq<Message>)
    requires Opens(opening) && 42 <= reserve <= NOTES_RESERVE_TOKENS && 8 <= older <= NOTES_MAX_CHARS
    requires Room(BriefOnly(opening), reserve, charge, older + 72)
    ensures Stored(h) && |h| <= 100
    ensures SendsBehind(WindowOf(h), 18, LastThree(reserve), system, reserve, 205 + BriefTakes(charge) + older)
  {
    var kept := LastThree(reserve);
    LastThreeIsKept(reserve, system);
    h := Long(opening, older, Chat(18, kept));
    var w := ChatLoaded(opening, 18, kept, older);
    SameBriefSends(BriefOnly(opening), w, 18, kept, system, reserve, charge, older + 72);
    ChatAndIs(18, kept);
    LongIsStored(opening, older, Chat(18, kept));
  }

  /** From 58 to 771 tokens notes alone can fill what is left; the opening message is a file without a text. */
  lemma NotesAloneSent(system: string, reserve: nat) returns (h: seq<Message>)
    requires 42 <= reserve <= 771
    ensures Stored(h) && |h| <= 100
    ensures SendsBehind(WindowOf(h), 18, LastThree(reserve), system, reserve, 4 * reserve + 47)
  {
    assert FirstWords("", BRIEF_MAX_CHARS) == "";
    h := LongSent(Message(User, "", File("brief.txt", None)), system, reserve, 0, 4 * reserve - 158);
  }

  /** From 772 tokens it takes a full brief as well. */
  lemma BriefAndNotesSent(system: string, reserve: nat) returns (h: seq<Message>)
    requires 772 <= reserve <= NOTES_RESERVE_TOKENS
    ensures Stored(h) && |h| <= 100
    ensures SendsBehind(WindowOf(h), 18, LastThree(reserve), system, reserve,
                        1659 + Min(NOTES_MAX_CHARS, 4 * reserve - 1614))
  {
    FullBrief(4 * reserve - 86);
    h := LongSent(Question(BRIEF_MAX_CHARS), system, reserve, 1528, Min(NOTES_MAX_CHARS, 4 * reserve - 1614) - 72);
  }

  lemma ManyNotesOverrun(system: string, reserve: nat) returns (h: seq<Message>, b: int)
    requires 58 <= reserve <= 771
    ensures Witness(h, system, b, reserve, 13)
  {
    h := NotesAloneSent(system, reserve);
    TurnsSent(WindowOf(h), system, reserve, 37, 0, 4 * reserve + 47);
    b := BudgetFor(WindowOf(h), system, reserve);
  }

  lemma BriefAndNotesOverrun(system: string, reserve: nat) returns (h: seq<Message>, b: int, excess: nat)
    requires 772 <= reserve < SAFE_RESERVE
    ensures excess > 0 && Witness(h, system, b, reserve, excess)
  {
    var block := 1659 + Min(NOTES_MAX_CHARS, 4 * reserve - 1614);
    h := BriefAndNotesSent(system, reserve);
    TurnsSent(WindowOf(h), system, reserve, 37, 0, block);
    b := BudgetFor(WindowOf(h), system, reserve);
    excess := (block + 5) / 4 - reserve;
  }

  lemma FullBrief(room: int)
    requires room >= 2 * BRIEF_MAX_CHARS
    ensures Words(Question(BRIEF_MAX_CHARS).content) != []
    ensures var w := Window([], 0, FirstWords(Question(BRIEF_MAX_CHARS).content, BRIEF_MAX_CHARS), []);
      BriefCharge(w, room) == 1528
  {
    FirstWordsOfFiller(BRIEF_MAX_CHARS, BRIEF_MAX_CHARS);
    FirstWordsOfFiller(BRIEF_MAX_CHARS, Min(BRIEF_MAX_CHARS, room / 2));
  }

  // ----- the exact conditions -----

  /** Every reserve below 1166 tokens is exceeded by a conversation the portal can store, of at most 100 messages. */
  lemma SmallerReservesOverrun(system: string, reserve: nat) returns (h: seq<Message>, b: int)
    requires reserve < SAFE_RESERVE
    ensures Stored(h) && |h| <= 100 && Overruns(h, system, b, reserve)
  {
    var excess := 13;
    if reserve <= 2 {
      h, b, excess := TinyReserveOverruns(system, reserve);
    } else if reserve <= 21 {
      h, b := HeaderOverruns(system, reserve);
      excess := 22 - reserve;
    } else if reserve <= 57 {
      h, b := OneNoteOverruns(system, reserve);
    } else if reserve <= 771 {
      h, b := ManyNotesOverrun(system, reserve);
    } else {
      h, b, excess := BriefAndNotesOverrun(system, reserve);
    }
  }

  /** The exact condition on the reserve, for every system prompt: a loaded conversation of fewer than 100,000 messages
      can be sent above its budget if and only if the reserve is below 1166 tokens. */
  lemma OverrunPossibleExactlyBelowTheSafeReserve(system: string, reserve: nat)
    ensures (exists h, b :: |h| < MESSAGES && Overruns(h, system, b, reserve)) <==> reserve < SAFE_RESERVE
  {
    if reserve < SAFE_RESERVE {
      var h, b := SmallerReservesOverrun(system, reserve);
    } else {
      forall h, b | |h| < MESSAGES
        ensures !Overruns(h, system, b, reserve)
      {
        SafeReserve(h, system, b, reserve);
      }
    }
  }

  // ----- where an excess of 13 is reached -----

  /** The longest block that costs at most 12 tokens more than its reserve. */
  predicate AtMost12(block: int, reserve: nat) {
    (block + 5) / 4 <= reserve + 12
  }

  lemma HeaderUpTo99(n: nat)
    requires n <= 99
    ensures 85 <= |Header(n)| <= 86
  {
    HeaderLength(n);
    assert Dec(99) == Dec(9) + ['9'];
    DecLengthMonotone(n, 99);
  }

  lemma BlockAtMost12(w: Window, dropped: seq<Turn>, omitted: nat, reserve: nat)
    requires omitted <= 99 && 10 <= reserve && !(22 <= reserve <= 771)
    ensures AtMost12(|NotesText(w, dropped, omitted, Allowance(reserve))|, reserve)
  {
    BlockLengthOnInputs(w, dropped, omitted, Allowance(reserve));
    BlockSizeAtMost12(w, dropped, omitted, reserve);
  }

  lemma BlockSizeAtMost12(w: Window, dropped: seq<Turn>, omitted: nat, reserve: nat)
    requires omitted <= 99 && 10 <= reserve && !(22 <= reserve <= 771)
    ensures AtMost12(BlockSize(w, dropped, omitted, Allowance(reserve)), reserve)
  {
    var header := |Header(omitted)|;
    HeaderUpTo99(omitted);
  }

  lemma NoteAtMost12(w: Window, system: string, budget: int)
    requires w.turns != [] && w.olderCount + |w.turns| <= 100
    requires var reserve := Reserve(Some(budget), Base(w, system));
      10 <= reserve && !(22 <= reserve <= 771)
    ensures AtMost12(|Note(w, system, Some(budget))|, Reserve(Some(budget), Base(w, system)))
  {
    var k := SentFrom(w, system, Some(budget));
    BlockAtMost12(w, w.turns[..k], w.olderCount + k, Reserve(Some(budget), Base(w, system)));
  }

  lemma ExcessAtMost12(w: Window, system: string, budget: int, reserve: nat, excess: int)
    requires w.olderCount + |w.turns| <= 100 && SentWith(w, system, budget, reserve, excess)
    requires 10 <= reserve && !(22 <= reserve <= 771)
    ensures excess <= 12
  {
    if NotesNeeded(w, system, Some(budget)) {
      NoteAtMost12(w, system, budget);
      EstimateByNote(w, system, budget);
    } else {
      FitEstimateBound(w, system, budget);
    }
  }

  /** The worst excess of a covered header, 13 tokens, is reached by a conversation of at most 100 messages if and only
      if the reserve is between 22 and 771 tokens. (Below 10 the header alone can cost that.) */
  lemma ThirteenReachedExactlyBetween(system: string, reserve: nat)
    requires reserve >= 10
    ensures (exists h, b :: Witness(h, system, b, reserve, 13)) <==> 22 <= reserve <= 771
  {
    if 22 <= reserve <= 57 {
      var h, b := OneNoteOverruns(system, reserve);
    } else if 58 <= reserve <= 771 {
      var h, b := ManyNotesOverrun(system, reserve);
    } else {
      forall h, b | Witness(h, system, b, reserve, 13)
        ensures false
      {
        LoadedTurns(h);
        ExcessAtMost12(WindowOf(h), system, b, reserve, 13);
      }
    }
  }
}
