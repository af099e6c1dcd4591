/** The plan's token check behind `fit` (governance/plans.py, `validate_context_tokens`; chat/views.py): which
    conversations it refuses although their current message fits; and the most `fit` ever exceeds its budget by. */
module PlanCheck {
  import opened Wrappers
  import opened Text
  import opened ContextWindow
  import opened LoadWindow
  import opened BudgetOverrun

  function SumChars(turns: seq<Turn>): nat {
    if turns == [] then 0 else |turns[0].content| + SumChars(turns[1..])
  }

  function SumImages(turns: seq<Turn>): nat {
    if turns == [] then 0 else turns[0].images + SumImages(turns[1..])
  }

  /** `validate_context_tokens`: all characters together, and nothing for a turn as such. */
  function PlanEstimate(system: string, turns: seq<Turn>): int {
    Max(1, (|system| + SumChars(turns)) / CHARS_PER_TOKEN) + SumImages(turns) * IMAGE_TOKENS
  }

  /** The current message fits, and the request is refused all the same. */
  predicate RefusedThoughItFits(w: Window, system: string, budget: int, reserve: nat) {
    && w.turns != []
    && Within(Base(w, system), Some(budget)) && Reserve(Some(budget), Base(w, system)) == reserve
    && PlanEstimate(system, FitResult(w, system, Some(budget)).turns) > budget
  }

  // ----- the two estimates -----

  /** Counting turn by turn loses up to three characters each and adds four tokens. */
  lemma {:induction false} CharsAgainstTokens(turns: seq<Turn>)
    ensures SumTokens(turns) >= 4 * |turns| + 1000 * SumImages(turns)
    ensures SumChars(turns) <= 4 * (SumTokens(turns) - 4 * |turns| - 1000 * SumImages(turns)) + 3 * |turns|
  {
    if turns != [] {
      CharsAgainstTokens(turns[1..]);
    }
  }

  /** The characters of the system prompt that its token count leaves over; short of a token, fewer than none. */
  function Rest(system: string): int {
    |system| - 4 * Max(1, |system| / CHARS_PER_TOKEN)
  }

  lemma CharsWithNote(kept: seq<Turn>, note: string)
    requires kept != []
    ensures SumChars(WithNote(kept, note)) == |note| + 2 + SumChars(kept)
    ensures SumImages(WithNote(kept, note)) == SumImages(kept)
  {
    assert WithNote(kept, note)[1..] == kept[1..];
  }

  lemma Quarter(total: int, tokens: int, system: int, rest: int)
    requires total <= 4 * tokens + 4 * system + rest && tokens >= 0 && system >= 1
    ensures Max(1, total / 4) <= system + tokens + Max(0, rest / 4)
  {
  }

  /** What the check makes of turns and a block of notes in front of them. */
  lemma PlanEstimateWithNote(system: string, kept: seq<Turn>, note: string)
    requires kept != []
    ensures PlanEstimate(system, WithNote(kept, note))
         <= Estimate(system, kept) - 4 * |kept| + Max(0, (Rest(system) + |note| + 2 + 3 * |kept|) / 4)
  {
    CharsAgainstTokens(kept);
    CharsWithNote(kept, note);
    Quarter(|system| + |note| + 2 + SumChars(kept), SumTokens(kept) - 4 * |kept| - 1000 * SumImages(kept),
            Max(1, |system| / CHARS_PER_TOKEN), Rest(system) + |note| + 2 + 3 * |kept|);
  }

  lemma PlanEstimateIsLower(system: string, turns: seq<Turn>)
    requires turns != []
    ensures PlanEstimate(system, turns) <= Estimate(system, turns)
  {
    CharsAgainstTokens(turns);
  }

  // ----- the largest block, and the largest excess -----

  lemma BlockUpTo(w: Window, dropped: seq<Turn>, omitted: nat, maxChars: int)
    ensures |NotesText(w, dropped, omitted, maxChars)| <= |Header(omitted)| + 4573
  {
    BlockLengthOnInputs(w, dropped, omitted, maxChars);
    var header := |Header(omitted)|;
    SizeUpTo(header, BriefCharge(w, maxChars - header), w.olderNotes + UserNotes(dropped), maxChars);
  }

  lemma SizeUpTo(header: nat, charge: nat, notes: seq<string>, maxChars: int)
    requires charge <= BRIEF_MAX_CHARS + 28
    ensures SizeOf(header, charge, notes, maxChars) <= header + 4573
  {
  }

  lemma AnyNoteUpTo(w: Window, system: string, budget: int, n: nat)
    requires w.turns != [] && w.olderCount + |w.turns| == n
    ensures |Note(w, system, Some(budget))| <= |Header(n)| + 4573
  {
    var k := SentFrom(w, system, Some(budget));
    BlockUpTo(w, w.turns[..k], w.olderCount + k, Allowance(Reserve(Some(budget), Base(w, system))));
    HeaderAtMost(w.olderCount + k, n);
  }

  lemma WindowExcess(w: Window, system: string, budget: int, reserve: nat, excess: int, n: nat)
    requires SentWith(w, system, budget, reserve, excess) && w.olderCount + |w.turns| == n && |Header(n)| <= 89
    ensures excess <= Max(0, 1166 - reserve)
  {
    var b := Some(budget);
    if NotesNeeded(w, system, b) {
      AnyNoteUpTo(w, system, budget, n);
      EstimateByNote(w, system, budget);
    } else {
      FitEstimateBound(w, system, budget);
    }
  }

  /** What is sent is over the budget by at most 1166 tokens less the reserve. */
  lemma ExcessUpTo(h: seq<Message>, system: string, budget: int, reserve: nat, excess: int)
    requires h != [] && |h| < MESSAGES && SentWith(WindowOf(h), system, budget, reserve, excess)
    ensures excess <= Max(0, 1166 - reserve)
  {
    LoadedTurns(h);
    HeaderLength(|h|);
    FiveDigits(|h|);
    WindowExcess(WindowOf(h), system, budget, reserve, excess, |h|);
  }

  // ----- none is refused above a threshold -----

  /** From every user's turn on there is an odd number of turns. */
  predicate Alternating(turns: seq<Turn>) {
    forall k :: 0 <= k < |turns| && turns[k].role == User ==> (|turns| - k) % 2 == 1
  }

  lemma {:induction false} StoredAlternates(h: seq<Message>, i: nat)
    requires Stored(h) && i < |h|
    ensures h[i].role == User <==> i % 2 == 0
    ensures |h| % 2 == 1
  {
    if |h| > 1 {
      StoredAlternates(h[2..], if i < 2 then 0 else i - 2);
    }
  }

  lemma {:induction false} TurnRoles(h: seq<Message>, i: nat)
    requires i < |h|
    ensures TurnsOf(h)[i].role == h[i].role
  {
    if i > 0 {
      TurnRoles(h[1..], i - 1);
    }
  }

  lemma {:induction false} SuffixAlternates(h: seq<Message>, start: nat)
    requires Stored(h) && start <= |h|
    ensures Alternating(TurnsOf(h[start..]))
  {
    var turns := TurnsOf(h[start..]);
    forall k | 0 <= k < |turns| && turns[k].role == User
      ensures (|turns| - k) % 2 == 1
    {
      TurnRoles(h[start..], k);
      StoredAlternates(h, start + k);
    }
  }

  lemma WindowAlternates(h: seq<Message>)
    requires Stored(h)
    ensures Alternating(WindowOf(h).turns)
  {
    LoadedTurns(h);
    SuffixAlternates(h, WindowStart(|h|));
  }

  /** An odd number of turns, sent within the budget less the reserve, behind a block that is 41 characters or less
      beyond the reserve. */
  lemma OddNumberPasses(system: string, kept: seq<Turn>, note: string, budget: int, reserve: nat, base: int, most: nat)
    requires |kept| % 2 == 1 && |note| <= most && 4 * reserve > most - 41 + Rest(system) && most >= 60
    requires Estimate(system, kept) <= budget - reserve && base + 4 * reserve <= budget
    requires |kept| == 1 ==> Estimate(system, kept) == base
    ensures PlanEstimate(system, WithNote(kept, note)) <= budget
  {
    PlanEstimateWithNote(system, kept, note);
  }

  /** The longest block of at most 100 messages: with 3 to 21 tokens of reserve there is room for the header only. */
  function MostCharacters(reserve: nat): nat {
    if 3 <= reserve <= 21 then 86 else 4659
  }

  lemma HeaderOnly(header: nat, charge: nat, notes: seq<string>, maxChars: int)
    requires maxChars <= header + 2 && charge == 0
    ensures SizeOf(header, charge, notes, maxChars) <= header
  {
    var cap := Min(NOTES_MAX_CHARS, maxChars - header - charge);
    var k := NotesFrom(notes, cap, 0);
    if k < |notes| {
      assert NotesSize(notes[k..]) >= 3;
    }
  }

  lemma NoteUpTo(w: Window, system: string, budget: int)
    requires w.turns != [] && w.olderCount + |w.turns| <= 100
    ensures |Note(w, system, Some(budget))| <= MostCharacters(Reserve(Some(budget), Base(w, system)))
  {
    var k, reserve := SentFrom(w, system, Some(budget)), Reserve(Some(budget), Base(w, system));
    HeaderUpTo99(w.olderCount + k);
    if 3 <= reserve <= 21 {
      ShortBlock(w, w.turns[..k], w.olderCount + k, 4 * reserve);
    } else {
      BlockUpTo(w, w.turns[..k], w.olderCount + k, Allowance(reserve));
    }
  }

  lemma ShortBlock(w: Window, dropped: seq<Turn>, omitted: nat, maxChars: int)
    requires omitted <= 99 && maxChars <= 84
    ensures |NotesText(w, dropped, omitted, maxChars)| <= 86
  {
    HeaderUpTo99(omitted);
    BlockLengthOnInputs(w, dropped, omitted, maxChars);
    var header := |Header(omitted)|;
    HeaderOnly(header, BriefCharge(w, maxChars - header), w.olderNotes + UserNotes(dropped), maxChars);
  }

  /** Above this reserve no block is long enough. */
  predicate Passes(system: string, reserve: nat) {
    4 * reserve > MostCharacters(reserve) - 41 + Rest(system)
  }

  lemma NotesPass(w: Window, system: string, budget: int, reserve: nat)
    requires w.turns != [] && w.olderCount + |w.turns| <= 100 && Alternating(w.turns)
    requires NotesNeeded(w, system, Some(budget)) && Reserve(Some(budget), Base(w, system)) == reserve
    requires Passes(system, reserve)
    ensures PlanEstimate(system, FitResult(w, system, Some(budget)).turns) <= budget
  {
    var b, k := Some(budget), SentFrom(w, system, Some(budget));
    NoteUpTo(w, system, budget);
    SentWithinLessTheReserve(w, system, budget);
    ResultWithNotes(w, system, b);
    BaseOfLast(w, system);
    var base, most := Base(w, system), MostCharacters(reserve);
    OddNumberPasses(system, w.turns[k..], Note(w, system, b), budget, reserve, base, most);
  }

  lemma WindowPasses(w: Window, system: string, budget: int, reserve: nat)
    requires w.turns != [] && w.olderCount + |w.turns| <= 100 && Alternating(w.turns)
    requires Within(Base(w, system), Some(budget)) && Reserve(Some(budget), Base(w, system)) == reserve
    requires Passes(system, reserve)
    ensures PlanEstimate(system, FitResult(w, system, Some(budget)).turns) <= budget
  {
    if NotesNeeded(w, system, Some(budget)) {
      NotesPass(w, system, budget, reserve);
    } else {
      FitEstimateBound(w, system, budget);
      PlanEstimateIsLower(system, FitResult(w, system, Some(budget)).turns);
    }
  }

  lemma NoneRefusedWhere(h: seq<Message>, system: string, budget: int, reserve: nat)
    requires Stored(h) && |h| <= 100 && Passes(system, reserve)
    ensures !RefusedThoughItFits(WindowOf(h), system, budget, reserve)
  {
    LoadedTurns(h);
    WindowAlternates(h);
    if RefusedThoughItFits(WindowOf(h), system, budget, reserve) {
      WindowPasses(WindowOf(h), system, budget, reserve);
    }
  }

  // ----- the largest excess is reached without a reserve -----

  lemma CurrentIsKept(system: string, n: nat)
    requires n == 19
    ensures IsChatAnd(n, [Question(3)]) && TakesTheRest([Question(3)], system, 0)
  {
    StoredQuestion(3);
    assert TurnsOf([Question(3)])[0..] == TurnsOf([Question(3)]);
  }

  lemma CurrentSent(w: Window, system: string, n: nat, block: nat)
    requires n == 19 && SendsBehind(w, n, [Question(3)], system, 0, block)
    ensures SentWith(w, system, BudgetFor(w, system, 0), 0, (block + 5) / 4)
  {
    TurnsSent(w, system, 0, 2 * n + 1, 0, block);
  }

  /** The current message alone is sent, behind a full brief and full notes: nothing is set aside for them, yet the
      block is allowed 4800 characters. */
  lemma {:induction false} WithoutAReserve(system: string, opening: Message, n: nat) returns (h: seq<Message>, b: int)
    requires opening == Question(BRIEF_MAX_CHARS) && n == 19
    ensures Witness(h, system, b, 0, 1166)
  {
    var kept := [Question(3)];
    CurrentIsKept(system, n);
    FullBrief(Allowance(0) - 86);
    var w := ChatLoaded(opening, n, kept, 2924);
    SameBriefSends(BriefOnly(opening), w, n, kept, system, 0, 1528, 3000);
    h := Long(opening, 2924, Chat(n, kept));
    b := BudgetFor(w, system, 0);
    CurrentSent(w, system, n, 4659);
    ChatAndIs(n, kept);
    LongIsStored(opening, 2924, Chat(n, kept));
  }

  /** No conversation of fewer than 100,000 messages is sent more than 1166 tokens over its budget, whatever the budget;
      and one of at most 100 messages is sent exactly that much over one that leaves no reserve. */
  lemma LargestExcess(system: string)
    ensures forall h, b, reserve, excess |
              h != [] && |h| < MESSAGES && SentWith(WindowOf(h), system, b, reserve, excess) :: excess <= 1166
    ensures exists h, b :: Witness(h, system, b, 0, 1166)
  {
    forall h, b, reserve, excess |
      h != [] && |h| < MESSAGES && SentWith(WindowOf(h), system, b, reserve, excess)
      ensures excess <= 1166
    {
      ExcessUpTo(h, system, b, reserve, excess);
    }
    var h, b := WithoutAReserve(system, Question(BRIEF_MAX_CHARS), 19);
  }

  // ----- refused though it fits -----

  lemma LastThreeChars(reserve: nat)
    requires reserve >= 3
    ensures var turns := TurnsOf(LastThree(reserve));
      SumChars(turns) == 4 * (3 * reserve - 8) + 9 && SumImages(turns) == 0
  {
    PlainTurns(LastThree(reserve));
    var turns := TurnsOf(LastThree(reserve));
    var rest, last := turns[1..], turns[2..];
    assert rest[1..] == last && last[1..] == [];
    assert SumChars(rest) == |turns[1].content| + SumChars(last);
    assert SumImages(rest) == turns[1].images + SumImages(last);
  }

  /** More characters are sent than the budget has room for. */
  lemma TooManyCharacters(w: Window, system: string, reserve: nat, k: nat, slack: nat, block: nat)
    requires reserve <= NOTES_RESERVE_TOKENS && SentFromTurn(w, system, reserve, k, slack)
    requires |NotesText(w, w.turns[..k], w.olderCount + k, Allowance(reserve))| == block
    requires (|system| + block + 2 + SumChars(w.turns[k..])) / 4 > BudgetFor(w, system, reserve)
    ensures RefusedThoughItFits(w, system, BudgetFor(w, system, reserve), reserve)
  {
    NoteThere(w, system, reserve, k, slack);
    SentFromThere(w, system, reserve, k, slack);
    CharsWithNote(w.turns[k..], NotesText(w, w.turns[..k], w.olderCount + k, Allowance(reserve)));
  }

  /** With these three sent, 41 characters beyond the reserve - less what the system prompt leaves over - are enough. */
  lemma LastThreeRefused(w: Window, system: string, reserve: nat, k: nat, block: nat)
    requires 3 <= reserve <= NOTES_RESERVE_TOKENS && SentFromTurn(w, system, reserve, k, 0)
    requires w.turns[k..] == TurnsOf(LastThree(reserve))
    requires |NotesText(w, w.turns[..k], w.olderCount + k, Allowance(reserve))| == block
    requires Rest(system) + block >= 4 * reserve + 41
    ensures RefusedThoughItFits(w, system, BudgetFor(w, system, reserve), reserve)
  {
    LastThreeTurns(reserve);
    LastThreeChars(reserve);
    BaseOfLast(w, system);
    assert w.turns[|w.turns| - 1..] == TurnsOf(LastThree(reserve))[2..];
    TooManyCharacters(w, system, reserve, k, 0, block);
  }

  /** A stored conversation of at most 100 messages that is refused. */
  predicate IsRefused(h: seq<Message>, system: string, budget: int, reserve: nat) {
    Stored(h) && |h| <= 100 && RefusedThoughItFits(WindowOf(h), system, budget, reserve)
  }

  /** Without a reserve, or next to none, the header alone is enough. */
  lemma ThreeRefused(system: string, reserve: nat) returns (b: int)
    requires reserve <= 2
    ensures IsRefused(Three(), system, b, reserve)
  {
    var w := WindowOf(Three());
    ThreeCosts(system, reserve);
    HeaderAloneRefused(w, system, reserve);
    b := BudgetFor(w, system, reserve);
  }

  lemma HeaderAloneRefused(w: Window, system: string, reserve: nat)
    requires reserve <= 2 && |w.turns| == 3 && |w.turns[2].content| == 3 && w.turns[2].images == 0
    requires SentFromTurn(w, system, reserve, 2, 3 * reserve)
    ensures RefusedThoughItFits(w, system, BudgetFor(w, system, reserve), reserve)
  {
    var block := |NotesText(w, w.turns[..2], w.olderCount + 2, Allowance(reserve))|;
    BlockAtLeastHeader(w, w.turns[..2], w.olderCount + 2, reserve);
    assert w.turns[2..] == [w.turns[2]];
    OneShortTurn(w.turns[2]);
    HeaderIsMore(|system|, block, reserve);
    TooManyCharacters(w, system, reserve, 2, 3 * reserve, block);
  }

  lemma OneShortTurn(turn: Turn)
    requires |turn.content| == 3 && turn.images == 0
    ensures SumTokens([turn]) == 4 && SumChars([turn]) == 3
  {
    assert [turn][1..] == [];
  }

  lemma HeaderIsMore(system: nat, block: nat, reserve: nat)
    requires block >= 85 && reserve <= 2
    ensures (system + block + 2 + 3) / 4 > Max(1, system / 4) + 4 + 4 * reserve
  {
  }

  lemma FiveRefused(system: string, reserve: nat) returns (h: seq<Message>, b: int)
    requires 22 <= reserve <= 57
    ensures IsRefused(h, system, b, reserve)
  {
    var n := 4 * reserve - 88;
    OpeningNote(n);
    NotesTakeOne(FirstWords(TurnFor(Opening(n), true).content, NOTE_CHARS_PER_MESSAGE), n + 3);
    h := Five(Opening(n), reserve);
    var w := FiveBlock(Opening(n), system, reserve, n + 50);
    FiveIsStored(Opening(n), reserve);
    FiveEnds(Opening(n), reserve);
    LastThreeRefused(w, system, reserve, 2, 135 + n);
    b := BudgetFor(w, system, reserve);
  }

  lemma FiveEnds(opening: Message, reserve: nat)
    requires reserve >= 3
    ensures WindowOf(Five(opening, reserve)).turns[2..] == TurnsOf(LastThree(reserve))
  {
    ShortWindow(Five(opening, reserve));
    TurnsOfSuffix(Five(opening, reserve), 2);
    assert Five(opening, reserve)[2..] == LastThree(reserve);
  }

  lemma LongRefused(w: Window, n: nat, kept: seq<Message>, system: string, reserve: nat, block: nat)
    requires 3 <= reserve <= NOTES_RESERVE_TOKENS && kept == LastThree(reserve)
    requires SendsBehind(w, n, kept, system, reserve, block) && Rest(system) + block >= 4 * reserve + 41
    ensures RefusedThoughItFits(w, system, BudgetFor(w, system, reserve), reserve)
  {
    LastThreeRefused(w, system, reserve, 2 * n + 1, block);
  }

  /** With 3 to 12 tokens of reserve a header with a two-digit count is too long. */
  lemma {:induction false} TenLeftOutRefused(system: string, reserve: nat, n: nat) returns (h: seq<Message>, b: int)
    requires 3 <= reserve <= 12 && !Passes(system, reserve) && n == 5
    ensures IsRefused(h, system, b, reserve)
  {
    var kept := LastThree(reserve);
    h := Chat(n, kept);
    LastThreeIsKept(reserve, system);
    ChatShape(n, kept);
    ShortWindow(h);
    ChatNotes(n, kept);
    var w := Window(TurnsOf(h), 0, "", []);
    TenLeftOut(w, kept, system, reserve, n);
    LastThreeRefused(w, system, reserve, 2 * n, 86);
    b := BudgetFor(w, system, reserve);
  }

  lemma {:induction false} TenLeftOut(w: Window, kept: seq<Message>, system: string, reserve: nat, n: nat)
    requires 3 <= reserve <= 12 && n == 5 && kept == LastThree(reserve) && w.olderCount == 0 && w.brief == ""
    requires |w.turns| == 13 && w.turns[2 * n..] == TurnsOf(kept)
    ensures SentFromTurn(w, system, reserve, 2 * n, 0)
    ensures |NotesText(w, w.turns[..2 * n], w.olderCount + 2 * n, Allowance(reserve))| == 86
  {
    LastThreeTurns(reserve);
    PlainTurns(kept);
    assert w.turns[2 * n..][0] == w.turns[2 * n] && w.turns[2 * n..][2..] == w.turns[12..];
    ThreeOfThirteen(w, system, reserve, 2 * n);
    HeaderOfTen(w, w.turns[..2 * n], w.olderCount + 2 * n, reserve);
  }

  lemma {:induction false} ThreeOfThirteen(w: Window, system: string, reserve: nat, k: nat)
    requires 3 <= reserve <= 12 && |w.turns| == 13 && k == 10 && w.turns[k].role == User
    requires SumTokens(w.turns[k..]) == 3 * reserve + 4 && SumTokens(w.turns[12..]) == 4
    ensures SentFromTurn(w, system, reserve, k, 0)
  {
    BaseOfLast(w, system);
    LongerSuffixCostsMore(system, w.turns, k - 1, k);
    LongerSuffixCostsMore(system, w.turns, 0, k);
  }

  lemma HeaderOfTen(w: Window, dropped: seq<Turn>, omitted: nat, reserve: nat)
    requires 3 <= reserve <= 12 && w.brief == "" && omitted == 10
    ensures |NotesText(w, dropped, omitted, Allowance(reserve))| == 86
  {
    TwoDigits(omitted);
    NoRoomForNotes(w.olderNotes + UserNotes(dropped), 4 * reserve - 86);
    BlockIs(w, dropped, omitted, Allowance(reserve), 86, 0, w.olderNotes + UserNotes(dropped), 0);
  }

  lemma NoRoomForNotes(notes: seq<string>, cap: int)
    requires cap < 0
    ensures NotesTake(notes, Min(NOTES_MAX_CHARS, cap)) == 0
  {
  }

  /** Which reserves let a conversation be refused though its current message fits; the system prompt moves the limits
      by the few characters that its token count leaves over. */
  predicate CanBeRefused(system: string, reserve: nat) {
    4 * reserve <= 45 + Rest(system) || 22 <= reserve <= (4618 + Rest(system)) / 4
  }

  /** For every system prompt and reserve: a stored conversation of at most 100 messages can be refused although its
      current message fits if and only if the reserve is at most 10 to 12 tokens, or from 22 to at most 1153 to
      1155. */
  lemma RefusedExactlyWhen(system: string, reserve: nat)
    ensures (exists h, b :: IsRefused(h, system, b, reserve)) <==> CanBeRefused(system, reserve)
  {
    if !CanBeRefused(system, reserve) {
      forall h, b
        ensures !IsRefused(h, system, b, reserve)
      {
        if Stored(h) && |h| <= 100 {
          NoneRefusedWhere(h, system, b, reserve);
        }
      }
    } else {
      var h, b := SomeRefused(system, reserve);
    }
  }

  lemma SomeRefused(system: string, reserve: nat) returns (h: seq<Message>, b: int)
    requires CanBeRefused(system, reserve)
    ensures IsRefused(h, system, b, reserve)
  {
    if reserve <= 2 {
      h := Three();
      b := ThreeRefused(system, reserve);
    } else if reserve <= 12 {
      h, b := TenLeftOutRefused(system, reserve, 5);
    } else if reserve < 42 {
      h, b := FiveRefused(system, reserve);
    } else if reserve <= 771 {
      h := NotesAloneSent(system, reserve);
      LongRefused(WindowOf(h), 18, LastThree(reserve), system, reserve, 4 * reserve + 47);
      b := BudgetFor(WindowOf(h), system, reserve);
    } else {
      h := BriefAndNotesSent(system, reserve);
      var block := 1659 + Min(NOTES_MAX_CHARS, 4 * reserve - 1614);
      LongRefused(WindowOf(h), 18, LastThree(reserve), system, reserve, block);
      b := BudgetFor(WindowOf(h), system, reserve);
    }
  }
}
