/** Which turns of a conversation are sent to a model (chat/context_window.py): the greedy `fill`, the notes block
    that stands in for what was left out, and `fit`, which reserves room for that block in a second pass.
    Lengths are counted in characters, as the source does. */
module ContextWindow {
  import opened Wrappers
  import opened Text

  const CHARS_PER_TOKEN := 4
  const IMAGE_TOKENS := 1000
  const NOTE_CHARS_PER_MESSAGE := 140
  const NOTES_MAX_CHARS := 3000
  const BRIEF_MAX_CHARS := 1500
  const NOTES_RESERVE_TOKENS := 1200

  datatype Role = User | Assistant
  datatype Turn = Turn(role: Role, content: string, images: nat)
  datatype Window = Window(turns: seq<Turn>, olderCount: nat, brief: string, olderNotes: seq<string>)
  datatype Fitted = Fitted(turns: seq<Turn>, omitted: nat, fits: bool, tokens: int)

  /** A token limit; `None` is the source's infinity. */
  type Budget = Option<int>

  predicate Within(tokens: int, limit: Budget) {
    limit.Some? ==> tokens <= limit.value
  }

  /** `a` allows whatever `b` allows. */
  predicate AtLeast(a: Budget, b: Budget) {
    a.None? || (b.Some? && b.value <= a.value)
  }

  // ----- token estimates -----

  function TurnTokens(turn: Turn): nat {
    |turn.content| / CHARS_PER_TOKEN + 4 + turn.images * IMAGE_TOKENS
  }

  function SumTokens(turns: seq<Turn>): nat {
    if turns == [] then 0 else TurnTokens(turns[0]) + SumTokens(turns[1..])
  }

  /** `estimate_tokens`. */
  function Estimate(system: string, turns: seq<Turn>): int {
    Max(1, |system| / CHARS_PER_TOKEN) + SumTokens(turns)
  }

  lemma SuffixCost(system: string, turns: seq<Turn>, j: nat)
    requires j < |turns|
    ensures Estimate(system, turns[j..]) == TurnTokens(turns[j]) + Estimate(system, turns[j + 1..])
  {
    assert turns[j..][1..] == turns[j + 1..];
  }

  lemma {:induction false} LongerSuffixCostsMore(system: string, turns: seq<Turn>, i: nat, j: nat)
    requires i <= j <= |turns|
    ensures Estimate(system, turns[j..]) + 4 * (j - i) <= Estimate(system, turns[i..])
    decreases j - i
  {
    if i < j {
      SuffixCost(system, turns, i);
      LongerSuffixCostsMore(system, turns, i + 1, j);
    }
  }

  // ----- fill: the longest suffix that fits and opens with the user -----

  /** The turns from `j` on may be sent: they fit and open with the user's turn. */
  predicate Sendable(system: string, turns: seq<Turn>, limit: Budget, j: nat)
    requires j < |turns|
  {
    Within(Estimate(system, turns[j..]), limit) && turns[j].role == User
  }

  /** Reference definition: scan from the oldest turn for the first sendable suffix; the current message (the
      last turn) is the fallback. */
  function KeepFrom(system: string, turns: seq<Turn>, limit: Budget, j: nat): (k: nat)
    requires j < |turns|
    ensures j <= k < |turns|
    ensures k == |turns| - 1 || Sendable(system, turns, limit, k)
    ensures forall i :: j <= i < k ==> !Sendable(system, turns, limit, i)
    decreases |turns| - j
  {
    if j == |turns| - 1 || Sendable(system, turns, limit, j) then j else KeepFrom(system, turns, limit, j + 1)
  }

  /** Where walking back from `i` stops: before the first turn that no longer fits. */
  function WalkBack(system: string, turns: seq<Turn>, limit: Budget, i: nat): (w: nat)
    requires i < |turns|
    ensures w <= i
  {
    if i == 0 || !Within(Estimate(system, turns[i - 1..]), limit) then i else WalkBack(system, turns, limit, i - 1)
  }

  /** Where dropping replies that lost their question stops. */
  function SkipReplies(turns: seq<Turn>, i: nat): (k: nat)
    requires i < |turns|
    ensures i <= k < |turns|
    decreases |turns| - i
  {
    if i == |turns| - 1 || turns[i].role == User then i else SkipReplies(turns, i + 1)
  }

  lemma {:induction false} WalkBackStops(system: string, turns: seq<Turn>, limit: Budget, i: nat, j: nat)
    requires i < |turns|
    requires i == |turns| - 1 || Within(Estimate(system, turns[i..]), limit)
    ensures var w := WalkBack(system, turns, limit, i);
      && w <= i
      && (w == |turns| - 1 || Within(Estimate(system, turns[w..]), limit))
      && (j < w ==> !Within(Estimate(system, turns[j..]), limit))
    decreases i
  {
    if i > 0 {
      if Within(Estimate(system, turns[i - 1..]), limit) {
        WalkBackStops(system, turns, limit, i - 1, j);
      } else if j < i {
        LongerSuffixCostsMore(system, turns, j, i - 1);
      }
    }
  }

  lemma {:induction false} SkipRepliesKeeps(system: string, turns: seq<Turn>, limit: Budget, i: nat)
    requires i < |turns|
    requires i == |turns| - 1 || Within(Estimate(system, turns[i..]), limit)
    ensures SkipReplies(turns, i) == KeepFrom(system, turns, limit, i)
    decreases |turns| - i
  {
    if i < |turns| - 1 && turns[i].role != User {
      LongerSuffixCostsMore(system, turns, i, i + 1);
      SkipRepliesKeeps(system, turns, limit, i + 1);
    }
  }

  lemma {:induction false} KeepFromSkips(system: string, turns: seq<Turn>, limit: Budget, j: nat, i: nat)
    requires j <= i < |turns|
    requires forall k :: j <= k < i ==> !Sendable(system, turns, limit, k)
    ensures KeepFrom(system, turns, limit, j) == KeepFrom(system, turns, limit, i)
    decreases i - j
  {
    if j < i {
      KeepFromSkips(system, turns, limit, j + 1, i);
    }
  }

  /** The two loops of `fill` find the reference suffix. */
  lemma GreedyFindsLongest(system: string, turns: seq<Turn>, limit: Budget)
    requires turns != []
    ensures SkipReplies(turns, WalkBack(system, turns, limit, |turns| - 1)) == KeepFrom(system, turns, limit, 0)
  {
    var w := WalkBack(system, turns, limit, |turns| - 1);
    forall j: nat | j <= w
      ensures w == |turns| - 1 || Within(Estimate(system, turns[w..]), limit)
      ensures j < w ==> !Within(Estimate(system, turns[j..]), limit)
    {
      WalkBackStops(system, turns, limit, |turns| - 1, j);
    }
    SkipRepliesKeeps(system, turns, limit, w);
    KeepFromSkips(system, turns, limit, 0, w);
  }

  /** The second loop of `fill`: a provider conversation must open with the user's turn. */
  method DropLostReplies(fitting: seq<Turn>, cost: int, ghost system: string, ghost turns: seq<Turn>, ghost i: nat)
    returns (kept: seq<Turn>, used: int)
    requires i < |turns| && fitting == turns[i..] && cost == Estimate(system, fitting)
    ensures kept == turns[SkipReplies(turns, i)..]
    ensures used == Estimate(system, kept)
  {
    kept, used := fitting, cost;
    ghost var k: nat := i;
    while |kept| > 1 && kept[0].role != User
      invariant k < |turns| && kept == turns[k..] && SkipReplies(turns, k) == SkipReplies(turns, i)
      invariant used == Estimate(system, kept)
      decreases |kept|
    {
      SuffixCost(system, turns, k);
      used := used - TurnTokens(kept[0]);
      kept := kept[1..];
      k := k + 1;
    }
  }

  /** `fill`: walk back from the newest turn while it fits, then drop replies that lost their question. */
  method Fill(system: string, turns: seq<Turn>, fits: bool, limit: Budget) returns (kept: seq<Turn>, used: int)
    requires turns != []
    ensures kept == if fits then turns[KeepFrom(system, turns, limit, 0)..] else turns[|turns| - 1..]
    ensures used == Estimate(system, kept)
  {
    var last := |turns| - 1;
    ghost var i: nat := last;
    var keptReversed := [turns[last]];
    assert turns[last..] == [turns[last]];
    used := Estimate(system, [turns[last]]);
    if fits {
      keptReversed, used, i := NewestThatFit(system, turns, limit);
      GreedyFindsLongest(system, turns, limit);
    }
    ReverseTwice(turns[i..]);
    kept, used := DropLostReplies(Reverse(keptReversed), used, system, turns, i);
  }

  /** The first loop of `fill`: walk back from the current message while the turns fit. */
  method NewestThatFit(system: string, turns: seq<Turn>, limit: Budget)
    returns (keptReversed: seq<Turn>, used: int, ghost i: nat)
    requires turns != []
    ensures i == WalkBack(system, turns, limit, |turns| - 1)
    ensures keptReversed == Reverse(turns[i..]) && used == Estimate(system, turns[i..])
  {
    var last := |turns| - 1;
    assert turns[last..] == [turns[last]];
    keptReversed, used, i := [turns[last]], Estimate(system, [turns[last]]), last;
    var j := last;
    while j > 0
      invariant 0 <= j <= last && i == j
      invariant keptReversed == Reverse(turns[j..])
      invariant used == Estimate(system, turns[j..])
      invariant WalkBack(system, turns, limit, j) == WalkBack(system, turns, limit, last)
    {
      var cost := TurnTokens(turns[j - 1]);
      SuffixCost(system, turns, j - 1);
      if !Within(used + cost, limit) {
        break;
      }
      ReverseCons(turns[j - 1], turns[j..]);
      assert turns[j - 1..] == [turns[j - 1]] + turns[j..];
      keptReversed := keptReversed + [turns[j - 1]];
      used := used + cost;
      j := j - 1;
      i := j;
    }
  }

  // ----- the notes block -----

  /** The characters Python's `str.split` and `str.rstrip` treat as white space. */
  predicate IsSpace(c: char) {
    c in {'\t', '\n', '\U{0B}', '\U{0C}', '\r', '\U{1C}', '\U{1D}', '\U{1E}', '\U{1F}', ' ', '\U{85}', '\U{A0}',
          '\U{1680}', '\U{2028}', '\U{2029}', '\U{202F}', '\U{205F}', '\U{3000}'}
    || '\U{2000}' <= c <= '\U{200A}'
  }

  function WordLength(s: string): (n: nat)
    ensures n <= |s|
    ensures s != "" && !IsSpace(s[0]) ==> n > 0
  {
    if s == "" || IsSpace(s[0]) then 0 else 1 + WordLength(s[1..])
  }

  /** `s.split()`. */
  function Words(s: string): seq<string>
    decreases |s|
  {
    if s == "" then []
    else if IsSpace(s[0]) then Words(s[1..])
    else [s[..WordLength(s)]] + Words(s[WordLength(s)..])
  }

  function RStrip(s: string): (r: string)
    ensures r <= s && (r != "" ==> !IsSpace(r[|r| - 1]))
    ensures forall i :: |r| <= i < |s| ==> IsSpace(s[i])
  {
    if s == "" || !IsSpace(s[|s| - 1]) then s else RStrip(s[..|s| - 1])
  }

  /** `_first_words`. */
  function FirstWords(text: string, limit: nat): (r: string)
    requires limit >= 1
    ensures |r| <= limit
  {
    var flat := Join(Words(text), ' ');
    if |flat| <= limit then flat else RStrip(flat[..limit - 1]) + "\U{2026}"
  }

  function Header(omitted: nat): string {
    "[Earlier in this conversation, " + Dec(omitted) + " message(s) were left out" + " to fit the context window.]"
  }

  const BRIEF_LEAD := "Conversation began with: "
  const NOTES_LEAD := "Earlier questions from " + "the user, oldest first:"

  function UserNotes(turns: seq<Turn>): seq<string> {
    if turns == [] then []
    else if turns[0].role == User then [FirstWords(turns[0].content, NOTE_CHARS_PER_MESSAGE)] + UserNotes(turns[1..])
    else UserNotes(turns[1..])
  }

  /** What a list of notes is charged: three characters of markup each. */
  function NotesSize(notes: seq<string>): nat {
    if notes == [] then 0 else |notes[0]| + 3 + NotesSize(notes[1..])
  }

  lemma {:induction false} LongerNotesCostMore(notes: seq<string>, i: nat, j: nat)
    requires i <= j <= |notes|
    ensures NotesSize(notes[j..]) <= NotesSize(notes[i..])
    decreases j - i
  {
    if i < j {
      assert notes[i..][1..] == notes[i + 1..];
      LongerNotesCostMore(notes, i + 1, j);
    }
  }

  /** Reference definition: the longest suffix of the notes whose charge is at most `cap`. */
  function NotesFrom(notes: seq<string>, cap: int, j: nat): (k: nat)
    requires j <= |notes|
    ensures j <= k <= |notes|
    ensures k < |notes| ==> NotesSize(notes[k..]) <= cap
    ensures forall i :: j <= i < k ==> NotesSize(notes[i..]) > cap
    decreases |notes| - j
  {
    if j == |notes| || NotesSize(notes[j..]) <= cap then j else NotesFrom(notes, cap, j + 1)
  }

  /** Where walking back through the notes stops. */
  function NotesWalkBack(notes: seq<string>, cap: int, i: nat): nat
    requires i <= |notes|
  {
    if i == 0 || NotesSize(notes[i - 1..]) > cap then i else NotesWalkBack(notes, cap, i - 1)
  }

  lemma {:induction false} NotesGreedy(notes: seq<string>, cap: int, i: nat)
    requires i <= |notes| && (i == |notes| || NotesSize(notes[i..]) <= cap)
    ensures NotesWalkBack(notes, cap, i) == NotesFrom(notes, cap, 0)
  {
    var k := NotesFrom(notes, cap, 0);
    if i > 0 && NotesSize(notes[i - 1..]) <= cap {
      NotesGreedy(notes, cap, i - 1);
    } else if k < i {
      LongerNotesCostMore(notes, k, i - 1);
    }
  }

  function Bullets(notes: seq<string>): seq<string> {
    if notes == [] then [] else ["- " + notes[0]] + Bullets(notes[1..])
  }

  /** What the block is made of: the brief (if it is used) and the notes that are listed. */
  datatype Parts = Parts(header: string, brief: Option<string>, notes: seq<string>, remaining: int)

  function NotesParts(window: Window, dropped: seq<Turn>, omitted: nat, maxChars: int): Parts {
    var header := Header(omitted);
    var room := maxChars - |header|;
    var brief := if window.brief != "" && room > 80
                 then Some(FirstWords(window.brief, Min(BRIEF_MAX_CHARS, room / 2))) else None;
    var remaining := if brief.Some? then room - (|brief.value| + 28) else room;
    var notes := window.olderNotes + UserNotes(dropped);
    Parts(header, brief, notes[NotesFrom(notes, Min(NOTES_MAX_CHARS, remaining), 0)..], remaining)
  }

  function BriefLines(brief: Option<string>): seq<string> {
    if brief.Some? then [BRIEF_LEAD + brief.value] else []
  }

  function NotesLines(notes: seq<string>): seq<string> {
    if notes != [] then [NOTES_LEAD] + Bullets(notes) else []
  }

  function Lines(p: Parts): seq<string> {
    [p.header] + BriefLines(p.brief) + NotesLines(p.notes)
  }

  function NotesText(window: Window, dropped: seq<Turn>, omitted: nat, maxChars: int): string {
    Join(Lines(NotesParts(window, dropped, omitted, maxChars)), '\n')
  }

  /** The notes loop of `_notes_block`: prefer the notes closest to the retained turns. */
  method ListedNotes(notes: seq<string>, cap: int) returns (kept: seq<string>)
    ensures kept == notes[NotesFrom(notes, cap, 0)..]
  {
    var keptReversed: seq<string>, size := [], 0;
    var i := |notes|;
    while i > 0
      invariant 0 <= i <= |notes|
      invariant keptReversed == Reverse(notes[i..])
      invariant size == NotesSize(notes[i..])
      invariant NotesWalkBack(notes, cap, i) == NotesWalkBack(notes, cap, |notes|)
    {
      assert notes[i - 1..][1..] == notes[i..];
      if size + |notes[i - 1]| + 3 > cap {
        break;
      }
      ReverseCons(notes[i - 1], notes[i..]);
      assert notes[i - 1..] == [notes[i - 1]] + notes[i..];
      keptReversed := keptReversed + [notes[i - 1]];
      size := size + |notes[i - 1]| + 3;
      i := i - 1;
    }
    NotesGreedy(notes, cap, |notes|);
    ReverseTwice(notes[i..]);
    kept := Reverse(keptReversed);
  }

  /** `_notes_block`. */
  method NotesBlock(window: Window, dropped: seq<Turn>, omitted: nat, maxChars: int) returns (text: string)
    ensures text == NotesText(window, dropped, omitted, maxChars)
  {
    ghost var p := NotesParts(window, dropped, omitted, maxChars);
    var header := Header(omitted);
    var lines := [header];
    var remaining := maxChars - |header|;
    if window.brief != "" && remaining > 80 {
      var brief := FirstWords(window.brief, Min(BRIEF_MAX_CHARS, remaining / 2));
      assert p.brief == Some(brief);
      lines := lines + [BRIEF_LEAD + brief];
      remaining := remaining - (|brief| + 28);
    }
    assert p.remaining == remaining && lines == [header] + BriefLines(p.brief);
    var kept := ListedNotes(window.olderNotes + UserNotes(dropped), Min(NOTES_MAX_CHARS, remaining));
    assert p.notes == kept;
    if kept != [] {
      lines := lines + ([NOTES_LEAD] + Bullets(kept));
    }
    assert lines == Lines(p);
    text := Join(lines, '\n');
  }

  function JoinedLength(parts: seq<string>): int {
    if parts == [] then -1 else |parts[0]| + 1 + JoinedLength(parts[1..])
  }

  lemma {:induction false} JoinLength(parts: seq<string>, sep: char)
    ensures |Join(parts, sep)| == Max(0, JoinedLength(parts))
    ensures parts != [] ==> |Join(parts, sep)| == JoinedLength(parts)
  {
    if |parts| > 1 {
      JoinLength(parts[1..], sep);
    } else if |parts| == 1 {
      assert parts[1..] == [];
    }
  }

  lemma {:induction false} JoinedLengthConcat(a: seq<string>, b: seq<string>)
    ensures JoinedLength(a + b) == JoinedLength(a) + JoinedLength(b) + 1
  {
    if a == [] {
      assert a + b == b;
    } else {
      assert (a + b)[1..] == a[1..] + b;
      JoinedLengthConcat(a[1..], b);
    }
  }

  lemma {:induction false} BulletsLength(notes: seq<string>)
    ensures JoinedLength(Bullets(notes)) == NotesSize(notes) - 1
  {
    if notes != [] {
      assert Bullets(notes)[1..] == Bullets(notes[1..]);
      BulletsLength(notes[1..]);
    }
  }

  /** The exact length of a block. */
  function PartsLength(p: Parts): int {
    |p.header| + (if p.brief.Some? then 26 + |p.brief.value| else 0)
    + (if p.notes != [] then 47 + NotesSize(p.notes) else 0)
  }

  lemma BlockLength(p: Parts)
    ensures |Join(Lines(p), '\n')| == PartsLength(p)
  {
    var head := [p.header];
    var brief := if p.brief.Some? then [BRIEF_LEAD + p.brief.value] else [];
    var notes := if p.notes != [] then [NOTES_LEAD] + Bullets(p.notes) else [];
    JoinLength(Lines(p), '\n');
    JoinedLengthConcat(head + brief, notes);
    JoinedLengthConcat(head, brief);
    assert head[1..] == [];
    if p.brief.Some? {
      assert brief[1..] == [];
    }
    if p.notes != [] {
      JoinedLengthConcat([NOTES_LEAD], Bullets(p.notes));
      assert [NOTES_LEAD][1..] == [];
      BulletsLength(p.notes);
    }
  }

  /** However large the window, the block overruns its allowance by at most the label line of the notes. */
  lemma NotesBlockBound(window: Window, dropped: seq<Turn>, omitted: nat, maxChars: int)
    ensures |Join(Lines(NotesParts(window, dropped, omitted, maxChars)), '\n')|
         <= Max(|Header(omitted)|, maxChars + 47)
  {
    BlockLength(NotesParts(window, dropped, omitted, maxChars));
  }

  /** What the brief is charged, on the inputs of the block. */
  function BriefCharge(window: Window, room: int): (charge: nat)
    ensures charge > 0 ==> charge >= 28 && charge - 28 <= room / 2 && room > 80
  {
    if window.brief != "" && room > 80 then |FirstWords(window.brief, Min(BRIEF_MAX_CHARS, room / 2))| + 28 else 0
  }

  /** What the label line needs beyond the charges; a brief is charged two characters more than it takes. */
  function LabelNeeds(charge: nat): nat {
    if charge > 0 then 45 else 47
  }

  /** No list of the newest notes that the cap lets in leaves too little room for the label line. */
  predicate LabelFits(notes: seq<string>, left: int, needs: nat) {
    notes == []
    || ((NotesSize(notes) <= Min(NOTES_MAX_CHARS, left) ==> NotesSize(notes) + needs <= left)
        && LabelFits(notes[1..], left, needs))
  }

  /** Only the longest list counts. */
  lemma {:induction false} LongestNotesDecide(notes: seq<string>, left: int, needs: nat, j: nat)
    requires j <= |notes|
    ensures var k := NotesFrom(notes, Min(NOTES_MAX_CHARS, left), j);
      LabelFits(notes[j..], left, needs) <==> (k < |notes| ==> NotesSize(notes[k..]) + needs <= left)
    decreases |notes| - j
  {
    if j < |notes| {
      assert notes[j..][1..] == notes[j + 1..];
      LongestNotesDecide(notes, left, needs, j + 1);
      var k := NotesFrom(notes, Min(NOTES_MAX_CHARS, left), j + 1);
      LongerNotesCostMore(notes, j, k);
    }
  }

  lemma TextLength(window: Window, dropped: seq<Turn>, omitted: nat, maxChars: int)
    ensures |NotesText(window, dropped, omitted, maxChars)|
         == PartsLength(NotesParts(window, dropped, omitted, maxChars))
  {
    BlockLength(NotesParts(window, dropped, omitted, maxChars));
  }

  function BriefTakes(charge: nat): int {
    if charge > 0 then charge - 2 else 0
  }

  function NotesTake(notes: seq<string>, cap: int): nat {
    var k := NotesFrom(notes, cap, 0);
    if k < |notes| then 47 + NotesSize(notes[k..]) else 0
  }

  function SizeOf(header: nat, charge: nat, notes: seq<string>, maxChars: int): int {
    header + BriefTakes(charge) + NotesTake(notes, Min(NOTES_MAX_CHARS, maxChars - header - charge))
  }

  /** The length of a block, on its inputs. */
  function BlockSize(window: Window, dropped: seq<Turn>, omitted: nat, maxChars: int): int {
    var header := |Header(omitted)|;
    SizeOf(header, BriefCharge(window, maxChars - header), window.olderNotes + UserNotes(dropped), maxChars)
  }

  lemma PartsOnInputs(window: Window, dropped: seq<Turn>, omitted: nat, maxChars: int)
    ensures PartsLength(NotesParts(window, dropped, omitted, maxChars)) == BlockSize(window, dropped, omitted, maxChars)
  {
  }

  lemma BlockLengthOnInputs(window: Window, dropped: seq<Turn>, omitted: nat, maxChars: int)
    ensures |NotesText(window, dropped, omitted, maxChars)| == BlockSize(window, dropped, omitted, maxChars)
  {
    PartsOnInputs(window, dropped, omitted, maxChars);
    TextLength(window, dropped, omitted, maxChars);
  }

  predicate RoomFor(header: nat, charge: nat, notes: seq<string>, maxChars: int) {
    header <= maxChars && LabelFits(notes, maxChars - header - charge, LabelNeeds(charge))
  }

  lemma WithinExactlyWhen(header: nat, charge: nat, notes: seq<string>, maxChars: int)
    requires var room := maxChars - header;
      charge > 0 ==> charge >= 28 && charge - 28 <= room / 2 && room > 80
    ensures SizeOf(header, charge, notes, maxChars) <= maxChars <==> RoomFor(header, charge, notes, maxChars)
  {
    NotesTakeDecides(notes, maxChars - header - charge, LabelNeeds(charge));
  }

  lemma NotesTakeDecides(notes: seq<string>, left: int, needs: nat)
    ensures var take := NotesTake(notes, Min(NOTES_MAX_CHARS, left));
      && (take == 0 || take >= 47)
      && (LabelFits(notes, left, needs) <==> (take > 0 ==> take - 47 + needs <= left))
  {
    LongestNotesDecide(notes, left, needs, 0);
    assert notes[0..] == notes;
  }

  /** What a caller can check before the block is built: the header fits, and so does the uncharged label line behind
      any list of the newest notes that the cap lets in. */
  predicate WithinAllowance(window: Window, dropped: seq<Turn>, omitted: nat, maxChars: int) {
    var header := |Header(omitted)|;
    RoomFor(header, BriefCharge(window, maxChars - header), window.olderNotes + UserNotes(dropped), maxChars)
  }

  lemma BlockSizeWithin(window: Window, dropped: seq<Turn>, omitted: nat, maxChars: int)
    ensures BlockSize(window, dropped, omitted, maxChars) <= maxChars
       <==> WithinAllowance(window, dropped, omitted, maxChars)
  {
    RoomWithin(window, |Header(omitted)|, window.olderNotes + UserNotes(dropped), maxChars);
  }

  lemma RoomWithin(window: Window, header: nat, notes: seq<string>, maxChars: int)
    ensures var charge := BriefCharge(window, maxChars - header);
      SizeOf(header, charge, notes, maxChars) <= maxChars <==> RoomFor(header, charge, notes, maxChars)
  {
    WithinExactlyWhen(header, BriefCharge(window, maxChars - header), notes, maxChars);
  }

  /** The block keeps to "at most max_chars" if and only if that holds. */
  lemma NotesBlockWithinAllowanceIff(window: Window, dropped: seq<Turn>, omitted: nat, maxChars: int)
    ensures |NotesText(window, dropped, omitted, maxChars)| <= maxChars
       <==> WithinAllowance(window, dropped, omitted, maxChars)
  {
    BlockLengthOnInputs(window, dropped, omitted, maxChars);
    BlockSizeWithin(window, dropped, omitted, maxChars);
  }

  /** In particular once what the header and the brief leave is 3047 characters or more. */
  lemma NotesBlockKeepsToItsAllowance(window: Window, dropped: seq<Turn>, omitted: nat, maxChars: int)
    requires var room := maxChars - |Header(omitted)|;
      room - BriefCharge(window, room) >= NOTES_MAX_CHARS + 47
    ensures |NotesText(window, dropped, omitted, maxChars)| <= maxChars
  {
    BlockLengthOnInputs(window, dropped, omitted, maxChars);
  }

  /** Whatever its allowance, a block is never longer than its header, a full brief and a full list of notes. */
  lemma NotesBlockAtMost(window: Window, dropped: seq<Turn>, omitted: nat, maxChars: int)
    ensures |NotesText(window, dropped, omitted, maxChars)|
         <= |Header(omitted)| + 26 + BRIEF_MAX_CHARS + 47 + NOTES_MAX_CHARS
  {
    BlockLength(NotesParts(window, dropped, omitted, maxChars));
  }

  // ----- fit -----

  function Base(window: Window, system: string): int
    requires window.turns != []
  {
    Estimate(system, [window.turns[|window.turns| - 1]])
  }

  /** Room set aside for the notes: a quarter of what the current message leaves, at most 1200 tokens. */
  function Reserve(budget: Budget, base: int): nat {
    if budget.None? then 0 else Min(NOTES_RESERVE_TOKENS, Max(0, (budget.value - base) / 4))
  }

  function Less(budget: Budget, reserve: nat): Budget {
    if budget.None? then None else Some(budget.value - reserve)
  }

  /** The notes pass runs: the current message fits and something is left out. */
  predicate NotesNeeded(window: Window, system: string, budget: Budget)
    requires window.turns != []
  {
    && Within(Base(window, system), budget)
    && (window.olderCount > 0 || KeepFrom(system, window.turns, budget, 0) > 0)
  }

  /** Where the turns that are sent begin. */
  function SentFrom(window: Window, system: string, budget: Budget): (k: nat)
    requires window.turns != []
    ensures k < |window.turns|
  {
    var reserve := Reserve(budget, Base(window, system));
    if !Within(Base(window, system), budget) then |window.turns| - 1
    else if NotesNeeded(window, system, budget) then KeepFrom(system, window.turns, Less(budget, reserve), 0)
    else KeepFrom(system, window.turns, budget, 0)
  }

  /** The characters the notes block is given. */
  function Allowance(reserve: nat): nat {
    (if reserve != 0 then reserve else NOTES_RESERVE_TOKENS) * CHARS_PER_TOKEN
  }

  /** The notes block that goes out with this budget. */
  function Note(window: Window, system: string, budget: Budget): string
    requires window.turns != []
  {
    var k := SentFrom(window, system, budget);
    NotesText(window, window.turns[..k], window.olderCount + k, Allowance(Reserve(budget, Base(window, system))))
  }

  function WithNote(kept: seq<Turn>, note: string): seq<Turn>
    requires kept != []
  {
    [kept[0].(content := note + "\n\n" + kept[0].content)] + kept[1..]
  }

  /** What `fit` returns: a suffix of the window, its first turn carrying the notes when any are needed. */
  function FitResult(window: Window, system: string, budget: Budget): Fitted {
    if window.turns == [] then Fitted([], 0, true, Estimate(system, []))
    else
      var k := SentFrom(window, system, budget);
      var kept := window.turns[k..];
      if NotesNeeded(window, system, budget) then
        var note := Note(window, system, budget);
        Fitted(WithNote(kept, note), window.olderCount + k, true, Estimate(system, kept) + |note| / CHARS_PER_TOKEN)
      else Fitted(kept, window.olderCount + k, Within(Base(window, system), budget), Estimate(system, kept))
  }

  /** The notes on everything before the `k`-th turn. */
  method DroppedNotes(window: Window, kept: seq<Turn>, reserve: nat, ghost k: nat) returns (note: string)
    requires k <= |window.turns| && kept == window.turns[k..]
    ensures note == NotesText(window, window.turns[..k], window.olderCount + k, Allowance(reserve))
  {
    var dropped := window.turns[..|window.turns| - |kept|];
    note := NotesBlock(window, dropped, window.olderCount + |dropped|, Allowance(reserve));
  }

  lemma ResultWithNotes(window: Window, system: string, budget: Budget)
    requires window.turns != [] && NotesNeeded(window, system, budget)
    ensures var k, note := SentFrom(window, system, budget), Note(window, system, budget);
      var kept := window.turns[k..];
      FitResult(window, system, budget)
      == Fitted(WithNote(kept, note), window.olderCount + k, true, Estimate(system, kept) + |note| / CHARS_PER_TOKEN)
  {
  }

  /** The second pass of `fit`, run when something is left out: set room aside for the notes first. */
  method FitWithNotes(window: Window, system: string, budget: Budget) returns (r: Fitted)
    requires window.turns != [] && NotesNeeded(window, system, budget)
    ensures r == FitResult(window, system, budget)
  {
    var turns := window.turns;
    var reserve := Reserve(budget, Base(window, system));
    var kept, used := Fill(system, turns, true, Less(budget, reserve));
    var note := DroppedNotes(window, kept, reserve, SentFrom(window, system, budget));
    assert note == Note(window, system, budget);
    ResultWithNotes(window, system, budget);
    r := Fitted(WithNote(kept, note), window.olderCount + |turns| - |kept|, true, used + |note| / CHARS_PER_TOKEN);
  }

  /** `fit`. */
  method Fit(window: Window, system: string, budget: Budget) returns (r: Fitted)
    ensures r == FitResult(window, system, budget)
  {
    var turns := window.turns;
    if turns == [] {
      return Fitted([], 0, true, Estimate(system, []));
    }
    var fits := Within(Estimate(system, [turns[|turns| - 1]]), budget);
    var kept, used := Fill(system, turns, fits, budget);
    if fits && (window.olderCount > 0 || |kept| < |turns|) {
      r := FitWithNotes(window, system, budget);
    } else {
      r := Fitted(kept, window.olderCount + |turns| - |kept|, fits, used);
    }
  }

  /** Every turn is either sent or counted as omitted; the turns sent are the newest ones, all but the first of
      them verbatim, and the first keeps its own text at its end. */
  lemma FitAccountsForEveryTurn(window: Window, system: string, budget: Budget)
    requires window.turns != []
    ensures var r := FitResult(window, system, budget);
      && r.omitted + |r.turns| == window.olderCount + |window.turns|
      && 1 <= |r.turns| <= |window.turns|
      && var k := |window.turns| - |r.turns|;
        && r.turns[1..] == window.turns[k + 1..] && r.turns[0].role == window.turns[k].role
        && |window.turns[k].content| <= |r.turns[0].content|
        && r.turns[0].content[|r.turns[0].content| - |window.turns[k].content|..] == window.turns[k].content
  {
    var r, k := FitResult(window, system, budget), SentFrom(window, system, budget);
    var kept := window.turns[k..];
    assert kept[1..] == window.turns[k + 1..];
    if NotesNeeded(window, system, budget) {
      var lead := Note(window, system, budget) + "\n\n";
      assert r.turns[0].content == lead + kept[0].content;
      assert (lead + kept[0].content)[|lead|..] == kept[0].content;
    } else {
      assert r.turns[0].content[0..] == kept[0].content;
    }
  }

  /** Prepending the notes costs at most two tokens more than `fit` counts, and never less than it counts. */
  lemma NoteCost(system: string, kept: seq<Turn>, note: string)
    requires kept != []
    ensures Estimate(system, kept) + |note| / CHARS_PER_TOKEN
         <= Estimate(system, WithNote(kept, note))
         <= Estimate(system, kept) + |note| / CHARS_PER_TOKEN + 2
    ensures Estimate(system, WithNote(kept, note))
         == Estimate(system, kept) + (|note| + 2 + |kept[0].content|) / CHARS_PER_TOKEN
            - |kept[0].content| / CHARS_PER_TOKEN
  {
    assert WithNote(kept, note)[1..] == kept[1..];
  }

  lemma FitReportsItsCost(window: Window, system: string, budget: Budget)
    ensures var r := FitResult(window, system, budget);
      r.tokens <= Estimate(system, r.turns) <= r.tokens + 2
  {
    if window.turns != [] && NotesNeeded(window, system, budget) {
      NoteCost(system, window.turns[SentFrom(window, system, budget)..], Note(window, system, budget));
    }
  }

  lemma SentWithinLessTheReserve(window: Window, system: string, budget: int)
    requires window.turns != [] && NotesNeeded(window, system, Some(budget))
    ensures Estimate(system, window.turns[SentFrom(window, system, Some(budget))..])
         <= budget - Reserve(Some(budget), Base(window, system))
  {
    var last := |window.turns| - 1;
    assert window.turns[last..] == [window.turns[last]];
  }

  lemma EstimateWithNotes(window: Window, system: string, budget: int)
    requires window.turns != [] && NotesNeeded(window, system, Some(budget))
    ensures var k := SentFrom(window, system, Some(budget));
      var reserve := Reserve(Some(budget), Base(window, system));
      Estimate(system, WithNote(window.turns[k..], Note(window, system, Some(budget))))
      <= budget - reserve + Max(|Header(window.olderCount + k)|, Allowance(reserve) + 47) / CHARS_PER_TOKEN + 2
  {
    SentWithinLessTheReserve(window, system, budget);
    NoteCost(system, window.turns[SentFrom(window, system, Some(budget))..], Note(window, system, Some(budget)));
    NoteBound(window, system, Some(budget));
  }

  lemma NoteBound(window: Window, system: string, budget: Budget)
    requires window.turns != []
    ensures var k := SentFrom(window, system, budget);
      |Note(window, system, budget)|
      <= Max(|Header(window.olderCount + k)|, Allowance(Reserve(budget, Base(window, system))) + 47)
  {
    var k := SentFrom(window, system, budget);
    NotesBlockBound(window, window.turns[..k], window.olderCount + k, Allowance(Reserve(budget, Base(window, system))));
  }

  /** The true estimate of what is sent, for every window and budget the current message fits. */
  lemma FitEstimateBound(window: Window, system: string, budget: int)
    requires window.turns != [] && Within(Base(window, system), Some(budget))
    ensures var r := FitResult(window, system, Some(budget));
      var reserve := Reserve(Some(budget), Base(window, system));
      && (!NotesNeeded(window, system, Some(budget)) ==> Estimate(system, r.turns) <= budget)
      && Estimate(system, r.turns)
         <= Max(budget, budget - reserve + Max(|Header(r.omitted)|, Allowance(reserve) + 47) / CHARS_PER_TOKEN + 2)
  {
    var last := |window.turns| - 1;
    assert window.turns[last..] == [window.turns[last]];
    if NotesNeeded(window, system, Some(budget)) {
      ResultWithNotes(window, system, Some(budget));
      EstimateWithNotes(window, system, budget);
    }
  }

  /** Once the reserve covers the header, what is sent is at most 13 tokens over the budget. */
  lemma FitOverrunsByAtMost13(window: Window, system: string, budget: int)
    requires window.turns != [] && Within(Base(window, system), Some(budget))
    ensures var r := FitResult(window, system, Some(budget));
      var reserve := Reserve(Some(budget), Base(window, system));
      reserve > 0 && |Header(r.omitted)| <= 4 * reserve + 47 ==> Estimate(system, r.turns) <= budget + 13
  {
    FitEstimateBound(window, system, budget);
  }

  lemma HeaderLength(omitted: nat)
    ensures |Header(omitted)| == 84 + |Dec(omitted)|
  {
  }

  /** Every window: `fit` keeps to its budget whenever nothing is left out, and whenever the reserve covers the largest
      block there is (4573 characters and the header, 5 more for the blank line and the rounding). The header is taken
      for all messages there are, so that everything is known before the call. */
  lemma FitKeepsToItsBudget(window: Window, system: string, budget: int)
    requires window.turns != [] && Within(Base(window, system), Some(budget))
    requires NotesNeeded(window, system, Some(budget)) ==>
               (|Header(window.olderCount + |window.turns|)| + 4578) / CHARS_PER_TOKEN
               <= Reserve(Some(budget), Base(window, system))
    ensures Estimate(system, FitResult(window, system, Some(budget)).turns) <= budget
  {
    var b := Some(budget);
    if NotesNeeded(window, system, b) {
      var k := SentFrom(window, system, b);
      NotesBlockAtMost(window, window.turns[..k], window.olderCount + k, Allowance(Reserve(b, Base(window, system))));
      HeaderLength(window.olderCount + k);
      HeaderLength(window.olderCount + |window.turns|);
      DecLengthMonotone(window.olderCount + k, window.olderCount + |window.turns|);
      SmallNoteKeepsToTheBudget(window, system, budget);
    } else {
      FitEstimateBound(window, system, budget);
    }
  }

  /** What is sent is at most the budget less the reserve, and the block with its blank line, rounded up. */
  lemma EstimateByNote(window: Window, system: string, budget: int)
    requires window.turns != [] && NotesNeeded(window, system, Some(budget))
    ensures Estimate(system, FitResult(window, system, Some(budget)).turns)
         <= budget - Reserve(Some(budget), Base(window, system)) + (|Note(window, system, Some(budget))| + 5) / 4
  {
    SentWithinLessTheReserve(window, system, budget);
    ResultWithNotes(window, system, Some(budget));
    NoteCost(system, window.turns[SentFrom(window, system, Some(budget))..], Note(window, system, Some(budget)));
  }

  lemma SmallNoteKeepsToTheBudget(window: Window, system: string, budget: int)
    requires window.turns != [] && NotesNeeded(window, system, Some(budget))
    requires (|Note(window, system, Some(budget))| + 5) / 4 <= Reserve(Some(budget), Base(window, system))
    ensures Estimate(system, FitResult(window, system, Some(budget)).turns) <= budget
  {
    EstimateByNote(window, system, budget);
  }

  /** The usual case: 4800 tokens are free beyond the current message. */
  lemma FitKeepsToALargeBudget(window: Window, system: string, budget: int)
    requires window.turns != [] && Base(window, system) + 4 * NOTES_RESERVE_TOKENS <= budget
    requires |Header(window.olderCount + |window.turns|)| <= 225
    ensures Estimate(system, FitResult(window, system, Some(budget)).turns) <= budget
  {
    FitKeepsToItsBudget(window, system, budget);
  }

  // ----- a larger budget never sends less -----

  lemma KeepFromMonotone(system: string, turns: seq<Turn>, large: Budget, small: Budget)
    requires turns != [] && AtLeast(large, small)
    ensures KeepFrom(system, turns, large, 0) <= KeepFrom(system, turns, small, 0)
  {
    var k := KeepFrom(system, turns, small, 0);
    assert k < |turns| - 1 ==> Sendable(system, turns, large, k);
  }

  /** The reserve grows by less than the budget does, so what is left for the turns grows too. */
  lemma ReserveLeavesMore(large: Budget, small: Budget, base: int)
    requires AtLeast(large, small)
    ensures AtLeast(Less(large, Reserve(large, base)), Less(small, Reserve(small, base)))
    ensures AtLeast(small, Less(small, Reserve(small, base)))
  {
  }

  lemma SentFromMonotone(window: Window, system: string, large: Budget, small: Budget)
    requires AtLeast(large, small) && window.turns != [] && Within(Base(window, system), small)
    ensures SentFrom(window, system, large) <= SentFrom(window, system, small)
  {
    var base := Base(window, system);
    ReserveLeavesMore(large, small, base);
    var large', small' := Less(large, Reserve(large, base)), Less(small, Reserve(small, base));
    KeepFromMonotone(system, window.turns, large, small);
    KeepFromMonotone(system, window.turns, large', small');
    KeepFromMonotone(system, window.turns, small, small');
  }

  lemma FitCounts(window: Window, system: string, budget: Budget)
    requires window.turns != []
    ensures var r, k := FitResult(window, system, budget), SentFrom(window, system, budget);
      && (r.fits <==> Within(Base(window, system), budget))
      && |r.turns| == |window.turns| - k && r.omitted == window.olderCount + k
  {
  }

  /** `fit` is monotone in the budget, although the reserve grows with it and the notes pass comes and goes. */
  lemma FitMonotoneInBudget(window: Window, system: string, large: Budget, small: Budget)
    requires AtLeast(large, small)
    ensures var l, s := FitResult(window, system, large), FitResult(window, system, small);
      && (s.fits ==> l.fits)
      && |s.turns| <= |l.turns|
      && l.omitted <= s.omitted
  {
    if window.turns != [] {
      FitCounts(window, system, large);
      FitCounts(window, system, small);
      if Within(Base(window, system), small) {
        SentFromMonotone(window, system, large, small);
      }
    }
  }
}
