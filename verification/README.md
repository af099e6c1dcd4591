# Verified core of the AI portal

A Dafny model of the portal's stateful core, with proofs about it: the chat reply engine (`chat/`), the billing machine
(`billing/`), the rate limiter with the e-mail second factor, and the one-browser-per-account rule (`accounts/`).

`dafny verify dfyconfig.toml` checks everything. One module per component, one file per module:

| module | what it models |
|---|---|
| `ContextWindow`, `BudgetOverrun` | which turns are sent to a model: the greedy `fill`, the notes block, `fit` with its reserve, and where `fit` exceeds its budget |
| `PlanCheck` | the plan's own token check behind `fit`: what it refuses although it fits |
| `NotesContent` | what those notes say: their lines, the questions they list, the words of each |
| `LoadWindow` | what a request may draw on: the newest messages, their images, notes about the rest |
| `ClaimProtocol` | the claim on a pending reply, as interleaved database steps of any number of requests |
| `ReplyEngine` | the generator that tries candidates, streams, saves, and may be cut off at any yield |
| `ConcurrentReplies` | those generators as the requests of `ClaimProtocol`, any number of them interleaved |
| `Router` | the order in which models are tried |
| `Sse` | the event printer, against the parsing rules of sections 9.2.5 and 9.2.6 of the WHATWG HTML Living Standard |
| `Sidebar` | keyset pages and day buckets of the conversation list |
| `Calendar`, `PlanExpiry` | calendar months, and what a paid invoice does to a plan's expiry |
| `PlanCredits` | several open invoices of one user, and how often unused time is given back |
| `Pricing` | amounts, tax, and the credit for unused time |
| `InvoiceLifecycle` | payment, override and refund steps of one invoice |
| `InvoiceNumbers` | yearly numbers printed into and read back from text |
| `Sweep` | the daily sweep that bills the next cycle |
| `RateLimit` | the fixed-window counter, in the shared cache and in the bounded local table |
| `Mfa` | the code challenge of a session, and many of them behind the login limiter |
| `SingleSession` | tokens of an account and its sessions, with every request split into its steps, and the forms that save a whole user row |
| `Text`, `Wrappers` | decimal text, joining, splitting, `Option`, minimum and maximum |

Code that updates things in place is modelled by classes and loops. Each such method is proved equal to a function of
the old state (`Step`, `Exec`, `Run`, `FitResult`, ...), and the promises are lemmas about that function: over every
run, every trace, every interleaving. Money is integer cents and the one inexact quotient is a real known up to an
error; dates are day numbers or Gregorian dates; time is the value the clock gives to a step.

## What turned out differently from the comments in the code

Where a promise is false as stated, a concrete run shows it and a theorem gives the condition under which it holds.

- The notes block is not "at most max_chars": its label line is not charged. It keeps to that exactly when the label
  line fits behind any list of notes the cap lets in (`NotesBlockWithinAllowanceIff`), always once header and brief
  leave 3047 characters (`NotesBlockKeepsToItsAllowance`), and is never more than 47 over (`NotesBlockBound`).
- `fit` can exceed its budget, with windows that `load_window` builds of conversations the portal can store. For every
  system prompt, such a conversation of fewer than 100,000 messages overruns if and only if the reserve - a quarter of
  what the current message leaves, at most 1200 tokens - is below 1166 tokens
  (`OverrunPossibleExactlyBelowTheSafeReserve`); 100 messages are enough (`SmallerReservesOverrun`), and the fewer
  there are, the smaller the reserve that is safe (`ShortConversationsNeedLess`). Once the reserve covers the header,
  the excess is at most 13 tokens (`FitOverrunsByAtMost13`), which 100 messages reach exactly for reserves from 22 to
  771 (`ThirteenReachedExactlyBetween`). Without a reserve - the block is allowed 4800 characters all the same - the
  excess can be 1166 tokens, and is never more (`LargestExcess`). With 4800 tokens free beyond the current message
  there is no excess (`FitKeepsToALargeBudget`).
- The plan's token check does not only fire "when the CURRENT message cannot fit at all" (chat/views.py:1668-1670): the
  notes can be larger than what is reserved for them, so a request can be refused although its message fits. With a
  conversation of at most 100 messages that is possible if and only if the reserve is at most 10 to 12 tokens, or from
  22 to at most 1153 to 1155; which of these depends on the length of the system prompt
  (`PlanCheck.RefusedExactlyWhen`).
- A second generator can start while one is live: when a provider finishes without any text (the full save hands the
  claim back), when a generator outlives the timeout, when a reply is regenerated under it, or when the second UPDATE
  of another generator's `finally` clears its claim (`SecondUpdateClearsAnotherClaim`). Those steps and no others do it:
  `SecondGeneratorExactlyWhenHarmed`, over runs `GuardedExactlyWhenHarmless`. What the generators themselves do decides
  it: no interleaving of requests that keep to the timeout has two live generators if and only if each of them leaves a
  reply (`OneAtATimeExactlyWhenAllAnswer`), and `EmptyReplyExactlyWhen` says which ones do not.
- A cached reply is shown before it is saved: a client that leaves in between leaves the row empty (`CachedOutcome`).
- Forms that save a whole user row write back the session token as they read it. So a token can become empty again, a
  second first-token adoption can win, and a superseded session can come back. `NewestTokenCountsExactlyWhenClean`,
  `TokenNeverEmptyAgainExactlyWhen`, `AdoptedAgainExactlyWhenEmptied` and `SupersededExactlyWhenNonePutsBack` say
  exactly which saves do that.
- Two first requests of one browser can race so that the loser signs the winner out
  (`AdoptionRaceCanSignOutItsOwnBrowser`). `SingleSession.RefusedExactlyWhen` gives the fate of every request by its
  three reads.
- A deleted invoice number can come back: exactly when the deleted invoice is the newest of its year
  (`DeletionReusesExactlyWhenNewest`); never, as long as those are spared (`NoReuseWhileNewestIsSpared`).
- Approving a refund request does not look at the invoice's status, so an invoice set back to unpaid meanwhile is still
  refunded: `RefundsUnpaidExactlyWhen`, `UnpaidInvoiceCanBeRefunded`.
- One invoice can synchronise the plan more than once: exactly when the override takes a payment back and the invoice
  is paid again (`SyncsTwiceExactlyWhenPaidAgain`). Each time a renewal stacks again (`SyncingTwiceStacksTwice`).
- Unused time can be credited twice: checkout looks for an open invoice of the same plan and duration only, so two
  durations give two credits for the same days (`TwoDurationsCreditTwice`), and paying the second invoice throws away
  the period the first one bought for good (`SecondChangeDiscardsTheFirst`, `DiscardsExactlyWhen`).
  `ReturnedOnceExactlyWhen` is the exact condition; paying credited invoices before the plan changes is enough
  (`PaidInTimeReturnsOnce`).
- A credit is not recomputed when its invoice is paid later, so days of the old plan used meanwhile are credited too:
  exactly then, whatever happens in between (`CreditedThoughUsedExactlyWhenLate`). Over both plans no day is gained
  (`LatePaymentGainsNoDays`).
- The credit is not exactly the price of the unused days: the monthly price is rounded to a cent first, which can move
  it by half a cent a month (`CreditOfTheNewestInvoice`, `MonthlyRoundingAddsUp`).
- The money-back window does not run from "when the payment was actually confirmed" but from the latest review of a
  proof, be it a rejection: `WindowRunsFromTheLastReview`, `RejectionOpensTheWindow`.
- A refused call is not counted by the limiter, although its description says so: `EntriesCount` counts allowed calls.
- The sweep visits a recipient once for each of their invoices, because the default ordering of invoices takes part in
  the DISTINCT of its query, so one sweep can bill several overdue cycles (`OneSweepCanBillTwice`). A recipient with an
  older invoice on the next due date is never billed again (`BilledAgainExactlyWhen`), which two manual invoices can
  bring about (`BlockedLedgerIsReachable`, `ManualBlocksExactlyWhen`).
- A conversation dated after today falls under "Previous 7 Days" and can split that heading in two:
  `NewestFirstContiguousIff`.

## Model

| member | source | states |
|---|---|---|
| ContextWindow.Fill | chat/context_window.py:260-274 | the two loops return the suffix that scanning from the oldest turn finds first, and `used` is exactly the estimate of what is kept |
| ContextWindow.GreedyFindsLongest | chat/context_window.py:260-274 | walking back greedily and then dropping lost replies gives the longest suffix that fits and opens with the user, or the current message alone |
| ContextWindow.KeepFrom | chat/context_window.py:260-274 | the reference suffix: sendable or the current message alone, and no longer suffix is sendable |
| ContextWindow.Fit | chat/context_window.py:250-291 | the two passes return `FitResult` for every window, system prompt and budget, the infinite one included |
| ContextWindow.FitAccountsForEveryTurn | chat/context_window.py:276-291 | omitted plus sent is every turn; what is sent is the newest turns verbatim, the first one with its own text at its end |
| ContextWindow.NotesBlock | chat/context_window.py:226-247 | the block is the header, the brief if it is used, and the longest suffix of the notes that its charge allows |
| ContextWindow.NotesGreedy | chat/context_window.py:238-243 | walking back through the notes stops at the longest suffix within the cap |
| NotesContent.LinesOfTheBlock | chat/context_window.py:226-247 | the block split at its line ends: the header with the number left out, the beginning of the conversation if there is one and more than 80 characters are left, the label, and one line for each of the newest notes that fit, oldest first |
| NotesContent.FirstTurnCarriesTheBlock | chat/context_window.py:276-291 | for every window and budget: when the message fits and something is left out, the first turn sent is its own text behind the block for exactly what was left out; otherwise everything is sent as it is |
| NotesContent.NotesNeededExactlyWhen | chat/context_window.py:276-277 | the notes are added exactly when the message fits and something is left out |
| NotesContent.NotesOfQuestions | chat/context_window.py:235-237 | the notes of dropped turns are those of all the user's turns among them and of no others, in their order |
| NotesContent.FirstWordsAreItsNote | chat/context_window.py:181-183 | a note is its text on one line with single spaces, whole if it is short enough, otherwise its beginning without white space at the end and an ellipsis |
| NotesContent.WordsSplitAtSpace | chat/context_window.py:182 | white space separates words: those before it are followed by those behind it |
| NotesContent.WordsAreWords | chat/context_window.py:182 | words are not empty and hold no white space |
| NotesContent.OneWord | chat/context_window.py:182 | text without white space is one word |
| NotesContent.FlatKeepsWords | chat/context_window.py:182 | flattening keeps the words and leaves one line |
| NotesContent.LoadedNotesAre | chat/context_window.py:209-216 | for every conversation of more than 40 messages the window is loaded with the notes of the user's messages that are not blank among the newest 60 before the newest 40 messages, oldest first |
| NotesContent.BriefIsTheBeginning | chat/context_window.py:207-208 | and with the first message of the user in the whole conversation as its brief |
| ContextWindow.BlockLength | chat/context_window.py:228-247 | the exact length of a block in characters |
| ContextWindow.NotesBlockBound | chat/context_window.py:226-247 | for every window a block is at most the header or `max_chars` + 47 characters |
| ContextWindow.NotesBlockWithinAllowanceIff | chat/context_window.py:226-247 | "at most max_chars" holds if and only if, on the inputs, the header fits and every list of the newest notes that the cap lets in leaves room for the uncharged label line |
| ContextWindow.NotesBlockKeepsToItsAllowance | chat/context_window.py:226-247 | it always holds once header and brief leave 3047 characters |
| ContextWindow.BlockLengthOnInputs | chat/context_window.py:226-247 | the length of a block, on its inputs |
| ContextWindow.NoteCost | chat/context_window.py:285-289 | prepending the block costs at most two tokens more than `fit` counts for it, floor divisions included |
| ContextWindow.FitReportsItsCost | chat/context_window.py:276-291 | the reported tokens are at most the true estimate of what is sent and at most two below it |
| ContextWindow.FitEstimateBound | chat/context_window.py:276-291 | the true estimate stays within the budget when nothing is left out, and within a stated excess otherwise |
| ContextWindow.FitOverrunsByAtMost13 | chat/context_window.py:276-290 | once the reserve covers the header, what is sent is at most 13 tokens over the budget |
| ContextWindow.FitKeepsToItsBudget | chat/context_window.py:250-291 | for every window: what is sent never exceeds the budget when nothing is left out, or when the reserve covers the largest block, its header taken for all messages there are |
| ContextWindow.FitKeepsToALargeBudget | chat/context_window.py:223 | in particular never with 4800 tokens free beyond the current message |
| BudgetOverrun.OverrunPossibleExactlyBelowTheSafeReserve | chat/context_window.py:186-291 | for every system prompt: a loaded conversation of fewer than 100,000 messages can be sent above its budget if and only if the reserve is below 1166 tokens |
| BudgetOverrun.SmallerReservesOverrun | chat/context_window.py:186-291 | for each smaller reserve a conversation of at most 100 messages, questions and replies in turn, that is |
| BudgetOverrun.SafeReserve | chat/context_window.py:186-291 | from 1166 tokens of reserve on no loaded conversation is |
| BudgetOverrun.ShortConversationsNeedLess | chat/context_window.py:186-291 | a conversation of a given length is not, once the reserve covers one note of 140 characters for each message that may be left out, the header, and a brief if there are more than 40 |
| BudgetOverrun.ThirteenReachedExactlyBetween | chat/context_window.py:280-289 | from 10 tokens of reserve on, a stored conversation of at most 100 messages exceeds its budget by exactly 13 if and only if the reserve is between 22 and 771 |
| BudgetOverrun.SentEstimate | chat/context_window.py:280-289 | what is sent, to the token, when the kept turns take all that the reserve leaves |
| BudgetOverrun.TinyReserveOverruns | chat/context_window.py:280-284 | three messages, the last of which leaves two tokens of reserve or none, are sent at least 14 tokens above their budget, and at least 22 without a reserve |
| PlanCheck.ExcessUpTo | chat/context_window.py:276-291 | no loaded conversation of fewer than 100,000 messages is sent more than 1166 tokens less the reserve above its budget |
| PlanCheck.LargestExcess | chat/context_window.py:280-284 | so never more than 1166, which a stored conversation of at most 100 messages reaches when its current message leaves no reserve |
| PlanCheck.PlanEstimateWithNote | governance/plans.py:715-718 | what the plan's estimate, over all characters together, makes of turns behind a block of notes, against the estimate `fit` uses |
| PlanCheck.NoneRefusedWhere | chat/views.py:1668-1683 | no stored conversation of at most 100 messages whose current message fits is refused where the largest block, 86 characters with 3 to 21 tokens of reserve and 4659 with others, is too short for the reserve |
| PlanCheck.RefusedExactlyWhen | chat/views.py:1668-1683 | for every system prompt and reserve: one can be refused although its message fits if and only if four times the reserve is at most 45, or the reserve at least 22 and four times it at most 4618, each plus the characters the system prompt's token count leaves over |
| ContextWindow.FitMonotoneInBudget | chat/context_window.py:250-291 | a larger budget never turns `fits` false, never sends fewer turns and never omits more |
| ContextWindow.ReserveLeavesMore | chat/context_window.py:280-281 | what is left after the reserve grows with the budget |
| LoadWindow.Load | chat/context_window.py:186-217 | the loops and skipped queries give the window of a conversation cut in two |
| LoadWindow.BuildTurns | chat/context_window.py:194-203 | the loop with its running image allowance gives an image to exactly the readable ones with fewer than four newer ones |
| LoadWindow.ImagesSent | chat/context_window.py:194-203 | as many images are sent as are readable, up to four |
| LoadWindow.TurnsTellOfAttachments | chat/context_window.py:151-178 | a readable file's text ends its turn, and an attachment that is not sent is named there |
| LoadWindow.SkippingPastTheWindow | chat/context_window.py:209-216 | skipping the window's user messages leaves exactly the newest 60 questions before it, oldest first |
| LoadWindow.WindowAccountsForEveryMessage | chat/context_window.py:189-205 | every message is in the window or counted as older; the window holds the newest 40 |
| LoadWindow.RequestAccountsForEveryMessage | chat/context_window.py:186-291 | from the stored conversation to what is sent: the newest messages in order with their roles and texts, the first one's behind the notes, and everything else counted as omitted |
| ClaimProtocol.NeverTwoGenerators | chat/views.py:1517-1522 | under the design's assumptions, and no claim between another generator's two last UPDATEs, no interleaving has two generators between claim and `finally` |
| ClaimProtocol.AnsweringGeneratorsNeverOverlap | chat/views.py:1830-1848 | the same without an assumption about claims, when every `finally` leaves an answered row and nobody regenerates during one |
| ClaimProtocol.ClaimSucceedsOnlyWhenFree | chat/views.py:1517-1522 | a claim succeeds only on an empty reply that no live generator holds |
| ClaimProtocol.RunKeepsInv | chat/views.py:1485-1541 | over every run a live generator's row is answered or claimed with that generator's own start |
| ClaimProtocol.SecondGeneratorExactlyWhenHarmed | chat/views.py:1517-1522 | from any guarded state, a step lets a new request become a second generator if and only if it is one of five named harmful steps |
| ClaimProtocol.GuardedExactlyWhenHarmless | chat/views.py:1485-1848 | over whole runs the row stays guarded in every state if and only if no step is harmful, and then there is never a second generator |
| ClaimProtocol.HarmlessKeepsGuarded | chat/views.py:1485-1541 | exactly the harmless steps keep a live generator's row answered or freshly claimed |
| ClaimProtocol.AbandonedClaimIsTakenOver | chat/views.py:1485-1522 | after any run that left a row unanswered with nobody live, a new request can claim it after the timeout |
| ClaimProtocol.CrashedClaimHoldsUntilTimeout | chat/views.py:1485-1522 | after a crash on an unanswered row nothing anybody does gets a new generator in before the timeout |
| ClaimProtocol.ReleaseKeepsTheReply | chat/views.py:1845-1847 | over every assumed run the first UPDATE of `finally` never overwrites a saved reply and otherwise stores the partial text |
| ClaimProtocol.AnsweredRowAdmitsNobody | chat/views.py:1495-1522 | while a row stays answered, a request that has not read it never gets to claim it, and one that has claims in vain |
| ClaimProtocol.OneTryEach | chat/views.py:1517-1541 | a request claims once, and after a crash does nothing more |
| ClaimProtocol.SecondUpdateClearsAnotherClaim | chat/views.py:1845-1848 | a claim between the two UPDATEs of an empty release is cleared by the second one, and a third request gets in |
| ClaimProtocol.EmptyReplyLetsASecondGeneratorIn | chat/views.py:1814 | an empty reply saved with every field lets a second generator in; saved as content only it does not |
| ClaimProtocol.SlowGeneratorLosesItsClaim | chat/views.py:1485-1522 | a generator loses its claim after 601 seconds and not after 600 |
| ClaimProtocol.RegenerateUnderALiveGenerator | chat/views.py:1256-1261 | regenerating before the first generator's `finally` lets a second one in |
| ReplyEngine.Generator.EventStream | chat/views.py:1582-1848 | the whole generator, with its loops, saves and `finally`, leaves the row and the client as `Result` says, for every disconnect point |
| ReplyEngine.Generator.TryCandidates | chat/views.py:1725-1828 | the candidate loop performs exactly the attempts up to the one that does not move on |
| ReplyEngine.Generator.StreamChunks | chat/views.py:1747-1756 | the chunk loop performs one partial-text update and one message for every non-empty chunk |
| ReplyEngine.Answering | chat/views.py:1725-1762 | the answering candidate is the first that fits and does not fail before its first text, or the last one |
| ReplyEngine.OnlyTheAnsweringCandidateShows | chat/views.py:1725-1762 | the whole loop equals the one attempt of that candidate: those before it leave no trace |
| ReplyEngine.StreamShowsWhatItKeeps | chat/views.py:1747-1756 | at every disconnect point of a stream the partial text is exactly what the client has seen |
| ReplyEngine.GenerateOutcome | chat/views.py:1725-1848 | messages first and `done` at most once, last; the claim is given up; the stored text is the shown text or misses only notices whose save never ran, and is a prefix of it; an uninterrupted run ends with `done` |
| ReplyEngine.UninterruptedReply | chat/views.py:1725-1828 | for every candidate list and a client that stays, the answering candidate decides every event sent and the text stored, for each way it can end |
| ReplyEngine.CompletedReplyIsShown | chat/views.py:1796-1814 | a completed reply is shown as it is stored: its chunks, the cut-off notice exactly when it was cut off, the trimming notice exactly when that is due, neither on an empty reply |
| ReplyEngine.RefusedOutcome | chat/views.py:1677-1683 | a refusal stores its text, shows none and ends with `done` |
| ReplyEngine.NoStoriesOutcome | chat/views.py:1658-1665 | that reply is saved before it is shown, whenever the client leaves |
| ReplyEngine.CachedOutcome | chat/views.py:1694-1717 | a cached reply is shown and stored, except that a client leaving at its message leaves the row empty |
| ReplyEngine.EmptyReplyExactlyWhen | chat/views.py:1582-1848 | for every setup and disconnect point: the row is left without a reply if and only if the text to be saved is empty, a cached reply is cut off at its message, or the answering candidate fits and ends without text and without a provider's error |
| ReplyEngine.ClientRebuildsTheStoredReply | chat/views.py:1725-1868 | a client that parses the bytes of a completed run rebuilds the stored reply, if no text holds a carriage return |
| ConcurrentReplies.ScriptLeavesTheResult | chat/views.py:1582-1848 | the steps a generator takes on its row, left alone, leave the row as the generator's own run does |
| ConcurrentReplies.AnsweringJobsNeverOverlap | chat/views.py:1485-1848 | any number of requests, interleaved step by step, crashing at will: if each would leave a reply, and none outlives the timeout or is regenerated under, no two generators are ever live |
| ConcurrentReplies.NothingLeftLetsTwoIn | chat/views.py:1830-1848 | for any one that would not, some interleaving with two more requests ends with both of them generating |
| ConcurrentReplies.OneAtATimeExactlyWhenAllAnswer | chat/views.py:1485-1848 | so there is never a second generator, in any interleaving, if and only if every request leaves a reply |
| Router.SelectModelCandidates | chat/router.py:108-121 | the nested loops collect every permitted model once, requested tier first, cheapest first within a tier, unpriced last |
| Router.OrderedExactlyWhen | chat/router.py:115-119 | the order of every two candidates: within a tier by price, unpriced last; then the requested tier, and the others as in TIER_ORDER |
| Router.FirstChoice | chat/router.py:124-129 | there is a choice exactly when something is permitted, and it is a cheapest model of the requested tier if there is one |
| Sse.PrintAsWritten | chat/views.py:1861-1868 | the printer as the source writes it, joins and splits included, is the printer of the round trip |
| Sse.UnescapeEscape | chat/views.py:1865 | undoing the five HTML escapes gives the data back |
| Sse.EscapesAre | chat/views.py:1865 | which five characters are escaped, and how; all others stand for themselves |
| Sse.EscapeConcat | chat/views.py:1865 | a text is escaped character by character |
| Sse.OneEvent | chat/views.py:1861-1868 | a printed event in front of any stream is dispatched with its name and data, then the rest is parsed |
| Sse.ParsePrintAll | chat/views.py:1861-1868 | parsing printed events gives them back, still escaped |
| Sse.StreamRoundTrip | chat/views.py:1861-1868 | parsing and unescaping a printed stream gives back exactly the events if and only if no data holds a carriage return |
| Sidebar.CursorResumes | chat/views.py:249-266 | the filter of a row's own cursor leaves exactly the rows listed after it, ties included |
| Sidebar.FollowCursor | chat/views.py:249-266 | following the cursor while there is more reads consecutive slices of the list |
| Sidebar.PagesCoverTheList | chat/views.py:249-266 | the pages make up the whole list, none over 100, in as few pages as it takes |
| Sidebar.GroupConversations | chat/utils.py:6-46 | the one-pass loop with its dictionary gives, per heading in order of first appearance, the items carrying it in order |
| Sidebar.LabelsAreDates | chat/utils.py:21-37 | which dates each heading stands for, later ones than today included |
| Sidebar.HeadingsInOrder | chat/utils.py:39-46 | headings are listed in the order in which they first appear |
| Sidebar.BucketHoldsItsHeading | chat/utils.py:39-46 | a bucket holds exactly the conversations with its heading, in the order of the list |
| Sidebar.GroupsFlattenExactlyWhenContiguous | chat/utils.py:6-46 | the buckets read from top to bottom are the input exactly when no heading comes back |
| Sidebar.NewestFirstContiguousIff | chat/utils.py:12-46 | for a newest-first list that is so exactly when no later date is pushed across today's and yesterday's conversations |
| Sidebar.MergeRuns | chat/views.py:331-359 | merging the runs of two pages where headings meet gives the runs of both together |
| Sidebar.LoadingMoreShowsTheWholeList | chat/views.py:331-359 | loading every page and merging shows what grouping the whole list at once shows, unless a later date splits a heading; it reads as the list exactly then |
| Sidebar.LoadEverything | chat/views.py:228-359 | following the cursor over the list in database order, days following times: the pages make up the list, and merging their groups gives the grouping of the whole list unless a later date splits a heading |
| Calendar.OrdinalCountsDays | billing/invoicing.py:38-48 | the day number used below counts days: the next day has the next number |
| Calendar.OrdinalRespectsOrder | billing/invoicing.py:38-48 | day numbers are ordered as dates are, both ways |
| Calendar.AddMonthsIsValid | billing/invoicing.py:38-48 | the result is a valid date, exactly that many months on, its day clamped to the month's length |
| Calendar.AddMonthsMonotone | billing/invoicing.py:38-48 | a later start never ends earlier |
| Calendar.AddMonthsStrict | billing/invoicing.py:38-48 | more months end strictly later |
| Calendar.AddMonthsMovesDays | billing/invoicing.py:38-48 | each month moves the day number by 28 to 31 days |
| Calendar.StackingLosesAtMostThreeDays | billing/invoicing.py:38-48 | month-by-month stacking lands in the same month, at most three days early, and exactly for start days up to 28 |
| Calendar.StackingCanLoseThreeDays | billing/invoicing.py:38-48 | January 31 plus one month plus one month really loses three days |
| PlanExpiry.UserPlan.SyncToPaidInvoice | billing/views.py:871-912 | after a paid invoice the user is on its plan: unchanged, reassigned, or with the new expiry |
| PlanExpiry.LastPaymentSetsThePlan | billing/views.py:871-912 | after any payments of any kind the user is on the plan of the last invoice |
| PlanExpiry.OtherInvoicesOnlyChangePlans | billing/views.py:897-904 | an invoice that is not of a fixed term changes the assignment exactly when it is for another plan, which then ends after its demo days or never |
| PlanExpiry.FixedTermAlwaysEnds | billing/views.py:846-912 | one of a fixed term sets an end: its months from its issue date, or for a renewal from the old end if that is later |
| PlanExpiry.AssignPlan | governance/plans.py:42-60 | the plan, and an end after its demo days for a demo plan only |
| PlanExpiry.RenewalAddsTime | billing/views.py:846-868 | a renewal ends 28 to 31 days per month after the later of the old expiry and the issue date |
| PlanExpiry.RenewalsNeverLoseTime | billing/views.py:846-912 | over any sequence of paid renewals the expiry never moves back and every paid month is worth at least 28 days |
| PlanExpiry.ChangeStartsAfresh | billing/views.py:846-868 | a change of plan ends exactly its months after its issue date, whatever was left |
| PlanExpiry.CreditOrDaysNeverBoth | billing/invoicing.py:89-131 | one invoice gives unused time back in one way: with a credit its expiry is independent of the old one, without a previous plan it has no credit and loses no day |
| PlanExpiry.SyncingTwiceStacksTwice | billing/views.py:846-912 | synchronising one renewal twice extends the plan twice |
| PlanCredits.ReturnedOnceExactlyWhen | billing/views.py:336-371 | over every run of checkouts, payments and reassignments each assignment's unused time is given back at most once if and only if no credited invoice is paid while another paid invoice credits the same assignment or is stacked on it |
| PlanCredits.StackedExactlyWhenTimeCounts | billing/views.py:862-868 | a paid row is stacked on the assignment exactly when what was left of that counts for the new expiry, for a renewal paid before the old end |
| PlanCredits.PaymentReturns | billing/views.py:871-912 | the same for one payment, read off the invoice rows |
| PlanCredits.PaidInTimeReturnsOnce | billing/views.py:846-912 | which holds as long as every credited invoice is paid before the assignment changes |
| PlanCredits.TwoDurationsCreditTwice | billing/views.py:338-352 | from any state in which a user may change plan, two durations give two open invoices with the credit for the same days, and paying both gives them back twice |
| PlanCredits.ChangeIsReachable | billing/views.py:336-371 | such a state is reached from no assignment by buying one plan |
| PlanCredits.CreditedThoughUsedExactlyWhenLate | billing/invoicing.py:126-131 | whatever is bought, paid or reassigned between a checkout and its payment: the credit stays that of the checkout, and the days of the old plan used since and the days credited exceed the days that were left exactly when the old plan was not replaced on the checkout day |
| PlanCredits.LatePaymentGainsNoDays | billing/views.py:862-868 | over both plans it balances: a day used of the old plan is a day less of the new one |
| PlanCredits.DiscardsExactlyWhen | billing/views.py:846-912 | a payment loses what is left of the current assignment - the assignment it leaves is the same for every old expiry, and nothing that happens later gives the time back - if and only if its invoice is for a change of plan and no open invoice credits the current assignment |
| PlanCredits.SecondChangeDiscardsTheFirst | billing/views.py:846-912 | so the second of two change invoices loses for good the period the first one bought, at least 28 days for each month |
| Pricing.GenerateForDepartment | billing/invoicing.py:156-264 | the first error, or a bill with the base line and, exactly when seats are over and priced, the extra-members line, which sum to the subtotal; the total is that plus tax |
| Pricing.GenerateForUser | billing/invoicing.py:366-445 | the first error, or a bill whose lines sum to subtotal less credit, taxed on what is left of that, never negative; the previous plan and its credit are there exactly for a creditable change |
| Pricing.ComputeUpgradeCredit | billing/invoicing.py:89-131 | a credit exactly when another plan has a whole day left and a paid invoice of it exists; for those days, drawn from the paid invoice of that plan with the latest issue date, the newest of several |
| Pricing.CreditOfTheNewestInvoice | billing/invoicing.py:117-131 | the credit on the amounts of that very invoice: never above its total, and below that within a cent of its price for the unused days, give or take half a cent a month |
| Pricing.MonthlyRoundingAddsUp | billing/models.py:365-373 | an invoice whose rounded monthly price moves the credit by 15 cents |
| Pricing.NewestPaid | billing/invoicing.py:117-121 | the source invoice is the newest of those with the latest issue date |
| Pricing.UnusedDaysAreDates | billing/views.py:868 | time that ends with the last second of a day counts as the difference of the dates, at any time of day |
| Pricing.ApplyDurationMonths | billing/invoicing.py:63-76 | the loop scales every line, a single month changing nothing, and the scaled lines sum to the scaled subtotal |
| Pricing.TaxOn | billing/invoicing.py:243-245 | tax within half a cent of exact |
| Pricing.CreditBounds | billing/invoicing.py:126-131 | below what was paid, the credit is within a cent of the unused share of the monthly price; never above it by more |
| Pricing.CreditGrows | billing/invoicing.py:126-131 | more days left never give a smaller credit; never above what was paid |
| Pricing.RoundDivIsHalfUp | billing/invoicing.py:34-35 | the integer rounding of a quotient is rounding half up of its exact value |
| Pricing.RoundedWithinHalf | billing/invoicing.py:34-35 | rounding moves a value by at most half a cent and keeps its sign |
| InvoiceLifecycle.RunKeepsInv | billing/models.py:311-380 | over every run: at most one pending request, every request for the total, and a refunded invoice with exactly one approved and none pending |
| InvoiceLifecycle.RefundsInEveryRun | billing/views.py:1100-1242 | refunded exactly when one request is approved, at most once, and for the total |
| InvoiceLifecycle.RefundedIsFinal | billing/views.py:917-985 | nothing ever happens to a refunded invoice again |
| InvoiceLifecycle.PaidOutOnTheSpotIff | billing/views.py:1119-1145 | a request is paid out at once exactly inside the money-back window of a paid invoice with no request waiting |
| InvoiceLifecycle.PaidExactlyWhenProofVerified | billing/models.py:311-336 | over every run of a new invoice without an override: paid exactly when a proof was submitted and verified with no rejection in between; otherwise waiting exactly when a proof stands, else unpaid |
| InvoiceLifecycle.WindowRunsFromTheLastReview | billing/models.py:338-345 | over every run a refund is paid out at once if and only if the invoice is paid, no request waits, and the latest review of a proof - a rejection included - is at most seven days past |
| InvoiceLifecycle.RejectionOpensTheWindow | billing/models.py:329-345 | an invoice overridden to paid after a rejection is paid back within seven days of the rejection |
| InvoiceLifecycle.RefundsUnpaidExactlyWhen | billing/views.py:1222-1237 | after any run, a step refunds an invoice that is not paid exactly when it approves a pending request of one |
| InvoiceLifecycle.UnpaidInvoiceCanBeRefunded | billing/views.py:1222-1237 | a run that overrides an invoice to unpaid while a request waits, and then refunds it |
| InvoiceLifecycle.SyncsTwiceExactlyWhenPaidAgain | billing/views.py:917-962 | over every run of an unpaid invoice the plan is synchronised more than once if and only if a payment is taken back and the invoice is paid again |
| InvoiceLifecycle.SyncsAtMostOnce | billing/views.py:917-962 | over every run without an override of a paid invoice, at most once, and not at all from paid or refunded |
| InvoiceLifecycle.PaidBackSyncsAgain | billing/views.py:927-962 | taking a payment back and ending up paid again, by override or by proof, synchronises again |
| InvoiceLifecycle.ToggleCanSyncTwice | billing/views.py:927-962 | three overrides, or an override undone and a proof verified, synchronise twice |
| InvoiceLifecycle.Invoice.AskForRefund | billing/views.py:1100-1145 | the new request and what it does to the invoice |
| InvoiceLifecycle.Invoice.ResolveRefund | billing/views.py:1210-1242 | only a pending request is resolved; approval refunds its amount |
| InvoiceLifecycle.Invoice.PerformAll | billing/views.py:917-1242 | any list of requests leaves exactly the state the run of their steps does |
| InvoiceNumbers.NumberReadsBack | billing/models.py:300-309 | the sequence read from a printed number is the one printed, 10000 and above included |
| InvoiceNumbers.NumbersHaveFourDigits | billing/models.py:300-309 | the sequence is printed with four digits, or as many more as it needs |
| InvoiceNumbers.PrefixPicksTheYear | billing/models.py:300-309 | a number starts with a year's prefix exactly when it was printed for that year |
| InvoiceNumbers.NumberIsInjective | billing/models.py:300-309 | equal numbers come from equal years and sequences |
| InvoiceNumbers.LiveNumbersDistinctAndOrdered | billing/models.py:293-309 | after any run of creations and deletions live numbers are distinct and grow with the id within a year |
| InvoiceNumbers.DeletionReusesExactlyWhenNewest | billing/models.py:300-309 | after any run, a deletion makes the year's next number a repeat if and only if it deletes the invoice that number is read from, or the number was a repeat already |
| InvoiceNumbers.NoReuseWhileNewestIsSpared | billing/models.py:300-309 | over every run that never deletes the newest invoice of a year, no number comes back |
| InvoiceNumbers.DeletedNumberComesBack | billing/views.py:795-803 | the first invoice of a year is deleted and the next one gets its number |
| InvoiceNumbers.InvoiceTable.Create | billing/models.py:293-309 | the new row gets the next number, and no live row has it |
| InvoiceNumbers.InvoiceTable.Delete | billing/views.py:795-803 | exactly the rows of that id go |
| Sweep.Billing.SweepDueInvoices | billing/tasks.py:57-118 | the loop adds exactly the invoices its visits generate, and its four counters count the outcomes of those visits |
| Sweep.Billing.VisitRecipient | billing/tasks.py:64-104 | one visit: the first condition that applies decides, and only a generated invoice changes the ledger |
| Sweep.OutcomesOfDueCycles | billing/tasks.py:64-104 | why a due cycle is not billed, each reason if and only if it applies and none before it does |
| Sweep.TallyCountsVisits | billing/tasks.py:57-118 | a counter is the number of visits that end that way |
| Sweep.LatestIndex | billing/tasks.py:65 | the latest invoice is the newest of those with the latest issue date |
| Sweep.RunExtends | billing/tasks.py:57-104 | over any run of sweeps every new invoice is due 30 days after its recipient's latest one, at most 3 days ahead, on a due date they never had, and becomes their latest |
| Sweep.NoDueDateTwice | billing/tasks.py:69-73 | a generated due date differs from every other due date of its recipient, earlier or later |
| Sweep.CycleNeverDrifts | billing/tasks.py:65-73 | the latest due date is the first one plus 30 days per generated invoice, however the sweeps fall |
| Sweep.GeneratesExactlyWhen | billing/tasks.py:65-104 | a visit generates exactly for a billable recipient who is behind and not blocked, and takes off one cycle |
| Sweep.RepeatingStops | billing/tasks.py:69-73 | repeating a visit on one day stops within as many visits as cycles were due, with the next due date beyond the window or already invoiced |
| Sweep.CatchesUp | billing/tasks.py:65-104 | a billable recipient whose latest invoice is due last catches up one cycle a visit, none left out |
| Sweep.BlockedForever | billing/tasks.py:72-73 | once an older invoice carries the next due date, no sweep on any day changes anything for that recipient |
| Sweep.BilledAgainExactlyWhen | billing/tasks.py:69-73 | some later visit bills a billable recipient exactly when no older invoice carries the next due date |
| Sweep.ManualBlocksExactlyWhen | billing/views.py:736-759 | a manual invoice stops the sweep for its recipient if and only if the cycle after it meets a due date they already have |
| Sweep.BlockedLedgerIsReachable | billing/views.py:736-759 | two manual invoices on an empty ledger do, for every later run of sweeps |
| Sweep.RecipientsDoNotInterfere | billing/tasks.py:64-104 | sweeping everyone in any order is sweeping each recipient by themselves |
| Sweep.OneSweepCanBillTwice | billing/models.py:288 | two visits in one sweep bill two overdue cycles |
| RateLimit.LocalLimiter.IsLimited | accounts/rate_limit.py:81-98 | prune, evict the oldest, then count: answer and new table for every table and call |
| RateLimit.LocalLimiter.EvictOldest | accounts/rate_limit.py:89-91 | exactly 2000 keys go, none ending later than one that stays |
| RateLimit.EarliestEnd | accounts/rate_limit.py:90 | a key whose window ends first |
| RateLimit.LocalTableBounded | accounts/rate_limit.py:86-91 | the local table never holds more than 20000 keys |
| RateLimit.PruningIsInvisible | accounts/rate_limit.py:87-88 | pruning changes no answer, now or later |
| RateLimit.LocalAnswersLikeCache | accounts/rate_limit.py:81-128 | while nothing live is evicted the local limiter answers every call as the shared cache would |
| RateLimit.EntriesCount | accounts/rate_limit.py:92-98 | every entry counts exactly the calls allowed since its window opened, never above the limit |
| RateLimit.RefusalMeansLimitReached | accounts/rate_limit.py:92-98 | even with eviction, a refusal means exactly `limit` calls of the key were allowed inside the last window |
| RateLimit.CountMeansAllowedCalls | accounts/rate_limit.py:146-159 | a live count at a threshold stands for that many calls allowed inside the last window |
| RateLimit.AtMostTwiceTheLimit | accounts/rate_limit.py:108-123 | any interval of one window's length allows a key at most twice its limit |
| RateLimit.LocalAtMostTwiceTheLimit | accounts/rate_limit.py:81-98 | the same for the local table while nothing live is evicted |
| RateLimit.OneWindowAllowsTheLimit | accounts/rate_limit.py:108-123 | from the call that opens a window until it ends, a key is allowed at most its limit |
| Mfa.PendingSession.VerifyCode | accounts/views.py:291-323 | a code signs the pending user in, or counts as wrong, if and only if it comes in time and within the attempts and is, or is not, the code; what each outcome leaves in the session |
| Mfa.PendingSession.ResendCode | accounts/views.py:327-347 | the resend cap, and a fresh code with fresh attempts |
| Mfa.PendingSession.HandleAll | accounts/views.py:142-347 | any list of a browser's requests leaves exactly the session the run of their steps does, and each is answered as that run says |
| Mfa.SignsInExactlyWhen | accounts/views.py:291-347 | over every list of requests, one signs a user in if and only if it submits the code of the latest start or allowed resend of that user's challenge, within 600 seconds, with fewer than five wrong codes and nothing else in between |
| Mfa.ChallengeStartsExactlyWhen | accounts/views.py:191-224 | after any requests the next one starts a challenge if and only if it is a Google sign-in, or an accepted password login that the limiter does not refuse |
| Mfa.LoginsAreLimited | accounts/views.py:191-224 | the limiter counts every password login with a user name, in their order |
| Mfa.SessionComparisons | accounts/views.py:291-347 | over any mix of verifying and resending in one session, no more comparisons are made than were left |
| Mfa.FreshChallengeComparisons | accounts/mfa.py:29-75 | for a fresh challenge at most 20 |
| Mfa.RunKeepsInv | accounts/views.py:291-347 | over every interleaving a pending session has comparisons within its attempts and resends so far |
| Mfa.ComparisonsPerChallenge | accounts/views.py:291-347 | one challenge sees at most 5 * (3 + 1) comparisons |
| Mfa.StartedByAllowedLogins | accounts/views.py:191-224 | every challenge a password login starts is paid for with one allowed call of the login limiter, in every stretch of its calls and whatever follows |
| Mfa.ComparisonsPerLoginWindow | accounts/views.py:71 | in every run, the challenges that one user name's logins start in one counter window see at most 15 times that many comparisons by the end of the run, whenever those happen and whoever signs in later |
| Mfa.ComparisonsPerHour | accounts/views.py:71 | those started in any hour of logins see at most twice that, whatever comes before and after |
| SingleSession.RunKeepsInv | accounts/single_session.py:35-61 | over every interleaving, stale saves included, tokens travel only to the session they were made for |
| SingleSession.TokensAreNeverShared | accounts/single_session.py:35-61 | no two sessions hold the same token, so at most one matches the account's |
| SingleSession.SignOutAllLeavesNobody | accounts/views.py:351-365 | after sign-out-everywhere no session holds the account's token, and the one it comes from holds none |
| SingleSession.NewestTokenCountsExactlyWhenClean | accounts/views.py:664-667 | the token made last is the account's in every state of a run if and only if no save writes back a row whose token changed since it was read |
| SingleSession.TokenNeverEmptyAgainExactlyWhen | accounts/views.py:520-532 | once set, the token stays set through a run if and only if no save in it writes back an empty one |
| SingleSession.OneAdoptionWins | accounts/single_session.py:45-61 | unless a save empties the row, at most one of all racing adoptions wins, and one does when anybody tried and nothing else wrote the row |
| SingleSession.AdoptedAgainExactlyWhenEmptied | accounts/single_session.py:53-58 | once the row is set, a step lets a new request adopt it if and only if it is a save that empties it |
| SingleSession.SupersededExactlyWhenNonePutsBack | accounts/single_session.py:35-42 | a superseded session that does not sign in again stays superseded if and only if no save puts back an empty token or one of its own |
| SingleSession.CleanPutsNothingBack | accounts/views.py:664-667 | clean saves put nothing back |
| SingleSession.LaterReadsAreRefused | accounts/middleware.py:234-257 | after a newer login or sign-out-everywhere every request of a superseded session that reads the row from then on is refused, as long as nothing is put back |
| SingleSession.RefusedExactlyWhen | accounts/single_session.py:45-61 | the fate of every request by its three reads of the row: refused if and only if it neither carries the token it reads nor adopts an empty row nor carries the token it finds after losing the race |
| SingleSession.TokenlessRefusedExactlyWhen | accounts/single_session.py:45-61 | a request that loaded its session before it held a token is refused exactly when somebody wrote the row before it could adopt it |
| SingleSession.CurrentSessionPasses | accounts/single_session.py:45-61 | the session holding the account's token passes, whatever others do in between |
| SingleSession.StaleSaveLetsASecondAdoptionWin | accounts/views.py:520-532 | a form that read the empty row and saves it later lets a second adoption win |
| SingleSession.BothReadTheEmptyRow | accounts/views.py:520-532 | the state that run starts from is reached from a fresh account |
| SingleSession.StaleSaveRevivesASupersededSession | accounts/views.py:664-667 | a form that read the row before a newer login and saves it later makes the old session current and supersedes the new one |
| SingleSession.FormOfTheSignedInSession | accounts/views.py:664-667 | the state that run starts from is reached from a fresh account |
| SingleSession.AdoptionRaceCanSignOutItsOwnBrowser | accounts/single_session.py:45-61 | two racing first requests of one browser can end with that browser signed out |
| SingleSession.RaceIsReachable | accounts/single_session.py:45-61 | that race is reached from a fresh account |

## Left out

- Provider calls, HTTP, e-mail, PDF and spreadsheet rendering, the response cache's contents, notifications, audit
  log, metrics and translations: I/O. Outcomes of providers, of the cache and of reading attachments are inputs, and
  translated texts are parameters.
- `governance/`: plans, permissions and assignments are inputs; of `assign_plan` only the expiry it sets is modelled,
  and of `validate_context_tokens` the estimate and the comparison.
- Routing rules, complexity classification and how the reply mode is chosen: each is one branch over inputs.
- A request that finds its message claimed (chat/views.py:1523-1540): it reads and shows a finished reply only.
- The text of the cursor and of the "load more" address; the model passes the pair the cursor encodes.
- Time zones and time of day: expiry and due dates are whole days, and one sweep uses one date even across midnight.
- Python's last year, 9999: dates are not capped.
- ClaimProtocol.Step: one message row at a time, on values rather than objects; it leaves out what else a save writes,
  and reads the clock in the same step as the UPDATE it is for.
- ReplyEngine.Generator.EventStream: the candidate list, the context fit and the trimming notice are given per
  candidate rather than computed; a claim that another request takes over meanwhile belongs to `ClaimProtocol`.
- ConcurrentReplies.Move: what a request generates is fixed with it, provider outcomes and the point where its client
  leaves included; the timeout and regeneration assumptions are those of `ClaimProtocol`.
- PlanCheck.RefusedExactlyWhen: conversations of more than 100 messages, whose header is a character or two longer.
- SingleSession.Step: one account, on values rather than objects; random tokens are taken never to repeat, and of a
  form's save only the token is modelled.
- PlanCredits.Step: credits are counted in days, an invoice is paid once (payments taken back belong to
  `InvoiceLifecycle`), and an invoice its credit pays for is a checkout followed by a payment.
- Mfa.PendingSession.VerifyCode: requests of one session do not overlap; two that do could both compare against one
  counted attempt. The trusted-device check is part of whether a login starts a challenge, and the failure counter
  per address is not modelled.
- RateLimit.LocalLimiter.IsLimited: the cache being up for some calls and down for others, and the policy that allows
  every call while it is down. Calls of the shared cache are one step each: overlapping calls of one key that both read
  before either counts can be allowed beyond the limit, and one can restart a window another has begun.
- RateLimit.AtMostTwiceTheLimit: assumes a limit and a window of at least one; with a limit of 0 the first call of a
  window is still allowed.
- InvoiceLifecycle.Step: one invoice at a time; each locked block is one step, and who may take it is not modelled.
- InvoiceNumbers.InvoiceTable.Create: creations are serial; two at once would be stopped by the unique column and fail.
- Pricing.GenerateForUser: a user whose department has a plan is billed by `GenerateForDepartment`; the choice of
  region, currency and plan is an input.
- Pricing.CreditBounds: Python's 28-digit quotient of the monthly price by 30 is any real within a billionth of it,
  and remaining time is at most a million days.
- Sweep.Billing.SweepDueInvoices: only sweeps create invoices in the run lemmas; reminders are not modelled.
- LoadWindow.TurnFor: attachment text and image data are inputs; the cache of extracted text is not modelled.
- Text outside the Basic Multilingual Plane counts as its characters, as in Python; bytes on the wire are not modelled.
