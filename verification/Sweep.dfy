/** The daily sweep that bills every recipient's next cycle (billing/tasks.py). Dates are day numbers; an invoice's id
    is its position in the ledger. */
module Sweep {
  import opened Wrappers

  const BILLING_CYCLE_DAYS := 30
  const GENERATE_DAYS_BEFORE_DUE := 3

  datatype Invoice = Invoice(recipient: nat, issue: int, due: int)

  type Ledger = seq<Invoice>

  /** What the sweep looks up about a recipient; `autoGenerate` is the setting of their department's billing profile, if
      they have one, and `priced` says whether `generate_invoice_for_user` finds a plan and a price. */
  datatype Account = Account(cancelled: bool, autoGenerate: Option<bool>, priced: bool)

  datatype Visit = Visit(recipient: nat, account: Account, today: int)

  datatype Outcome = NoInvoiceYet | NotYetDue | AlreadyInvoiced | Cancelled | AutoGenerateOff | NoPrice | Generated

  /** The recipient's invoice with the latest issue date, the newest of several. */
  function LatestIndex(l: Ledger, r: nat): (k: Option<nat>)
    ensures k.None? <==> forall j :: 0 <= j < |l| ==> l[j].recipient != r
    ensures k.Some? ==>
              && k.value < |l| && l[k.value].recipient == r
              && (forall j :: 0 <= j < |l| && l[j].recipient == r ==> l[j].issue <= l[k.value].issue)
              && (forall j :: k.value < j < |l| && l[j].recipient == r ==> l[j].issue < l[k.value].issue)
  {
    if l == [] then None else
    var n := |l| - 1;
    var earlier := LatestIndex(l[..n], r);
    if l[n].recipient == r && (earlier.None? || l[earlier.value].issue <= l[n].issue) then Some(n) else earlier
  }

  function Latest(l: Ledger, r: nat): Option<Invoice> {
    var k := LatestIndex(l, r);
    if k.None? then None else Some(l[k.value])
  }

  predicate HasDue(l: Ledger, r: nat, due: int) {
    exists j :: 0 <= j < |l| && l[j].recipient == r && l[j].due == due
  }

  predicate Billable(a: Account) {
    !a.cancelled && a.autoGenerate != Some(false) && a.priced
  }

  function Decide(l: Ledger, v: Visit): Outcome {
    var latest := Latest(l, v.recipient);
    if latest.None? then NoInvoiceYet
    else if latest.value.due + BILLING_CYCLE_DAYS > v.today + GENERATE_DAYS_BEFORE_DUE then NotYetDue
    else if HasDue(l, v.recipient, latest.value.due + BILLING_CYCLE_DAYS) then AlreadyInvoiced
    else if v.account.cancelled then Cancelled
    else if v.account.autoGenerate == Some(false) then AutoGenerateOff
    else if !v.account.priced then NoPrice
    else Generated
  }

  function Step(l: Ledger, v: Visit): Ledger {
    if Decide(l, v) == Generated
    then l + [Invoice(v.recipient, v.today, Latest(l, v.recipient).value.due + BILLING_CYCLE_DAYS)]
    else l
  }

  /** Any number of visits, those of one sweep or of many. */
  function Run(l: Ledger, visits: seq<Visit>): Ledger {
    if visits == [] then l else Step(Run(l, visits[..|visits| - 1]), visits[|visits| - 1])
  }

  /** How many of the visits end in `o`. */
  function Tally(l: Ledger, visits: seq<Visit>, o: Outcome): nat {
    if visits == [] then 0 else
    var before := visits[..|visits| - 1];
    Tally(l, before, o) + (if Decide(Run(l, before), visits[|visits| - 1]) == o then 1 else 0)
  }

  // ----- the sweep -----

  datatype Counts = Counts(generated: nat, autoGenerateOff: nat, cancelled: nat, noPrice: nat)

  function VisitsOn(recipients: seq<nat>, accounts: map<nat, Account>, today: int): (visits: seq<Visit>)
    requires forall i :: 0 <= i < |recipients| ==> recipients[i] in accounts
    ensures |visits| == |recipients|
    ensures forall i :: 0 <= i < |recipients| ==> visits[i] == Visit(recipients[i], accounts[recipients[i]], today)
  {
    seq(|recipients|, i requires 0 <= i < |recipients| => Visit(recipients[i], accounts[recipients[i]], today))
  }

  function TallyAll(l: Ledger, visits: seq<Visit>): Counts {
    Counts(Tally(l, visits, Generated), Tally(l, visits, AutoGenerateOff), Tally(l, visits, Cancelled),
           Tally(l, visits, NoPrice))
  }

  function CountOne(c: Counts, o: Outcome): Counts {
    match o
    case Generated => c.(generated := c.generated + 1)
    case AutoGenerateOff => c.(autoGenerateOff := c.autoGenerateOff + 1)
    case Cancelled => c.(cancelled := c.cancelled + 1)
    case NoPrice => c.(noPrice := c.noPrice + 1)
    case _ => c
  }

  lemma NextVisit(l: Ledger, visits: seq<Visit>, i: nat)
    requires i < |visits|
    ensures Run(l, visits[..i + 1]) == Step(Run(l, visits[..i]), visits[i])
    ensures TallyAll(l, visits[..i + 1]) == CountOne(TallyAll(l, visits[..i]), Decide(Run(l, visits[..i]), visits[i]))
  {
    assert visits[..i + 1][..i] == visits[..i];
  }

  class Billing {
    var invoices: Ledger

    constructor (invoices: Ledger)
      ensures this.invoices == invoices
    {
      this.invoices := invoices;
    }

    /** `sweep_due_invoices`. `recipients` is what the query returns: the model's default ordering takes part in its
        DISTINCT, so a recipient comes back once for each of their invoices. */
    method SweepDueInvoices(recipients: seq<nat>, accounts: map<nat, Account>, today: int) returns (c: Counts)
      requires forall i :: 0 <= i < |recipients| ==> recipients[i] in accounts
      modifies this
      ensures invoices == Run(old(invoices), VisitsOn(recipients, accounts, today))
      ensures var visits := VisitsOn(recipients, accounts, today);
        && c.generated == Tally(old(invoices), visits, Generated)
        && c.autoGenerateOff == Tally(old(invoices), visits, AutoGenerateOff)
        && c.cancelled == Tally(old(invoices), visits, Cancelled)
        && c.noPrice == Tally(old(invoices), visits, NoPrice)
    {
      ghost var start := invoices;
      ghost var visits := VisitsOn(recipients, accounts, today);
      c := Counts(0, 0, 0, 0);
      var i := 0;
      while i < |recipients|
        invariant 0 <= i <= |recipients|
        invariant invoices == Run(start, visits[..i])
        invariant c == TallyAll(start, visits[..i])
      {
        NextVisit(start, visits, i);
        ghost var before, v := invoices, visits[i];
        var o := VisitRecipient(recipients[i], accounts[recipients[i]], today);
        assert invoices == Step(before, v) && o == Decide(before, v);
        c := CountOne(c, o);
        i := i + 1;
      }
      assert visits[..i] == visits;
    }

    /** The body of the sweep's loop. */
    method VisitRecipient(r: nat, account: Account, today: int) returns (o: Outcome)
      modifies this
      ensures o == Decide(old(invoices), Visit(r, account, today))
      ensures invoices == Step(old(invoices), Visit(r, account, today))
    {
      var latest := Latest(invoices, r);
      if latest.None? {
        return NoInvoiceYet;
      }
      var nextDue := latest.value.due + BILLING_CYCLE_DAYS;
      if nextDue > today + GENERATE_DAYS_BEFORE_DUE {
        return NotYetDue;
      }
      if HasDue(invoices, r, nextDue) {
        return AlreadyInvoiced;
      }
      if account.cancelled {
        return Cancelled;
      }
      if account.autoGenerate == Some(false) {
        return AutoGenerateOff;
      }
      if !account.priced {
        return NoPrice;
      }
      var dueInDays := nextDue - today;
      invoices := invoices + [Invoice(r, today, today + dueInDays)];
      o := Generated;
    }
  }

  // ----- what the counters count -----

  /** The next cycle of the recipient's newest invoice is due within three days and has no invoice yet. */
  predicate IsDue(l: Ledger, v: Visit) {
    exists k :: 0 <= k < |l| && LatestIndex(l, v.recipient) == Some(k)
                && l[k].due + 30 <= v.today + 3 && !HasDue(l, v.recipient, l[k].due + 30)
  }

  /** Why a due cycle is not billed: a cancellation counts before the setting, the setting before a missing price. */
  lemma OutcomesOfDueCycles(l: Ledger, v: Visit)
    ensures Decide(l, v) == Cancelled <==> IsDue(l, v) && v.account.cancelled
    ensures Decide(l, v) == AutoGenerateOff <==>
            IsDue(l, v) && !v.account.cancelled && v.account.autoGenerate == Some(false)
    ensures Decide(l, v) == NoPrice <==>
            IsDue(l, v) && !v.account.cancelled && v.account.autoGenerate != Some(false) && !v.account.priced
    ensures Decide(l, v) == Generated <==> IsDue(l, v) && Billable(v.account)
  {
    var k := LatestIndex(l, v.recipient);
    assert k.Some? ==> Latest(l, v.recipient) == Some(l[k.value]);
  }

  predicate EndsIn(l: Ledger, visits: seq<Visit>, i: nat, o: Outcome)
    requires i < |visits|
  {
    Decide(Run(l, visits[..i]), visits[i]) == o
  }

  function VisitsWith(l: Ledger, visits: seq<Visit>, o: Outcome): set<nat> {
    set i: nat | i < |visits| && EndsIn(l, visits, i, o)
  }

  lemma LastVisitWith(l: Ledger, visits: seq<Visit>, o: Outcome)
    requires visits != []
    ensures var n := |visits| - 1;
      && VisitsWith(l, visits, o) == VisitsWith(l, visits[..n], o) + (if EndsIn(l, visits, n, o) then {n} else {})
      && n !in VisitsWith(l, visits[..n], o)
  {
    var n := |visits| - 1;
    forall i: nat | i < n
      ensures EndsIn(l, visits[..n], i, o) <==> EndsIn(l, visits, i, o)
    {
      assert visits[..n][..i] == visits[..i] && visits[..n][i] == visits[i];
    }
  }

  /** A counter is the number of visits that end that way. */
  lemma {:induction false} TallyCountsVisits(l: Ledger, visits: seq<Visit>, o: Outcome)
    ensures Tally(l, visits, o) == |VisitsWith(l, visits, o)|
  {
    if visits == [] {
      assert VisitsWith(l, visits, o) == {};
    } else {
      TallyCountsVisits(l, visits[..|visits| - 1], o);
      LastVisitWith(l, visits, o);
    }
  }

  // ----- every run -----

  predicate InOrder(visits: seq<Visit>) {
    forall i, j :: 0 <= i < j < |visits| ==> visits[i].today <= visits[j].today
  }

  predicate IssuedBy(l: Ledger, day: int) {
    forall j :: 0 <= j < |l| ==> l[j].issue <= day
  }

  /** Nothing was issued after the first visit, and time does not go back. */
  predicate Timely(l: Ledger, visits: seq<Visit>) {
    InOrder(visits) && (visits != [] ==> IssuedBy(l, visits[0].today))
  }

  /** Invoice `k` continues its recipient's cycle: 30 days past the latest invoice before it, at most 3 days ahead, with
      a due date its recipient never had, and itself the latest once it is there. */
  predicate Continues(l: Ledger, k: nat)
    requires k < |l|
  {
    var r := l[k].recipient;
    var before := Latest(l[..k], r);
    && before.Some? && l[k].due == before.value.due + BILLING_CYCLE_DAYS
    && l[k].due <= l[k].issue + GENERATE_DAYS_BEFORE_DUE
    && !HasDue(l[..k], r, l[k].due)
    && Latest(l[..k + 1], r) == Some(l[k])
  }

  /** `after` is `before` with continuing invoices added, all issued by `day`. */
  predicate Extends(before: Ledger, after: Ledger, day: int) {
    && |before| <= |after| && after[..|before|] == before && IssuedBy(after, day)
    && forall k :: |before| <= k < |after| ==> Continues(after, k)
  }

  lemma AppendedIsLatest(l: Ledger, inv: Invoice)
    requires IssuedBy(l, inv.issue)
    ensures Latest(l + [inv], inv.recipient) == Some(inv)
  {
    var m := l + [inv];
    assert m[..|m| - 1] == l && m[|m| - 1] == inv;
  }

  lemma LatestAppend(l: Ledger, inv: Invoice, r: nat)
    ensures var before := Latest(l, r);
      Latest(l + [inv], r) ==
      if inv.recipient == r && (before.None? || before.value.issue <= inv.issue) then Some(inv) else before
  {
    var m := l + [inv];
    assert m[..|m| - 1] == l && m[|m| - 1] == inv;
  }

  /** Whether an invoice continues a cycle does not depend on what comes after it. */
  lemma ContinuesBefore(l: Ledger, m: Ledger, k: nat)
    requires k < |l| <= |m| && m[..|l|] == l
    ensures Continues(l, k) <==> Continues(m, k)
  {
    assert m[k] == l[k] && m[..k] == l[..k] && m[..k + 1] == l[..k + 1];
  }

  lemma GeneratedContinues(l: Ledger, v: Visit)
    requires IssuedBy(l, v.today) && Decide(l, v) == Generated
    ensures Continues(Step(l, v), |l|)
  {
    var m := Step(l, v);
    AppendedIsLatest(l, m[|l|]);
    assert m[..|l|] == l && m[..|l| + 1] == m;
  }

  lemma StepExtends(l0: Ledger, l: Ledger, v: Visit, day: int)
    requires Extends(l0, l, day) && day <= v.today
    ensures Extends(l0, Step(l, v), v.today)
  {
    var m := Step(l, v);
    if Decide(l, v) == Generated {
      GeneratedContinues(l, v);
      assert m[..|l|] == l && m[..|l0|] == l[..|l0|];
      forall k | |l0| <= k < |l|
        ensures Continues(m, k)
      {
        ContinuesBefore(l, m, k);
      }
    }
  }

  /** Over every run of visits, sweeps only add invoices, and every one of them continues a cycle. */
  lemma {:induction false} RunExtends(l: Ledger, visits: seq<Visit>)
    requires Timely(l, visits) && visits != []
    ensures Extends(l, Run(l, visits), visits[|visits| - 1].today)
  {
    var n := |visits| - 1;
    var before := visits[..n];
    if n > 0 {
      RunExtends(l, before);
      StepExtends(l, Run(l, before), visits[n], before[n - 1].today);
    } else {
      assert before == [] && Run(l, before) == l;
      assert l[..|l|] == l;
      StepExtends(l, l, visits[0], visits[0].today);
    }
  }

  /** No due date is generated twice: an invoice of a sweep differs from every other invoice of its recipient. */
  lemma NoDueDateTwice(l: Ledger, visits: seq<Visit>, j: nat, k: nat)
    requires Timely(l, visits) && |l| <= k < |Run(l, visits)| && j < |Run(l, visits)| && j != k
    requires Run(l, visits)[j].recipient == Run(l, visits)[k].recipient
    ensures Run(l, visits)[j].due != Run(l, visits)[k].due
  {
    var m := Run(l, visits);
    if visits != [] {
      RunExtends(l, visits);
      assert Continues(m, k);
      if j < k {
        assert m[..k][j] == m[j];
      } else {
        assert Continues(m, j);
        assert m[..j][k] == m[k];
      }
    }
  }

  /** How many invoices `r` has from position `from` on. */
  function CountOf(l: Ledger, r: nat, from: nat): nat
    requires from <= |l|
    decreases |l|
  {
    if from == |l| then 0 else CountOf(l[..|l| - 1], r, from) + (if l[|l| - 1].recipient == r then 1 else 0)
  }

  /** A recipient's cycle never drifts or skips: however the sweeps fall, their latest due date is the first one plus
      30 days for each invoice generated for them. */
  lemma {:induction false} CycleNeverDrifts(l: Ledger, m: Ledger, day: int, r: nat)
    requires Extends(l, m, day) && Latest(l, r).Some?
    ensures Latest(m, r).Some?
    ensures Latest(m, r).value.due == Latest(l, r).value.due + BILLING_CYCLE_DAYS * CountOf(m, r, |l|)
    decreases |m|
  {
    var n := |m| - 1;
    if |m| == |l| {
      assert m == l;
    } else {
      var shorter := m[..n];
      assert m == shorter + [m[n]];
      ShorterExtends(l, m, day);
      CycleNeverDrifts(l, shorter, day, r);
      if m[n].recipient == r {
        assert Continues(m, n);
        assert m[..n + 1] == m;
      } else {
        LatestAppend(shorter, m[n], r);
      }
    }
  }

  lemma ShorterExtends(l: Ledger, m: Ledger, day: int)
    requires Extends(l, m, day) && |l| < |m|
    ensures Extends(l, m[..|m| - 1], day)
  {
    var shorter := m[..|m| - 1];
    assert shorter[..|l|] == m[..|l|];
    forall k | |l| <= k < |shorter|
      ensures Continues(shorter, k)
    {
      ContinuesBefore(shorter, m, k);
    }
  }

  // ----- catching up, and being stuck -----

  /** The whole cycles that are due, or fall due within the window, and are not invoiced. */
  function CyclesBehind(l: Ledger, r: nat, today: int): nat {
    var latest := Latest(l, r);
    if latest.None? || latest.value.due > today + GENERATE_DAYS_BEFORE_DUE then 0
    else (today + GENERATE_DAYS_BEFORE_DUE - latest.value.due) / BILLING_CYCLE_DAYS
  }

  /** An older invoice already carries the due date that comes next. */
  predicate Blocked(l: Ledger, r: nat) {
    Latest(l, r).Some? && HasDue(l, r, Latest(l, r).value.due + BILLING_CYCLE_DAYS)
  }

  /** A visit generates an invoice exactly when the recipient is behind, not blocked and billable, and then it is one
      cycle less behind. */
  lemma GeneratesExactlyWhen(l: Ledger, v: Visit)
    requires IssuedBy(l, v.today)
    ensures Decide(l, v) == Generated <==>
            CyclesBehind(l, v.recipient, v.today) > 0 && !Blocked(l, v.recipient) && Billable(v.account)
    ensures Decide(l, v) == Generated ==>
              CyclesBehind(Step(l, v), v.recipient, v.today) == CyclesBehind(l, v.recipient, v.today) - 1
  {
    if Decide(l, v) == Generated {
      AppendedIsLatest(l, Step(l, v)[|l|]);
    }
  }

  function Repeat(l: Ledger, v: Visit, n: nat): Ledger {
    if n == 0 then l else Step(Repeat(l, v, n - 1), v)
  }

  lemma StepIssuedBy(l: Ledger, v: Visit)
    requires IssuedBy(l, v.today)
    ensures IssuedBy(Step(l, v), v.today)
  {
  }

  /** Repeating a visit on one day: every repetition either takes off one cycle or nothing happens from then on. */
  lemma {:induction false} RepeatCountsDown(l: Ledger, v: Visit, n: nat)
    requires IssuedBy(l, v.today)
    ensures IssuedBy(Repeat(l, v, n), v.today)
    ensures CyclesBehind(Repeat(l, v, n), v.recipient, v.today) + n == CyclesBehind(l, v.recipient, v.today)
            || Decide(Repeat(l, v, n), v) != Generated
  {
    if n > 0 {
      RepeatCountsDown(l, v, n - 1);
      StepIssuedBy(Repeat(l, v, n - 1), v);
      GeneratesExactlyWhen(Repeat(l, v, n - 1), v);
    }
  }

  /** Repeating stops within as many visits as cycles were due; a billable recipient then has the next due date beyond
      the window or already invoiced. */
  lemma RepeatingStops(l: Ledger, v: Visit, n: nat)
    requires IssuedBy(l, v.today) && n >= CyclesBehind(l, v.recipient, v.today)
    ensures Step(Repeat(l, v, n), v) == Repeat(l, v, n)
    ensures Billable(v.account) && Latest(l, v.recipient).Some? ==>
              Decide(Repeat(l, v, n), v) == NotYetDue || Decide(Repeat(l, v, n), v) == AlreadyInvoiced
  {
    RepeatCountsDown(l, v, n);
    GeneratesExactlyWhen(Repeat(l, v, n), v);
    RepeatKeepsInvoices(l, v, n);
  }

  lemma {:induction false} RepeatKeepsInvoices(l: Ledger, v: Visit, n: nat)
    ensures Latest(l, v.recipient).Some? ==> Latest(Repeat(l, v, n), v.recipient).Some?
  {
    if n > 0 {
      RepeatKeepsInvoices(l, v, n - 1);
      var m := Repeat(l, v, n - 1);
      if Latest(m, v.recipient).Some? {
        var k := LatestIndex(m, v.recipient).value;
        assert Step(m, v)[k] == m[k];
      }
    }
  }

  /** No invoice of `r` is due later than their latest one: what the sweeps themselves leave behind. */
  predicate Regular(l: Ledger, r: nat) {
    Latest(l, r).Some? && forall j :: 0 <= j < |l| && l[j].recipient == r ==> l[j].due <= Latest(l, r).value.due
  }

  /** `n` cycles later: `m` has one invoice more for each of them. */
  predicate CaughtUpBy(l: Ledger, v: Visit, n: nat, m: Ledger)
    requires Latest(l, v.recipient).Some?
  {
    && IssuedBy(m, v.today) && Regular(m, v.recipient) && |m| == |l| + n
    && CyclesBehind(m, v.recipient, v.today) == CyclesBehind(l, v.recipient, v.today) - n
    && Latest(m, v.recipient).value.due == Latest(l, v.recipient).value.due + BILLING_CYCLE_DAYS * n
  }

  lemma OneMoreCycle(l: Ledger, v: Visit, n: nat, m: Ledger)
    requires Latest(l, v.recipient).Some? && CaughtUpBy(l, v, n, m) && Billable(v.account)
    requires n < CyclesBehind(l, v.recipient, v.today)
    ensures CaughtUpBy(l, v, n + 1, Step(m, v))
  {
  }

  lemma {:induction false} CatchUpSteps(l: Ledger, v: Visit, n: nat)
    requires Latest(l, v.recipient).Some? && CaughtUpBy(l, v, 0, l) && Billable(v.account)
    requires n <= CyclesBehind(l, v.recipient, v.today)
    ensures CaughtUpBy(l, v, n, Repeat(l, v, n))
  {
    if n > 0 {
      CatchUpSteps(l, v, n - 1);
      var m := Repeat(l, v, n - 1);
      assert Repeat(l, v, n) == Step(m, v);
      OneMoreCycle(l, v, n - 1, m);
    }
  }

  /** In a regular ledger a billable recipient catches up completely: one cycle a visit, none left out. */
  lemma CatchesUp(l: Ledger, v: Visit, n: nat)
    requires IssuedBy(l, v.today) && Regular(l, v.recipient) && Billable(v.account)
    requires n <= CyclesBehind(l, v.recipient, v.today)
    ensures CaughtUpBy(l, v, n, Repeat(l, v, n))
  {
    CatchUpSteps(l, v, n);
  }

  function Of(l: Ledger, r: nat): Ledger {
    if l == [] then [] else
    var n := |l| - 1;
    if l[n].recipient == r then Of(l[..n], r) + [l[n]] else Of(l[..n], r)
  }

  lemma OfAppend(l: Ledger, inv: Invoice, r: nat)
    ensures Of(l + [inv], r) == if inv.recipient == r then Of(l, r) + [inv] else Of(l, r)
  {
    assert (l + [inv])[..|l|] == l;
  }

  /** A clash is for ever: once an older invoice carries the next due date, no sweep on any day bills that recipient
      again. */
  lemma {:induction false} BlockedForever(l: Ledger, visits: seq<Visit>, r: nat)
    requires Blocked(l, r)
    ensures Blocked(Run(l, visits), r) && Of(Run(l, visits), r) == Of(l, r)
    ensures Latest(Run(l, visits), r) == Latest(l, r)
  {
    if visits != [] {
      var n := |visits| - 1;
      BlockedForever(l, visits[..n], r);
      var m, v := Run(l, visits[..n]), visits[n];
      if Decide(m, v) == Generated {
        assert v.recipient != r;
        var inv := Step(m, v)[|m|];
        LatestAppend(m, inv, r);
        OfAppend(m, inv, r);
        var j :| 0 <= j < |m| && m[j].recipient == r && m[j].due == Latest(m, r).value.due + BILLING_CYCLE_DAYS;
        assert Step(m, v)[j] == m[j];
      }
    }
  }

  /** So a recipient can be billed again - by some visit, on some later day - exactly when no such clash exists. */
  lemma BilledAgainExactlyWhen(l: Ledger, r: nat, today: int, account: Account)
    requires IssuedBy(l, today) && Latest(l, r).Some? && Billable(account)
    ensures (exists day :: day >= today && Decide(l, Visit(r, account, day)) == Generated) <==> !Blocked(l, r)
  {
    if !Blocked(l, r) {
      var dueDay := Latest(l, r).value.due + BILLING_CYCLE_DAYS;
      var day := if today < dueDay then dueDay else today;
      assert Decide(l, Visit(r, account, day)) == Generated;
    }
  }

  /** `generate_invoice`: an admin bills somebody today, due on any day they choose, past days included. */
  function Manual(l: Ledger, r: nat, today: int, due: int): Ledger {
    l + [Invoice(r, today, due)]
  }

  /** A manual invoice stops the sweep for its recipient exactly when the cycle after it meets a due date the recipient
      already has. */
  lemma ManualBlocksExactlyWhen(l: Ledger, r: nat, today: int, due: int)
    requires IssuedBy(l, today)
    ensures Blocked(Manual(l, r, today, due), r) <==> HasDue(l, r, due + BILLING_CYCLE_DAYS)
  {
    AppendedIsLatest(l, Invoice(r, today, due));
    HasDueAppend(l, Invoice(r, today, due), r, due + BILLING_CYCLE_DAYS);
  }

  /** So it takes two invoices from an empty ledger: one due on day 60, and ten days later one due on day 30. From then
      on no run of sweeps bills the recipient. */
  lemma BlockedLedgerIsReachable(visits: seq<Visit>)
    ensures var l := Manual(Manual([], 1, 0, 60), 1, 10, 30);
      Blocked(l, 1) && Of(Run(l, visits), 1) == Of(l, 1)
  {
    var first := Manual([], 1, 0, 60);
    assert first[0] == Invoice(1, 0, 60);
    ManualBlocksExactlyWhen(first, 1, 10, 30);
    BlockedForever(Manual(first, 1, 10, 30), visits, 1);
  }

  // ----- recipients do not affect each other -----

  function VisitsTo(visits: seq<Visit>, r: nat): seq<Visit> {
    if visits == [] then [] else
    var n := |visits| - 1;
    if visits[n].recipient == r then VisitsTo(visits[..n], r) + [visits[n]] else VisitsTo(visits[..n], r)
  }

  /** The queries about a recipient see their own invoices only. */
  lemma {:induction false} LatestOfOwn(l: Ledger, r: nat)
    ensures Latest(Of(l, r), r) == Latest(l, r)
  {
    if l != [] {
      var shorter, inv := l[..|l| - 1], l[|l| - 1];
      LatestOfOwn(shorter, r);
      assert l == shorter + [inv];
      LatestAppend(shorter, inv, r);
      LatestAppend(Of(shorter, r), inv, r);
    }
  }

  lemma {:induction false} HasDueOfOwn(l: Ledger, r: nat, due: int)
    ensures HasDue(Of(l, r), r, due) <==> HasDue(l, r, due)
  {
    if l != [] {
      var shorter, inv := l[..|l| - 1], l[|l| - 1];
      HasDueOfOwn(shorter, r, due);
      assert l == shorter + [inv];
      HasDueAppend(shorter, inv, r, due);
      HasDueAppend(Of(shorter, r), inv, r, due);
    }
  }

  lemma HasDueAppend(l: Ledger, inv: Invoice, r: nat, due: int)
    ensures HasDue(l + [inv], r, due) <==> HasDue(l, r, due) || (inv.recipient == r && inv.due == due)
  {
    var m := l + [inv];
    assert forall j :: 0 <= j < |l| ==> m[j] == l[j];
    assert m[|l|] == inv;
  }

  lemma DecideOfOwn(l: Ledger, v: Visit)
    ensures Latest(Of(l, v.recipient), v.recipient) == Latest(l, v.recipient)
    ensures Decide(Of(l, v.recipient), v) == Decide(l, v)
  {
    LatestOfOwn(l, v.recipient);
    if Latest(l, v.recipient).Some? {
      HasDueOfOwn(l, v.recipient, Latest(l, v.recipient).value.due + BILLING_CYCLE_DAYS);
    }
  }

  lemma StepOfOwn(l: Ledger, v: Visit, r: nat)
    ensures Of(Step(l, v), r) == if v.recipient == r then Step(Of(l, r), v) else Of(l, r)
  {
    DecideOfOwn(l, v);
    if Decide(l, v) == Generated {
      var inv := Invoice(v.recipient, v.today, Latest(l, v.recipient).value.due + BILLING_CYCLE_DAYS);
      OfAppend(l, inv, r);
      assert Step(l, v) == l + [inv];
    }
  }

  lemma RunAppend(l: Ledger, visits: seq<Visit>, v: Visit)
    ensures Run(l, visits + [v]) == Step(Run(l, visits), v)
  {
    assert (visits + [v])[..|visits|] == visits;
  }

  /** What a recipient is billed depends on their own invoices and visits alone: sweeping everyone, in whatever order,
      is sweeping each recipient by themselves. */
  lemma {:induction false} RecipientsDoNotInterfere(l: Ledger, visits: seq<Visit>, r: nat)
    ensures Of(Run(l, visits), r) == Run(Of(l, r), VisitsTo(visits, r))
  {
    if visits != [] {
      var before, v := visits[..|visits| - 1], visits[|visits| - 1];
      RecipientsDoNotInterfere(l, before, r);
      StepOfOwn(Run(l, before), v, r);
      RunAppend(Of(l, r), VisitsTo(before, r), v);
    }
  }

  /** One sweep can bill a recipient who is several cycles behind more than once, since it visits them once for each of
      their invoices. */
  lemma OneSweepCanBillTwice()
    ensures var l := [Invoice(1, 0, 14), Invoice(1, 40, 44)];
      var visit := Visit(1, Account(false, None, true), 200);
      Run(l, [visit, visit]) == l + [Invoice(1, 200, 74), Invoice(1, 200, 104)]
  {
    var l := [Invoice(1, 0, 14), Invoice(1, 40, 44)];
    var visit := Visit(1, Account(false, None, true), 200);
    BilledNext(l, visit, Invoice(1, 40, 44));
    BilledNext(l + [Invoice(1, 200, 74)], visit, Invoice(1, 200, 74));
    RunTwice(l, visit);
  }

  lemma RunTwice(l: Ledger, v: Visit)
    ensures Run(l, [v, v]) == Step(Step(l, v), v)
  {
    assert [] + [v] == [v] && [v] + [v] == [v, v];
    RunAppend(l, [], v);
    RunAppend(l, [v], v);
  }

  lemma BilledNext(l: Ledger, v: Visit, latest: Invoice)
    requires Latest(l, v.recipient) == Some(latest) && IssuedBy(l, v.today) && Billable(v.account)
    requires latest.due + BILLING_CYCLE_DAYS <= v.today + GENERATE_DAYS_BEFORE_DUE
    requires !HasDue(l, v.recipient, latest.due + BILLING_CYCLE_DAYS)
    ensures var added := Invoice(v.recipient, v.today, latest.due + BILLING_CYCLE_DAYS);
      Step(l, v) == l + [added] && Latest(l + [added], v.recipient) == Some(added)
  {
    AppendedIsLatest(l, Invoice(v.recipient, v.today, latest.due + BILLING_CYCLE_DAYS));
  }
}
