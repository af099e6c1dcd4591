/** Several open invoices of one user (billing/views.py, `checkout_plan` and `_sync_plan_assignment_to_paid_invoice`):
    a credit for unused time is fixed when an invoice is created, the time itself is given up when one is paid. Every
    locked block is one step; dates are whole days. */
module PlanCredits {
  import opened Wrappers
  import opened Calendar
  import opened PlanExpiry

  /** `stretch` names the assignment whose unused time the credit is for, `creditDays` how much of it; `stackedOn` the
      assignment a renewal was stacked on when it was paid. */
  datatype Invoice = Invoice(
    terms: PaidInvoice, stretch: Option<nat>, creditDays: nat, stackedOn: Option<nat>, paid: bool)

  /** `stretch` counts the assignments the user has had. */
  datatype State = State(assignment: Option<Assigned>, stretch: nat, invoices: seq<Invoice>)

  datatype Op =
    | Checkout(plan: Plan, months: nat, today: Date)
    | Pay(i: nat, today: Date)
    | Reassign(assignment: Option<Assigned>, today: Date)   // an admin, or an invoice that is not of a fixed term

  /** There is already an open invoice for this plan and duration. */
  predicate IsOpen(s: State, plan: Plan, months: nat) {
    exists i :: 0 <= i < |s.invoices| && !s.invoices[i].paid
                && s.invoices[i].terms.plan.id == plan.id && s.invoices[i].terms.months == months
  }

  predicate HasPaidFor(s: State, plan: nat) {
    exists i :: 0 <= i < |s.invoices| && s.invoices[i].paid && s.invoices[i].terms.plan.id == plan
  }

  /** The conditions of `_compute_upgrade_credit`. */
  predicate Creditable(s: State, plan: Plan, today: Date) {
    && s.assignment.Some? && s.assignment.value.plan != plan.id
    && s.assignment.value.expires.Some? && Before(today, s.assignment.value.expires.value)
    && HasPaidFor(s, s.assignment.value.plan)
  }

  function UnusedDays(s: State, today: Date): nat
    requires ValidState(s) && Valid(today) && s.assignment.Some? && s.assignment.value.expires.Some?
    requires Before(today, s.assignment.value.expires.value)
  {
    OrdinalRespectsOrder(today, s.assignment.value.expires.value);
    Ordinal(s.assignment.value.expires.value) - Ordinal(today)
  }

  function NewInvoice(s: State, plan: Plan, months: nat, today: Date): Invoice
    requires ValidState(s) && Valid(today)
  {
    if Creditable(s, plan, today)
    then Invoice(PaidInvoice(plan, Some(s.assignment.value.plan), today, months, true), Some(s.stretch),
                 UnusedDays(s, today), None, false)
    else Invoice(PaidInvoice(plan, None, today, months, true), None, 0, None, false)
  }

  /** The invoice is stacked on what is left of the assignment. */
  predicate Stacks(a: Option<Assigned>, inv: PaidInvoice) {
    inv.previousPlan.None? && a.Some? && a.value.expires.Some? && Before(inv.issueDate, a.value.expires.value)
  }

  /** An invoice as its payment leaves it. */
  function Settled(s: State, inv: Invoice): Invoice {
    inv.(paid := true, stackedOn := if Stacks(s.assignment, inv.terms) then Some(s.stretch) else None)
  }

  predicate ValidOp(op: Op) {
    match op
    case Checkout(plan, months, today) => Valid(today)
    case Pay(i, today) => Valid(today)
    case Reassign(a, today) => ProperState(a) && Valid(today)
  }

  predicate ValidState(s: State) {
    ProperState(s.assignment) && forall i :: 0 <= i < |s.invoices| ==> Proper(s.invoices[i].terms)
  }

  predicate Payable(s: State, i: nat) {
    i < |s.invoices| && !s.invoices[i].paid
  }

  function Step(s: State, op: Op): (after: State)
    requires ValidState(s) && ValidOp(op)
    ensures ValidState(after)
  {
    match op
    case Checkout(plan, months, today) =>
      if IsOpen(s, plan, months) then s else s.(invoices := s.invoices + [NewInvoice(s, plan, months, today)])
    case Pay(i, today) =>
      if !Payable(s, i) then s
      else
        var inv := s.invoices[i];
        State(Synced(s.assignment, inv.terms, today), s.stretch + 1, s.invoices[i := Settled(s, inv)])
    case Reassign(a, today) => s.(assignment := a, stretch := s.stretch + 1)
  }

  predicate ValidOps(ops: seq<Op>) {
    forall i :: 0 <= i < |ops| ==> ValidOp(ops[i])
  }

  function Run(s: State, ops: seq<Op>): (after: State)
    requires ValidState(s) && ValidOps(ops)
    ensures ValidState(after)
    decreases |ops|
  {
    if ops == [] then s else Run(Step(s, ops[0]), ops[1..])
  }

  // ----- unused time comes back once -----

  /** The assignment whose unused time a paid invoice gives back, as a credit or as days it was stacked on. */
  function GivenBack(inv: Invoice): Option<nat> {
    if !inv.paid then None else if inv.stretch.Some? then inv.stretch else inv.stackedOn
  }

  /** What was given back belongs to assignments that are over, what is promised to those so far; every invoice is of a
      fixed term. */
  predicate Inv(s: State) {
    forall i :: 0 <= i < |s.invoices| ==> InvoiceOk(s.invoices[i], s.stretch)
  }

  predicate InvoiceOk(inv: Invoice, stretch: nat) {
    && inv.terms.fixedTerm
    && (GivenBack(inv).Some? ==> GivenBack(inv).value < stretch)
    && (inv.stretch.Some? <==> inv.terms.previousPlan.Some?) && (inv.stretch.Some? ==> inv.stretch.value <= stretch)
  }

  predicate GiveTheSame(a: Invoice, b: Invoice) {
    GivenBack(a).Some? && GivenBack(a) == GivenBack(b)
  }

  /** No two paid invoices give the same assignment's unused time back. */
  predicate OnceEach(s: State) {
    forall i, j :: 0 <= i < j < |s.invoices| ==> !GiveTheSame(s.invoices[i], s.invoices[j])
  }

  /** An open invoice credits time that another paid invoice credits too, or that a paid renewal was stacked on. */
  predicate PaysTwice(s: State, op: Op) {
    && op.Pay? && Payable(s, op.i) && s.invoices[op.i].stretch.Some?
    && exists j :: 0 <= j < |s.invoices| && s.invoices[j].paid
                   && (s.invoices[j].stretch == s.invoices[op.i].stretch
                       || s.invoices[j].stackedOn == s.invoices[op.i].stretch)
  }

  /** A credited invoice is never stacked. */
  predicate CreditedNeverStacked(s: State) {
    forall i :: 0 <= i < |s.invoices| && s.invoices[i].stretch.Some? ==> s.invoices[i].stackedOn.None?
  }

  lemma StepKeepsInv(s: State, op: Op)
    requires Inv(s) && CreditedNeverStacked(s) && ValidState(s) && ValidOp(op)
    ensures Inv(Step(s, op)) && CreditedNeverStacked(Step(s, op))
  {
    match op
    case Checkout(plan, months, today) =>
      var added := NewInvoice(s, plan, months, today);
      assert InvoiceOk(added, s.stretch) && (added.stretch.Some? ==> added.stackedOn.None?);
    case Pay(i, today) =>
      if Payable(s, i) {
        assert InvoiceOk(s.invoices[i], s.stretch);
        assert InvoiceOk(Settled(s, s.invoices[i]), s.stretch + 1);
      }
    case Reassign(a, today) =>
  }

  /** A paid invoice is marked as stacked exactly when what was left of the assignment counts for the new expiry: a
      renewal paid before the old period is over. */
  lemma StackedExactlyWhenTimeCounts(s: State, i: nat, today: Date)
    requires ValidState(s) && Inv(s) && Valid(today) && Payable(s, i)
    ensures var inv, after := s.invoices[i].terms, Step(s, Pay(i, today));
      var expires := ExpiryOf(s.assignment);
      && after.invoices[i].paid && after.stretch == s.stretch + 1
      && (after.invoices[i].stackedOn == Some(s.stretch)
          <==> inv.previousPlan.None? && expires.Some? && Ordinal(inv.issueDate) < Ordinal(expires.value))
      && ExpiryOf(after.assignment)
         == Some(AddMonths(if after.invoices[i].stackedOn.Some? then expires.value else inv.issueDate, inv.months))
  {
    assert InvoiceOk(s.invoices[i], s.stretch);
    FixedTermAlwaysEnds(s.assignment, s.invoices[i].terms, today);
    if ExpiryOf(s.assignment).Some? {
      OrdinalRespectsOrder(s.invoices[i].terms.issueDate, ExpiryOf(s.assignment).value);
    }
  }

  /** Paying an invoice: the rows that exist decide whether anything is given back a second time. */
  lemma PaymentReturns(s: State, i: nat, today: Date)
    requires Inv(s) && CreditedNeverStacked(s) && ValidState(s) && Valid(today) && Payable(s, i)
    ensures OnceEach(Step(s, Pay(i, today))) <==> OnceEach(s) && !PaysTwice(s, Pay(i, today))
  {
    var before, after := s.invoices, Step(s, Pay(i, today)).invoices;
    var inv := after[i];
    assert InvoiceOk(before[i], s.stretch);
    forall j | 0 <= j < |before| && j != i
      ensures GiveTheSame(after[j], inv)
         <==> (before[j].paid && before[i].stretch.Some?
               && (before[j].stretch == before[i].stretch || before[j].stackedOn == before[i].stretch))
      ensures GiveTheSame(after[j], inv) <==> GiveTheSame(inv, after[j])
    {
      assert after[j] == before[j] && InvoiceOk(before[j], s.stretch);
    }
    if OnceEach(Step(s, Pay(i, today))) {
      forall j, k | 0 <= j < k < |before|
        ensures !GiveTheSame(before[j], before[k])
      {
        assert !GiveTheSame(after[j], after[k]);
      }
    }
  }

  lemma StepReturns(s: State, op: Op)
    requires Inv(s) && CreditedNeverStacked(s) && ValidState(s) && ValidOp(op)
    ensures OnceEach(Step(s, op)) <==> OnceEach(s) && !PaysTwice(s, op)
  {
    if op.Pay? && Payable(s, op.i) {
      PaymentReturns(s, op.i, op.today);
    } else if op.Checkout? && !IsOpen(s, op.plan, op.months) {
      var before, after := s.invoices, Step(s, op).invoices;
      assert GivenBack(after[|before|]).None?;
      forall j, k | 0 <= j < k < |before|
        ensures GiveTheSame(before[j], before[k]) <==> GiveTheSame(after[j], after[k])
      {
        assert after[j] == before[j] && after[k] == before[k];
      }
    }
  }

  predicate NonePaysTwice(s: State, ops: seq<Op>)
    requires ValidState(s) && ValidOps(ops)
    decreases |ops|
  {
    ops == [] || (!PaysTwice(s, ops[0]) && NonePaysTwice(Step(s, ops[0]), ops[1..]))
  }

  /** Over every run of checkouts, payments and reassignments: each assignment's unused time is given back at most
      once - in money or in days - if and only if no credited invoice is paid while another paid invoice credits the
      same assignment or is stacked on it. */
  lemma {:induction false} ReturnedOnceExactlyWhen(s: State, ops: seq<Op>)
    requires Inv(s) && CreditedNeverStacked(s) && ValidState(s) && ValidOps(ops)
    ensures OnceEach(Run(s, ops)) <==> OnceEach(s) && NonePaysTwice(s, ops)
    decreases |ops|
  {
    if ops != [] {
      StepKeepsInv(s, ops[0]);
      StepReturns(s, ops[0]);
      ReturnedOnceExactlyWhen(Step(s, ops[0]), ops[1..]);
    }
  }

  /** Credited invoices are paid while the assignment they credit is still the user's. */
  predicate PaysInTime(s: State, ops: seq<Op>)
    requires ValidState(s) && ValidOps(ops)
    decreases |ops|
  {
    ops == []
    || ((ops[0].Pay? && Payable(s, ops[0].i) && s.invoices[ops[0].i].stretch.Some? ==>
           s.invoices[ops[0].i].stretch.value == s.stretch)
        && PaysInTime(Step(s, ops[0]), ops[1..]))
  }

  /** So nothing comes back twice as long as every credited invoice is paid before the assignment changes. */
  lemma {:induction false} PaidInTimeReturnsOnce(s: State, ops: seq<Op>)
    requires Inv(s) && CreditedNeverStacked(s) && OnceEach(s) && ValidState(s) && ValidOps(ops) && PaysInTime(s, ops)
    ensures OnceEach(Run(s, ops))
    decreases |ops|
  {
    if ops != [] {
      StepKeepsInv(s, ops[0]);
      StepReturns(s, ops[0]);
      PaidInTimeReturnsOnce(Step(s, ops[0]), ops[1..]);
    }
  }

  // ----- two open invoices -----

  /** The user is on a paid plan that runs past today and has no open invoice for plan `b`. */
  predicate MayChangeTo(s: State, b: Plan, today: Date) {
    && Creditable(s, b, today)
    && (forall i :: 0 <= i < |s.invoices| && !s.invoices[i].paid ==> s.invoices[i].terms.plan.id != b.id)
  }

  const NOBODY := State(None, 0, [])

  /** Buying a plan leads there. */
  lemma ChangeIsReachable(a: Plan, b: Plan, today: Date, m: nat)
    requires Valid(today) && m >= 1 && a.id != b.id
    ensures var s := Step(Step(NOBODY, Checkout(a, m, today)), Pay(0, today));
      MayChangeTo(s, b, today) && Inv(s) && CreditedNeverStacked(s) && OnceEach(s)
  {
    var s1 := Step(NOBODY, Checkout(a, m, today));
    assert !IsOpen(NOBODY, a, m);
    StepKeepsInv(NOBODY, Checkout(a, m, today));
    StepKeepsInv(s1, Pay(0, today));
    var s := Step(s1, Pay(0, today));
    RenewalAddsTime(s1.invoices[0].terms, None);
    OrdinalRespectsOrder(today, s.assignment.value.expires.value);
    assert s.invoices[0].paid && s.invoices[0].terms.plan.id == s.assignment.value.plan;
  }

  lemma TwoCheckouts(s: State, b: Plan, today: Date, m: nat, n: nat)
    requires ValidState(s) && Valid(today) && MayChangeTo(s, b, today) && m != n
    ensures var s2 := Step(Step(s, Checkout(b, m, today)), Checkout(b, n, today));
      s2 == s.(invoices := s.invoices + [NewInvoice(s, b, m, today), NewInvoice(s, b, n, today)])
  {
    var s1 := Step(s, Checkout(b, m, today));
    var i :| 0 <= i < |s.invoices| && s.invoices[i].paid && s.invoices[i].terms.plan.id == s.assignment.value.plan;
    assert s1.invoices[i] == s.invoices[i];
    assert Creditable(s1, b, today);
    assert !IsOpen(s1, b, n);
  }

  lemma BothPaid(s: State, k: nat, v: nat, today: Date)
    requires ValidState(s) && Valid(today) && |s.invoices| == k + 2
    requires forall i :: k <= i < k + 2 ==> !s.invoices[i].paid && s.invoices[i].stretch == Some(v)
    ensures var both := Step(Step(s, Pay(k, today)), Pay(k + 1, today));
      |both.invoices| == k + 2 && GiveTheSame(both.invoices[k], both.invoices[k + 1]) && !OnceEach(both)
  {
    var s1 := Step(s, Pay(k, today));
    assert s1.invoices[k + 1] == s.invoices[k + 1];
    var both := Step(s1, Pay(k + 1, today));
    assert both.invoices[k] == s1.invoices[k];
  }

  /** The check for an open invoice compares plan and duration only: from any state in which a user may change to plan
      `b`, two durations give two open invoices, each with the credit for the same unused days; paying both gives those
      days back twice. */
  lemma TwoDurationsCreditTwice(s: State, b: Plan, today: Date, m: nat, n: nat)
    requires ValidState(s) && Valid(today) && MayChangeTo(s, b, today) && m != n
    ensures var k := |s.invoices|;
      var two := Step(Step(s, Checkout(b, m, today)), Checkout(b, n, today));
      var both := Step(Step(two, Pay(k, today)), Pay(k + 1, today));
      && |two.invoices| == k + 2
      && two.invoices[k].creditDays == two.invoices[k + 1].creditDays == UnusedDays(s, today) > 0
      && !OnceEach(both)
  {
    var k := |s.invoices|;
    TwoCheckouts(s, b, today, m, n);
    var two := Step(Step(s, Checkout(b, m, today)), Checkout(b, n, today));
    BothPaid(two, k, s.stretch, today);
    OrdinalRespectsOrder(today, s.assignment.value.expires.value);
  }

  // ----- a credit is not recomputed when it is paid late -----

  /** The invoice is still there, with the credit it was created with. */
  predicate SameCredit(s: State, t: State, i: nat) {
    i < |s.invoices| && i < |t.invoices|
    && t.invoices[i].creditDays == s.invoices[i].creditDays && t.invoices[i].stretch == s.invoices[i].stretch
  }

  lemma {:induction false} CreditsStay(s: State, ops: seq<Op>, i: nat)
    requires ValidState(s) && ValidOps(ops) && i < |s.invoices|
    ensures SameCredit(s, Run(s, ops), i)
    decreases |ops|
  {
    if ops != [] {
      CreditsStay(Step(s, ops[0]), ops[1..], i);
    }
  }

  /** The day the current assignment is replaced, or the last day looked at. */
  function UsedUntil(s: State, ops: seq<Op>, until: Date): (end: Date)
    requires ValidState(s) && ValidOps(ops) && Valid(until)
    ensures Valid(end)
    decreases |ops|
  {
    if ops == [] then until
    else if Step(s, ops[0]).stretch != s.stretch then ops[0].today
    else UsedUntil(Step(s, ops[0]), ops[1..], until)
  }

  /** Everything happens from one day to another. */
  predicate Between(from: Date, ops: seq<Op>, until: Date) {
    && !Before(until, from)
    && forall i :: 0 <= i < |ops| ==> !Before(ops[i].today, from) && !Before(until, ops[i].today)
  }

  lemma {:induction false} UsedBetween(s: State, ops: seq<Op>, from: Date, until: Date)
    requires ValidState(s) && ValidOps(ops) && Valid(from) && Valid(until) && Between(from, ops, until)
    ensures var end := UsedUntil(s, ops, until);
      !Before(end, from) && !Before(until, end)
    decreases |ops|
  {
    if ops != [] {
      assert ValidOp(ops[0]);
      UsedBetween(Step(s, ops[0]), ops[1..], from, until);
    }
  }

  /** The days of the old plan a user has between two days. */
  function DaysOfOldPlan(expires: Date, from: Date, until: Date): int
    requires Valid(expires) && Valid(from) && Valid(until)
  {
    Min(Ordinal(until), Ordinal(expires)) - Ordinal(from)
  }

  /** A change bought on one day and paid on the same or a later one, anything whatever in between: the credit is still
      the one of the checkout, and the days used since - until the assignment it credits is replaced, by this payment at
      the latest - and the days credited exceed the days that were left exactly when that is not on the day of the
      checkout. */
  lemma CreditedThoughUsedExactlyWhenLate(s: State, b: Plan, m: nat, checkout: Date, ops: seq<Op>, payment: Date)
    requires ValidState(s) && Valid(checkout) && Valid(payment) && ValidOps(ops) && Between(checkout, ops, payment)
    requires Creditable(s, b, checkout) && !IsOpen(s, b, m)
    ensures var i, bought := |s.invoices|, Step(s, Checkout(b, m, checkout));
      var t, end := Run(bought, ops), UsedUntil(bought, ops, payment);
      var used := DaysOfOldPlan(s.assignment.value.expires.value, checkout, end);
      && i < |t.invoices| && t.invoices[i].stretch == Some(s.stretch)
      && t.invoices[i].creditDays == UnusedDays(s, checkout)
      && (used + t.invoices[i].creditDays > UnusedDays(s, checkout) <==> end != checkout)
  {
    var bought := Step(s, Checkout(b, m, checkout));
    CreditsStay(bought, ops, |s.invoices|);
    UsedBetween(bought, ops, checkout, payment);
    var end := UsedUntil(bought, ops, payment);
    OrdinalRespectsOrder(checkout, end);
    OrdinalRespectsOrder(checkout, s.assignment.value.expires.value);
  }

  /** But no day is gained over both plans: the new period runs from the checkout too, so every day of the old plan used
      since is a day less of the new one. */
  lemma LatePaymentGainsNoDays(s: State, i: nat, payment: Date)
    requires ValidState(s) && Valid(payment) && Payable(s, i) && s.invoices[i].terms.fixedTerm
    requires s.assignment.Some? && s.assignment.value.expires.Some? && s.invoices[i].terms.previousPlan.Some?
    requires var checkout, expires := s.invoices[i].terms.issueDate, s.assignment.value.expires.value;
      && !Before(payment, checkout) && !Before(expires, payment)
      && s.invoices[i].creditDays == Ordinal(expires) - Ordinal(checkout)
    ensures var checkout, expires := s.invoices[i].terms.issueDate, s.assignment.value.expires.value;
      var after := Step(s, Pay(i, payment)).assignment.value.expires.value;
      DaysOfOldPlan(expires, checkout, payment) + s.invoices[i].creditDays + (Ordinal(after) - Ordinal(payment))
      == (Ordinal(expires) - Ordinal(checkout))
         + (Ordinal(AddMonths(checkout, s.invoices[i].terms.months)) - Ordinal(checkout))
  {
    var expires := s.assignment.value.expires.value;
    AddMonthsIsValid(s.invoices[i].terms.issueDate, s.invoices[i].terms.months);
    ChangeStartsAfresh(s.invoices[i].terms, s.assignment, payment);
    OrdinalRespectsOrder(payment, expires);
  }

  // ----- paid days that are discarded -----

  /** The state with another expiry of the current assignment. */
  function WithExpiry(s: State, x: Option<Date>): State
    requires s.assignment.Some?
  {
    s.(assignment := Some(s.assignment.value.(expires := x)))
  }

  /** The assignment after a payment, had the one before expired then. */
  function AfterPayment(s: State, i: nat, today: Date, x: Option<Date>): Option<Assigned>
    requires ValidState(s) && Valid(today) && s.assignment.Some? && (x.Some? ==> Valid(x.value))
  {
    Step(WithExpiry(s, x), Pay(i, today)).assignment
  }

  /** The payment takes no account of what is left of the assignment it replaces. */
  ghost predicate IgnoresOldExpiry(s: State, i: nat, today: Date)
    requires ValidState(s) && Valid(today) && s.assignment.Some?
  {
    forall x: Option<Date>, y: Option<Date> | (x.Some? ==> Valid(x.value)) && (y.Some? ==> Valid(y.value)) ::
      AfterPayment(s, i, today, x) == AfterPayment(s, i, today, y)
  }

  /** A paid invoice gives that assignment's unused time back. */
  predicate IsGivenBack(s: State, stretch: nat) {
    exists j :: 0 <= j < |s.invoices| && GivenBack(s.invoices[j]) == Some(stretch)
  }

  /** What is left of the current assignment is lost with this payment: it does not count for the new expiry, and
      nothing that happens later gives it back. */
  ghost predicate Discards(s: State, i: nat, today: Date)
    requires ValidState(s) && Valid(today) && s.assignment.Some?
  {
    && IgnoresOldExpiry(s, i, today)
    && forall ops | ValidOps(ops) :: !IsGivenBack(Run(Step(s, Pay(i, today)), ops), s.stretch)
  }

  /** An open invoice credits that assignment. */
  predicate IsCredited(s: State, stretch: nat) {
    exists j :: 0 <= j < |s.invoices| && !s.invoices[j].paid && s.invoices[j].stretch == Some(stretch)
  }

  /** An assignment that is over, that nothing gives back and no open invoice credits, stays so. */
  lemma {:induction false} NeverGivenBack(s: State, stretch: nat, ops: seq<Op>)
    requires ValidState(s) && ValidOps(ops) && stretch < s.stretch
    requires !IsGivenBack(s, stretch) && !IsCredited(s, stretch)
    ensures !IsGivenBack(Run(s, ops), stretch)
    decreases |ops|
  {
    if ops != [] {
      var after := Step(s, ops[0]);
      assert ValidOp(ops[0]);
      forall j | 0 <= j < |after.invoices|
        ensures GivenBack(after.invoices[j]) != Some(stretch)
        ensures after.invoices[j].paid || after.invoices[j].stretch != Some(stretch)
      {
        if j < |s.invoices| {
          assert GivenBack(s.invoices[j]) != Some(stretch);
        }
      }
      NeverGivenBack(after, stretch, ops[1..]);
    }
  }

  lemma RenewalsHeedOldExpiry(s: State, i: nat, today: Date)
    requires ValidState(s) && Valid(today) && s.assignment.Some? && Payable(s, i)
    requires s.invoices[i].terms.previousPlan.None? && s.invoices[i].terms.fixedTerm
    ensures !IgnoresOldExpiry(s, i, today)
  {
    var inv := s.invoices[i].terms;
    var later := AddMonths(inv.issueDate, 1);
    AddMonthsIsValid(inv.issueDate, 1);
    MonthIndexDetermines(inv.issueDate, later);
    AddMonthsIsValid(later, inv.months);
    AddMonthsIsValid(inv.issueDate, inv.months);
    assert AfterPayment(s, i, today, Some(later)) != AfterPayment(s, i, today, None);
  }

  /** Where a credit of the current assignment is open, paying that invoice gives its time back. */
  lemma CreditComesBack(s: State, i: nat, j: nat, today: Date) returns (ops: seq<Op>)
    requires ValidState(s) && Valid(today) && Payable(s, i) && Payable(s, j)
    requires s.invoices[j].stretch == Some(s.stretch)
    ensures ValidOps(ops) && IsGivenBack(Run(Step(s, Pay(i, today)), ops), s.stretch)
  {
    var after := Step(s, Pay(i, today));
    if i == j {
      ops := [];
      assert GivenBack(after.invoices[j]) == Some(s.stretch);
    } else {
      ops := [Pay(j, today)];
      assert ops[1..] == [] && after.invoices[j] == s.invoices[j];
      var last := Step(after, Pay(j, today));
      assert Run(after, ops) == Run(last, []) == last;
      assert GivenBack(last.invoices[j]) == Some(s.stretch);
    }
  }

  /** Exactly when that happens: the invoice is for a change of plan, and no open invoice - neither this one nor any
      other - credits the current assignment. */
  lemma DiscardsExactlyWhen(s: State, i: nat, today: Date)
    requires ValidState(s) && Inv(s) && Valid(today) && s.assignment.Some? && Payable(s, i)
    ensures Discards(s, i, today) <==> s.invoices[i].terms.previousPlan.Some? && !IsCredited(s, s.stretch)
  {
    assert InvoiceOk(s.invoices[i], s.stretch);
    if s.invoices[i].terms.previousPlan.None? {
      RenewalsHeedOldExpiry(s, i, today);
    } else if IsCredited(s, s.stretch) {
      var j :| 0 <= j < |s.invoices| && !s.invoices[j].paid && s.invoices[j].stretch == Some(s.stretch);
      var ops := CreditComesBack(s, i, j, today);
    } else {
      ChangeDiscards(s, i, today);
    }
  }

  lemma ChangeDiscards(s: State, i: nat, today: Date)
    requires ValidState(s) && Inv(s) && Valid(today) && s.assignment.Some? && Payable(s, i)
    requires s.invoices[i].terms.previousPlan.Some? && !IsCredited(s, s.stretch)
    ensures Discards(s, i, today)
  {
    var after := Step(s, Pay(i, today));
    assert InvoiceOk(s.invoices[i], s.stretch);
    forall j | 0 <= j < |after.invoices|
      ensures GivenBack(after.invoices[j]) != Some(s.stretch)
      ensures after.invoices[j].paid || after.invoices[j].stretch != Some(s.stretch)
    {
      assert InvoiceOk(s.invoices[j], s.stretch);
    }
    forall ops | ValidOps(ops)
      ensures !IsGivenBack(Run(after, ops), s.stretch)
    {
      NeverGivenBack(after, s.stretch, ops);
    }
  }

  /** Paying the k-th invoice and then the next one loses the period the first bought, at least 28 days for each of its
      months. */
  ghost predicate SecondDiscardsFirst(two: State, k: nat, today: Date)
    requires ValidState(two) && Valid(today) && k < |two.invoices|
  {
    var one, bought := Step(two, Pay(k, today)), two.invoices[k].terms;
    && Payable(two, k) && Payable(one, k + 1)
    && one.assignment.Some? && one.assignment.value.expires.Some?
    && Ordinal(one.assignment.value.expires.value) >= Ordinal(bought.issueDate) + 28 * bought.months
    && Discards(one, k + 1, today)
  }

  /** The second of the two durations throws away the period the first one bought. */
  lemma SecondChangeDiscardsTheFirst(s: State, b: Plan, today: Date, m: nat, n: nat)
    requires ValidState(s) && Inv(s) && CreditedNeverStacked(s) && Valid(today) && MayChangeTo(s, b, today) && m != n
    ensures var k := |s.invoices|;
      var two := Step(Step(s, Checkout(b, m, today)), Checkout(b, n, today));
      && |two.invoices| == k + 2
      && two.invoices[k].terms.issueDate == today && two.invoices[k].terms.months == m
      && SecondDiscardsFirst(two, k, today)
  {
    TwoOpenChanges(s, b, today, m, n);
    SecondOfTwo(Step(Step(s, Checkout(b, m, today)), Checkout(b, n, today)), |s.invoices|, today);
  }

  lemma TwoOpenChanges(s: State, b: Plan, today: Date, m: nat, n: nat)
    requires ValidState(s) && Inv(s) && CreditedNeverStacked(s) && Valid(today) && MayChangeTo(s, b, today) && m != n
    ensures var k := |s.invoices|;
      var two := Step(Step(s, Checkout(b, m, today)), Checkout(b, n, today));
      && Inv(two) && CreditedNeverStacked(two) && |two.invoices| == k + 2
      && two.invoices[k].terms.issueDate == today && two.invoices[k].terms.months == m
      && forall i :: k <= i < k + 2 ==> !two.invoices[i].paid && two.invoices[i].terms.previousPlan.Some?
  {
    TwoCheckouts(s, b, today, m, n);
    StepKeepsInv(s, Checkout(b, m, today));
    StepKeepsInv(Step(s, Checkout(b, m, today)), Checkout(b, n, today));
  }

  lemma SecondOfTwo(two: State, k: nat, today: Date)
    requires ValidState(two) && Inv(two) && CreditedNeverStacked(two) && Valid(today) && |two.invoices| == k + 2
    requires forall i :: k <= i < k + 2 ==> !two.invoices[i].paid && two.invoices[i].terms.previousPlan.Some?
    ensures SecondDiscardsFirst(two, k, today)
  {
    assert InvoiceOk(two.invoices[k], two.stretch);
    ChangeStartsAfresh(two.invoices[k].terms, two.assignment, today);
    AddMonthsMovesDays(two.invoices[k].terms.issueDate, two.invoices[k].terms.months);
    StepKeepsInv(two, Pay(k, today));
    NothingIsCredited(two, k, today);
    DiscardsExactlyWhen(Step(two, Pay(k, today)), k + 1, today);
  }

  /** No invoice there is credits an assignment that only starts with this payment. */
  lemma NothingIsCredited(s: State, i: nat, today: Date)
    requires ValidState(s) && Inv(s) && Valid(today) && Payable(s, i)
    ensures !IsCredited(Step(s, Pay(i, today)), s.stretch + 1)
  {
    forall j | 0 <= j < |s.invoices|
      ensures s.invoices[j].stretch != Some(s.stretch + 1)
    {
      assert InvoiceOk(s.invoices[j], s.stretch);
    }
  }
}
