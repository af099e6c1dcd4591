/** What paying an invoice does to the recipient's plan (billing/views.py, `_expiry_datetime_for_invoice` and
    `_sync_plan_assignment_to_paid_invoice`). Expiries are whole days. */
module PlanExpiry {
  import opened Wrappers
  import opened Calendar
  import Pricing

  /** `demoDays`: a demo plan runs for a fixed number of days from its assignment. */
  datatype Plan = Plan(id: nat, demoDays: Option<nat>)

  datatype PaidInvoice = PaidInvoice(
    plan: Plan, previousPlan: Option<nat>, issueDate: Date, months: nat, fixedTerm: bool)

  datatype Assigned = Assigned(plan: nat, expires: Option<Date>)

  predicate Proper(inv: PaidInvoice) {
    Valid(inv.issueDate)
  }

  predicate ProperState(a: Option<Assigned>) {
    a.Some? && a.value.expires.Some? ==> Valid(a.value.expires.value)
  }

  function ExpiryOf(a: Option<Assigned>): Option<Date> {
    if a.Some? then a.value.expires else None
  }

  /** The day `n` days later. */
  function AddDays(d: Date, n: nat): (e: Date)
    requires Valid(d)
    ensures Valid(e) && Ordinal(e) == Ordinal(d) + n
    decreases n
  {
    OrdinalCountsDays(d);
    if n == 0 then d else AddDays(NextDay(d), n - 1)
  }

  /** `_expiry_datetime_for_invoice`: a change of plan starts afresh, a renewal stacks onto the later of the old expiry
      and the issue date. */
  function NewExpiry(inv: PaidInvoice, previous: Option<Date>): Date
    requires Proper(inv) && (previous.Some? ==> Valid(previous.value))
  {
    var start := if inv.previousPlan.None? && previous.Some? && Before(inv.issueDate, previous.value)
                 then previous.value else inv.issueDate;
    AddMonths(start, inv.months)
  }

  /** `assign_plan`: the expiry of a demo plan, none otherwise. */
  function AssignPlan(plan: Plan, today: Date): (a: Assigned)
    requires Valid(today)
    ensures a.plan == plan.id
    ensures a.expires.Some? <==> plan.demoDays.Some? && plan.demoDays.value > 0
    ensures a.expires.Some? ==>
              Valid(a.expires.value) && Ordinal(a.expires.value) == Ordinal(today) + plan.demoDays.value
  {
    Assigned(plan.id, if plan.demoDays.Some? && plan.demoDays.value > 0
                      then Some(AddDays(today, plan.demoDays.value)) else None)
  }

  function Synced(a: Option<Assigned>, inv: PaidInvoice, today: Date): (after: Option<Assigned>)
    requires Proper(inv) && Valid(today) && ProperState(a)
    ensures ProperState(after)
  {
    if inv.fixedTerm then Some(Assigned(inv.plan.id, Some(NewExpiry(inv, ExpiryOf(a)))))
    else if a.Some? && a.value.plan == inv.plan.id then a
    else Some(AssignPlan(inv.plan, today))
  }

  /** The assignment row of one user. */
  class UserPlan {
    var assignment: Option<Assigned>

    constructor (assignment: Option<Assigned>)
      ensures this.assignment == assignment
    {
      this.assignment := assignment;
    }

    /** `_sync_plan_assignment_to_paid_invoice`. */
    method SyncToPaidInvoice(inv: PaidInvoice, today: Date)
      requires Proper(inv) && Valid(today) && ProperState(assignment)
      modifies this
      ensures assignment == Synced(old(assignment), inv, today)
      ensures assignment.Some? && assignment.value.plan == inv.plan.id
    {
      var planUnchanged := assignment.Some? && assignment.value.plan == inv.plan.id;
      var previousExpiry := ExpiryOf(assignment);
      if !inv.fixedTerm {
        if !planUnchanged {
          assignment := Some(AssignPlan(inv.plan, today));
        }
        return;
      }
      if !planUnchanged {
        assignment := Some(AssignPlan(inv.plan, today));
      }
      assignment := Some(assignment.value.(expires := Some(NewExpiry(inv, previousExpiry))));
    }
  }

  // ----- the plan a payment leads to -----

  /** After any payments of any kind the user is on the plan of the last invoice. */
  lemma {:induction false} LastPaymentSetsThePlan(a: Option<Assigned>, invoices: seq<PaidInvoice>, today: Date)
    requires ProperState(a) && AllProper(invoices) && Valid(today) && invoices != []
    ensures var after := SyncAll(a, invoices, today);
      after.Some? && after.value.plan == invoices[|invoices| - 1].plan.id
    decreases |invoices|
  {
    var b := Synced(a, invoices[0], today);
    if |invoices| > 1 {
      LastPaymentSetsThePlan(b, invoices[1..], today);
    } else {
      assert SyncAll(b, invoices[1..], today) == b;
    }
  }

  /** An invoice that is not of a fixed term changes the assignment exactly when it is for another plan; the new one
      ends after the days of a demo plan and otherwise never. */
  lemma OtherInvoicesOnlyChangePlans(a: Option<Assigned>, inv: PaidInvoice, today: Date)
    requires ProperState(a) && Proper(inv) && Valid(today) && !inv.fixedTerm
    ensures var after := Synced(a, inv, today);
      && (after == a <==> a.Some? && a.value.plan == inv.plan.id)
      && (after != a ==>
            if inv.plan.demoDays.Some? && inv.plan.demoDays.value > 0
            then after.value.expires.Some?
                 && Ordinal(after.value.expires.value) == Ordinal(today) + inv.plan.demoDays.value
            else after.value.expires.None?)
  {
  }

  /** One of a fixed term always sets an end: its months after its issue date, or for a renewal after the end of what
      is left of the old period - of whichever plan that was. */
  lemma FixedTermAlwaysEnds(a: Option<Assigned>, inv: PaidInvoice, today: Date)
    requires ProperState(a) && Proper(inv) && Valid(today) && inv.fixedTerm
    ensures var e := ExpiryOf(Synced(a, inv, today));
      e == if inv.previousPlan.None? && ExpiryOf(a).Some? && Ordinal(inv.issueDate) < Ordinal(ExpiryOf(a).value)
           then Some(AddMonths(ExpiryOf(a).value, inv.months)) else Some(AddMonths(inv.issueDate, inv.months))
  {
    if ExpiryOf(a).Some? {
      OrdinalRespectsOrder(inv.issueDate, ExpiryOf(a).value);
    }
  }

  // ----- renewals only add time -----

  /** The later of two days. */
  function Later(a: Date, b: Option<Date>): Date {
    if b.Some? && Before(a, b.value) then b.value else a
  }

  /** A paid renewal runs 28 to 31 days per month past the later of the old expiry and the issue date; in particular
      the old expiry is never moved back. */
  lemma RenewalAddsTime(inv: PaidInvoice, previous: Option<Date>)
    requires Proper(inv) && inv.previousPlan.None? && (previous.Some? ==> Valid(previous.value))
    ensures var e, start := NewExpiry(inv, previous), Later(inv.issueDate, previous);
      && Valid(e) && Valid(start)
      && Ordinal(start) + 28 * inv.months <= Ordinal(e) <= Ordinal(start) + 31 * inv.months
      && (previous.Some? ==> Ordinal(previous.value) <= Ordinal(start))
      && Ordinal(inv.issueDate) <= Ordinal(start)
  {
    AddMonthsMovesDays(Later(inv.issueDate, previous), inv.months);
    if previous.Some? {
      OrdinalRespectsOrder(inv.issueDate, previous.value);
      OrdinalRespectsOrder(previous.value, inv.issueDate);
    }
  }

  predicate Renewal(inv: PaidInvoice) {
    Proper(inv) && inv.fixedTerm && inv.previousPlan.None?
  }

  predicate AllRenewals(invoices: seq<PaidInvoice>) {
    forall i :: 0 <= i < |invoices| ==> Renewal(invoices[i])
  }

  predicate AllProper(invoices: seq<PaidInvoice>) {
    forall i :: 0 <= i < |invoices| ==> Proper(invoices[i])
  }

  function SyncAll(a: Option<Assigned>, invoices: seq<PaidInvoice>, today: Date): Option<Assigned>
    requires AllProper(invoices) && Valid(today) && ProperState(a)
    decreases |invoices|
  {
    if invoices == [] then a else SyncAll(Synced(a, invoices[0], today), invoices[1..], today)
  }

  function Months(invoices: seq<PaidInvoice>): nat {
    if invoices == [] then 0 else invoices[0].months + Months(invoices[1..])
  }

  /** Any sequence of paid renewals: the expiry never moves back, and every paid month is worth at least 28 days on
      top of what was left before and on top of the first issue date. */
  lemma {:induction false} RenewalsNeverLoseTime(a: Option<Assigned>, invoices: seq<PaidInvoice>, today: Date)
    requires ProperState(a) && AllRenewals(invoices) && Valid(today) && invoices != []
    ensures var e := ExpiryOf(SyncAll(a, invoices, today));
      && e.Some? && Valid(e.value)
      && (ExpiryOf(a).Some? ==> Ordinal(ExpiryOf(a).value) + 28 * Months(invoices) <= Ordinal(e.value))
      && Ordinal(invoices[0].issueDate) + 28 * Months(invoices) <= Ordinal(e.value)
    decreases |invoices|
  {
    var inv := invoices[0];
    var b := Synced(a, inv, today);
    RenewalAddsTime(inv, ExpiryOf(a));
    if |invoices| > 1 {
      assert AllRenewals(invoices[1..]);
      RenewalsNeverLoseTime(b, invoices[1..], today);
    } else {
      assert invoices[1..] == [];
      assert SyncAll(b, invoices[1..], today) == b;
    }
  }

  // ----- one invoice gives unused time back in one way -----

  /** A change of plan runs exactly its months from its issue date, whatever was left of the old plan. */
  lemma ChangeStartsAfresh(inv: PaidInvoice, a: Option<Assigned>, today: Date)
    requires Proper(inv) && Valid(today) && ProperState(a) && inv.fixedTerm && inv.previousPlan.Some?
    ensures ExpiryOf(Synced(a, inv, today)) == Some(AddMonths(inv.issueDate, inv.months))
  {
  }

  /** Invoice and payment together: a fixed-term purchase either carries a credit - and then its expiry does not depend
      on the old one - or it has no credit, and then no day of the old expiry is lost. */
  lemma CreditOrDaysNeverBoth(
    o: Pricing.UserOrder, b: Pricing.Bill, current: Option<Pricing.Assignment>, paid: seq<Pricing.PaidInvoice>,
    now: int, dailyRate: real, inv: PaidInvoice, x: Option<Date>, y: Option<Date>)
    requires o.plan.Some? && dailyRate >= 0.0 && Pricing.CreditAsDue(o, b, current, paid, now, dailyRate)
    requires Proper(inv) && inv.previousPlan == b.previousPlan && inv.months == b.months
    requires (x.Some? ==> Valid(x.value)) && (y.Some? ==> Valid(y.value))
    ensures b.credit > 0 ==> NewExpiry(inv, x) == NewExpiry(inv, y) == AddMonths(inv.issueDate, inv.months)
    ensures inv.previousPlan.None? ==>
              b.credit == 0
              && (x.Some? ==> Valid(NewExpiry(inv, x))
                              && Ordinal(x.value) + 28 * inv.months <= Ordinal(NewExpiry(inv, x)))
  {
    if inv.previousPlan.None? {
      RenewalAddsTime(inv, x);
    }
  }

  /** A repeated synchronisation of one and the same renewal stacks again. */
  lemma SyncingTwiceStacksTwice(inv: PaidInvoice, a: Option<Assigned>, today: Date)
    requires Renewal(inv) && ProperState(a) && Valid(today) && inv.months >= 1
    ensures var once := Synced(a, inv, today);
      var twice := Synced(once, inv, today);
      && ExpiryOf(once).Some? && ExpiryOf(twice) == Some(AddMonths(ExpiryOf(once).value, inv.months))
  {
    RenewalAddsTime(inv, ExpiryOf(a));
    var once := NewExpiry(inv, ExpiryOf(a));
    OrdinalRespectsOrder(inv.issueDate, once);
  }
}
