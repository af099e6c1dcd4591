/** The life of one invoice and its refund requests (billing/models.py, billing/views.py). Every locked block of a view
    is one step; amounts are integer cents and times are seconds. */
module InvoiceLifecycle {
  import opened Wrappers

  /** `REFUND_WINDOW_DAYS`, in seconds. */
  const REFUND_WINDOW := 7 * 86400

  datatype Status = Unpaid | PendingVerification | Paid | Refunded

  datatype RequestStatus = Pending | Approved | Rejected

  datatype RefundRequest = RefundRequest(amount: int, status: RequestStatus, autoApproved: bool)

  /** `refunds` counts the calls of `mark_refunded`, `planSyncs` how often the plan was synchronised to this invoice. */
  datatype Record = Record(
    total: int, status: Status, verifiedAt: Option<int>, refundAmount: Option<int>, requests: seq<RefundRequest>,
    refunds: nat, planSyncs: nat)

  datatype Op =
    | SubmitProof(hasProof: bool)
    | Verify(now: int)
    | Reject(now: int)
    | Toggle
    | RequestRefund(now: int)
    | Resolve(id: nat, approve: bool)

  function Count(requests: seq<RefundRequest>, status: RequestStatus): nat {
    if requests == [] then 0
    else Count(requests[..|requests| - 1], status) + if requests[|requests| - 1].status == status then 1 else 0
  }

  predicate HasPending(requests: seq<RefundRequest>) {
    exists i :: 0 <= i < |requests| && requests[i].status == Pending
  }

  /** `is_within_money_back_window`. */
  predicate InMoneyBackWindow(s: Record, now: int) {
    s.status == Paid && s.verifiedAt.Some? && now - s.verifiedAt.value <= REFUND_WINDOW
  }

  function MarkRefunded(s: Record, amount: int): Record {
    s.(status := Refunded, refundAmount := Some(amount), refunds := s.refunds + 1)
  }

  function Step(s: Record, op: Op): Record {
    match op
    case SubmitProof(hasProof) =>
      if s.status == Unpaid && hasProof then s.(status := PendingVerification) else s
    case Verify(now) =>
      if s.status == PendingVerification
      then s.(status := Paid, verifiedAt := Some(now), planSyncs := s.planSyncs + 1) else s
    case Reject(now) =>
      if s.status == PendingVerification then s.(status := Unpaid, verifiedAt := Some(now)) else s
    case Toggle =>
      if s.status == Refunded then s
      else if s.status == Paid then s.(status := Unpaid)
      else s.(status := Paid, planSyncs := s.planSyncs + 1)
    case RequestRefund(now) =>
      if s.status != Paid || HasPending(s.requests) then s
      else if InMoneyBackWindow(s, now) then
        MarkRefunded(s, s.total).(requests := s.requests + [RefundRequest(s.total, Approved, true)])
      else s.(requests := s.requests + [RefundRequest(s.total, Pending, false)])
    case Resolve(id, approve) =>
      if id >= |s.requests| || s.requests[id].status != Pending then s
      else if approve then
        MarkRefunded(s, s.requests[id].amount).(requests := s.requests[id := s.requests[id].(status := Approved)])
      else s.(requests := s.requests[id := s.requests[id].(status := Rejected)])
  }

  function Run(s: Record, ops: seq<Op>): Record
    decreases |ops|
  {
    if ops == [] then s else Run(Step(s, ops[0]), ops[1..])
  }

  /** An invoice as it is created: unpaid, or paid on the spot when credit covers it. */
  predicate IsNew(s: Record) {
    && (s.status == Unpaid || s.status == Paid)
    && s.refundAmount.None? && s.requests == [] && s.refunds == 0
  }

  // ----- the row, updated in place -----

  class Invoice {
    const total: int
    var status: Status
    var verifiedAt: Option<int>
    var refundAmount: Option<int>
    var requests: seq<RefundRequest>
    ghost var refunds: nat
    ghost var planSyncs: nat

    ghost function State(): Record
      reads this
    {
      Record(total, status, verifiedAt, refundAmount, requests, refunds, planSyncs)
    }

    constructor (total: int)
      ensures IsNew(State()) && this.total == total && status == Unpaid && verifiedAt.None? && planSyncs == 0
    {
      this.total := total;
      status, verifiedAt, refundAmount, requests := Unpaid, None, None, [];
      refunds, planSyncs := 0, 0;
    }

    method SubmitPaymentProof(hasProof: bool)
      modifies this
      ensures State() == Step(old(State()), SubmitProof(hasProof))
    {
      if status == Unpaid && hasProof {
        status := PendingVerification;
      }
    }

    /** `sync`: the view goes on to synchronise the recipient's plan. */
    method VerifyPayment(now: int) returns (sync: bool)
      modifies this
      ensures State() == Step(old(State()), Verify(now))
      ensures sync <==> planSyncs == old(planSyncs) + 1
    {
      sync := status == PendingVerification;
      if sync {
        status, verifiedAt := Paid, Some(now);
        planSyncs := planSyncs + 1;
      }
    }

    method RejectPayment(now: int)
      modifies this
      ensures State() == Step(old(State()), Reject(now))
    {
      if status == PendingVerification {
        status, verifiedAt := Unpaid, Some(now);
      }
    }

    method ToggleStatus() returns (sync: bool)
      modifies this
      ensures State() == Step(old(State()), Toggle)
      ensures status == if old(status) == Refunded then Refunded else if old(status) == Paid then Unpaid else Paid
      ensures sync <==> planSyncs == old(planSyncs) + 1
    {
      sync := false;
      if status != Refunded {
        status := if status == Paid then Unpaid else Paid;
        if status == Paid {
          sync := true;
          planSyncs := planSyncs + 1;
        }
      }
    }

    method MarkAsRefunded(amount: int)
      modifies this
      ensures State() == MarkRefunded(old(State()), amount)
    {
      status, refundAmount := Refunded, Some(amount);
      refunds := refunds + 1;
    }

    method AskForRefund(now: int)
      modifies this
      ensures State() == Step(old(State()), RequestRefund(now))
      ensures requests == old(requests)
              || (old(status) == Paid && status == Refunded
                  && requests == old(requests) + [RefundRequest(total, Approved, true)])
              || (status == Paid && requests == old(requests) + [RefundRequest(total, Pending, false)])
    {
      if status != Paid {
        return;
      }
      if HasPending(requests) {
        return;
      }
      requests := requests + [RefundRequest(total, Pending, false)];
      if verifiedAt.Some? && now - verifiedAt.value <= REFUND_WINDOW {
        MarkAsRefunded(total);
        var last := |requests| - 1;
        requests := requests[last := requests[last].(status := Approved, autoApproved := true)];
      }
    }

    method ResolveRefund(id: nat, approve: bool)
      modifies this
      ensures State() == Step(old(State()), Resolve(id, approve))
    {
      if id >= |requests| || requests[id].status != Pending {
        return;
      }
      if approve {
        requests := requests[id := requests[id].(status := Approved)];
        MarkAsRefunded(requests[id].amount);
      } else {
        requests := requests[id := requests[id].(status := Rejected)];
      }
    }

    /** One request of a user or an admin. */
    method Perform(op: Op)
      modifies this
      ensures State() == Step(old(State()), op)
    {
      match op {
        case SubmitProof(hasProof) => SubmitPaymentProof(hasProof);
        case Verify(now) => var sync := VerifyPayment(now);
        case Reject(now) => RejectPayment(now);
        case Toggle => var sync := ToggleStatus();
        case RequestRefund(now) => AskForRefund(now);
        case Resolve(id, approve) => ResolveRefund(id, approve);
      }
    }

    /** Any number of them. */
    method PerformAll(ops: seq<Op>)
      modifies this
      ensures State() == Run(old(State()), ops)
    {
      ghost var goal := Run(State(), ops);
      var i := 0;
      while i < |ops|
        invariant 0 <= i <= |ops|
        invariant Run(State(), ops[i..]) == goal
      {
        assert ops[i..][1..] == ops[i + 1..];
        Perform(ops[i]);
        i := i + 1;
      }
    }
  }

  // ----- every run -----

  /** A refunded invoice: exactly one approved request, none pending, refunded once and in full. */
  ghost predicate Inv(s: Record) {
    && Count(s.requests, Pending) <= 1
    && (forall i :: 0 <= i < |s.requests| ==> s.requests[i].amount == s.total)
    && (if s.status == Refunded
        then Count(s.requests, Pending) == 0 && Count(s.requests, Approved) == 1
             && s.refundAmount == Some(s.total) && s.refunds == 1
        else Count(s.requests, Approved) == 0 && s.refundAmount.None? && s.refunds == 0)
  }

  lemma {:induction false} CountUpdate(requests: seq<RefundRequest>, id: nat, r: RefundRequest, status: RequestStatus)
    requires id < |requests|
    ensures Count(requests[id := r], status) + (if requests[id].status == status then 1 else 0)
         == Count(requests, status) + (if r.status == status then 1 else 0)
  {
    var n := |requests| - 1;
    if id < n {
      assert requests[id := r][..n] == requests[..n][id := r];
      CountUpdate(requests[..n], id, r, status);
    } else {
      assert requests[id := r][..n] == requests[..n];
    }
  }

  lemma {:induction false} NoPendingCounted(requests: seq<RefundRequest>)
    ensures HasPending(requests) <==> Count(requests, Pending) > 0
  {
    if requests != [] {
      var init := requests[..|requests| - 1];
      NoPendingCounted(init);
      if HasPending(init) {
        var i :| 0 <= i < |init| && init[i].status == Pending;
        assert requests[i].status == Pending;
      }
      if HasPending(requests) && requests[|requests| - 1].status != Pending {
        var i :| 0 <= i < |requests| && requests[i].status == Pending;
        assert init[i].status == Pending;
      }
    }
  }

  lemma CountSnoc(requests: seq<RefundRequest>, r: RefundRequest, status: RequestStatus)
    ensures Count(requests + [r], status) == Count(requests, status) + if r.status == status then 1 else 0
  {
    assert (requests + [r])[..|requests|] == requests;
  }

  /** One more request on an invoice that has none pending and is not refunded. */
  lemma AddedRequest(s: Record, r: RefundRequest)
    requires Inv(s) && s.status != Refunded && !HasPending(s.requests) && r.amount == s.total && r.status != Rejected
    ensures var added := s.requests + [r];
      && Count(added, Pending) == (if r.status == Pending then 1 else 0)
      && Count(added, Approved) == (if r.status == Approved then 1 else 0)
      && forall i :: 0 <= i < |added| ==> added[i].amount == s.total
  {
    NoPendingCounted(s.requests);
    CountSnoc(s.requests, r, Pending);
    CountSnoc(s.requests, r, Approved);
  }

  lemma RequestKeepsInv(s: Record, now: int)
    requires Inv(s)
    ensures Inv(Step(s, RequestRefund(now)))
  {
    if s.status == Paid && !HasPending(s.requests) {
      if InMoneyBackWindow(s, now) {
        AddedRequest(s, RefundRequest(s.total, Approved, true));
      } else {
        AddedRequest(s, RefundRequest(s.total, Pending, false));
      }
    }
  }

  lemma ResolveKeepsInv(s: Record, id: nat, approve: bool)
    requires Inv(s) && id < |s.requests| && s.requests[id].status == Pending
    ensures s.status != Refunded && Inv(Step(s, Resolve(id, approve)))
  {
    NoPendingCounted(s.requests);
    var r := s.requests[id].(status := if approve then Approved else Rejected);
    CountUpdate(s.requests, id, r, Pending);
    CountUpdate(s.requests, id, r, Approved);
  }

  lemma StepKeepsInv(s: Record, op: Op)
    requires Inv(s)
    ensures Inv(Step(s, op)) && Step(s, op).total == s.total
    ensures s.status == Refunded ==> Step(s, op) == s
  {
    match op
    case RequestRefund(now) =>
      RequestKeepsInv(s, now);
    case Resolve(id, approve) =>
      if id < |s.requests| && s.requests[id].status == Pending {
        ResolveKeepsInv(s, id, approve);
      }
    case _ =>
  }

  lemma {:induction false} RunKeepsInv(s: Record, ops: seq<Op>)
    requires Inv(s)
    ensures Inv(Run(s, ops)) && Run(s, ops).total == s.total
    ensures s.status == Refunded ==> Run(s, ops) == s
    decreases |ops|
  {
    if ops != [] {
      StepKeepsInv(s, ops[0]);
      RunKeepsInv(Step(s, ops[0]), ops[1..]);
    }
  }

  /** Over every run: at most one request is pending; an invoice is refunded at most once, for its total, and exactly
      when one of its requests is approved. */
  lemma RefundsInEveryRun(s: Record, ops: seq<Op>)
    requires IsNew(s)
    ensures var t := Run(s, ops);
      && Count(t.requests, Pending) <= 1 && Count(t.requests, Approved) <= 1 && t.refunds <= 1
      && (t.status == Refunded <==> Count(t.requests, Approved) == 1)
      && (t.status == Refunded <==> t.refunds == 1)
      && (t.status == Refunded ==> Count(t.requests, Pending) == 0 && t.refundAmount == Some(s.total))
  {
    RunKeepsInv(s, ops);
  }

  /** Nothing ever happens to a refunded invoice again. */
  lemma RefundedIsFinal(s: Record, before: seq<Op>, after: seq<Op>)
    requires IsNew(s) && Run(s, before).status == Refunded
    ensures Run(Run(s, before), after) == Run(s, before)
  {
    RunKeepsInv(s, before);
    RunKeepsInv(Run(s, before), after);
  }

  /** A refund request pays out on the spot exactly inside the money-back window of a paid invoice with no request
      waiting. */
  lemma PaidOutOnTheSpotIff(s: Record, ops: seq<Op>, now: int)
    requires IsNew(s) && Run(s, ops).status != Refunded
    ensures var t := Run(s, ops);
      Step(t, RequestRefund(now)).status == Refunded
      <==> t.status == Paid && Count(t.requests, Pending) == 0
           && t.verifiedAt.Some? && now <= t.verifiedAt.value + REFUND_WINDOW
  {
    RunKeepsInv(s, ops);
    NoPendingCounted(Run(s, ops).requests);
  }

  /** Money goes back for an invoice that is not paid exactly when a pending request of one is approved. */
  lemma RefundsUnpaidExactlyWhen(s: Record, ops: seq<Op>, op: Op)
    requires IsNew(s)
    ensures var t := Run(s, ops);
      t.status != Paid && Step(t, op).refunds > t.refunds
      <==> op.Resolve? && op.approve && op.id < |t.requests| && t.requests[op.id].status == Pending
           && (t.status == Unpaid || t.status == PendingVerification)
  {
    RunKeepsInv(s, ops);
    NoPendingCounted(Run(s, ops).requests);
  }

  /** That happens: overridden to paid, a refund asked for, overridden back to unpaid, the request approved. */
  lemma UnpaidInvoiceCanBeRefunded(s: Record, now: int)
    requires IsNew(s) && s.status == Unpaid && s.verifiedAt.None?
    ensures var t := Run(s, [Toggle, RequestRefund(now), Toggle]);
      t.status == Unpaid && Step(t, Resolve(0, true)).status == Refunded
      && Step(t, Resolve(0, true)).refundAmount == Some(s.total)
  {
    assert [Toggle, RequestRefund(now), Toggle][1..] == [RequestRefund(now), Toggle];
    RunTwo(Step(s, Toggle), RequestRefund(now), Toggle);
    var s1 := Step(s, Toggle);
    var s2 := Step(s1, RequestRefund(now));
    assert !HasPending(s1.requests);
    assert s2.requests == [RefundRequest(s.total, Pending, false)];
  }

  // ----- when an invoice is paid, and since when -----

  lemma {:induction false} RunSnoc(s: Record, ops: seq<Op>, op: Op)
    ensures Run(s, ops + [op]) == Step(Run(s, ops), op)
    decreases |ops|
  {
    if ops == [] {
      assert [] + [op] == [op] && [op][1..] == [];
    } else {
      assert (ops + [op])[1..] == ops[1..] + [op];
      RunSnoc(Step(s, ops[0]), ops[1..], op);
    }
  }

  lemma RunNext(s: Record, ops: seq<Op>, n: nat)
    requires n < |ops|
    ensures Run(s, ops[..n + 1]) == Step(Run(s, ops[..n]), ops[n])
  {
    assert ops[..n + 1] == ops[..n] + [ops[n]];
    RunSnoc(s, ops[..n], ops[n]);
  }

  predicate NoOverride(ops: seq<Op>) {
    forall i :: 0 <= i < |ops| ==> !ops[i].Toggle?
  }

  /** A proof was submitted and not rejected since. */
  predicate ProofStands(ops: seq<Op>) {
    exists i :: 0 <= i < |ops| && ops[i] == SubmitProof(true) && forall k :: i < k < |ops| ==> !ops[k].Reject?
  }

  /** A proof was verified that had not been rejected before. */
  predicate ProofVerified(ops: seq<Op>) {
    exists j :: 0 <= j < |ops| && ops[j].Verify? && ProofStands(ops[..j])
  }

  lemma OneMoreOp(ops: seq<Op>, op: Op)
    ensures ProofStands(ops + [op]) <==> op == SubmitProof(true) || (ProofStands(ops) && !op.Reject?)
    ensures ProofVerified(ops + [op]) <==> ProofVerified(ops) || (op.Verify? && ProofStands(ops))
  {
    var n, all := |ops|, ops + [op];
    if op == SubmitProof(true) {
      assert all[n] == op;
    }
    if ProofStands(ops) && !op.Reject? {
      var i :| 0 <= i < n && ops[i] == SubmitProof(true) && forall k :: i < k < n ==> !ops[k].Reject?;
      assert all[i] == SubmitProof(true);
    }
    if ProofStands(all) && op != SubmitProof(true) {
      var i :| 0 <= i <= n && all[i] == SubmitProof(true) && forall k :: i < k <= n ==> !all[k].Reject?;
      assert ops[i] == SubmitProof(true) && all[n] == op;
    }
    assert forall j :: 0 <= j < n ==> all[j] == ops[j] && all[..j] == ops[..j];
    assert all[n] == op && all[..n] == ops;
  }

  /** Without the override: what the operations so far make of a new invoice. */
  predicate IsWhere(t: Record, ops: seq<Op>) {
    if ProofVerified(ops) then t.status == Paid || t.status == Refunded
    else t.requests == [] && t.status == if ProofStands(ops) then PendingVerification else Unpaid
  }

  /** For every run of a new invoice without an override: it is paid - or paid and refunded - exactly when a proof was
      submitted and verified with no rejection in between; otherwise it awaits verification exactly when a proof was
      submitted and not rejected since, and is unpaid if not. */
  lemma {:induction false} PaidExactlyWhenProofVerified(s: Record, ops: seq<Op>)
    requires IsNew(s) && s.status == Unpaid && NoOverride(ops)
    ensures IsWhere(Run(s, ops), ops)
  {
    if ops != [] {
      var n := |ops| - 1;
      PaidExactlyWhenProofVerified(s, ops[..n]);
      assert ops[..n + 1] == ops && ops == ops[..n] + [ops[n]];
      RunNext(s, ops, n);
      OneMoreOp(ops[..n], ops[n]);
      assert !ops[n].Toggle?;
    }
  }

  /** An admin decides about a waiting proof. */
  predicate Reviews(s: Record, op: Op) {
    s.status == PendingVerification && (op.Verify? || op.Reject?)
  }

  /** The i-th operation is the latest review of the run. */
  predicate IsLastReview(s: Record, ops: seq<Op>, i: nat) {
    && i < |ops| && Reviews(Run(s, ops[..i]), ops[i])
    && forall j :: i < j < |ops| ==> !Reviews(Run(s, ops[..j]), ops[j])
  }

  lemma {:induction false} ReviewedAt(s: Record, ops: seq<Op>, i: nat)
    requires IsLastReview(s, ops, i)
    ensures Run(s, ops).verifiedAt == Some(ops[i].now)
  {
    var n := |ops| - 1;
    RunNext(s, ops, n);
    assert ops[..n + 1] == ops;
    if i < n {
      assert forall j :: 0 <= j <= n ==> ops[..n][..j] == ops[..j];
      ReviewedAt(s, ops[..n], i);
    }
  }

  lemma {:induction false} LastReviewOf(s: Record, ops: seq<Op>) returns (i: nat)
    requires s.verifiedAt.None? && Run(s, ops).verifiedAt.Some?
    ensures IsLastReview(s, ops, i)
  {
    var n := |ops| - 1;
    RunNext(s, ops, n);
    assert ops[..n + 1] == ops;
    if Reviews(Run(s, ops[..n]), ops[n]) {
      i := n;
    } else {
      i := LastReviewOf(s, ops[..n]);
      assert forall j :: 0 <= j <= n ==> ops[..n][..j] == ops[..j];
    }
  }

  /** The money-back window runs from the latest review of a proof, a rejection included: over every run of a new unpaid
      invoice a refund request is paid out on the spot if and only if the invoice is paid, no request waits, and the
      latest review is no more than seven days past. */
  lemma WindowRunsFromTheLastReview(s: Record, ops: seq<Op>, now: int)
    requires IsNew(s) && s.status == Unpaid && s.verifiedAt.None? && Run(s, ops).status != Refunded
    ensures var t := Run(s, ops);
      Step(t, RequestRefund(now)).status == Refunded
      <==> t.status == Paid && Count(t.requests, Pending) == 0
           && exists i: nat :: IsLastReview(s, ops, i) && now <= ops[i].now + 7 * 86400
  {
    PaidOutOnTheSpotIff(s, ops, now);
    if Run(s, ops).verifiedAt.Some? {
      var i := LastReviewOf(s, ops);
      ReviewedAt(s, ops, i);
    }
    forall i: nat | IsLastReview(s, ops, i)
      ensures Run(s, ops).verifiedAt == Some(ops[i].now)
    {
      ReviewedAt(s, ops, i);
    }
  }

  /** So an invoice overridden to paid after a rejection is paid back within seven days of the rejection. */
  lemma RejectionOpensTheWindow(s: Record, rejected: int, now: int)
    requires IsNew(s) && s.status == Unpaid && rejected <= now <= rejected + 7 * 86400
    ensures Run(Run(s, [SubmitProof(true), Reject(rejected)]), [Toggle, RequestRefund(now)]).status == Refunded
  {
    RunTwo(s, SubmitProof(true), Reject(rejected));
    RunTwo(Run(s, [SubmitProof(true), Reject(rejected)]), Toggle, RequestRefund(now));
  }

  // ----- how often one invoice synchronises the plan -----

  /** The manual override takes back a payment. */
  predicate TakesBack(s: Record, op: Op) {
    op.Toggle? && s.status == Paid
  }

  /** Some payment is taken back in the run (or was before it: `takenBack`) and the invoice is paid again later. */
  predicate PaidAgain(s: Record, ops: seq<Op>, takenBack: bool)
    decreases |ops|
  {
    || (takenBack && s.status == Paid)
    || (ops != [] && PaidAgain(Step(s, ops[0]), ops[1..], takenBack || TakesBack(s, ops[0])))
  }

  /** How many more synchronisations it takes to make two, seen from the middle of a run. */
  function Missing(s: Record, takenBack: bool): nat {
    (if takenBack then 0 else 1) + if s.status == Paid then 0 else 1
  }

  lemma {:induction false} RefundedSyncsNoMore(s: Record, ops: seq<Op>, takenBack: bool)
    requires s.status == Refunded
    ensures Run(s, ops).planSyncs == s.planSyncs && !PaidAgain(s, ops, takenBack)
    decreases |ops|
  {
    if ops != [] {
      RefundedSyncsNoMore(Step(s, ops[0]), ops[1..], takenBack);
    }
  }

  lemma {:induction false} SyncsNeverGoDown(s: Record, ops: seq<Op>)
    ensures Run(s, ops).planSyncs >= s.planSyncs
    decreases |ops|
  {
    if ops != [] {
      SyncsNeverGoDown(Step(s, ops[0]), ops[1..]);
    }
  }

  lemma {:induction false} MissingSyncs(s: Record, ops: seq<Op>, takenBack: bool)
    ensures s.status != Refunded ==>
              (Run(s, ops).planSyncs >= s.planSyncs + Missing(s, takenBack) <==> PaidAgain(s, ops, takenBack))
    decreases |ops|
  {
    if takenBack && s.status == Paid {
      SyncsNeverGoDown(s, ops);
    } else if ops != [] && s.status != Refunded {
      var next := Step(s, ops[0]);
      if next.status == Refunded {
        RefundedSyncsNoMore(next, ops[1..], takenBack);
      } else {
        MissingSyncs(next, ops[1..], takenBack || TakesBack(s, ops[0]));
      }
    }
  }

  /** Over every run of an unpaid invoice, the plan is synchronised to it more than once if and only if a payment is
      taken back by the override and the invoice is paid again after that. */
  lemma SyncsTwiceExactlyWhenPaidAgain(s: Record, ops: seq<Op>)
    requires s.status == Unpaid || s.status == PendingVerification
    ensures Run(s, ops).planSyncs >= s.planSyncs + 2 <==> PaidAgain(s, ops, false)
  {
    MissingSyncs(s, ops, false);
  }

  /** No override in the run is applied to a paid invoice. */
  predicate NoneTakenBack(s: Record, ops: seq<Op>)
    decreases |ops|
  {
    ops == [] || (!TakesBack(s, ops[0]) && NoneTakenBack(Step(s, ops[0]), ops[1..]))
  }

  /** As long as the override is never applied to a paid invoice, one invoice synchronises the plan at most once in a
      run, and not at all when it starts out paid or refunded. */
  lemma {:induction false} SyncsAtMostOnce(s: Record, ops: seq<Op>)
    requires NoneTakenBack(s, ops)
    ensures Run(s, ops).planSyncs <= s.planSyncs + 1
    ensures s.status == Paid || s.status == Refunded ==> Run(s, ops).planSyncs == s.planSyncs
    decreases |ops|
  {
    if ops != [] {
      SyncsAtMostOnce(Step(s, ops[0]), ops[1..]);
    }
  }

  /** Taking a payment back and ending up paid again - by the override or by a new proof - always synchronises again. */
  lemma PaidBackSyncsAgain(s: Record, ops: seq<Op>)
    requires s.status == Paid && Run(Step(s, Toggle), ops).status == Paid
    ensures Run(Step(s, Toggle), ops).planSyncs >= s.planSyncs + 1
  {
    EndsPaid(Step(s, Toggle), ops);
    MissingSyncs(Step(s, Toggle), ops, true);
  }

  lemma {:induction false} EndsPaid(s: Record, ops: seq<Op>)
    requires Run(s, ops).status == Paid
    ensures PaidAgain(s, ops, true)
    decreases |ops|
  {
    if ops != [] {
      EndsPaid(Step(s, ops[0]), ops[1..]);
    }
  }

  /** Both ways happen: three overrides, and an override followed by a proof that is verified. */
  lemma ToggleCanSyncTwice(s: Record, now: int)
    requires IsNew(s) && s.status == Unpaid
    ensures Run(s, [Toggle, Toggle, Toggle]).planSyncs == s.planSyncs + 2
    ensures Run(Run(s, [Toggle, Toggle]), [SubmitProof(true), Verify(now)]).planSyncs == s.planSyncs + 2
  {
    assert [Toggle, Toggle, Toggle][1..] == [Toggle, Toggle];
    RunTwo(Step(s, Toggle), Toggle, Toggle);
    RunTwo(s, Toggle, Toggle);
    RunTwo(Run(s, [Toggle, Toggle]), SubmitProof(true), Verify(now));
  }

  lemma RunTwo(s: Record, a: Op, b: Op)
    ensures Run(s, [a, b]) == Step(Step(s, a), b)
  {
    assert [a, b][1..] == [b] && [b][1..] == [];
    assert Run(Step(s, a), [b]) == Step(Step(s, a), b);
  }
}
