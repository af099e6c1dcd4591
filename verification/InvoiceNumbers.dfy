/** Invoice numbering (billing/models.py, `Invoice.save` and `_next_invoice_number`): a zero-padded sequence per
    calendar year that is read back from the newest live row of that year. */
module InvoiceNumbers {
  import opened Wrappers
  import opened Text

  datatype Row = Row(id: nat, number: string)

  function Prefix(year: nat): string {
    "INV-" + Dec(year) + "-"
  }

  /** `f"{n:04d}"`. */
  function Padded(n: nat): string {
    var d := Dec(n);
    if |d| == 1 then "000" + d else if |d| == 2 then "00" + d else if |d| == 3 then "0" + d else d
  }

  function Number(year: nat, n: nat): string {
    Prefix(year) + Padded(n)
  }

  /** `int(number.rsplit("-", 1)[-1])`. */
  function SequenceOf(number: string): nat {
    var tail := AfterLastDash(number);
    if AllDigits(tail) then ReadDec(tail) else 0
  }

  /** `filter(invoice_number__startswith=prefix).order_by("-id").first()` on rows listed by id. */
  function NewestWithPrefix(rows: seq<Row>, prefix: string): Option<Row> {
    if rows == [] then None
    else if prefix <= rows[|rows| - 1].number then Some(rows[|rows| - 1])
    else NewestWithPrefix(rows[..|rows| - 1], prefix)
  }

  /** The highest live sequence number of a year: 0 when it has no live invoice. */
  function NewestSequence(rows: seq<Row>, year: nat): nat {
    match NewestWithPrefix(rows, Prefix(year))
    case None => 0
    case Some(row) => SequenceOf(row.number)
  }

  function NextNumber(rows: seq<Row>, year: nat): string {
    Number(year, NewestSequence(rows, year) + 1)
  }

  function Without(rows: seq<Row>, id: nat): seq<Row> {
    if rows == [] then []
    else if rows[|rows| - 1].id == id then Without(rows[..|rows| - 1], id)
    else Without(rows[..|rows| - 1], id) + [rows[|rows| - 1]]
  }

  // ----- the print/parse round trip -----

  lemma {:induction false} NumberReadsBack(year: nat, n: nat)
    ensures SequenceOf(Number(year, n)) == n
  {
    DecReadsBack(n);
    var d := Dec(n);
    var zeros := if |d| == 1 then "000" else if |d| == 2 then "00" else if |d| == 3 then "0" else "";
    assert Padded(n) == zeros + d;
    LeadingZeros(zeros, d);
    AfterLastDashSkipsPrefix("INV-" + Dec(year), Padded(n));
    assert Number(year, n) == "INV-" + Dec(year) + "-" + Padded(n);
  }

  /** Two texts that agree up to a dash agree on what stands before it. */
  lemma {:induction false} FirstDash(a: string, x: string, b: string, y: string)
    requires '-' !in a && '-' !in b
    requires a + "-" + x == b + "-" + y
    ensures a == b
  {
    var s, t := a + "-" + x, b + "-" + y;
    assert s[0] == if a == "" then '-' else a[0];
    assert t[0] == if b == "" then '-' else b[0];
    if a != "" && b != "" {
      assert a[1..] + "-" + x == s[1..];
      assert b[1..] + "-" + y == t[1..];
      FirstDash(a[1..], x, b[1..], y);
      assert a == [a[0]] + a[1..] && b == [b[0]] + b[1..];
    }
  }

  lemma FirstDashAfter(p: string, a: string, x: string, b: string, y: string)
    requires '-' !in a && '-' !in b
    requires p + a + "-" + x == p + b + "-" + y
    ensures a == b
  {
    assert (p + a + "-" + x)[|p|..] == a + "-" + x;
    assert (p + b + "-" + y)[|p|..] == b + "-" + y;
    FirstDash(a, x, b, y);
  }

  lemma NoDash(year: nat)
    ensures '-' !in Dec(year)
  {
    DecReadsBack(year);
  }

  /** `startswith` picks out exactly one year: no year's prefix is a prefix of another year's numbers. */
  lemma {:induction false} PrefixPicksTheYear(year: nat, other: nat, n: nat)
    ensures Prefix(year) <= Number(other, n) <==> year == other
  {
    NoDash(year);
    NoDash(other);
    if Prefix(year) <= Number(other, n) {
      var rest := Number(other, n)[|Prefix(year)|..];
      FirstDashAfter("INV-", Dec(year), rest, Dec(other), Padded(n));
      DecReadsBack(year);
      DecReadsBack(other);
    }
  }

  /** The sequence has four digits, or as many more as it needs. */
  lemma NumbersHaveFourDigits(year: nat, n: nat)
    ensures |Number(year, n)| == |Prefix(year)| + Max(4, |Dec(n)|)
  {
    DecReadsBack(n);
  }

  lemma NumberIsInjective(year: nat, n: nat, other: nat, m: nat)
    ensures Number(year, n) == Number(other, m) <==> year == other && n == m
  {
    if Number(year, n) == Number(other, m) {
      PrefixPicksTheYear(year, year, n);
      PrefixPicksTheYear(year, other, m);
      NumberReadsBack(year, n);
      NumberReadsBack(other, m);
    }
  }

  // ----- every serial run of creations and deletions -----

  datatype Op = Create(year: nat) | Delete(id: nat)

  /** Live rows in id order, the next primary key, and the highest sequence ever issued per year. */
  datatype Ledger = Ledger(rows: seq<Row>, nextId: nat, highest: map<nat, nat>, issued: set<string>)

  function Highest(l: Ledger, year: nat): nat {
    if year in l.highest then l.highest[year] else 0
  }

  function Step(l: Ledger, op: Op): Ledger {
    match op
    case Create(year) =>
      var n := NewestSequence(l.rows, year) + 1;
      Ledger(l.rows + [Row(l.nextId, NextNumber(l.rows, year))], l.nextId + 1,
             l.highest[year := Max(Highest(l, year), n)], l.issued + {NextNumber(l.rows, year)})
    case Delete(id) => l.(rows := Without(l.rows, id))
  }

  function Run(ops: seq<Op>): Ledger {
    if ops == [] then Ledger([], 0, map[], {}) else Step(Run(ops[..|ops| - 1]), ops[|ops| - 1])
  }

  ghost predicate WellFormed(number: string) {
    exists year, n :: n >= 1 && number == Number(year, n)
  }

  predicate InYear(row: Row, year: nat) {
    Prefix(year) <= row.number
  }

  /** Both rows belong to the given year. */
  predicate SameYear(a: Row, b: Row, year: nat) {
    InYear(a, year) && InYear(b, year)
  }

  ghost predicate RowsOk(rows: seq<Row>, nextId: nat) {
    && (forall i :: 0 <= i < |rows| ==> rows[i].id < nextId && WellFormed(rows[i].number))
    && (forall i, j :: 0 <= i < j < |rows| ==> rows[i].id < rows[j].id)
    && (forall i, j, year :: 0 <= i < j < |rows| && SameYear(rows[i], rows[j], year) ==>
          SequenceOf(rows[i].number) < SequenceOf(rows[j].number))
  }

  ghost predicate HistoryOk(l: Ledger) {
    && (forall i :: 0 <= i < |l.rows| ==> l.rows[i].number in l.issued)
    && (forall year, n {:trigger Number(year, n)} ::
          n >= 1 ==> (Number(year, n) in l.issued <==> n <= Highest(l, year)))
  }

  lemma {:induction false} NewestIsHighest(rows: seq<Row>, nextId: nat, year: nat, i: nat)
    requires RowsOk(rows, nextId) && i < |rows| && InYear(rows[i], year)
    ensures SequenceOf(rows[i].number) <= NewestSequence(rows, year)
    decreases |rows|
  {
    var init, last := rows[..|rows| - 1], rows[|rows| - 1];
    if !InYear(last, year) {
      assert rows == init + [last];
      RowsOkSnoc(init, last, nextId);
      NewestIsHighest(init, nextId, year, i);
    } else if i < |rows| - 1 {
      assert SameYear(rows[i], last, year);
    }
  }

  lemma {:induction false} NewestIsLive(rows: seq<Row>, nextId: nat, year: nat)
    requires RowsOk(rows, nextId) && NewestSequence(rows, year) > 0
    ensures exists i :: 0 <= i < |rows| && rows[i].number == Number(year, NewestSequence(rows, year))
  {
    var last := rows[|rows| - 1];
    if InYear(last, year) {
      var y, n :| n >= 1 && last.number == Number(y, n);
      PrefixPicksTheYear(year, y, n);
      NumberReadsBack(y, n);
    } else {
      var init := rows[..|rows| - 1];
      NewestIsLive(init, nextId, year);
      var i :| 0 <= i < |init| && init[i].number == Number(year, NewestSequence(init, year));
      assert rows[i] == init[i];
    }
  }

  lemma {:induction false} WithoutRemoves(rows: seq<Row>, id: nat)
    ensures forall row :: row in Without(rows, id) <==> row in rows && row.id != id
  {
    if rows != [] {
      WithoutRemoves(rows[..|rows| - 1], id);
      assert rows == rows[..|rows| - 1] + [rows[|rows| - 1]];
    }
  }

  /** The last row of an ordered list comes after each of the others. */
  ghost predicate Before(row: Row, last: Row) {
    && row.id < last.id
    && forall year :: SameYear(row, last, year) ==> SequenceOf(row.number) < SequenceOf(last.number)
  }

  lemma RowsOkSnoc(rows: seq<Row>, last: Row, nextId: nat)
    ensures RowsOk(rows + [last], nextId) <==>
              RowsOk(rows, nextId) && last.id < nextId && WellFormed(last.number)
              && forall i :: 0 <= i < |rows| ==> Before(rows[i], last)
  {
    var all := rows + [last];
    assert forall i :: 0 <= i < |rows| ==> all[i] == rows[i];
    assert all[|rows|] == last;
    if RowsOk(all, nextId) {
      assert RowsOk(rows, nextId);
    }
  }

  lemma {:induction false} WithoutKeepsOrder(rows: seq<Row>, nextId: nat, id: nat)
    requires RowsOk(rows, nextId)
    ensures RowsOk(Without(rows, id), nextId)
  {
    if rows != [] {
      var init, last := rows[..|rows| - 1], rows[|rows| - 1];
      assert rows == init + [last];
      RowsOkSnoc(init, last, nextId);
      WithoutKeepsOrder(init, nextId, id);
      WithoutRemoves(init, id);
      var kept := Without(init, id);
      forall i | 0 <= i < |kept|
        ensures Before(kept[i], last)
      {
        assert kept[i] in init;
      }
      RowsOkSnoc(kept, last, nextId);
    }
  }

  lemma CreateKeepsRows(rows: seq<Row>, nextId: nat, year: nat)
    requires RowsOk(rows, nextId)
    ensures RowsOk(rows + [Row(nextId, NextNumber(rows, year))], nextId + 1)
  {
    var n := NewestSequence(rows, year) + 1;
    var added := Row(nextId, Number(year, n));
    NumberReadsBack(year, n);
    assert WellFormed(added.number);
    forall i | 0 <= i < |rows|
      ensures Before(rows[i], added)
    {
      forall y | SameYear(rows[i], added, y)
        ensures SequenceOf(rows[i].number) < SequenceOf(added.number)
      {
        PrefixPicksTheYear(y, year, n);
        NewestIsHighest(rows, nextId, year, i);
      }
    }
    assert RowsOk(rows, nextId + 1);
    RowsOkSnoc(rows, added, nextId + 1);
  }

  lemma {:induction false} CreateKeepsHistory(l: Ledger, year: nat)
    requires RowsOk(l.rows, l.nextId) && HistoryOk(l)
    ensures HistoryOk(Step(l, Create(year)))
    ensures NextNumber(l.rows, year) in l.issued <==> NewestSequence(l.rows, year) < Highest(l, year)
  {
    var l', m := Step(l, Create(year)), NewestSequence(l.rows, year) + 1;
    if m > 1 {
      NewestIsLive(l.rows, l.nextId, year);
      assert Number(year, m - 1) in l.issued;
    }
    forall y, n {:trigger Number(y, n)} | n >= 1
      ensures Number(y, n) in l'.issued <==> n <= Highest(l', y)
    {
      NumberIsInjective(y, n, year, m);
    }
  }

  lemma DeleteKeepsHistory(l: Ledger, id: nat)
    requires HistoryOk(l)
    ensures HistoryOk(Step(l, Delete(id)))
  {
    WithoutRemoves(l.rows, id);
    var kept := Without(l.rows, id);
    forall i | 0 <= i < |kept|
      ensures kept[i].number in l.issued
    {
      assert kept[i] in l.rows;
    }
    assert forall year :: Highest(Step(l, Delete(id)), year) == Highest(l, year);
  }

  /** The invariant of every run. */
  lemma {:induction false} RunKeepsOrder(ops: seq<Op>)
    ensures RowsOk(Run(ops).rows, Run(ops).nextId) && HistoryOk(Run(ops))
  {
    if ops == [] {
    } else {
      var l, op := Run(ops[..|ops| - 1]), ops[|ops| - 1];
      RunKeepsOrder(ops[..|ops| - 1]);
      match op
      case Create(year) =>
        CreateKeepsRows(l.rows, l.nextId, year);
        CreateKeepsHistory(l, year);
      case Delete(id) =>
        WithoutKeepsOrder(l.rows, l.nextId, id);
        DeleteKeepsHistory(l, id);
    }
  }

  /** Live numbers are pairwise distinct, and inside one year they grow with the primary key. */
  lemma {:induction false} LiveNumbersDistinctAndOrdered(ops: seq<Op>, i: nat, j: nat)
    requires i < j < |Run(ops).rows|
    ensures Run(ops).rows[i].id < Run(ops).rows[j].id
    ensures Run(ops).rows[i].number != Run(ops).rows[j].number
    ensures forall year :: SameYear(Run(ops).rows[i], Run(ops).rows[j], year) ==>
              SequenceOf(Run(ops).rows[i].number) < SequenceOf(Run(ops).rows[j].number)
  {
    RunKeepsOrder(ops);
    var rows := Run(ops).rows;
    assert rows[i] in rows;
    var year, n :| n >= 1 && rows[i].number == Number(year, n);
    PrefixPicksTheYear(year, year, n);
    assert SameYear(rows[i], rows[i], year);
    if rows[i].number == rows[j].number {
      assert SameYear(rows[i], rows[j], year);
    }
  }

  // ----- when a number comes back -----

  /** The next number of the year was issued before. */
  predicate Reuses(l: Ledger, year: nat) {
    NextNumber(l.rows, year) in l.issued
  }

  /** The invoice to be deleted is the one the year's next number is read from. */
  predicate IsNewest(rows: seq<Row>, id: nat, year: nat) {
    var newest := NewestWithPrefix(rows, Prefix(year));
    newest.Some? && newest.value.id == id
  }

  /** A deleted number can come back. After any run, the next number of a year repeats one that was issued
      before exactly when the year's highest number ever issued is no longer live. */
  lemma {:induction false} NumberReusedExactlyWhen(ops: seq<Op>, year: nat)
    ensures Reuses(Run(ops), year) <==> NewestSequence(Run(ops).rows, year) < Highest(Run(ops), year)
  {
    RunKeepsOrder(ops);
    CreateKeepsHistory(Run(ops), year);
  }

  lemma {:induction false} OtherDeletionKeepsNewest(rows: seq<Row>, id: nat, year: nat)
    requires !IsNewest(rows, id, year)
    ensures NewestWithPrefix(Without(rows, id), Prefix(year)) == NewestWithPrefix(rows, Prefix(year))
  {
    if rows != [] && !(Prefix(year) <= rows[|rows| - 1].number) {
      OtherDeletionKeepsNewest(rows[..|rows| - 1], id, year);
    }
  }

  lemma {:induction false} NewestIsARow(rows: seq<Row>, year: nat) returns (i: nat)
    requires NewestWithPrefix(rows, Prefix(year)).Some?
    ensures i < |rows| && NewestWithPrefix(rows, Prefix(year)) == Some(rows[i]) && InYear(rows[i], year)
  {
    i := |rows| - 1;
    if !InYear(rows[i], year) {
      i := NewestIsARow(rows[..i], year);
    }
  }

  lemma LiveSequencePositive(rows: seq<Row>, nextId: nat, year: nat, i: nat)
    requires RowsOk(rows, nextId) && i < |rows| && InYear(rows[i], year)
    ensures SequenceOf(rows[i].number) >= 1
  {
    var y, n :| n >= 1 && rows[i].number == Number(y, n);
    NumberReadsBack(y, n);
  }

  lemma KeptRow(rows: seq<Row>, id: nat, k: nat) returns (j: nat)
    requires k < |Without(rows, id)|
    ensures j < |rows| && rows[j] == Without(rows, id)[k] && rows[j].id != id
  {
    WithoutRemoves(rows, id);
    var row := Without(rows, id)[k];
    assert row in rows;
    j :| 0 <= j < |rows| && rows[j] == row;
  }

  lemma SequencesDiffer(rows: seq<Row>, nextId: nat, year: nat, i: nat, j: nat)
    requires RowsOk(rows, nextId) && i < |rows| && j < |rows| && i != j
    requires InYear(rows[i], year) && InYear(rows[j], year)
    ensures SequenceOf(rows[i].number) != SequenceOf(rows[j].number)
  {
    assert SameYear(rows[i], rows[j], year) && SameYear(rows[j], rows[i], year);
  }

  lemma NewestDeletionLowersTheSequence(rows: seq<Row>, nextId: nat, id: nat, year: nat)
    requires RowsOk(rows, nextId) && IsNewest(rows, id, year)
    ensures NewestSequence(Without(rows, id), year) < NewestSequence(rows, year)
  {
    var i := NewestIsARow(rows, year);
    LiveSequencePositive(rows, nextId, year, i);
    if NewestWithPrefix(Without(rows, id), Prefix(year)).Some? {
      var k := NewestIsARow(Without(rows, id), year);
      var j := KeptRow(rows, id, k);
      NewestIsHighest(rows, nextId, year, j);
      SequencesDiffer(rows, nextId, year, i, j);
    }
  }

  /** Which deletion brings a number back: after any run, deleting an invoice makes the year's next number a repeat if
      and only if it is the invoice that number is read from, or the number was a repeat already. */
  lemma DeletionReusesExactlyWhenNewest(ops: seq<Op>, id: nat, year: nat)
    ensures Reuses(Step(Run(ops), Delete(id)), year) <==> Reuses(Run(ops), year) || IsNewest(Run(ops).rows, id, year)
  {
    var l := Run(ops);
    RunKeepsOrder(ops);
    assert (ops + [Delete(id)])[..|ops|] == ops;
    assert Run(ops + [Delete(id)]) == Step(l, Delete(id));
    NumberReusedExactlyWhen(ops, year);
    NumberReusedExactlyWhen(ops + [Delete(id)], year);
    if IsNewest(l.rows, id, year) {
      NewestDeletionLowersTheSequence(l.rows, l.nextId, id, year);
      HighestBounds(l, year);
    } else {
      OtherDeletionKeepsNewest(l.rows, id, year);
    }
  }

  lemma HighestBounds(l: Ledger, year: nat)
    requires RowsOk(l.rows, l.nextId) && HistoryOk(l)
    ensures NewestSequence(l.rows, year) <= Highest(l, year)
  {
    var n := NewestSequence(l.rows, year);
    if n > 0 {
      NewestIsLive(l.rows, l.nextId, year);
      assert Number(year, n) in l.issued;
    }
  }

  lemma CreationStartsNoReuse(ops: seq<Op>, created: nat, year: nat)
    requires !Reuses(Run(ops), year)
    ensures !Reuses(Step(Run(ops), Create(created)), year)
  {
    var l, n := Run(ops), NewestSequence(Run(ops).rows, created) + 1;
    RunKeepsOrder(ops);
    assert (ops + [Create(created)])[..|ops|] == ops;
    var l' := Run(ops + [Create(created)]);
    assert l' == Step(l, Create(created));
    NumberReusedExactlyWhen(ops, year);
    NumberReusedExactlyWhen(ops + [Create(created)], year);
    PrefixPicksTheYear(year, created, n);
    NumberReadsBack(created, n);
    var added := Row(l.nextId, Number(created, n));
    assert l'.rows == l.rows + [added];
    assert (l.rows + [added])[..|l.rows|] == l.rows && (l.rows + [added])[|l.rows|] == added;
  }

  /** Every deletion of the run spares the newest invoice of every year. */
  ghost predicate SparesNewest(ops: seq<Op>) {
    forall i, year :: 0 <= i < |ops| && ops[i].Delete? ==> !IsNewest(Run(ops[..i]).rows, ops[i].id, year)
  }

  /** As long as nobody deletes the newest invoice of a year, no number ever comes back. */
  lemma {:induction false} NoReuseWhileNewestIsSpared(ops: seq<Op>, year: nat)
    requires SparesNewest(ops)
    ensures !Reuses(Run(ops), year)
  {
    if ops != [] {
      var n := |ops| - 1;
      var init, op := ops[..n], ops[n];
      assert SparesNewest(init) by {
        assert forall i :: 0 <= i < n ==> init[..i] == ops[..i];
      }
      NoReuseWhileNewestIsSpared(init, year);
      match op
      case Create(created) =>
        CreationStartsNoReuse(init, created, year);
      case Delete(id) =>
        assert !IsNewest(Run(ops[..n]).rows, ops[n].id, year);
        DeletionReusesExactlyWhenNewest(init, id, year);
    }
  }

  /** And then one does: the first invoice of a year is deleted, and the next one gets its number. */
  lemma DeletedNumberComesBack(year: nat)
    ensures Reuses(Run([Create(year), Delete(0)]), year)
    ensures NextNumber(Run([Create(year), Delete(0)]).rows, year) == Number(year, 1)
    ensures Run([Create(year)]).rows == [Row(0, Number(year, 1))]
  {
    assert [Create(year), Delete(0)][..1] == [Create(year)] && [Create(year)][..0] == [];
    var l := Run([Create(year)]);
    assert Run([]) == Ledger([], 0, map[], {});
    assert l.rows == [Row(0, Number(year, 1))];
    assert l.rows[..0] == [] && Without(l.rows, 0) == [];
    assert Run([Create(year), Delete(0)]) == Step(l, Delete(0));
  }

  /** The table the source keeps in the database, updated in place. */
  class InvoiceTable {
    var rows: seq<Row>
    var nextId: nat
    ghost var ops: seq<Op>

    ghost predicate Valid()
      reads this
    {
      rows == Run(ops).rows && nextId == Run(ops).nextId
    }

    constructor ()
      ensures Valid() && rows == [] && nextId == 0 && ops == []
    {
      rows, nextId, ops := [], 0, [];
    }

    /** `Invoice.objects.create(...)` on a day of the given year: `save` fills in the number. */
    method Create(year: nat) returns (number: string)
      requires Valid()
      modifies this
      ensures Valid() && ops == old(ops) + [Op.Create(year)]
      ensures number == NextNumber(old(rows), year)
      ensures rows == old(rows) + [Row(old(nextId), number)] && nextId == old(nextId) + 1
      ensures forall i :: 0 <= i < |old(rows)| ==> old(rows)[i].number != number
    {
      number := NextNumber(rows, year);
      assert (ops + [Op.Create(year)])[..|ops|] == ops;
      rows, nextId, ops := rows + [Row(nextId, number)], nextId + 1, ops + [Op.Create(year)];
      forall i | 0 <= i < |old(rows)|
        ensures old(rows)[i].number != number
      {
        LiveNumbersDistinctAndOrdered(ops, i, |rows| - 1);
      }
    }

    method Delete(id: nat)
      requires Valid()
      modifies this
      ensures Valid() && ops == old(ops) + [Op.Delete(id)] && nextId == old(nextId)
      ensures forall row :: row in rows <==> row in old(rows) && row.id != id
    {
      WithoutRemoves(rows, id);
      assert (ops + [Op.Delete(id)])[..|ops|] == ops;
      rows, ops := Without(rows, id), ops + [Op.Delete(id)];
    }
  }
}
