/** The conversation sidebar: keyset pages (chat/views.py, `_unpinned_conversations_page`, `load_more_conversations`)
    and day buckets (chat/utils.py, `group_conversations`). */
module Sidebar {
  import opened Wrappers
  import opened Calendar

  const PAGE_SIZE := 100

  /** `day` is the local calendar date of `updatedAt`. */
  datatype Conversation = Conversation(id: nat, updatedAt: int, day: Date)

  datatype Cursor = Cursor(updatedAt: int, id: nat)

  /** The order of `order_by("-updated_at", "-id")`. */
  predicate Newer(a: Conversation, b: Conversation) {
    a.updatedAt > b.updatedAt || (a.updatedAt == b.updatedAt && a.id > b.id)
  }

  /** All unpinned conversations of a user, as the database lists them. */
  predicate Listing(all: seq<Conversation>) {
    forall i, j :: 0 <= i < j < |all| ==> Newer(all[i], all[j])
  }

  // ----- pages -----

  /** The filter `updated_at < u or (updated_at == u and id < i)`. */
  predicate After(c: Conversation, cursor: Option<Cursor>) {
    cursor.Some? ==>
      c.updatedAt < cursor.value.updatedAt || (c.updatedAt == cursor.value.updatedAt && c.id < cursor.value.id)
  }

  function Filter(all: seq<Conversation>, cursor: Option<Cursor>): (rows: seq<Conversation>)
    ensures |rows| <= |all|
  {
    if all == [] then []
    else (if After(all[0], cursor) then [all[0]] else []) + Filter(all[1..], cursor)
  }

  function CursorOf(c: Conversation): Option<Cursor> {
    Some(Cursor(c.updatedAt, c.id))
  }

  /** `_unpinned_conversations_page`: a page and whether there is more. */
  function Page(all: seq<Conversation>, cursor: Option<Cursor>): (seq<Conversation>, bool) {
    var rows := Filter(all, cursor);
    if |rows| > PAGE_SIZE then (rows[..PAGE_SIZE], true) else (rows, false)
  }

  lemma {:induction false} FilterKeepsAll(all: seq<Conversation>, cursor: Option<Cursor>)
    requires forall i :: 0 <= i < |all| ==> After(all[i], cursor)
    ensures Filter(all, cursor) == all
  {
    if all != [] {
      FilterKeepsAll(all[1..], cursor);
      assert all == [all[0]] + all[1..];
    }
  }

  /** The filter of a row's own cursor leaves exactly the rows listed after it, ties on `updated_at` included. */
  lemma {:induction false} CursorResumes(all: seq<Conversation>, k: nat)
    requires Listing(all) && k < |all|
    ensures Filter(all, CursorOf(all[k])) == all[k + 1..]
    decreases k
  {
    if k == 0 {
      FilterKeepsAll(all[1..], CursorOf(all[0]));
    } else {
      assert Newer(all[0], all[k]);
      CursorResumes(all[1..], k - 1);
      assert all[1..][k - 1] == all[k] && all[1..][k..] == all[k + 1..];
    }
  }

  /** Following the cursor while there is more: the method a client carries out click by click. */
  method FollowCursor(all: seq<Conversation>) returns (pages: seq<seq<Conversation>>)
    requires Listing(all)
    ensures pages == Slices(all)
  {
    var cursor: Option<Cursor> := None;
    FilterKeepsAll(all, cursor);
    pages := [];
    ghost var from := 0;
    var hasMore := true;
    assert all[0..] == all;
    while hasMore
      invariant 0 <= from <= |all|
      invariant hasMore ==> Filter(all, cursor) == all[from..]
      invariant hasMore ==> Slices(all) == pages + Slices(all[from..])
      invariant !hasMore ==> Slices(all) == pages
      decreases |all| - from, if hasMore then 1 else 0
    {
      var page, more := Page(all, cursor).0, Page(all, cursor).1;
      if more {
        cursor := CursorOf(page[|page| - 1]);
        CursorResumes(all, from + PAGE_SIZE - 1);
        from := from + PAGE_SIZE;
      }
      pages := pages + [page];
      hasMore := more;
    }
  }

  /** Consecutive slices of at most a page, at least one. */
  function Slices(all: seq<Conversation>): (pages: seq<seq<Conversation>>)
    ensures pages != []
  {
    if |all| > PAGE_SIZE then [all[..PAGE_SIZE]] + Slices(all[PAGE_SIZE..]) else [all]
  }

  function Concat(pages: seq<seq<Conversation>>): seq<Conversation> {
    if pages == [] then [] else pages[0] + Concat(pages[1..])
  }

  /** The pages make up the whole list, with no skip and no repeat, in as few pages as it takes. */
  lemma {:induction false} PagesCoverTheList(all: seq<Conversation>)
    ensures Concat(Slices(all)) == all
    ensures |Slices(all)| == if all == [] then 1 else (|all| + 99) / 100
    ensures forall i :: 0 <= i < |Slices(all)| ==> |Slices(all)[i]| <= 100
  {
    if |all| > PAGE_SIZE {
      PagesCoverTheList(all[PAGE_SIZE..]);
      assert all == all[..PAGE_SIZE] + all[PAGE_SIZE..];
    } else {
      assert [all][1..] == [];
    }
  }

  // ----- buckets -----

  datatype Label = Today | Yesterday | Previous7Days | Previous30Days | Month(year: nat, month: nat)

  datatype Bucket = Bucket(heading: Label, items: seq<Conversation>)

  predicate Dated(all: seq<Conversation>) {
    forall i :: 0 <= i < |all| ==> Valid(all[i].day)
  }

  /** `bucket_for`. */
  function LabelOf(day: Date, today: Date): Label
    requires Valid(day) && Valid(today)
  {
    var d, t := Ordinal(day), Ordinal(today);
    if d == t then Today
    else if d == t - 1 then Yesterday
    else if d > t - 7 then Previous7Days
    else if d > t - 30 then Previous30Days
    else Month(day.year, day.month)
  }

  /** Which dates a heading stands for. Dates after today fall under the last seven days. */
  lemma LabelsAreDates(day: Date, today: Date)
    requires Valid(day) && Valid(today)
    ensures LabelOf(day, today) == Today <==> day == today
    ensures LabelOf(day, today) == Yesterday <==> NextDay(day) == today
    ensures LabelOf(day, today) == Previous7Days <==>
            Ordinal(today) < Ordinal(day) || 2 <= Ordinal(today) - Ordinal(day) < 7
    ensures LabelOf(day, today) == Previous30Days <==> 7 <= Ordinal(today) - Ordinal(day) < 30
    ensures LabelOf(day, today).Month? <==> Ordinal(today) - Ordinal(day) >= 30
    ensures LabelOf(day, today).Month? ==> LabelOf(day, today) == Month(day.year, day.month)
  {
    OrdinalCountsDays(day);
    OrdinalRespectsOrder(day, today);
    OrdinalRespectsOrder(NextDay(day), today);
  }

  function Labels(all: seq<Conversation>, today: Date): (labels: seq<Label>)
    requires Dated(all) && Valid(today)
    ensures |labels| == |all|
    ensures forall i :: 0 <= i < |all| ==> labels[i] == LabelOf(all[i].day, today)
  {
    if all == [] then [] else [LabelOf(all[0].day, today)] + Labels(all[1..], today)
  }

  /** The labels in the order of their first appearance. */
  function FirstAppearances(labels: seq<Label>): (order: seq<Label>)
    ensures forall l :: l in order <==> l in labels
    ensures forall i, j :: 0 <= i < j < |order| ==> order[i] != order[j]
  {
    if labels == [] then []
    else
      var order, last := FirstAppearances(labels[..|labels| - 1]), labels[|labels| - 1];
      if last in order then order else order + [last]
  }

  /** The items carrying a heading, in order. */
  function Carrying(all: seq<Conversation>, labels: seq<Label>, heading: Label): seq<Conversation>
    requires |labels| == |all|
  {
    if all == [] then []
    else
      var n := |all| - 1;
      Carrying(all[..n], labels[..n], heading) + if labels[n] == heading then [all[n]] else []
  }

  function Buckets(all: seq<Conversation>, labels: seq<Label>, order: seq<Label>): (buckets: seq<Bucket>)
    requires |labels| == |all|
    ensures |buckets| == |order|
    ensures forall i :: 0 <= i < |order| ==> buckets[i] == Bucket(order[i], Carrying(all, labels, order[i]))
  {
    if order == [] then [] else [Bucket(order[0], Carrying(all, labels, order[0]))] + Buckets(all, labels, order[1..])
  }

  function Grouped(all: seq<Conversation>, today: Date): seq<Bucket>
    requires Dated(all) && Valid(today)
  {
    var labels := Labels(all, today);
    Buckets(all, labels, FirstAppearances(labels))
  }

  /** The first conversation with a heading. */
  predicate FirstAt(labels: seq<Label>, i: nat) {
    i < |labels| && labels[i] !in labels[..i]
  }

  predicate ListedBefore(order: seq<Label>, x: Label, y: Label) {
    exists a, b :: 0 <= a < b < |order| && order[a] == x && order[b] == y
  }

  lemma StillBefore(order: seq<Label>, x: Label, y: Label, last: Label)
    requires ListedBefore(order, x, y)
    ensures ListedBefore(order + [last], x, y)
  {
    var a, b :| 0 <= a < b < |order| && order[a] == x && order[b] == y;
    var longer := order + [last];
    assert longer[a] == x && longer[b] == y;
  }

  lemma NewOneLast(order: seq<Label>, x: Label, last: Label)
    requires x in order
    ensures ListedBefore(order + [last], x, last)
  {
    var a :| 0 <= a < |order| && order[a] == x;
    var longer := order + [last];
    assert longer[a] == x && longer[|order|] == last;
  }

  /** Headings are listed as they first appear: those of two buckets first appear in their order. */
  lemma {:induction false} HeadingsInOrder(labels: seq<Label>, i: nat, j: nat)
    requires i < j && FirstAt(labels, i) && FirstAt(labels, j)
    ensures ListedBefore(FirstAppearances(labels), labels[i], labels[j])
  {
    var n := |labels| - 1;
    var order := FirstAppearances(labels[..n]);
    if j < n {
      assert labels[..n][..i] == labels[..i] && labels[..n][..j] == labels[..j];
      HeadingsInOrder(labels[..n], i, j);
      StillBefore(order, labels[i], labels[j], labels[n]);
    } else {
      assert labels[..n][i] == labels[i];
      NewOneLast(order, labels[i], labels[n]);
    }
  }

  /** The items are those of the list at these positions, which are the ones with the heading. */
  predicate AreAt(
    items: seq<Conversation>, all: seq<Conversation>, labels: seq<Label>, heading: Label, at: seq<nat>)
    requires |labels| == |all|
  {
    && |at| == |items|
    && (forall i, j :: 0 <= i < j < |at| ==> at[i] < at[j])
    && (forall i :: 0 <= i < |at| ==> at[i] < |all| && labels[at[i]] == heading && items[i] == all[at[i]])
    && (forall k :: 0 <= k < |all| && labels[k] == heading ==> k in at)
  }

  lemma OneMoreAt(
    items: seq<Conversation>, all: seq<Conversation>, labels: seq<Label>, heading: Label, at: seq<nat>,
    c: Conversation, l: Label)
    requires |labels| == |all| && AreAt(items, all, labels, heading, at)
    ensures l == heading ==> AreAt(items + [c], all + [c], labels + [l], heading, at + [|all|])
    ensures l != heading ==> AreAt(items, all + [c], labels + [l], heading, at)
  {
    var longer := at + [|all|];
    assert longer[|at|] == |all|;
    assert forall k :: k in at ==> k in longer;
  }

  /** A bucket holds exactly the conversations with its heading, in the order of the list. */
  lemma {:induction false} BucketHoldsItsHeading(all: seq<Conversation>, labels: seq<Label>, heading: Label)
    returns (at: seq<nat>)
    requires |labels| == |all|
    ensures AreAt(Carrying(all, labels, heading), all, labels, heading, at)
  {
    if all == [] {
      at := [];
    } else {
      var n := |all| - 1;
      at := BucketHoldsItsHeading(all[..n], labels[..n], heading);
      OneMoreAt(Carrying(all[..n], labels[..n], heading), all[..n], labels[..n], heading, at, all[n], labels[n]);
      assert all == all[..n] + [all[n]] && labels == labels[..n] + [labels[n]];
      if labels[n] == heading {
        at := at + [n];
      }
    }
  }

  /** `group_conversations`: one pass, a list of labels in order of appearance and a dictionary of item lists. */
  method GroupConversations(all: seq<Conversation>, today: Date) returns (buckets: seq<Bucket>)
    requires Dated(all) && Valid(today)
    ensures buckets == Grouped(all, today)
  {
    var order: seq<Label> := [];
    var bucketIndex: map<Label, seq<Conversation>> := map[];
    ghost var labels := Labels(all, today);
    var i := 0;
    while i < |all|
      invariant 0 <= i <= |all|
      invariant order == FirstAppearances(labels[..i])
      invariant Indexed(bucketIndex, order, all[..i], labels[..i])
    {
      var heading := LabelOf(all[i].day, today);
      AppearancesSnoc(labels, i);
      NextConversation(bucketIndex, order, all, labels, i);
      if heading !in bucketIndex {
        bucketIndex := bucketIndex[heading := []];
        order := order + [heading];
      }
      bucketIndex := bucketIndex[heading := bucketIndex[heading] + [all[i]]];
      i := i + 1;
    }
    assert all[..i] == all && labels[..i] == labels;
    buckets := ListBuckets(bucketIndex, order, all, labels);
  }

  method ListBuckets(
    index: map<Label, seq<Conversation>>, order: seq<Label>, ghost all: seq<Conversation>, ghost labels: seq<Label>)
    returns (buckets: seq<Bucket>)
    requires |labels| == |all| && Indexed(index, order, all, labels)
    ensures buckets == Buckets(all, labels, order)
  {
    buckets := seq(|order|, k requires 0 <= k < |order| && order[k] in index => Bucket(order[k], index[order[k]]));
  }

  /** The dictionary holds, for every label that appeared, the items seen so far. */
  ghost predicate Indexed(
    index: map<Label, seq<Conversation>>, order: seq<Label>, all: seq<Conversation>, labels: seq<Label>)
    requires |labels| == |all|
  {
    && (forall l :: l in index <==> l in order)
    && (forall l :: l in order ==> index[l] == Carrying(all, labels, l))
    && (forall l :: l !in order ==> Carrying(all, labels, l) == [])
  }

  lemma AppearancesSnoc(labels: seq<Label>, i: nat)
    requires i < |labels|
    ensures var order := FirstAppearances(labels[..i]);
      FirstAppearances(labels[..i + 1]) == if labels[i] in order then order else order + [labels[i]]
  {
    assert labels[..i + 1][..i] == labels[..i];
  }

  lemma OneMoreConversation(
    index: map<Label, seq<Conversation>>, order: seq<Label>, all: seq<Conversation>, labels: seq<Label>,
    c: Conversation, heading: Label)
    requires |labels| == |all| && Indexed(index, order, all, labels)
    ensures var index' := if heading in index then index else index[heading := []];
      var order' := if heading in index then order else order + [heading];
      Indexed(index'[heading := index'[heading] + [c]], order', all + [c], labels + [heading])
  {
    forall l
      ensures Carrying(all + [c], labels + [heading], l)
           == Carrying(all, labels, l) + if heading == l then [c] else []
    {
      BucketPushed(all, labels, c, heading, l);
    }
  }

  /** One step of the loop of `group_conversations`. */
  lemma NextConversation(
    index: map<Label, seq<Conversation>>, order: seq<Label>, all: seq<Conversation>, labels: seq<Label>, i: nat)
    requires i < |all| == |labels|
    requires Indexed(index, order, all[..i], labels[..i])
    ensures var l := labels[i];
      var index' := if l in index then index else index[l := []];
      var order' := if l in index then order else order + [l];
      Indexed(index'[l := index'[l] + [all[i]]], order', all[..i + 1], labels[..i + 1])
  {
    var init, heads, c, l := all[..i], labels[..i], all[i], labels[i];
    assert all[..i + 1] == init + [c] && labels[..i + 1] == heads + [l];
    OneMoreConversation(index, order, init, heads, c, l);
  }

  function Flatten(buckets: seq<Bucket>): seq<Conversation> {
    if buckets == [] then [] else Flatten(buckets[..|buckets| - 1]) + buckets[|buckets| - 1].items
  }

  // ----- runs: buckets of neighbours -----

  function Push(buckets: seq<Bucket>, c: Conversation, heading: Label): seq<Bucket> {
    var n := |buckets|;
    if n > 0 && buckets[n - 1].heading == heading
    then buckets[..n - 1] + [Bucket(heading, buckets[n - 1].items + [c])]
    else buckets + [Bucket(heading, [c])]
  }

  /** Group neighbours with equal labels. */
  function Runs(all: seq<Conversation>, labels: seq<Label>): seq<Bucket>
    requires |labels| == |all|
  {
    if all == [] then []
    else
      var n := |all| - 1;
      Push(Runs(all[..n], labels[..n]), all[n], labels[n])
  }

  lemma PushFlattens(before: seq<Bucket>, c: Conversation, heading: Label)
    ensures var after := Push(before, c, heading);
      after != [] && after[|after| - 1].heading == heading && Flatten(after) == Flatten(before) + [c]
  {
    var n, after := |before|, Push(before, c, heading);
    if n > 0 && before[n - 1].heading == heading {
      assert after[..n - 1] == before[..n - 1];
    } else {
      assert after[..n] == before;
    }
  }

  lemma {:induction false} RunsFlatten(all: seq<Conversation>, labels: seq<Label>)
    requires |labels| == |all|
    ensures Flatten(Runs(all, labels)) == all
    ensures Runs(all, labels) == [] <==> all == []
    ensures all != [] ==> Runs(all, labels)[|Runs(all, labels)| - 1].heading == labels[|all| - 1]
  {
    if all != [] {
      var n := |all| - 1;
      RunsFlatten(all[..n], labels[..n]);
      PushFlattens(Runs(all[..n], labels[..n]), all[n], labels[n]);
      assert all == all[..n] + [all[n]];
    }
  }

  /** What the client does with the next page: continue the last bucket when the headings match. */
  function Merge(shown: seq<Bucket>, next: seq<Bucket>): seq<Bucket> {
    if shown != [] && next != [] && next[0].heading == shown[|shown| - 1].heading then
      shown[..|shown| - 1] + ([Bucket(next[0].heading, shown[|shown| - 1].items + next[0].items)] + next[1..])
    else shown + next
  }

  /** The bucket that results where two lists meet under one heading. */
  function Joined(a: Bucket, b: Bucket): Bucket {
    Bucket(b.heading, a.items + b.items)
  }

  lemma MergePush(shown: seq<Bucket>, next: seq<Bucket>, c: Conversation, heading: Label)
    requires next != []
    ensures Merge(shown, Push(next, c, heading)) == Push(Merge(shown, next), c, heading)
  {
    if shown == [] || next[0].heading != shown[|shown| - 1].heading {
      AppendPush(shown, next, c, heading);
    } else {
      var init, a := shown[..|shown| - 1], shown[|shown| - 1];
      AppendPush(init, [Joined(a, next[0])] + next[1..], c, heading);
      if |next| == 1 {
        assert a.items + (next[0].items + [c]) == a.items + next[0].items + [c];
      }
      assert Push([Joined(a, next[0])] + next[1..], c, heading)
          == [Joined(a, Push(next, c, heading)[0])] + Push(next, c, heading)[1..];
      assert Merge(shown, next) == init + ([Joined(a, next[0])] + next[1..]);
    }
  }

  lemma AppendPush(a: seq<Bucket>, b: seq<Bucket>, c: Conversation, heading: Label)
    requires b != []
    ensures a + Push(b, c, heading) == Push(a + b, c, heading)
  {
  }

  lemma RunsSnoc(a: seq<Conversation>, la: seq<Label>, c: Conversation, heading: Label)
    requires |la| == |a|
    ensures Runs(a + [c], la + [heading]) == Push(Runs(a, la), c, heading)
  {
    assert (a + [c])[..|a|] == a && (la + [heading])[..|la|] == la;
  }

  /** The runs of two pages, merged, are the runs of both together. */
  predicate RunsMerge(a: seq<Conversation>, la: seq<Label>, b: seq<Conversation>, lb: seq<Label>)
    requires |la| == |a| && |lb| == |b|
  {
    Merge(Runs(a, la), Runs(b, lb)) == Runs(a + b, la + lb)
  }

  lemma MergeRunsSnoc(
    a: seq<Conversation>, la: seq<Label>, b: seq<Conversation>, lb: seq<Label>, c: Conversation, heading: Label)
    requires |la| == |a| && |lb| == |b| && b != []
    requires RunsMerge(a, la, b, lb)
    ensures RunsMerge(a, la, b + [c], lb + [heading])
  {
    assert a + (b + [c]) == (a + b) + [c] && la + (lb + [heading]) == (la + lb) + [heading];
    RunsSnoc(b, lb, c, heading);
    RunsSnoc(a + b, la + lb, c, heading);
    MergePush(Runs(a, la), Runs(b, lb), c, heading);
  }

  lemma LastSplit<T>(a: seq<T>, b: seq<T>)
    requires b != []
    ensures b == b[..|b| - 1] + [b[|b| - 1]]
    ensures a + b == (a + b[..|b| - 1]) + [b[|b| - 1]]
  {
  }

  /** That holds of any two pages. */
  lemma {:induction false} MergeRuns(a: seq<Conversation>, la: seq<Label>, b: seq<Conversation>, lb: seq<Label>)
    requires |la| == |a| && |lb| == |b|
    ensures RunsMerge(a, la, b, lb)
    decreases |b|
  {
    if b == [] {
      assert a + b == a && la + lb == la;
    } else if |b| == 1 {
      assert b == [b[0]] && lb == [lb[0]];
    } else {
      var n := |b| - 1;
      LastSplit(a, b);
      LastSplit(la, lb);
      var init, heads := b[..n], lb[..n];
      MergeRuns(a, la, init, heads);
      MergeRunsSnoc(a, la, init, heads, b[n], lb[n]);
    }
  }

  // ----- when one pass over the list gives the runs -----

  /** No label comes back after another one. */
  ghost predicate Contiguous(labels: seq<Label>) {
    forall i, j, k :: 0 <= i < j < k < |labels| && labels[i] == labels[k] ==> labels[j] == labels[i]
  }

  lemma ContiguousPrefix(labels: seq<Label>, n: nat)
    requires n <= |labels| && Contiguous(labels)
    ensures Contiguous(labels[..n])
  {
  }

  lemma LastAppearance(labels: seq<Label>, n: nat)
    requires |labels| == n + 1
    ensures labels[n] in labels[..n] ==> FirstAppearances(labels) == FirstAppearances(labels[..n])
    ensures labels[n] !in labels[..n] ==> FirstAppearances(labels) == FirstAppearances(labels[..n]) + [labels[n]]
  {
  }

  lemma {:induction false} LastAppearsLast(labels: seq<Label>)
    requires labels != [] && Contiguous(labels)
    ensures var order := FirstAppearances(labels);
      order != [] && order[|order| - 1] == labels[|labels| - 1]
  {
    var n := |labels| - 1;
    LastAppearance(labels, n);
    if labels[n] in labels[..n] {
      ContiguousPrefix(labels, n);
      LastAppearsLast(labels[..n]);
    }
  }

  lemma BucketPushed(all: seq<Conversation>, labels: seq<Label>, c: Conversation, heading: Label, l: Label)
    requires |labels| == |all|
    ensures Carrying(all + [c], labels + [heading], l) == Carrying(all, labels, l) + if heading == l then [c] else []
  {
    assert (all + [c])[..|all|] == all && (labels + [heading])[..|all|] == labels;
  }

  /** One more label: it is the last one of `order` again, or it opens a new bucket. */
  predicate Extended(order: seq<Label>, heading: Label, more: seq<Label>) {
    && (forall i :: 0 <= i < |order| - 1 ==> order[i] != heading)
    && more == if order != [] && order[|order| - 1] == heading then order else order + [heading]
  }

  lemma OneMoreBucket(all: seq<Conversation>, labels: seq<Label>, order: seq<Label>, l: Label)
    requires |labels| == |all|
    ensures Buckets(all, labels, order + [l]) == Buckets(all, labels, order) + [Bucket(l, Carrying(all, labels, l))]
  {
  }

  lemma OtherBucketsStay(
    all: seq<Conversation>, labels: seq<Label>, c: Conversation, heading: Label, order: seq<Label>)
    requires |labels| == |all| && forall i :: 0 <= i < |order| ==> order[i] != heading
    ensures Buckets(all + [c], labels + [heading], order) == Buckets(all, labels, order)
  {
    var before, after := Buckets(all, labels, order), Buckets(all + [c], labels + [heading], order);
    forall i | 0 <= i < |order|
      ensures after[i] == before[i]
    {
      BucketPushed(all, labels, c, heading, order[i]);
    }
  }

  lemma JoinsLast(all: seq<Conversation>, labels: seq<Label>, c: Conversation, heading: Label, rest: seq<Label>)
    requires |labels| == |all| && forall i :: 0 <= i < |rest| ==> rest[i] != heading
    ensures Buckets(all + [c], labels + [heading], rest + [heading])
         == Push(Buckets(all, labels, rest + [heading]), c, heading)
  {
    BucketPushed(all, labels, c, heading, heading);
    OtherBucketsStay(all, labels, c, heading, rest);
    OneMoreBucket(all, labels, rest, heading);
    OneMoreBucket(all + [c], labels + [heading], rest, heading);
  }

  lemma OpensNew(all: seq<Conversation>, labels: seq<Label>, c: Conversation, heading: Label, order: seq<Label>)
    requires |labels| == |all| && forall i :: 0 <= i < |order| ==> order[i] != heading
    requires Carrying(all, labels, heading) == []
    ensures Buckets(all + [c], labels + [heading], order + [heading]) == Push(Buckets(all, labels, order), c, heading)
  {
    BucketPushed(all, labels, c, heading, heading);
    OtherBucketsStay(all, labels, c, heading, order);
    OneMoreBucket(all + [c], labels + [heading], order, heading);
    assert [] + [c] == [c];
  }

  /** One more conversation on a grouped list: it joins the last bucket or opens a new one. */
  lemma GroupsPush(
    all: seq<Conversation>, labels: seq<Label>, c: Conversation, heading: Label, order: seq<Label>, more: seq<Label>)
    requires |labels| == |all| && Extended(order, heading, more)
    requires more != order ==> Carrying(all, labels, heading) == []
    ensures Buckets(all + [c], labels + [heading], more) == Push(Buckets(all, labels, order), c, heading)
  {
    if order != [] && order[|order| - 1] == heading {
      assert order == order[..|order| - 1] + [heading];
      JoinsLast(all, labels, c, heading, order[..|order| - 1]);
    } else {
      OpensNew(all, labels, c, heading, order);
    }
  }

  lemma AppearancesOfContiguous(labels: seq<Label>, n: nat)
    requires |labels| == n + 1 && Contiguous(labels)
    ensures Extended(FirstAppearances(labels[..n]), labels[n], FirstAppearances(labels))
    ensures FirstAppearances(labels) != FirstAppearances(labels[..n]) ==> labels[n] !in labels[..n]
  {
    LastAppearance(labels, n);
    if labels[n] in labels[..n] {
      LastAppearsLast(labels);
    }
  }

  lemma {:induction false} ContiguousGroupsAreRuns(all: seq<Conversation>, labels: seq<Label>)
    requires |labels| == |all| && Contiguous(labels)
    ensures Buckets(all, labels, FirstAppearances(labels)) == Runs(all, labels)
  {
    if all != [] {
      var n := |all| - 1;
      var init, heads, c, heading := all[..n], labels[..n], all[n], labels[n];
      AppearancesOfContiguous(labels, n);
      ContiguousPrefix(labels, n);
      ContiguousGroupsAreRuns(init, heads);
      LastSplit(init, all);
      LastSplit(heads, labels);
      if heading !in heads {
        NothingCarried(init, heads, heading);
      }
      GroupsPush(init, heads, c, heading, FirstAppearances(heads), FirstAppearances(labels));
      RunsSnoc(init, heads, c, heading);
    }
  }

  lemma {:induction false} NothingCarried(all: seq<Conversation>, labels: seq<Label>, l: Label)
    requires |labels| == |all| && l !in labels
    ensures Carrying(all, labels, l) == []
  {
    if all != [] {
      NothingCarried(all[..|all| - 1], labels[..|all| - 1], l);
    }
  }

  // ----- and conversely -----

  function Repeat(l: Label, n: nat): (r: seq<Label>)
    ensures |r| == n && forall i :: 0 <= i < n ==> r[i] == l
  {
    if n == 0 then [] else Repeat(l, n - 1) + [l]
  }

  /** The heading of every item, in display order. */
  function Headings(buckets: seq<Bucket>): seq<Label> {
    if buckets == [] then []
    else
      var last := buckets[|buckets| - 1];
      Headings(buckets[..|buckets| - 1]) + Repeat(last.heading, |last.items|)
  }

  lemma AppendFresh(labels: seq<Label>, l: Label, n: nat)
    requires Contiguous(labels) && l !in labels
    ensures Contiguous(labels + Repeat(l, n))
  {
    var all := labels + Repeat(l, n);
    forall i, j, k | 0 <= i < j < k < |all| && all[i] == all[k]
      ensures all[j] == all[i]
    {
      if k >= |labels| {
        assert all[k] == l;
        assert i >= |labels|;
      }
    }
  }

  lemma {:induction false} HeadingsContiguous(buckets: seq<Bucket>)
    requires forall i, j :: 0 <= i < j < |buckets| ==> buckets[i].heading != buckets[j].heading
    ensures Contiguous(Headings(buckets))
    ensures forall l :: l in Headings(buckets) ==> exists i :: 0 <= i < |buckets| && buckets[i].heading == l
  {
    if buckets != [] {
      var init, last := buckets[..|buckets| - 1], buckets[|buckets| - 1];
      HeadingsContiguous(init);
      AppendFresh(Headings(init), last.heading, |last.items|);
      forall l | l in Headings(buckets)
        ensures exists i :: 0 <= i < |buckets| && buckets[i].heading == l
      {
        if l in Headings(init) {
          var i :| 0 <= i < |init| && init[i].heading == l;
          assert buckets[i].heading == l;
        } else {
          assert last.heading == l;
        }
      }
    }
  }

  lemma LabelsPrefix(all: seq<Conversation>, today: Date, n: nat)
    requires Dated(all) && Valid(today) && n <= |all|
    ensures Dated(all[..n]) && Labels(all[..n], today) == Labels(all, today)[..n]
  {
  }

  lemma LabelsSnoc(all: seq<Conversation>, c: Conversation, today: Date)
    requires Dated(all) && Valid(c.day) && Valid(today)
    ensures Dated(all + [c]) && Labels(all + [c], today) == Labels(all, today) + [LabelOf(c.day, today)]
  {
    assert (all + [c])[..|all|] == all;
  }

  lemma OneMoreCarried(before: seq<Conversation>, c: Conversation, today: Date, l: Label)
    requires Dated(before) && Valid(c.day) && Valid(today) && LabelOf(c.day, today) == l
    requires Labels(before, today) == Repeat(l, |before|)
    ensures Dated(before + [c]) && Labels(before + [c], today) == Repeat(l, |before + [c]|)
  {
    LabelsSnoc(before, c, today);
  }

  lemma CarryingStep(all: seq<Conversation>, labels: seq<Label>, l: Label)
    requires |labels| == |all| && all != []
    ensures var n := |all| - 1;
      var before := Carrying(all[..n], labels[..n], l);
      Carrying(all, labels, l) == if labels[n] == l then before + [all[n]] else before
  {
  }

  lemma {:induction false} CarryingLabels(all: seq<Conversation>, labels: seq<Label>, today: Date, l: Label)
    requires Dated(all) && Valid(today) && labels == Labels(all, today)
    ensures var items := Carrying(all, labels, l);
      Dated(items) && Labels(items, today) == Repeat(l, |items|)
  {
    if all != [] {
      var n := |all| - 1;
      var init, heads := all[..n], labels[..n];
      LabelsPrefix(all, today, n);
      CarryingLabels(init, heads, today, l);
      CarryingStep(all, labels, l);
      if labels[n] == l {
        OneMoreCarried(Carrying(init, heads, l), all[n], today, l);
      }
    }
  }

  lemma OneMoreFlattened(init: seq<Bucket>, last: Bucket, today: Date)
    requires Valid(today) && Dated(last.items) && Labels(last.items, today) == Repeat(last.heading, |last.items|)
    requires Dated(Flatten(init)) && Labels(Flatten(init), today) == Headings(init)
    ensures var buckets := init + [last];
      Dated(Flatten(buckets)) && Labels(Flatten(buckets), today) == Headings(buckets)
  {
    assert (init + [last])[..|init|] == init;
  }

  lemma {:induction false} FlattenLabels(buckets: seq<Bucket>, today: Date)
    requires Valid(today)
    requires forall i :: 0 <= i < |buckets| ==>
               var b := buckets[i];
               Dated(b.items) && Labels(b.items, today) == Repeat(b.heading, |b.items|)
    ensures Dated(Flatten(buckets)) && Labels(Flatten(buckets), today) == Headings(buckets)
  {
    if buckets != [] {
      var init, last := buckets[..|buckets| - 1], buckets[|buckets| - 1];
      FlattenLabels(init, today);
      OneMoreFlattened(init, last, today);
      assert buckets == init + [last];
    }
  }

  lemma HeadingsOfGroups(all: seq<Conversation>, today: Date)
    requires Dated(all) && Valid(today)
    ensures var read := Flatten(Grouped(all, today));
      Dated(read) && Contiguous(Labels(read, today))
  {
    var labels := Labels(all, today);
    var buckets := Grouped(all, today);
    forall i | 0 <= i < |buckets|
      ensures Dated(buckets[i].items)
      ensures Labels(buckets[i].items, today) == Repeat(buckets[i].heading, |buckets[i].items|)
    {
      CarryingLabels(all, labels, today, buckets[i].heading);
    }
    FlattenLabels(buckets, today);
    HeadingsContiguous(buckets);
  }

  /** The buckets, read from top to bottom, are the input list exactly when no label comes back. */
  lemma GroupsFlattenExactlyWhenContiguous(all: seq<Conversation>, today: Date)
    requires Dated(all) && Valid(today)
    ensures Flatten(Grouped(all, today)) == all <==> Contiguous(Labels(all, today))
  {
    if Contiguous(Labels(all, today)) {
      ContiguousGroupsAreRuns(all, Labels(all, today));
      RunsFlatten(all, Labels(all, today));
    } else {
      HeadingsOfGroups(all, today);
    }
  }

  // ----- newest first -----

  predicate NewestFirst(all: seq<Conversation>) {
    Dated(all) && forall i, j :: 0 <= i < j < |all| ==> Ordinal(all[j].day) <= Ordinal(all[i].day)
  }

  /** A date after today, one of today or yesterday, and one of two to six days ago: the first and the last share the
      heading "Previous 7 Days". */
  ghost predicate FutureSandwich(all: seq<Conversation>, today: Date)
    requires Dated(all) && Valid(today)
  {
    var t := Ordinal(today);
    && (exists i :: 0 <= i < |all| && Ordinal(all[i].day) > t)
    && (exists j :: 0 <= j < |all| && t - 1 <= Ordinal(all[j].day) <= t)
    && (exists k :: 0 <= k < |all| && t - 7 < Ordinal(all[k].day) < t - 1)
  }

  lemma BetweenSameLabels(a: Date, b: Date, c: Date, today: Date)
    requires Valid(a) && Valid(b) && Valid(c) && Valid(today)
    requires Ordinal(c) <= Ordinal(b) <= Ordinal(a)
    requires LabelOf(a, today) == LabelOf(c, today)
    ensures LabelOf(b, today) == LabelOf(a, today)
         || (Ordinal(a) > Ordinal(today) && Ordinal(today) - 1 <= Ordinal(b) <= Ordinal(today)
             && Ordinal(today) - 7 < Ordinal(c) < Ordinal(today) - 1)
  {
    OrdinalRespectsOrder(c, b);
    OrdinalRespectsOrder(b, a);
  }

  lemma {:induction false} SandwichBreaks(all: seq<Conversation>, today: Date, i: nat, j: nat, k: nat)
    requires NewestFirst(all) && Valid(today) && i < |all| && j < |all| && k < |all|
    requires Ordinal(all[i].day) > Ordinal(today)
    requires Ordinal(today) - 1 <= Ordinal(all[j].day) <= Ordinal(today)
    requires Ordinal(today) - 7 < Ordinal(all[k].day) < Ordinal(today) - 1
    ensures !Contiguous(Labels(all, today))
  {
    var labels := Labels(all, today);
    assert i < j < k;
    assert labels[i] == labels[k] == Previous7Days && labels[j] != Previous7Days;
  }

  lemma NoSandwichStaysTogether(all: seq<Conversation>, today: Date)
    requires NewestFirst(all) && Valid(today) && !FutureSandwich(all, today)
    ensures Contiguous(Labels(all, today))
  {
    var labels := Labels(all, today);
    forall i, j, k | 0 <= i < j < k < |labels| && labels[i] == labels[k]
      ensures labels[j] == labels[i]
    {
      BetweenSameLabels(all[i].day, all[j].day, all[k].day, today);
    }
  }

  /** For a newest-first list the headings stay together exactly when no date after today is pushed into
      "Previous 7 Days" across today's and yesterday's conversations. */
  lemma NewestFirstContiguousIff(all: seq<Conversation>, today: Date)
    requires NewestFirst(all) && Valid(today)
    ensures Contiguous(Labels(all, today)) <==> !FutureSandwich(all, today)
  {
    if FutureSandwich(all, today) {
      var t := Ordinal(today);
      var i :| 0 <= i < |all| && Ordinal(all[i].day) > t;
      var j :| 0 <= j < |all| && t - 1 <= Ordinal(all[j].day) <= t;
      var k :| 0 <= k < |all| && t - 7 < Ordinal(all[k].day) < t - 1;
      SandwichBreaks(all, today, i, j, k);
    } else {
      NoSandwichStaysTogether(all, today);
    }
  }

  // ----- pages and buckets together -----

  /** The list a client builds: each page is grouped on its own and merged into what is shown. */
  function ShowPages(shown: seq<Bucket>, pages: seq<seq<Conversation>>, today: Date): seq<Bucket>
    requires Dated(Concat(pages)) && Valid(today)
    decreases |pages|
  {
    if pages == [] then shown
    else
      DatedPages(pages);
      ShowPages(Merge(shown, Grouped(pages[0], today)), pages[1..], today)
  }

  lemma DatedPages(pages: seq<seq<Conversation>>)
    requires pages != [] && Dated(Concat(pages))
    ensures Dated(pages[0]) && Dated(Concat(pages[1..]))
  {
    var rest := Concat(pages[1..]);
    assert forall i :: 0 <= i < |pages[0]| ==> pages[0][i] == Concat(pages)[i];
    assert forall i :: 0 <= i < |rest| ==> rest[i] == Concat(pages)[|pages[0]| + i];
  }

  lemma ContiguousPart(a: seq<Label>, b: seq<Label>, c: seq<Label>)
    requires Contiguous(a + b + c)
    ensures Contiguous(b)
  {
    var all := a + b + c;
    assert forall i :: 0 <= i < |b| ==> b[i] == all[|a| + i];
  }

  lemma LabelsConcat(a: seq<Conversation>, b: seq<Conversation>, today: Date)
    requires Dated(a) && Dated(b) && Valid(today)
    ensures Dated(a + b) && Labels(a + b, today) == Labels(a, today) + Labels(b, today)
  {
  }

  /** Grouping one more page and merging it onto the runs shown gives the runs of both. */
  predicate PageMerges(a: seq<Conversation>, page: seq<Conversation>, today: Date)
    requires Dated(a) && Dated(page) && Valid(today)
  {
    var both := a + page;
    Merge(Runs(a, Labels(a, today)), Grouped(page, today)) == Runs(both, Labels(both, today))
  }

  lemma ShowOnePage(a: seq<Conversation>, page: seq<Conversation>, today: Date)
    requires Dated(a) && Dated(page) && Valid(today) && Contiguous(Labels(page, today))
    ensures PageMerges(a, page, today)
  {
    ContiguousGroupsAreRuns(page, Labels(page, today));
    MergeRuns(a, Labels(a, today), page, Labels(page, today));
    LabelsConcat(a, page, today);
  }

  lemma {:induction false} ShowPagesIsRuns(a: seq<Conversation>, pages: seq<seq<Conversation>>, today: Date)
    requires Dated(a) && Dated(Concat(pages)) && Valid(today)
    requires Dated(a + Concat(pages)) && Contiguous(Labels(a + Concat(pages), today))
    ensures ShowPages(Runs(a, Labels(a, today)), pages, today)
         == Runs(a + Concat(pages), Labels(a + Concat(pages), today))
    decreases |pages|
  {
    if pages == [] {
      assert a + [] == a;
    } else {
      DatedPages(pages);
      var page, rest := pages[0], Concat(pages[1..]);
      assert a + Concat(pages) == a + page + rest;
      LabelsConcat(a, page, today);
      LabelsConcat(a + page, rest, today);
      ContiguousPart(Labels(a, today), Labels(page, today), Labels(rest, today));
      ShowOnePage(a, page, today);
      ShowPagesIsRuns(a + page, pages[1..], today);
    }
  }

  lemma ShowFromNothing(pages: seq<seq<Conversation>>, today: Date)
    requires Dated(Concat(pages)) && Valid(today) && Contiguous(Labels(Concat(pages), today))
    ensures ShowPages([], pages, today) == Runs(Concat(pages), Labels(Concat(pages), today))
  {
    var none: seq<Conversation> := [];
    assert none + Concat(pages) == Concat(pages);
    assert Runs(none, Labels(none, today)) == [];
    ShowPagesIsRuns(none, pages, today);
  }

  /** Unless a later date splits a heading, loading every page and merging headings shows exactly what grouping the
      whole list at once would show; and reading that from top to bottom gives the list back exactly then. */
  lemma LoadingMoreShowsTheWholeList(all: seq<Conversation>, today: Date)
    requires NewestFirst(all) && Valid(today)
    ensures Dated(Concat(Slices(all)))
    ensures !FutureSandwich(all, today) ==> ShowPages([], Slices(all), today) == Grouped(all, today)
    ensures Flatten(Grouped(all, today)) == all <==> !FutureSandwich(all, today)
  {
    PagesCoverTheList(all);
    NewestFirstContiguousIff(all, today);
    GroupsFlattenExactlyWhenContiguous(all, today);
    if !FutureSandwich(all, today) {
      ContiguousGroupsAreRuns(all, Labels(all, today));
      ShowFromNothing(Slices(all), today);
    }
  }

  // ----- the list as the database gives it -----

  /** A later time is never an earlier day: `day` is the local date of `updatedAt`. */
  predicate DaysFollowTimes(all: seq<Conversation>)
    requires Dated(all)
  {
    forall i, j :: 0 <= i < |all| && 0 <= j < |all| && all[j].updatedAt <= all[i].updatedAt ==>
                     Ordinal(all[j].day) <= Ordinal(all[i].day)
  }

  lemma ListingIsNewestFirst(all: seq<Conversation>)
    requires Listing(all) && Dated(all) && DaysFollowTimes(all)
    ensures NewestFirst(all)
  {
    forall i, j | 0 <= i < j < |all|
      ensures Ordinal(all[j].day) <= Ordinal(all[i].day)
    {
      assert Newer(all[i], all[j]);
    }
  }

  /** The whole of "load more" on the list the database gives: the pages a client gets by following the cursor, each
      grouped on its own and merged, show the grouping of the whole list unless a later date splits a heading; and the
      pages make up the list in any case. */
  method LoadEverything(all: seq<Conversation>, today: Date) returns (pages: seq<seq<Conversation>>)
    requires Listing(all) && Dated(all) && DaysFollowTimes(all) && Valid(today)
    ensures Concat(pages) == all
    ensures !FutureSandwich(all, today) ==> ShowPages([], pages, today) == Grouped(all, today)
    ensures Flatten(Grouped(all, today)) == all <==> !FutureSandwich(all, today)
  {
    ListingIsNewestFirst(all);
    LoadingMoreShowsTheWholeList(all, today);
    PagesCoverTheList(all);
    pages := FollowCursor(all);
  }
}
