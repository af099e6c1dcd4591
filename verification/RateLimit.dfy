/** The fixed-window limiter in its two forms (accounts/rate_limit.py): the shared cache, whose entries expire, and the
    bounded per-process table used while the cache is down, which prunes and evicts. Time is the value the clock gives
    to a call; one call is one atomic step. */
module RateLimit {
  import opened Wrappers

  const LOCAL_MAX_KEYS := 20000
  const EVICTED_AT_ONCE := 2000

  type Key = string

  datatype Entry = Entry(count: nat, end: int)

  type Table = map<Key, Entry>

  datatype Call = Call(key: Key, limit: nat, window: nat, now: int)

  /** The entry a call sees: an expired one is as good as absent. */
  function LiveEntry(t: Table, key: Key, now: int): Option<Entry> {
    if key in t && t[key].end > now then Some(t[key]) else None
  }

  /** One fixed window: the entry after a call, and whether the call is refused. A refused call is not counted. */
  function Hit(e: Option<Entry>, c: Call): (Entry, bool) {
    match e
    case None => (Entry(1, c.now + c.window), false)
    case Some(entry) => if entry.count >= c.limit then (entry, true) else (entry.(count := entry.count + 1), false)
  }

  /** `is_rate_limited` on the shared cache. */
  function CacheStep(t: Table, c: Call): (Table, bool) {
    var (entry, limited) := Hit(LiveEntry(t, c.key, c.now), c);
    (t[c.key := entry], limited)
  }

  function Prune(t: Table, now: int): Table {
    map key | key in t && t[key].end > now :: t[key]
  }

  /** The oldest `n` windows; among equal ends any choice will do. */
  ghost predicate IsOldest(t: Table, keys: set<Key>, n: nat) {
    && keys <= t.Keys && |keys| == n
    && forall a, b :: a in keys && b in t.Keys - keys ==> t[a].end <= t[b].end
  }

  function Pruned(t: Table, now: int): Table {
    if |t| >= LOCAL_MAX_KEYS then Prune(t, now) else t
  }

  /** What may be evicted before a call is served: nothing, unless the table is still full after pruning. */
  ghost predicate MayEvict(t: Table, now: int, evicted: set<Key>) {
    var pruned := Pruned(t, now);
    if |pruned| >= LOCAL_MAX_KEYS then IsOldest(pruned, evicted, EVICTED_AT_ONCE) else evicted == {}
  }

  /** `_local_is_limited`, given the keys it evicts. */
  function LocalStep(t: Table, c: Call, evicted: set<Key>): (Table, bool) {
    var kept := Pruned(t, c.now) - evicted;
    var (entry, limited) := Hit(LiveEntry(kept, c.key, c.now), c);
    (kept[c.key := entry], limited)
  }

  lemma OneMoreEvicted(t: Table, evicted: set<Key>, oldest: Key)
    requires IsOldest(t, evicted, |evicted|) && oldest in t.Keys - evicted
    requires forall key :: key in t.Keys - evicted ==> t[oldest].end <= t[key].end
    ensures IsOldest(t, evicted + {oldest}, |evicted| + 1)
    ensures (t - evicted) - {oldest} == t - (evicted + {oldest})
  {
  }

  class LocalLimiter {
    var counters: Table

    constructor ()
      ensures counters == map[]
    {
      counters := map[];
    }

    /** Drop the windows that end first. */
    method EvictOldest() returns (evicted: set<Key>)
      requires |counters| >= EVICTED_AT_ONCE
      modifies this
      ensures IsOldest(old(counters), evicted, EVICTED_AT_ONCE)
      ensures counters == old(counters) - evicted
      ensures forall key, kept :: key in evicted && kept in counters ==> old(counters)[key].end <= counters[kept].end
    {
      evicted := {};
      while |evicted| < EVICTED_AT_ONCE
        invariant |evicted| <= EVICTED_AT_ONCE
        invariant IsOldest(old(counters), evicted, |evicted|)
        invariant counters == old(counters) - evicted
      {
        assert counters.Keys == old(counters).Keys - evicted;
        assert |counters.Keys| == |old(counters).Keys| - |evicted|;
        var oldest := EarliestEnd(counters);
        OneMoreEvicted(old(counters), evicted, oldest);
        counters := counters - {oldest};
        evicted := evicted + {oldest};
      }
    }

    /** Prune, then evict, when the table is full. */
    method MakeRoom(now: int) returns (ghost evicted: set<Key>)
      modifies this
      ensures MayEvict(old(counters), now, evicted)
      ensures counters == Pruned(old(counters), now) - evicted
    {
      evicted := {};
      if |counters| >= LOCAL_MAX_KEYS {
        counters := Prune(counters, now);
        if |counters| >= LOCAL_MAX_KEYS {
          evicted := EvictOldest();
        }
      }
    }

    /** `_local_is_limited`. */
    method IsLimited(c: Call) returns (limited: bool, ghost evicted: set<Key>)
      modifies this
      ensures MayEvict(old(counters), c.now, evicted)
      ensures (counters, limited) == LocalStep(old(counters), c, evicted)
    {
      evicted := MakeRoom(c.now);
      ghost var kept := counters;
      if c.key !in counters || counters[c.key].end <= c.now {
        counters := counters[c.key := Entry(1, c.now + c.window)];
        return false, evicted;
      }
      var entry := counters[c.key];
      if entry.count >= c.limit {
        assert counters == kept[c.key := entry];
        return true, evicted;
      }
      counters := counters[c.key := entry.(count := entry.count + 1)];
      return false, evicted;
    }
  }

  /** `is_over_limit` while the cache is down: a read that counts nothing. */
  predicate OverLimit(t: Table, key: Key, limit: nat, now: int) {
    key in t && t[key].end > now && t[key].count >= limit
  }

  /** A key whose window ends first. */
  method EarliestEnd(t: Table) returns (oldest: Key)
    requires t != map[]
    ensures oldest in t && forall key :: key in t ==> t[oldest].end <= t[key].end
  {
    var rest := t.Keys;
    assert rest != {};
    oldest :| oldest in rest;
    rest := rest - {oldest};
    while rest != {}
      invariant rest <= t.Keys && oldest in t
      invariant forall key :: key in t.Keys - rest ==> t[oldest].end <= t[key].end
      decreases |rest|
    {
      var key :| key in rest;
      if t[key].end < t[oldest].end {
        oldest := key;
      }
      rest := rest - {key};
    }
  }

  // ----- every trace of calls -----

  /** A call together with what the local table evicts for it. */
  datatype Event = Event(call: Call, evicted: set<Key>)

  function Local(trace: seq<Event>): Table {
    if trace == [] then map[]
    else
      var e := trace[|trace| - 1];
      LocalStep(Local(trace[..|trace| - 1]), e.call, e.evicted).0
  }

  function Cache(trace: seq<Event>): Table {
    if trace == [] then map[] else CacheStep(Cache(trace[..|trace| - 1]), trace[|trace| - 1].call).0
  }

  /** Did the local limiter refuse the i-th call? */
  predicate LocalRefused(trace: seq<Event>, i: nat)
    requires i < |trace|
  {
    LocalStep(Local(trace[..i]), trace[i].call, trace[i].evicted).1
  }

  predicate CacheRefused(trace: seq<Event>, i: nat)
    requires i < |trace|
  {
    CacheStep(Cache(trace[..i]), trace[i].call).1
  }

  /** Time does not go back. */
  predicate InTime(trace: seq<Event>) {
    forall i, k :: 0 <= i < k < |trace| ==> trace[i].call.now <= trace[k].call.now
  }

  /** Time does not go back, and evictions happen only as the code makes them. */
  ghost predicate Possible(trace: seq<Event>) {
    && InTime(trace)
    && (forall i :: 0 <= i < |trace| ==> MayEvict(Local(trace[..i]), trace[i].call.now, trace[i].evicted))
  }

  predicate NoEviction(trace: seq<Event>) {
    forall i :: 0 <= i < |trace| ==> trace[i].evicted == {}
  }

  /** Every call of a key uses the same limit and window. */
  predicate Uniform(trace: seq<Event>, key: Key, limit: nat, window: nat) {
    forall i :: 0 <= i < |trace| && trace[i].call.key == key ==>
                  trace[i].call.limit == limit && trace[i].call.window == window
  }

  lemma PossiblePrefix(trace: seq<Event>, n: nat)
    requires Possible(trace) && n <= |trace|
    ensures Possible(trace[..n])
  {
    assert forall i :: 0 <= i < n ==> trace[..n][..i] == trace[..i];
  }

  // ----- the table stays bounded -----

  lemma SmallerTable(t: Table, u: Table)
    requires u.Keys <= t.Keys
    ensures |u| <= |t|
  {
    SubsetSize(u.Keys, t.Keys);
  }

  lemma {:induction false} SubsetSize(a: set<Key>, b: set<Key>)
    requires a <= b
    ensures |a| <= |b|
    decreases |a|
  {
    if a != {} {
      var x :| x in a;
      SubsetSize(a - {x}, b - {x});
    }
  }

  /** The local table never holds more than 20000 keys. */
  lemma {:induction false} LocalTableBounded(trace: seq<Event>)
    requires Possible(trace)
    ensures |Local(trace)| <= 20000
  {
    if trace != [] {
      var n := |trace| - 1;
      PossiblePrefix(trace, n);
      LocalTableBounded(trace[..n]);
      var t, c, evicted := Local(trace[..n]), trace[n].call, trace[n].evicted;
      var pruned := Pruned(t, c.now);
      SmallerTable(t, pruned);
      var kept := pruned - evicted;
      assert kept.Keys == pruned.Keys - evicted;
      assert |pruned| >= LOCAL_MAX_KEYS ==> |kept.Keys| == |pruned.Keys| - EVICTED_AT_ONCE;
      assert Local(trace).Keys == kept.Keys + {c.key};
    }
  }

  // ----- without eviction the two limiters are the same -----

  /** Two tables that show every caller the same live entries. */
  ghost predicate Agree(t: Table, u: Table, now: int) {
    forall key :: LiveEntry(t, key, now) == LiveEntry(u, key, now)
  }

  lemma AgreeLater(t: Table, u: Table, now: int, later: int)
    requires Agree(t, u, now) && now <= later
    ensures Agree(t, u, later)
  {
    forall key
      ensures LiveEntry(t, key, later) == LiveEntry(u, key, later)
    {
      assert LiveEntry(t, key, now) == LiveEntry(u, key, now);
    }
  }

  /** Pruning is invisible: no caller, now or later, sees a different entry. */
  lemma PruningIsInvisible(t: Table, now: int, later: int)
    requires now <= later
    ensures Agree(Prune(t, now), t, later)
  {
  }

  lemma AgreePruned(t: Table, u: Table, now: int)
    requires Agree(t, u, now)
    ensures Agree(Pruned(t, now) - {}, u, now)
  {
    assert Pruned(t, now) - {} == Pruned(t, now);
    forall key
      ensures LiveEntry(Pruned(t, now), key, now) == LiveEntry(u, key, now)
    {
      assert LiveEntry(t, key, now) == LiveEntry(u, key, now);
    }
  }

  lemma AgreePut(t: Table, u: Table, key: Key, entry: Entry, now: int)
    requires Agree(t, u, now)
    ensures Agree(t[key := entry], u[key := entry], now)
  {
    var t', u' := t[key := entry], u[key := entry];
    forall k
      ensures LiveEntry(t', k, now) == LiveEntry(u', k, now)
    {
      assert LiveEntry(t, k, now) == LiveEntry(u, k, now);
    }
  }

  /** A call served from agreeing tables is answered alike and leaves agreeing tables. */
  lemma AgreeStep(t: Table, u: Table, c: Call)
    requires Agree(t, u, c.now)
    ensures LocalStep(t, c, {}).1 == CacheStep(u, c).1
    ensures Agree(LocalStep(t, c, {}).0, CacheStep(u, c).0, c.now)
  {
    var kept := Pruned(t, c.now) - {};
    AgreePruned(t, u, c.now);
    assert LiveEntry(kept, c.key, c.now) == LiveEntry(u, c.key, c.now);
    AgreePut(kept, u, c.key, Hit(LiveEntry(u, c.key, c.now), c).0, c.now);
  }

  lemma {:induction false} SameWithoutEviction(trace: seq<Event>, now: int)
    requires Possible(trace) && NoEviction(trace)
    requires trace != [] ==> trace[|trace| - 1].call.now <= now
    ensures Agree(Local(trace), Cache(trace), now)
  {
    if trace != [] {
      var n := |trace| - 1;
      var c := trace[n].call;
      PossiblePrefix(trace, n);
      SameWithoutEviction(trace[..n], c.now);
      AgreeStep(Local(trace[..n]), Cache(trace[..n]), c);
      AgreeLater(Local(trace), Cache(trace), c.now, now);
    }
  }

  /** As long as no live window is evicted, the local limiter answers every call as the shared cache would. */
  lemma LocalAnswersLikeCache(trace: seq<Event>, i: nat)
    requires Possible(trace) && NoEviction(trace) && i < |trace|
    ensures LocalRefused(trace, i) <==> CacheRefused(trace, i)
  {
    PossiblePrefix(trace, i);
    SameWithoutEviction(trace[..i], trace[i].call.now);
    AgreeStep(Local(trace[..i]), Cache(trace[..i]), trace[i].call);
  }

  // ----- what a refusal means -----

  /** How many calls of a key were allowed, from the j-th call on. */
  function Allowed(trace: seq<Event>, key: Key, j: nat): nat {
    if |trace| <= j then 0
    else
      var n := |trace| - 1;
      Allowed(trace[..n], key, j) + if trace[n].call.key == key && !LocalRefused(trace, n) then 1 else 0
  }

  function AllowedByCache(trace: seq<Event>, key: Key, j: nat): nat {
    if |trace| <= j then 0
    else
      var n := |trace| - 1;
      AllowedByCache(trace[..n], key, j) + if trace[n].call.key == key && !CacheRefused(trace, n) then 1 else 0
  }

  /** The j-th call opened the window an entry stands for, and the entry counts the calls allowed since. */
  ghost predicate OpenedAt(trace: seq<Event>, key: Key, entry: Entry, j: nat) {
    && j < |trace| && trace[j].call.key == key
    && entry.end == trace[j].call.now + trace[j].call.window
    && entry.count == Allowed(trace, key, j)
  }

  /** Where an entry of a key comes from: this call opened its window, or was counted in it, or left it alone. */
  lemma EntryAfter(trace: seq<Event>, n: nat, key: Key)
    requires |trace| == n + 1 && key in Local(trace)
    ensures var t, c, entry := Local(trace[..n]), trace[n].call, Local(trace)[key];
      || (c.key == key && !LocalRefused(trace, n) && entry == Entry(1, c.now + c.window))
      || (key in t && c.key == key && !LocalRefused(trace, n) && t[key].count < c.limit
          && entry == t[key].(count := t[key].count + 1))
      || (key in t && (c.key != key || LocalRefused(trace, n)) && entry == t[key])
  {
  }

  lemma OpenedCarries(trace: seq<Event>, n: nat, key: Key, j: nat)
    requires |trace| == n + 1 && key in Local(trace) && key in Local(trace[..n])
    requires OpenedAt(trace[..n], key, Local(trace[..n])[key], j)
    ensures Local(trace)[key] == Entry(1, trace[n].call.now + trace[n].call.window)
            || OpenedAt(trace, key, Local(trace)[key], j)
  {
    EntryAfter(trace, n, key);
  }

  predicate Opens(trace: seq<Event>, n: nat, key: Key)
    requires n < |trace| && key in Local(trace)
  {
    && trace[n].call.key == key && !LocalRefused(trace, n)
    && Local(trace)[key] == Entry(1, trace[n].call.now + trace[n].call.window)
  }

  lemma CarriesWithinLimit(trace: seq<Event>, n: nat, key: Key, limit: nat)
    requires |trace| == n + 1 && key in Local(trace) && !Opens(trace, n, key)
    requires trace[n].call.key == key ==> trace[n].call.limit == limit
    ensures var t := Local(trace[..n]);
      key in t && (t[key].count <= (if limit == 0 then 1 else limit) ==>
                  Local(trace)[key].count <= if limit == 0 then 1 else limit)
  {
    EntryAfter(trace, n, key);
  }

  lemma OpenedNow(trace: seq<Event>, n: nat, key: Key)
    requires |trace| == n + 1 && trace[n].call.key == key && !LocalRefused(trace, n)
    ensures OpenedAt(trace, key, Entry(1, trace[n].call.now + trace[n].call.window), n)
  {
    assert Allowed(trace[..n], key, n) == 0;
  }

  /** Whatever was pruned or evicted in between, every entry counts exactly the calls allowed since its window opened
      - by the j-th call - and never more than the limit. */
  lemma {:induction false} EntriesCount(trace: seq<Event>, key: Key, limit: nat, window: nat) returns (j: nat)
    requires Possible(trace) && Uniform(trace, key, limit, window) && key in Local(trace)
    ensures Local(trace)[key].count <= (if limit == 0 then 1 else limit)
    ensures OpenedAt(trace, key, Local(trace)[key], j)
  {
    var n := |trace| - 1;
    var init := trace[..n];
    if Opens(trace, n, key) {
      OpenedNow(trace, n, key);
      j := n;
    } else {
      PossiblePrefix(trace, n);
      CarriesWithinLimit(trace, n, key, limit);
      j := EntriesCount(init, key, limit, window);
      OpenedCarries(trace, n, key, j);
    }
  }

  /** A live count that has reached a threshold stands for that many calls allowed inside the last window; reading it
      is `is_over_limit`. */
  lemma CountMeansAllowedCalls(trace: seq<Event>, key: Key, limit: nat, window: nat, threshold: nat, now: int)
    returns (j: nat)
    requires Possible(trace) && Uniform(trace, key, limit, window)
    requires OverLimit(Local(trace), key, threshold, now)
    ensures j < |trace| && trace[j].call.key == key && now - window < trace[j].call.now
    ensures threshold <= Allowed(trace, key, j) <= if limit == 0 then 1 else limit
  {
    j := EntriesCount(trace, key, limit, window);
  }

  /** A refusal, even by a table that evicts: inside the last window exactly `limit` calls of the key were allowed
      since its window was opened. */
  lemma RefusalMeansLimitReached(trace: seq<Event>, i: nat, limit: nat, window: nat)
    requires i < |trace| && Possible(trace) && limit >= 1
    requires Uniform(trace, trace[i].call.key, limit, window)
    requires LocalRefused(trace, i)
    ensures exists j :: 0 <= j < i && trace[j].call.key == trace[i].call.key
                        && trace[i].call.now - window < trace[j].call.now
                        && Allowed(trace[..i], trace[i].call.key, j) == limit
  {
    var before, c := trace[..i], trace[i].call;
    PossiblePrefix(trace, i);
    var j := CountMeansAllowedCalls(before, c.key, limit, window, limit, c.now);
    assert before[j] == trace[j];
  }

  // ----- at most two windows touch an interval -----

  /** What the cache can still allow a key before `until`, when an interval [from, until] of one window's length is
      running. */
  function Allowance(t: Table, key: Key, limit: nat, now: int, from: int, until: int): nat {
    var most := if limit == 0 then 1 else limit;
    match LiveEntry(t, key, now)
    case Some(entry) =>
      (if entry.count < most then most - entry.count else 0) + if entry.end <= until then most else 0
    case None => if now <= from then 2 * most else most
  }

  /** What the trace allowed from the j-th call on and may still allow is within what it could allow at first. */
  predicate WithinAllowance(trace: seq<Event>, key: Key, j: nat, limit: nat, from: int, until: int, most: nat)
    requires trace != []
  {
    var now := trace[|trace| - 1].call.now;
    AllowedByCache(trace, key, j) + Allowance(Cache(trace), key, limit, now, from, until) <= most
  }

  lemma OneMoreCall(trace: seq<Event>, n: nat, key: Key, j: nat, limit: nat, now: int, from: int, until: int, most: nat)
    requires |trace| == n + 1 && j <= n && from < until && Uniform(trace, key, limit, until - from)
    requires from <= now <= trace[n].call.now <= until
    requires AllowedByCache(trace[..n], key, j) + Allowance(Cache(trace[..n]), key, limit, now, from, until) <= most
    ensures WithinAllowance(trace, key, j, limit, from, until, most)
  {
  }

  lemma {:induction false} IntervalAllowance(
    trace: seq<Event>, key: Key, j: nat, limit: nat, from: int, until: int)
    requires j < |trace| && from < until && Uniform(trace, key, limit, until - from) && InTime(trace)
    requires from <= trace[j].call.now && trace[|trace| - 1].call.now <= until
    ensures WithinAllowance(
              trace, key, j, limit, from, until, Allowance(Cache(trace[..j]), key, limit, from, from, until))
    decreases |trace|
  {
    var n := |trace| - 1;
    var init, most := trace[..n], Allowance(Cache(trace[..j]), key, limit, from, from, until);
    if j == n {
      OneMoreCall(trace, n, key, j, limit, from, from, until, most);
    } else {
      assert init[..j] == trace[..j] && init[j] == trace[j];
      IntervalAllowance(init, key, j, limit, from, until);
      OneMoreCall(trace, n, key, j, limit, trace[n - 1].call.now, from, until, most);
    }
  }

  /** Any closed interval of one window's length allows a key at most twice its limit. */
  lemma AtMostTwiceTheLimit(trace: seq<Event>, key: Key, j: nat, limit: nat, window: nat, from: int)
    requires j < |trace| && Uniform(trace, key, limit, window) && limit >= 1 && window >= 1
    requires InTime(trace)
    requires from <= trace[j].call.now && trace[|trace| - 1].call.now <= from + window
    ensures AllowedByCache(trace, key, j) <= 2 * limit
  {
    IntervalAllowance(trace, key, j, limit, from, from + window);
  }

  lemma {:induction false} SameCounts(trace: seq<Event>, key: Key, j: nat)
    requires Possible(trace) && NoEviction(trace)
    ensures Allowed(trace, key, j) == AllowedByCache(trace, key, j)
  {
    if j < |trace| {
      var n := |trace| - 1;
      PossiblePrefix(trace, n);
      assert NoEviction(trace[..n]);
      SameCounts(trace[..n], key, j);
      LocalAnswersLikeCache(trace, n);
    }
  }

  /** The same bound for the local limiter, while nothing live is evicted. */
  lemma LocalAtMostTwiceTheLimit(trace: seq<Event>, key: Key, j: nat, limit: nat, window: nat, from: int)
    requires j < |trace| && Uniform(trace, key, limit, window) && limit >= 1 && window >= 1
    requires Possible(trace) && NoEviction(trace)
    requires from <= trace[j].call.now && trace[|trace| - 1].call.now <= from + window
    ensures Allowed(trace, key, j) <= 2 * limit
  {
    AtMostTwiceTheLimit(trace, key, j, limit, window, from);
    SameCounts(trace, key, j);
  }

  /** From the call that opens a window until it ends, the cache allows a key exactly its limit at most. */
  lemma {:induction false} OneWindow(trace: seq<Event>, key: Key, j: nat, limit: nat, window: nat)
    requires j < |trace| && Uniform(trace, key, limit, window) && limit >= 1
    requires trace[j].call.key == key && LiveEntry(Cache(trace[..j]), key, trace[j].call.now).None?
    requires forall i :: j <= i < |trace| ==> trace[i].call.now < trace[j].call.now + window
    ensures key in Cache(trace) && Cache(trace)[key].end == trace[j].call.now + window
    ensures AllowedByCache(trace, key, j) == Cache(trace)[key].count <= limit
    decreases |trace|
  {
    var n := |trace| - 1;
    if j == n {
      assert AllowedByCache(trace[..n], key, j) == 0;
    } else {
      assert trace[..n][..j] == trace[..j] && trace[..n][j] == trace[j];
      OneWindow(trace[..n], key, j, limit, window);
    }
  }

  lemma OneWindowAllowsTheLimit(trace: seq<Event>, key: Key, j: nat, limit: nat, window: nat)
    requires j < |trace| && Uniform(trace, key, limit, window) && limit >= 1
    requires trace[j].call.key == key && LiveEntry(Cache(trace[..j]), key, trace[j].call.now).None?
    requires InTime(trace)
    requires trace[|trace| - 1].call.now < trace[j].call.now + window
    ensures AllowedByCache(trace, key, j) <= limit
  {
    OneWindow(trace, key, j, limit, window);
  }
}
