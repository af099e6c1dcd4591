/** The order in which models are tried (chat/router.py, `select_model_candidates`). The permitted models are a set of
    rows; each tier is read with a query ordered by price, unpriced models last. */
module Router {
  import opened Wrappers

  datatype Tier = Economy | Default | Premium

  datatype Model = Model(id: nat, tier: Tier, outputPrice: Option<int>)

  /** `F("output_price_per_mtok").asc(nulls_last=True)`. */
  predicate NotDearer(a: Model, b: Model) {
    b.outputPrice.None? || (a.outputPrice.Some? && a.outputPrice.value <= b.outputPrice.value)
  }

  /** Ids are a primary key. */
  ghost predicate UniqueIds(models: set<Model>) {
    forall a, b :: a in models && b in models && a.id == b.id ==> a == b
  }

  predicate Distinct(rows: seq<Model>) {
    forall i, j :: 0 <= i < j < |rows| ==> rows[i].id != rows[j].id
  }

  /** What `_allowed_models_for_user(user, tier)` may return: the permitted models of the tier, cheapest first, in any
      order among equal prices. */
  ghost predicate IsTierQuery(permitted: set<Model>, tier: Tier, rows: seq<Model>) {
    && (forall m :: m in rows <==> m in permitted && m.tier == tier)
    && Distinct(rows)
    && (forall i, j :: 0 <= i < j < |rows| ==> NotDearer(rows[i], rows[j]))
  }

  /** The place of a tier in `TIER_ORDER`: Economy, Default, Premium. */
  function Position(tier: Tier): nat {
    if tier.Economy? then 0 else if tier.Default? then 1 else 2
  }

  /** The requested tier, then the others in the order of `TIER_ORDER`. */
  function FallbackOrder(tier: Tier): (order: seq<Tier>)
    ensures |order| == 3
    ensures forall i, j :: 0 <= i < j < 3 ==> order[i] != order[j]
    ensures Economy in order && Default in order && Premium in order
    ensures order[0] == tier && Position(order[1]) < Position(order[2])
  {
    match tier
    case Economy => [Economy, Default, Premium]
    case Default => [Default, Economy, Premium]
    case Premium => [Premium, Economy, Default]
  }

  /** The place of a tier in the fallback order. */
  function Rank(tier: Tier, requested: Tier): nat {
    var order := FallbackOrder(requested);
    if tier == order[0] then 0 else if tier == order[1] then 1 else 2
  }

  ghost predicate Queries(permitted: set<Model>, rows: map<Tier, seq<Model>>) {
    UniqueIds(permitted) && forall t :: t in rows && IsTierQuery(permitted, t, rows[t])
  }

  /** A prefix of the fallback order has been read: exactly its models were collected, each once, in order. */
  ghost predicate Collected(permitted: set<Model>, requested: Tier, tiers: nat, candidates: seq<Model>) {
    && (forall m :: m in candidates <==> m in permitted && Rank(m.tier, requested) < tiers)
    && Ordered(requested, candidates)
  }

  /** Every model once, requested tier first, cheapest first within a tier. */
  ghost predicate Ordered(requested: Tier, candidates: seq<Model>) {
    && Distinct(candidates)
    && (forall i, j :: 0 <= i < j < |candidates| ==>
          Rank(candidates[i].tier, requested) <= Rank(candidates[j].tier, requested))
    && (forall i, j :: 0 <= i < j < |candidates| && candidates[i].tier == candidates[j].tier ==>
          NotDearer(candidates[i], candidates[j]))
  }

  lemma AppendTier(permitted: set<Model>, requested: Tier, k: nat, before: seq<Model>, rows: seq<Model>)
    requires UniqueIds(permitted) && k < 3
    requires Collected(permitted, requested, k, before)
    requires IsTierQuery(permitted, FallbackOrder(requested)[k], rows)
    ensures Collected(permitted, requested, k + 1, before + rows)
  {
    var all := before + rows;
    var tier := FallbackOrder(requested)[k];
    assert forall t :: Rank(t, requested) == k <==> t == tier;
    forall i, j | 0 <= i < j < |all|
      ensures all[i].id != all[j].id
      ensures Rank(all[i].tier, requested) <= Rank(all[j].tier, requested)
      ensures all[i].tier == all[j].tier ==> NotDearer(all[i], all[j])
    {
      if i < |before| <= j {
        assert all[i] in before && all[j] in rows;
      } else if |before| <= i {
        assert all[i] == rows[i - |before|] && all[j] == rows[j - |before|];
        assert all[i] in rows && all[j] in rows;
      }
    }
    forall m
      ensures m in all <==> m in permitted && Rank(m.tier, requested) < k + 1
    {
      assert m in all <==> m in before || m in rows;
    }
  }

  /** `select_model_candidates`. */
  method SelectModelCandidates(ghost permitted: set<Model>, rows: map<Tier, seq<Model>>, tier: Tier)
    returns (candidates: seq<Model>)
    requires Queries(permitted, rows)
    ensures forall m :: m in candidates <==> m in permitted
    ensures Ordered(tier, candidates)
  {
    var seenIds: set<nat> := {};
    candidates := [];
    var order := FallbackOrder(tier);
    var t := 0;
    while t < |order|
      invariant 0 <= t <= 3
      invariant Collected(permitted, tier, t, candidates)
      invariant SeenAre(seenIds, candidates)
    {
      ghost var before := candidates;
      candidates, seenIds := AddTier(permitted, tier, t, candidates, seenIds, rows[order[t]]);
      AppendTier(permitted, tier, t, before, rows[order[t]]);
      t := t + 1;
    }
  }

  ghost predicate SeenAre(seenIds: set<nat>, candidates: seq<Model>) {
    forall id :: id in seenIds <==> exists m :: m in candidates && m.id == id
  }

  /** The inner loop: add the models of one tier that were not seen before. */
  method AddTier(
    ghost permitted: set<Model>, ghost requested: Tier, ghost t: nat, before: seq<Model>, seen: set<nat>,
    models: seq<Model>)
    returns (candidates: seq<Model>, seenIds: set<nat>)
    requires UniqueIds(permitted) && t < 3 && Collected(permitted, requested, t, before) && SeenAre(seen, before)
    requires IsTierQuery(permitted, FallbackOrder(requested)[t], models)
    ensures candidates == before + models && SeenAre(seenIds, candidates)
  {
    candidates, seenIds := before, seen;
    var i := 0;
    while i < |models|
      invariant 0 <= i <= |models|
      invariant candidates == before + models[..i]
      invariant SeenAre(seenIds, candidates)
    {
      assert forall m :: m in candidates <==> m in before || m in models[..i];
      if models[i].id !in seenIds {
        seenIds := seenIds + {models[i].id};
        candidates := candidates + [models[i]];
      }
      assert models[..i + 1] == models[..i] + [models[i]];
      i := i + 1;
    }
    assert models[..|models|] == models;
  }

  /** Which of two candidates is tried first: within a tier the cheaper one, unpriced models last; otherwise the one of
      the requested tier, and of two others the one whose tier comes first in Economy, Default, Premium. */
  predicate MayPrecede(requested: Tier, a: Model, b: Model) {
    if a.tier == b.tier then b.outputPrice.None? || (a.outputPrice.Some? && a.outputPrice.value <= b.outputPrice.value)
    else a.tier == requested || (b.tier != requested && Position(a.tier) < Position(b.tier))
  }

  /** A list without repetitions is in the order of the candidates if and only if that holds of every two of them. */
  lemma OrderedExactlyWhen(requested: Tier, candidates: seq<Model>)
    requires Distinct(candidates)
    ensures Ordered(requested, candidates)
       <==> forall i, j :: 0 <= i < j < |candidates| ==> MayPrecede(requested, candidates[i], candidates[j])
  {
    forall a: Model, b: Model
      ensures MayPrecede(requested, a, b) <==>
              && Rank(a.tier, requested) <= Rank(b.tier, requested) && (a.tier == b.tier ==> NotDearer(a, b))
    {
      RankOfOthers(requested, a.tier, b.tier);
    }
  }

  lemma RankOfOthers(requested: Tier, a: Tier, b: Tier)
    ensures a == b <==> Rank(a, requested) == Rank(b, requested)
    ensures a != b ==> (Rank(a, requested) < Rank(b, requested)
                        <==> a == requested || (b != requested && Position(a) < Position(b)))
  {
    var order := FallbackOrder(requested);
    assert a in order && b in order;
  }

  /** `select_model_for_user`: there is a choice exactly when something is permitted, and when the requested tier has
      a permitted model the first choice is a cheapest one of that tier. */
  lemma FirstChoice(permitted: set<Model>, requested: Tier, candidates: seq<Model>)
    requires Ordered(requested, candidates)
    requires forall m :: m in candidates <==> m in permitted
    ensures candidates == [] <==> permitted == {}
    ensures forall m :: m in permitted && m.tier == requested ==>
              candidates[0].tier == requested && NotDearer(candidates[0], m)
  {
    if candidates != [] {
      assert candidates[0] in permitted;
    }
    forall m | m in permitted && m.tier == requested
      ensures candidates[0].tier == requested && NotDearer(candidates[0], m)
    {
      assert m in candidates;
      var i :| 0 <= i < |candidates| && candidates[i] == m;
      assert i > 0 ==> Rank(candidates[0].tier, requested) <= Rank(candidates[i].tier, requested);
    }
  }
}
