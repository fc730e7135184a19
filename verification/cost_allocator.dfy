/**
 The cost ledger of `CostAllocation` in core/monitoring/cost_allocator.py:
 two accumulating maps, by feature and by customer, that every recorded
 usage charges with the same amount. Amounts are whole cents.
 */
module Costs {
  import opened OrderedMaps

  datatype Allocation = Allocation(featureCosts: OMap<string, int>, customerCosts: OMap<string, int>)

  /** A fresh allocation with no cost file on disk. */
  function NewAllocation(): (a: Allocation)
    ensures a.featureCosts.entries == map[] && a.customerCosts.entries == map[]
    ensures a.featureCosts.keys == [] && a.customerCosts.keys == []
    ensures Valid(a.featureCosts) && Valid(a.customerCosts)
  {
    Allocation(Empty(), Empty())
  }

  /** An amount as it is summed. */
  function Amount(x: int): int { x }

  /** `get_feature_cost`: the amount charged to a feature, 0 if none. */
  function FeatureCost(a: Allocation, feature: string): (c: int)
    ensures feature in a.featureCosts.entries ==> c == a.featureCosts.entries[feature]
    ensures feature !in a.featureCosts.entries ==> c == 0
  {
    GetOr(a.featureCosts, feature, 0)
  }

  /** `get_customer_cost`: the amount charged to a customer, 0 if none. */
  function CustomerCost(a: Allocation, customer: string): (c: int)
    ensures customer in a.customerCosts.entries ==> c == a.customerCosts.entries[customer]
    ensures customer !in a.customerCosts.entries ==> c == 0
  {
    GetOr(a.customerCosts, customer, 0)
  }

  /** `d[k] = d.get(k, 0) + cost`, the step `track_usage` takes on each map. */
  function Accrue(m: OMap<string, int>, k: string, cost: int): OMap<string, int> {
    Put(m, k, GetOr(m, k, 0) + cost)
  }

  /** `track_usage`: charge `cost` to the feature and to the customer,
      starting each from zero on first use. */
  function TrackUsage(a: Allocation, feature: string, customer: string, cost: int): (r: Allocation)
    ensures feature in r.featureCosts.entries && customer in r.customerCosts.entries
    ensures FeatureCost(r, feature) == FeatureCost(a, feature) + cost
    ensures CustomerCost(r, customer) == CustomerCost(a, customer) + cost
    ensures r.featureCosts.entries - {feature} == a.featureCosts.entries - {feature}
    ensures r.customerCosts.entries - {customer} == a.customerCosts.entries - {customer}
    ensures Valid(a.featureCosts) ==> Valid(r.featureCosts)
    ensures Valid(a.customerCosts) ==> Valid(r.customerCosts)
  {
    Allocation(Accrue(a.featureCosts, feature, cost), Accrue(a.customerCosts, customer, cost))
  }

  /** `reset_costs` */
  function Reset(a: Allocation): (r: Allocation)
    ensures r.featureCosts.entries == map[] && r.customerCosts.entries == map[]
    ensures r.featureCosts.keys == [] && r.customerCosts.keys == []
    ensures Valid(r.featureCosts) && Valid(r.customerCosts)
    ensures forall k :: FeatureCost(r, k) == 0 && CustomerCost(r, k) == 0
  {
    NewAllocation()
  }

  /** Both ledgers are well formed and have charged the same total. */
  ghost predicate Balanced(a: Allocation) {
    && Valid(a.featureCosts) && Valid(a.customerCosts)
    && Sum(a.featureCosts, Amount) == Sum(a.customerCosts, Amount)
  }

  /** The total charged to all features. */
  function TotalFeatureCost(a: Allocation): int {
    Sum(a.featureCosts, Amount)
  }

  /** Adding `cost` to one key's amount adds it to the map's total. */
  lemma Charge(m: OMap<string, int>, k: string, cost: int)
    requires Valid(m)
    ensures Sum(Accrue(m, k, cost), Amount) == Sum(m, Amount) + cost
  {
    SumPut(m, k, GetOr(m, k, 0) + cost, Amount);
  }

  /** One usage adds its cost to the total charged to features. */
  lemma TrackUsageAddsToFeatures(a: Allocation, feature: string, customer: string, cost: int)
    requires Valid(a.featureCosts)
    ensures Sum(TrackUsage(a, feature, customer, cost).featureCosts, Amount) == Sum(a.featureCosts, Amount) + cost
  {
    Charge(a.featureCosts, feature, cost);
  }

  /** One usage adds its cost to the total charged to customers. */
  lemma TrackUsageAddsToCustomers(a: Allocation, feature: string, customer: string, cost: int)
    requires Valid(a.customerCosts)
    ensures Sum(TrackUsage(a, feature, customer, cost).customerCosts, Amount) == Sum(a.customerCosts, Amount) + cost
  {
    Charge(a.customerCosts, customer, cost);
  }

  /** `track_usage` keeps the two ledgers balanced. */
  lemma TrackUsageKeepsBalance(a: Allocation, feature: string, customer: string, cost: int)
    requires Balanced(a)
    ensures Balanced(TrackUsage(a, feature, customer, cost))
  {
    TrackUsageAddsToFeatures(a, feature, customer, cost);
    TrackUsageAddsToCustomers(a, feature, customer, cost);
  }

  /** `reset_costs` restores the balance. */
  lemma ResetBalanced(a: Allocation)
    ensures Balanced(Reset(a))
    ensures TotalFeatureCost(Reset(a)) == 0
  {
  }

  /** One recorded usage: the feature, the customer and the cost. */
  datatype Usage = Usage(feature: string, customer: string, cost: int)

  /** Records each usage of `us` in order. */
  function TrackAll(a: Allocation, us: seq<Usage>): Allocation
    decreases |us|
  {
    if |us| == 0 then a
    else
      var u := us[|us| - 1];
      TrackUsage(TrackAll(a, us[..|us| - 1]), u.feature, u.customer, u.cost)
  }

  /** The costs of a sequence of usages added up. */
  function CostOf(us: seq<Usage>): int
    decreases |us|
  {
    if |us| == 0 then 0 else CostOf(us[..|us| - 1]) + us[|us| - 1].cost
  }

  /** After a reset, both ledgers' totals equal the cost of everything
      tracked since, so they always agree. */
  lemma {:induction false} TrackAllSinceReset(a: Allocation, us: seq<Usage>)
    ensures Balanced(TrackAll(Reset(a), us))
    ensures TotalFeatureCost(TrackAll(Reset(a), us)) == CostOf(us)
    decreases |us|
  {
    if |us| == 0 {
      ResetBalanced(a);
    } else {
      var u := us[|us| - 1];
      TrackAllSinceReset(a, us[..|us| - 1]);
      var prev := TrackAll(Reset(a), us[..|us| - 1]);
      TrackUsageAddsToFeatures(prev, u.feature, u.customer, u.cost);
      TrackUsageAddsToCustomers(prev, u.feature, u.customer, u.cost);
    }
  }

  /** A usage charged to another feature leaves a feature's cost alone. */
  lemma OtherFeatureUnchanged(a: Allocation, feature: string, customer: string, cost: int, other: string)
    requires other != feature
    ensures FeatureCost(TrackUsage(a, feature, customer, cost), other) == FeatureCost(a, other)
  {
    var r := TrackUsage(a, feature, customer, cost);
    assert other in r.featureCosts.entries <==> other in a.featureCosts.entries by {
      assert other in r.featureCosts.entries - {feature} <==> other in a.featureCosts.entries - {feature};
    }
    if other in a.featureCosts.entries {
      assert r.featureCosts.entries[other] == (r.featureCosts.entries - {feature})[other];
    }
  }
}
