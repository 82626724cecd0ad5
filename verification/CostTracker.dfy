/** The per-session cost tracker. Money is `real`: rounding is not modelled. */
module CostTracker {
  datatype Usage = Usage(inputTokens: nat, outputTokens: nat)

  datatype CostEntry = CostEntry(inputTokens: nat, outputTokens: nat, costUsd: real, callCount: nat) {
    function Plus(that: CostEntry): CostEntry {
      CostEntry(inputTokens + that.inputTokens, outputTokens + that.outputTokens,
                costUsd + that.costUsd, callCount + that.callCount)
    }
  }

  const EMPTY := CostEntry(0, 0, 0.0, 0)

  type Categories = map<string, CostEntry>

  datatype Rates = Rates(input: real, output: real)

  function Cost(rates: Rates, u: Usage): real {
    u.inputTokens as real * rates.input + u.outputTokens as real * rates.output
  }

  /** The sum of the entries of some categories. */
  ghost function SumOver(m: Categories, keys: set<string>): CostEntry
    requires keys <= m.Keys
  {
    if keys == {} then EMPTY
    else
      var k :| k in keys;
      m[k].Plus(SumOver(m, keys - {k}))
  }

  /** The sum does not depend on the order in which categories are taken. */
  lemma {:induction false} SumTakes(m: Categories, keys: set<string>, k: string)
    requires k in keys && keys <= m.Keys
    ensures SumOver(m, keys) == m[k].Plus(SumOver(m, keys - {k}))
    decreases |keys|
  {
    var j :| j in keys && SumOver(m, keys) == m[j].Plus(SumOver(m, keys - {j}));
    if j != k {
      SumTakes(m, keys - {j}, k);
      SumTakes(m, keys - {k}, j);
      var rest := SumOver(m, keys - {j} - {k});
      assert keys - {j} - {k} == keys - {k} - {j};
      assert SumOver(m, keys) == m[j].Plus(m[k].Plus(rest)) == m[k].Plus(m[j].Plus(rest));
    }
  }

  lemma {:induction false} SumUnchanged(m: Categories, n: Categories, keys: set<string>)
    requires keys <= m.Keys && keys <= n.Keys && forall k :: k in keys ==> m[k] == n[k]
    ensures SumOver(m, keys) == SumOver(n, keys)
    decreases |keys|
  {
    if keys != {} {
      var k :| k in keys;
      SumTakes(m, keys, k);
      SumTakes(n, keys, k);
      SumUnchanged(m, n, keys - {k});
    }
  }

  /** `by_category` after one tracked call. */
  function Charge(m: Categories, category: string, e: CostEntry): Categories {
    m[category := (if category in m then m[category] else EMPTY).Plus(e)]
  }

  /** Charging one category raises the sum over all categories by exactly that charge. */
  lemma {:induction false} ChargeSum(m: Categories, category: string, e: CostEntry)
    ensures var n := Charge(m, category, e); SumOver(n, n.Keys) == SumOver(m, m.Keys).Plus(e)
  {
    var n := Charge(m, category, e);
    var rest := m.Keys - {category};
    assert n.Keys - {category} == rest;
    SumTakes(n, n.Keys, category);
    SumUnchanged(m, n, rest);
    if category in m {
      SumTakes(m, m.Keys, category);
    } else {
      assert rest == m.Keys;
    }
  }

  /** What the tracker knows: the running totals, and the totals by category. */
  datatype Ledger = Ledger(totalInput: nat, totalOutput: nat, costUsd: real, byCategory: Categories)

  const OPENED := Ledger(0, 0, 0.0, map[])

  /** The books after a call of known cost. */
  function Post(l: Ledger, u: Usage, cost: real, category: string): Ledger {
    Ledger(l.totalInput + u.inputTokens, l.totalOutput + u.outputTokens, l.costUsd + cost,
           Charge(l.byCategory, category, CostEntry(u.inputTokens, u.outputTokens, cost, 1)))
  }

  function Track(l: Ledger, rates: Rates, u: Usage, category: string): Ledger {
    Post(l, u, Cost(rates, u), category)
  }

  /** A positive cap that the accumulated cost exceeds. */
  predicate OverCap(cap: real, l: Ledger) {
    cap > 0.0 && l.costUsd > cap
  }

  /** The running totals are the sums over the categories. */
  ghost predicate Balanced(l: Ledger) {
    var sum := SumOver(l.byCategory, l.byCategory.Keys);
    l.totalInput == sum.inputTokens && l.totalOutput == sum.outputTokens && l.costUsd == sum.costUsd
  }

  /** Every tracked call keeps the books balanced, also one that exceeds the cap. */
  lemma TrackBalanced(l: Ledger, rates: Rates, u: Usage, category: string)
    requires Balanced(l)
    ensures Balanced(Track(l, rates, u, category))
  {
    ChargeSum(l.byCategory, category, CostEntry(u.inputTokens, u.outputTokens, Cost(rates, u), 1));
  }

  /** The accumulated cost is what the accumulated tokens cost at the session's rates. */
  ghost predicate Priced(l: Ledger, rates: Rates) {
    l.costUsd == l.totalInput as real * rates.input + l.totalOutput as real * rates.output
  }

  lemma TrackPriced(l: Ledger, rates: Rates, u: Usage, category: string)
    requires Priced(l, rates)
    ensures Priced(Track(l, rates, u, category), rates)
  {
    assert (l.totalInput + u.inputTokens) as real * rates.input ==
           l.totalInput as real * rates.input + u.inputTokens as real * rates.input;
    assert (l.totalOutput + u.outputTokens) as real * rates.output ==
           l.totalOutput as real * rates.output + u.outputTokens as real * rates.output;
  }

  lemma CostNonNegative(rates: Rates, u: Usage)
    requires rates.input >= 0.0 && rates.output >= 0.0
    ensures Cost(rates, u) >= 0.0
  {
    assert u.inputTokens as real * rates.input >= 0.0;
    assert u.outputTokens as real * rates.output >= 0.0;
  }

  /** With non-negative rates, a session over its cap stays over it. */
  lemma CapAbsorbs(cap: real, l: Ledger, rates: Rates, u: Usage, category: string)
    requires OverCap(cap, l) && rates.input >= 0.0 && rates.output >= 0.0
    ensures OverCap(cap, Track(l, rates, u, category))
  {
    CostNonNegative(rates, u);
  }

  class Tracker {
    const maxCostUsd: real
    const rates: Rates
    var accumulatedCostUsd: real
    var totalInputTokens: nat
    var totalOutputTokens: nat
    var byCategory: Categories

    constructor (maxCostUsd: real, rates: Rates)
      ensures this.maxCostUsd == maxCostUsd && this.rates == rates && Books() == OPENED && Balanced(Books())
    {
      this.maxCostUsd, this.rates := maxCostUsd, rates;
      accumulatedCostUsd, totalInputTokens, totalOutputTokens, byCategory := 0.0, 0, 0, map[];
    }

    function Books(): Ledger
      reads this
    {
      Ledger(totalInputTokens, totalOutputTokens, accumulatedCostUsd, byCategory)
    }

    method PostUsage(u: Usage, cost: real, category: string)
      modifies this`accumulatedCostUsd, this`totalInputTokens, this`totalOutputTokens, this`byCategory
      ensures Books() == Post(old(Books()), u, cost, category)
    {
      accumulatedCostUsd := accumulatedCostUsd + cost;
      totalInputTokens := totalInputTokens + u.inputTokens;
      totalOutputTokens := totalOutputTokens + u.outputTokens;
      var entry := if category in byCategory then byCategory[category] else EMPTY;
      byCategory := byCategory[category := entry.Plus(CostEntry(u.inputTokens, u.outputTokens, cost, 1))];
    }

    /** Records the usage, and only then reports whether the cap is exceeded. */
    method TrackWithCategory(u: Usage, category: string) returns (ok: bool)
      modifies this`accumulatedCostUsd, this`totalInputTokens, this`totalOutputTokens, this`byCategory
      ensures Books() == Track(old(Books()), rates, u, category)
      ensures accumulatedCostUsd == old(accumulatedCostUsd) +
              (u.inputTokens as real * rates.input + u.outputTokens as real * rates.output)
      ensures totalInputTokens == old(totalInputTokens) + u.inputTokens
      ensures totalOutputTokens == old(totalOutputTokens) + u.outputTokens
      ensures byCategory.Keys == old(byCategory.Keys) + {category}
      ensures forall k :: k in old(byCategory) && k != category ==> byCategory[k] == old(byCategory)[k]
      ensures var before := if category in old(byCategory) then old(byCategory)[category] else CostEntry(0, 0, 0.0, 0);
        var after := byCategory[category];
        && after.callCount == before.callCount + 1
        && after.inputTokens == before.inputTokens + u.inputTokens
        && after.outputTokens == before.outputTokens + u.outputTokens
        && after.costUsd == before.costUsd + (accumulatedCostUsd - old(accumulatedCostUsd))
      ensures ok == !(maxCostUsd > 0.0 && accumulatedCostUsd > maxCostUsd)
    {
      PostUsage(u, Cost(rates, u), category);
      ok := !(maxCostUsd > 0.0 && accumulatedCostUsd > maxCostUsd);
    }
  }
}
