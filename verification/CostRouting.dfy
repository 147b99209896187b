/**
 Cost-aware routing: the table of model costs, the budget guard and the router's decision.
 Money is real; lower-casing a provider name is a parameter.
 */
module CostRouting {
  import opened Checkpoints
  import opened CircuitBreakers

  // ---------------------------------------------------------------- the cost table

  /** USD per million tokens. */
  datatype ModelCost = ModelCost(prompt: real, completion: real)

  /** A provider's models, in the order of the file. */
  datatype Provider = Provider(name: string, models: seq<(string, ModelCost)>)

  type CostTable = seq<Provider>

  type Model = (string, string)

  function FindProvider(t: CostTable, name: string): Option<Provider> {
    if |t| == 0 then None else if t[0].name == name then Some(t[0]) else FindProvider(t[1..], name)
  }

  function FindModel(models: seq<(string, ModelCost)>, name: string): Option<ModelCost> {
    if |models| == 0 then None else if models[0].0 == name then Some(models[0].1) else FindModel(models[1..], name)
  }

  /** `get_cost`: the provider is looked up in lower case. */
  function GetCost(t: CostTable, lower: string -> string, m: Model): Option<ModelCost> {
    var p := FindProvider(t, lower(m.0));
    if p.None? then None else FindModel(p.value.models, m.1)
  }

  function ModelsOf(name: string, models: seq<(string, ModelCost)>): (r: seq<Model>)
    ensures |r| == |models| && forall i :: 0 <= i < |models| ==> r[i] == (name, models[i].0)
  {
    if |models| == 0 then [] else [(name, models[0].0)] + ModelsOf(name, models[1..])
  }

  /** `list_models()` */
  function ListModels(t: CostTable): seq<Model> {
    if |t| == 0 then [] else ModelsOf(t[0].name, t[0].models) + ListModels(t[1..])
  }

  /** The average cost; None is infinity. */
  function AvgCost(t: CostTable, lower: string -> string, m: Model): Option<real> {
    var c := GetCost(t, lower, m);
    if c.None? then None else Some((c.value.prompt + c.value.completion) / 2.0)
  }

  predicate Cheaper(a: Option<real>, b: Option<real>) {
    a.Some? && (b.None? || a.value < b.value)
  }

  /** `min(candidates, key=avg_cost)`: the first of the cheapest. */
  function Cheapest(t: CostTable, lower: string -> string, candidates: seq<Model>): (m: Model)
    requires candidates != []
    ensures m in candidates
    ensures forall c :: c in candidates ==> !Cheaper(AvgCost(t, lower, c), AvgCost(t, lower, m))
  {
    var last := candidates[|candidates| - 1];
    if |candidates| == 1 then last
    else
      var best := Cheapest(t, lower, candidates[..|candidates| - 1]);
      assert candidates == candidates[..|candidates| - 1] + [last];
      if Cheaper(AvgCost(t, lower, last), AvgCost(t, lower, best)) then last else best
  }

  function CheapestModel(t: CostTable, lower: string -> string): Option<Model> {
    if ListModels(t) == [] then None else Some(Cheapest(t, lower, ListModels(t)))
  }

  ghost predicate IsEntry(t: CostTable, m: Model, c: ModelCost) {
    exists i, j :: 0 <= i < |t| && 0 <= j < |t[i].models| && m == (t[i].name, t[i].models[j].0) && c == t[i].models[j].1
  }

  /** Names are the keys of dicts. */
  ghost predicate DistinctNames(t: CostTable) {
    && (forall i, j :: 0 <= i < j < |t| ==> t[i].name != t[j].name)
    && (forall i, j, k :: 0 <= i < |t| && 0 <= j < k < |t[i].models| ==> t[i].models[j].0 != t[i].models[k].0)
  }

  lemma {:induction false} ProviderIs(t: CostTable, i: nat)
    requires DistinctNames(t) && i < |t|
    ensures FindProvider(t, t[i].name) == Some(t[i])
  {
    if i > 0 {
      ProviderIs(t[1..], i - 1);
    }
  }

  lemma {:induction false} ModelIs(models: seq<(string, ModelCost)>, j: nat)
    requires (forall i, k :: 0 <= i < k < |models| ==> models[i].0 != models[k].0) && j < |models|
    ensures FindModel(models, models[j].0) == Some(models[j].1)
  {
    if j > 0 {
      ModelIs(models[1..], j - 1);
    }
  }

  lemma {:induction false} FoundProvider(t: CostTable, name: string)
    ensures var p := FindProvider(t, name);
            && (p.Some? ==> exists i :: 0 <= i < |t| && t[i] == p.value && p.value.name == name)
            && (p.None? ==> forall i :: 0 <= i < |t| ==> t[i].name != name)
  {
    if |t| > 0 && t[0].name != name {
      FoundProvider(t[1..], name);
      assert t == [t[0]] + t[1..];
    }
  }

  lemma {:induction false} FoundModel(models: seq<(string, ModelCost)>, name: string)
    ensures var c := FindModel(models, name);
            c.Some? ==> exists j :: 0 <= j < |models| && models[j] == (name, c.value)
  {
    if |models| > 0 && models[0].0 != name {
      FoundModel(models[1..], name);
      assert models == [models[0]] + models[1..];
    }
  }

  /** Whatever the case of its provider's key, a model is priced at cost `c` exactly when the lower-case key lists it at `c`. */
  lemma PricedIff(t: CostTable, lower: string -> string, m: Model, c: ModelCost)
    requires DistinctNames(t)
    ensures GetCost(t, lower, m) == Some(c) <==> IsEntry(t, (lower(m.0), m.1), c)
  {
    var name := lower(m.0);
    if GetCost(t, lower, m) == Some(c) {
      FoundProvider(t, name);
      var i :| 0 <= i < |t| && t[i] == FindProvider(t, name).value && t[i].name == name;
      FoundModel(t[i].models, m.1);
      var j :| 0 <= j < |t[i].models| && t[i].models[j] == (m.1, c);
      assert IsEntry(t, (name, m.1), c);
    }
    if IsEntry(t, (name, m.1), c) {
      var i, j :| 0 <= i < |t| && 0 <= j < |t[i].models| && (name, m.1) == (t[i].name, t[i].models[j].0) && c == t[i].models[j].1;
      ProviderIs(t, i);
      ModelIs(t[i].models, j);
    }
  }

  lemma {:induction false} ListedIff(t: CostTable, m: Model)
    ensures m in ListModels(t) <==> exists c :: IsEntry(t, m, c)
  {
    if |t| > 0 {
      var own := ModelsOf(t[0].name, t[0].models);
      ListedIff(t[1..], m);
      if m in own {
        var j :| 0 <= j < |own| && own[j] == m;
        assert IsEntry(t, m, t[0].models[j].1);
      }
      if c :| IsEntry(t[1..], m, c) {
        var i, j :| 0 <= i < |t[1..]| && 0 <= j < |t[1..][i].models| && m == (t[1..][i].name, t[1..][i].models[j].0)
                    && c == t[1..][i].models[j].1;
        assert t[i + 1] == t[1..][i];
        assert IsEntry(t, m, c);
      }
      if c :| IsEntry(t, m, c) {
        var i, j :| 0 <= i < |t| && 0 <= j < |t[i].models| && m == (t[i].name, t[i].models[j].0) && c == t[i].models[j].1;
        if i == 0 {
          assert own[j] == m;
        } else {
          assert t[1..][i - 1] == t[i];
          assert IsEntry(t[1..], m, c);
        }
      }
    }
  }

  lemma ListedName(t: CostTable, m: Model, c: ModelCost)
    requires IsEntry(t, m, c)
    ensures exists i :: 0 <= i < |t| && t[i].name == m.0
  {
  }

  /** `m` is in the table, and no model has a lower average cost. */
  ghost predicate IsCheapest(t: CostTable, m: Model) {
    exists c :: IsEntry(t, m, c) && forall m', c' :: IsEntry(t, m', c') ==> c.prompt + c.completion <= c'.prompt + c'.completion
  }

  /** With lower-case provider names the model picked has the lowest average cost; an empty table has none. */
  lemma CheapestModelIsCheapest(t: CostTable, lower: string -> string)
    requires DistinctNames(t) && forall i :: 0 <= i < |t| ==> lower(t[i].name) == t[i].name
    ensures CheapestModel(t, lower).None? <==> forall m, c :: !IsEntry(t, m, c)
    ensures CheapestModel(t, lower).Some? ==> IsCheapest(t, CheapestModel(t, lower).value)
  {
    if CheapestModel(t, lower).Some? {
      var m := CheapestModel(t, lower).value;
      ListedIff(t, m);
      var c :| IsEntry(t, m, c);
      assert (lower(m.0), m.1) == m by { ListedName(t, m, c); }
      PricedIff(t, lower, m, c);
      forall m', c' | IsEntry(t, m', c') ensures c.prompt + c.completion <= c'.prompt + c'.completion {
        ListedIff(t, m');
        assert (lower(m'.0), m'.1) == m' by { ListedName(t, m', c'); }
        PricedIff(t, lower, m', c');
      }
    } else {
      forall m, c ensures !IsEntry(t, m, c) {
        ListedIff(t, m);
      }
    }
  }

  /** Position `k` of the list is the first of those with the least looked-up cost, where not found is the most. */
  ghost predicate FirstLeast(t: CostTable, lower: string -> string, k: int) {
    var all := ListModels(t);
    && 0 <= k < |all|
    && (forall j :: 0 <= j < |all| ==> !Cheaper(AvgCost(t, lower, all[j]), AvgCost(t, lower, all[k])))
    && (forall j :: 0 <= j < k ==> Cheaper(AvgCost(t, lower, all[k]), AvgCost(t, lower, all[j])))
  }

  lemma {:induction false} CheapestIsFirst(t: CostTable, lower: string -> string, candidates: seq<Model>) returns (k: nat)
    requires candidates != []
    ensures k < |candidates| && Cheapest(t, lower, candidates) == candidates[k]
    ensures forall j :: 0 <= j < |candidates| ==> !Cheaper(AvgCost(t, lower, candidates[j]), AvgCost(t, lower, candidates[k]))
    ensures forall j :: 0 <= j < k ==> Cheaper(AvgCost(t, lower, candidates[k]), AvgCost(t, lower, candidates[j]))
  {
    hide AvgCost;
    var n := |candidates| - 1;
    k := 0;
    if n > 0 {
      k := CheapestIsFirst(t, lower, candidates[..n]);
      assert forall j :: 0 <= j < n ==> candidates[..n][j] == candidates[j];
      if Cheaper(AvgCost(t, lower, candidates[n]), AvgCost(t, lower, candidates[k])) {
        k := n;
      }
    }
  }

  lemma FirstLeastIsUnique(t: CostTable, lower: string -> string, j: int, k: int)
    requires FirstLeast(t, lower, j) && FirstLeast(t, lower, k)
    ensures j == k
  {
    hide AvgCost, ListModels;
    var a, b := AvgCost(t, lower, ListModels(t)[j]), AvgCost(t, lower, ListModels(t)[k]);
    assert !Cheaper(a, b) && !Cheaper(b, a);
    assert j < k ==> Cheaper(b, a);
  }

  /** What is picked, for every table with models and whatever its keys: the first of those with the least looked-up cost. */
  lemma PickIsFirstLeast(t: CostTable, lower: string -> string) returns (k: nat)
    requires ListModels(t) != []
    ensures FirstLeast(t, lower, k) && CheapestModel(t, lower) == Some(ListModels(t)[k])
    ensures forall j :: FirstLeast(t, lower, j) ==> j == k
  {
    hide AvgCost, ListModels;
    k := CheapestIsFirst(t, lower, ListModels(t));
    forall j | FirstLeast(t, lower, j) ensures j == k {
      FirstLeastIsUnique(t, lower, j, k);
    }
  }

  /** So the pick has the lowest average cost exactly when that model has. */
  lemma PickIsCheapestIff(t: CostTable, lower: string -> string)
    requires ListModels(t) != []
    ensures IsCheapest(t, CheapestModel(t, lower).value) <==>
            exists k :: FirstLeast(t, lower, k) && IsCheapest(t, ListModels(t)[k])
  {
    hide AvgCost, ListModels, IsEntry, FirstLeast;
    var k := PickIsFirstLeast(t, lower);
  }

  /** The lower-case key of its provider prices the model. */
  ghost predicate Priced(t: CostTable, lower: string -> string, m: Model) {
    GetCost(t, lower, m).Some?
  }

  /** A model that is priced at all is priced at its own cost. */
  ghost predicate PricedAtOwnCost(t: CostTable, lower: string -> string) {
    forall m, c :: IsEntry(t, m, c) && Priced(t, lower, m) ==> GetCost(t, lower, m) == Some(c)
  }

  lemma SameLower(t: CostTable, lower: string -> string, i: nat, k: nat)
    requires i < |t| && k < |t| && forall i, j :: 0 <= i < j < |t| ==> lower(t[i].name) != lower(t[j].name)
    ensures lower(t[k].name) == lower(t[i].name) ==> k == i
  {
  }

  /** No two keys have the same lower case, so a key that is not lower case prices none of its models. */
  lemma DistinctLowerPricesOwn(t: CostTable, lower: string -> string)
    requires DistinctNames(t) && forall name :: lower(lower(name)) == lower(name)
    requires forall i, j :: 0 <= i < j < |t| ==> lower(t[i].name) != lower(t[j].name)
    ensures PricedAtOwnCost(t, lower)
    ensures forall m, c :: IsEntry(t, m, c) ==> (Priced(t, lower, m) <==> lower(m.0) == m.0)
  {
    forall m, c | IsEntry(t, m, c)
      ensures Priced(t, lower, m) <==> lower(m.0) == m.0
      ensures Priced(t, lower, m) ==> GetCost(t, lower, m) == Some(c)
    {
      var i, j :| 0 <= i < |t| && 0 <= j < |t[i].models| && m == (t[i].name, t[i].models[j].0) && c == t[i].models[j].1;
      FoundProvider(t, lower(m.0));
      if lower(m.0) == m.0 {
        PricedIff(t, lower, m, c);
      } else {
        forall k | 0 <= k < |t| ensures t[k].name != lower(m.0) {
          SameLower(t, lower, i, k);
        }
      }
    }
  }

  function TotalCost(c: ModelCost): real {
    c.prompt + c.completion
  }

  /**
   When models are priced at their own cost or not at all: the pick has the lowest average cost if and only
   if some priced model costs no more than every unpriced one, or none is priced and the first listed costs least.
   */
  lemma PickIsCheapestByPrice(t: CostTable, lower: string -> string)
    requires DistinctNames(t) && ListModels(t) != [] && PricedAtOwnCost(t, lower)
    ensures IsCheapest(t, CheapestModel(t, lower).value) <==>
            if exists m, c :: IsEntry(t, m, c) && Priced(t, lower, m)
            then exists m, c :: IsEntry(t, m, c) && Priced(t, lower, m) &&
                   forall m', c' :: IsEntry(t, m', c') && !Priced(t, lower, m') ==> TotalCost(c) <= TotalCost(c')
            else IsCheapest(t, ListModels(t)[0])
  {
    hide ListModels, IsEntry, FindProvider, FindModel;
    var all := ListModels(t);
    var k := CheapestIsFirst(t, lower, all);
    var pick := all[k];
    ListedIff(t, pick);
    var own :| IsEntry(t, pick, own);
    if m, c :| IsEntry(t, m, c) && Priced(t, lower, m) {
      ListedIff(t, m);
      PickIsPriced(t, lower, k, m);
      forall m', c' | IsEntry(t, m', c') && Priced(t, lower, m') ensures TotalCost(own) <= TotalCost(c') {
        ListedIff(t, m');
        var j :| 0 <= j < |all| && all[j] == m';
      }
      OneCost(t, pick, own);
    } else {
      FirstIsPicked(t, lower, k);
    }
  }

  lemma PickIsPriced(t: CostTable, lower: string -> string, k: nat, m: Model)
    requires k < |ListModels(t)| && m in ListModels(t) && Priced(t, lower, m)
    requires forall j :: 0 <= j < |ListModels(t)| ==>
               !Cheaper(AvgCost(t, lower, ListModels(t)[j]), AvgCost(t, lower, ListModels(t)[k]))
    ensures Priced(t, lower, ListModels(t)[k])
  {
    hide ListModels;
    var j :| 0 <= j < |ListModels(t)| && ListModels(t)[j] == m;
  }

  lemma FirstIsPicked(t: CostTable, lower: string -> string, k: nat)
    requires k < |ListModels(t)| && forall m, c :: IsEntry(t, m, c) ==> !Priced(t, lower, m)
    requires forall j :: 0 <= j < k ==> Cheaper(AvgCost(t, lower, ListModels(t)[k]), AvgCost(t, lower, ListModels(t)[j]))
    ensures k == 0
  {
    hide ListModels;
    ListedIff(t, ListModels(t)[k]);
    assert !Priced(t, lower, ListModels(t)[k]);
    assert AvgCost(t, lower, ListModels(t)[k]).None?;
    assert k > 0 ==> Cheaper(AvgCost(t, lower, ListModels(t)[k]), AvgCost(t, lower, ListModels(t)[0]));
  }

  /** A model has one cost. */
  lemma OneCost(t: CostTable, m: Model, c: ModelCost)
    requires DistinctNames(t) && IsEntry(t, m, c)
    ensures forall c' :: IsEntry(t, m, c') ==> c' == c
  {
    forall c' | IsEntry(t, m, c') ensures c' == c {
      PricedIff(t, s => s, m, c);
      PricedIff(t, s => s, m, c');
      assert (m.0, m.1) == m;
    }
  }

  /** An instance: the only priced model costs more than one whose key is not lower case, so the dearer model is picked. */
  lemma DearerModelPicked(lower: string -> string)
    requires lower("OPENAI") == "openai" && lower("anthropic") == "anthropic"
    ensures var t := [Provider("OPENAI", [("mini", ModelCost(1.0, 1.0))]), Provider("anthropic", [("haiku", ModelCost(5.0, 5.0))])];
            ListModels(t) != [] && !IsCheapest(t, CheapestModel(t, lower).value)
  {
    var t := [Provider("OPENAI", [("mini", ModelCost(1.0, 1.0))]), Provider("anthropic", [("haiku", ModelCost(5.0, 5.0))])];
    var mini, haiku := ("OPENAI", "mini"), ("anthropic", "haiku");
    TwoModels(t, "OPENAI", "mini", ModelCost(1.0, 1.0), "anthropic", "haiku", ModelCost(5.0, 5.0));
    ListedIff(t, mini);
    FoundProvider(t, "openai");
    PricedIff(t, lower, haiku, ModelCost(5.0, 5.0));
    hide ListModels, CheapestModel, IsEntry, FindProvider, FindModel;
    assert GetCost(t, lower, mini) == None;
    assert Priced(t, lower, haiku) && !Priced(t, lower, mini);
    PickIsCheapestByPrice(t, lower);
  }

  lemma TwoModels(t: CostTable, p: string, m: string, c: ModelCost, q: string, n: string, d: ModelCost)
    requires t == [Provider(p, [(m, c)]), Provider(q, [(n, d)])]
    ensures forall x, y :: IsEntry(t, x, y) <==> (x == (p, m) && y == c) || (x == (q, n) && y == d)
  {
    assert t[0].models[0] == (m, c) && t[1].models[0] == (n, d);
  }

  // ---------------------------------------------------------------- the budget guard

  function Ratio(spent: real, budget: real): real {
    if budget > 0.0 then spent / budget else 0.0
  }

  /** What `record_spend` answers once the cost has been added. */
  datatype SpendResult = Triggered | NotTriggered | DivisionByZero

  function GuardCheck(spent: real, cost: real, budget: real, threshold: real): SpendResult {
    if Ratio(spent, budget) < threshold then NotTriggered
    else if budget == 0.0 then DivisionByZero
    else if Ratio(spent, budget) - cost / budget < threshold then Triggered
    else NotTriggered
  }

  lemma RatioAtLeast(spent: real, budget: real, threshold: real)
    requires budget > 0.0
    ensures Ratio(spent, budget) >= threshold <==> spent >= threshold * budget
  {
  }

  /** The guard reports exactly the spend that carries the total over the threshold. */
  lemma TriggersAtCrossing(spent: real, cost: real, budget: real, threshold: real)
    requires budget > 0.0
    ensures GuardCheck(spent, cost, budget, threshold) ==
            if spent - cost < threshold * budget <= spent then Triggered else NotTriggered
  {
  }

  /** What happens to the month's total, one call after the other. */
  datatype Ledger = Spend(cost: real) | ResetMonthly

  function Spent(events: seq<Ledger>): real {
    if |events| == 0 then 0.0
    else
      match events[|events| - 1]
      case Spend(c) => Spent(events[..|events| - 1]) + c
      case ResetMonthly => 0.0
  }

  predicate TriggeredAt(events: seq<Ledger>, i: int, budget: real, threshold: real) {
    && 0 <= i < |events| && events[i].Spend?
    && GuardCheck(Spent(events[..i + 1]), events[i].cost, budget, threshold).Triggered?
  }

  ghost predicate NoReset(events: seq<Ledger>, from: int, to: int) {
    forall k :: from <= k < to && 0 <= k < |events| ==> events[k].Spend?
  }

  ghost predicate NonNegative(events: seq<Ledger>) {
    forall k :: 0 <= k < |events| && events[k].Spend? ==> events[k].cost >= 0.0
  }

  lemma SpentStep(events: seq<Ledger>, i: nat)
    requires i < |events|
    ensures Spent(events[..i + 1]) == if events[i].Spend? then Spent(events[..i]) + events[i].cost else 0.0
  {
    assert events[..i + 1][..i] == events[..i];
  }

  lemma {:induction false} SpentGrows(events: seq<Ledger>, i: nat, j: nat)
    requires NonNegative(events) && i <= j <= |events| && NoReset(events, i, j)
    ensures 0.0 <= Spent(events[..i]) <= Spent(events[..j])
    decreases j
  {
    if i < j {
      SpentGrows(events, i, j - 1);
      SpentStep(events, j - 1);
    } else if i > 0 {
      SpentStep(events, i - 1);
      SpentGrows(events, i - 1, i - 1);
    }
  }

  /** Between two resets the guard triggers at most once. */
  lemma TriggersOnce(events: seq<Ledger>, i: nat, j: nat, budget: real, threshold: real)
    requires NonNegative(events) && budget > 0.0 && i < j < |events| && NoReset(events, i, j + 1)
    requires TriggeredAt(events, i, budget, threshold)
    ensures !TriggeredAt(events, j, budget, threshold)
  {
    TriggersAtCrossing(Spent(events[..i + 1]), events[i].cost, budget, threshold);
    TriggersAtCrossing(Spent(events[..j + 1]), events[j].cost, budget, threshold);
    SpentStep(events, j);
    SpentGrows(events, i + 1, j);
  }

  /** The guard is active exactly when it has triggered since the last reset, or needs no spend at all. */
  lemma {:induction false} GuardActiveIff(events: seq<Ledger>, n: nat, budget: real, threshold: real)
    requires NonNegative(events) && budget > 0.0 && n <= |events|
    ensures Ratio(Spent(events[..n]), budget) >= threshold <==>
            threshold <= 0.0 || exists i :: TriggeredAt(events, i, budget, threshold) && i < n && NoReset(events, i, n)
    decreases n
  {
    RatioAtLeast(Spent(events[..n]), budget, threshold);
    SpentGrows(events, n, n);
    if threshold <= 0.0 {
      assert threshold * budget <= 0.0;
    } else {
      assert threshold * budget > 0.0;
      if n > 0 {
        GuardActiveStep(events, n, budget, threshold);
        GuardActiveIff(events, n - 1, budget, threshold);
        RatioAtLeast(Spent(events[..n - 1]), budget, threshold);
      }
    }
  }

  lemma GuardActiveStep(events: seq<Ledger>, n: nat, budget: real, threshold: real)
    requires NonNegative(events) && budget > 0.0 && 0 < n <= |events|
    ensures Spent(events[..n]) == if events[n - 1].Spend? then Spent(events[..n - 1]) + events[n - 1].cost else 0.0
    ensures TriggeredAt(events, n - 1, budget, threshold) <==>
              events[n - 1].Spend? && Spent(events[..n - 1]) < threshold * budget <= Spent(events[..n])
    ensures forall i :: 0 <= i < n - 1 ==> (NoReset(events, i, n) <==> NoReset(events, i, n - 1) && events[n - 1].Spend?)
    ensures NoReset(events, n - 1, n) <==> events[n - 1].Spend?
  {
    SpentStep(events, n - 1);
    if events[n - 1].Spend? {
      TriggersAtCrossing(Spent(events[..n]), events[n - 1].cost, budget, threshold);
    }
  }

  // ---------------------------------------------------------------- the router

  datatype Policy = Cost | Latency | Quality | Privacy

  datatype Decision = Decision(model: Model, policy: Policy, breakerActive: bool)

  const DEFAULT: Model := ("openai", "gpt-4o-mini")
  const ZERO_RETENTION: Model := ("custom-openai", "default")

  function OrDefault(m: Option<Model>): Model {
    if m.Some? then m.value else DEFAULT
  }

  function PolicyModel(t: CostTable, lower: string -> string, policy: Policy): Model {
    match policy
    case Cost => OrDefault(CheapestModel(t, lower))
    case Latency => DEFAULT
    case Quality => ("openai", "gpt-4o")
    case Privacy => ZERO_RETENTION
  }

  /** `_fallback_provider` */
  function Fallback(primary: string): Option<Model> {
    if primary == "openai" then Some(("anthropic", "claude-3-haiku"))
    else if primary == "anthropic" then Some(DEFAULT)
    else if primary == "custom-openai" then Some(DEFAULT)
    else None
  }

  /** The decision of `route`, given whether the primary provider's breaker is open. */
  function Routed(
    t: CostTable, lower: string -> string, ratio: real, threshold: real, policy: Policy, privacy: bool, open: bool): Decision
  {
    if ratio >= threshold then
      var m := CheapestModel(t, lower);
      Decision(OrDefault(m), if m.Some? then Cost else policy, false)
    else if privacy then Decision(ZERO_RETENTION, Privacy, false)
    else
      var m := PolicyModel(t, lower, policy);
      Decision(if open && Fallback(m.0).Some? then Fallback(m.0).value else m, policy, open)
  }

  class LLMRouter {
    const costTable: CostTable
    const lower: string -> string
    const budget: real
    const threshold: real
    const breaker: CircuitBreaker
    var spent: real

    constructor (costTable: CostTable, lower: string -> string, budget: real, threshold: real, breaker: CircuitBreaker)
      ensures this.costTable == costTable && this.lower == lower && this.budget == budget
      ensures this.threshold == threshold && this.breaker == breaker && spent == 0.0
    {
      this.costTable, this.lower, this.budget, this.threshold := costTable, lower, budget, threshold;
      this.breaker, spent := breaker, 0.0;
    }

    /** `route`; only policy routing asks the breaker, at the time and error rate given. */
    method Route(policy: Policy, privacyRequired: bool, now: real, rate: string -> real) returns (d: Decision)
      modifies breaker
      ensures var primary := PolicyModel(costTable, lower, policy).0;
              var asked := Ratio(spent, budget) < threshold && !privacyRequired;
              && breaker.states == (if asked
                                    then Apply(breaker.errorThreshold, old(breaker.states), Check(primary, now, rate(primary)))
                                    else old(breaker.states))
              && d == Routed(costTable, lower, Ratio(spent, budget), threshold, policy, privacyRequired,
                             asked && In(breaker.states, primary, Open))
              && (asked ==> (d.model.0 == primary <==>
                    !In(breaker.states, primary, Open) || primary !in {"openai", "anthropic", "custom-openai"}))
    {
      var budgetRatio := Ratio(spent, budget);
      if budgetRatio >= threshold {
        var cheapest := CheapestModel(costTable, lower);
        if cheapest.Some? {
          return Decision(cheapest.value, Cost, false);
        }
        return Decision(DEFAULT, policy, false);
      }
      if privacyRequired {
        return Decision(ZERO_RETENTION, Privacy, false);
      }
      var model := PolicyModel(costTable, lower, policy);
      var status := breaker.CheckProvider(model.0, now, rate(model.0));
      var active := status.state.Open?;
      if active {
        var alt := Fallback(model.0);
        if alt.Some? {
          model := alt.value;
        }
      }
      d := Decision(model, policy, active);
    }

    method RecordCost(cost: real)
      modifies this`spent
      ensures spent == old(spent) + cost
    {
      spent := spent + cost;
    }
  }

  class CostGuard {
    const router: LLMRouter

    constructor (router: LLMRouter)
      ensures this.router == router
    {
      this.router := router;
    }

    /** `record_spend` when no other spend interleaves. */
    method RecordSpend(cost: real) returns (r: SpendResult)
      modifies router`spent
      ensures router.spent == old(router.spent) + cost
      ensures r == GuardCheck(router.spent, cost, router.budget, router.threshold)
      ensures router.budget > 0.0 ==>
                (r.Triggered? <==> old(router.spent) < router.threshold * router.budget <= router.spent)
      ensures router.budget == 0.0 ==> r == if router.threshold > 0.0 then NotTriggered else DivisionByZero
    {
      router.RecordCost(cost);
      var budgetRatio := Ratio(router.spent, router.budget);
      if router.budget > 0.0 {
        TriggersAtCrossing(router.spent, cost, router.budget, router.threshold);
      }
      if budgetRatio < router.threshold {
        return NotTriggered;
      }
      if router.budget == 0.0 {
        return DivisionByZero;
      }
      r := if budgetRatio - cost / router.budget < router.threshold then Triggered else NotTriggered;
    }

    method ResetMonthly()
      modifies router`spent
      ensures router.spent == 0.0
    {
      router.spent := 0.0;
    }
  }

  /** From the spend that triggers the guard until the next reset, every route picks a model of minimal cost. */
  lemma RoutesAreCheapestAfterTrigger(
    t: CostTable, lower: string -> string, events: seq<Ledger>, i: nat, n: nat, budget: real, threshold: real,
    policy: Policy, privacy: bool, open: bool)
    requires DistinctNames(t) && (forall k :: 0 <= k < |t| ==> lower(t[k].name) == t[k].name) && ListModels(t) != []
    requires NonNegative(events) && budget > 0.0 && i < n <= |events| && NoReset(events, i, n)
    requires TriggeredAt(events, i, budget, threshold)
    ensures IsCheapest(t, Routed(t, lower, Ratio(Spent(events[..n]), budget), threshold, policy, privacy, open).model)
  {
    hide IsCheapest, IsEntry, Cheapest, ListModels, DistinctNames, Spent, TriggeredAt, NoReset, Ratio;
    GuardActiveIff(events, n, budget, threshold);
    CheapestModelIsCheapest(t, lower);
  }

  /** While the guard is active the cheapest model answers, or the default if the table is empty, and no breaker counts. */
  lemma ActiveGuardRoutes(
    t: CostTable, lower: string -> string, ratio: real, threshold: real, policy: Policy, privacy: bool, open: bool)
    requires ratio >= threshold && DistinctNames(t) && forall k :: 0 <= k < |t| ==> lower(t[k].name) == t[k].name
    ensures var d := Routed(t, lower, ratio, threshold, policy, privacy, open);
            && !d.breakerActive
            && (if forall m, c :: !IsEntry(t, m, c) then d.model == ("openai", "gpt-4o-mini") && d.policy == policy
                else IsCheapest(t, d.model) && d.policy == Cost)
  {
    hide IsEntry, Cheapest, ListModels, DistinctNames;
    CheapestModelIsCheapest(t, lower);
  }

  /** Otherwise, and without the privacy flag, each policy has its model as long as the breaker of that provider is not open. */
  lemma PolicyRoutes(t: CostTable, lower: string -> string, ratio: real, threshold: real, policy: Policy)
    requires ratio < threshold && DistinctNames(t) && forall k :: 0 <= k < |t| ==> lower(t[k].name) == t[k].name
    ensures var d := Routed(t, lower, ratio, threshold, policy, false, false);
            && d.policy == policy && !d.breakerActive
            && (policy == Privacy ==> d.model == ("custom-openai", "default"))
            && (policy == Latency ==> d.model == ("openai", "gpt-4o-mini"))
            && (policy == Quality ==> d.model == ("openai", "gpt-4o"))
            && (policy == Cost ==> if forall m, c :: !IsEntry(t, m, c) then d.model == ("openai", "gpt-4o-mini")
                                   else IsCheapest(t, d.model))
  {
    hide IsEntry, Cheapest, ListModels, DistinctNames;
    CheapestModelIsCheapest(t, lower);
  }

  /** With that breaker open three providers have a fallback, and any other is kept. */
  lemma OpenBreakerRoutes(t: CostTable, lower: string -> string, ratio: real, threshold: real, policy: Policy)
    requires ratio < threshold
    ensures var primary := Routed(t, lower, ratio, threshold, policy, false, false).model;
            var d := Routed(t, lower, ratio, threshold, policy, false, true);
            && d.policy == policy && d.breakerActive
            && d.model == if primary.0 == "openai" then ("anthropic", "claude-3-haiku")
                          else if primary.0 == "anthropic" || primary.0 == "custom-openai" then ("openai", "gpt-4o-mini")
                          else primary
  {
    hide CheapestModel;
  }

  /**
   A request that requires privacy, by flag or by policy, goes to the zero-retention provider if and only if the
   guard is inactive and the provider's breaker is not open (which only the policy asks), or the cheapest model is that one.
   */
  lemma PrivacyIsKeptIff(
    t: CostTable, lower: string -> string, ratio: real, threshold: real, policy: Policy, privacy: bool, open: bool)
    requires privacy || policy == Privacy
    ensures Routed(t, lower, ratio, threshold, policy, privacy, open).model == ("custom-openai", "default") <==>
            if ratio < threshold then privacy || !open
            else CheapestModel(t, lower) == Some(("custom-openai", "default"))
    ensures privacy && ratio < threshold ==>
              Routed(t, lower, ratio, threshold, policy, privacy, open) == Decision(("custom-openai", "default"), Privacy, false)
  {
  }
}
