// Model of packages/provider/src/resolver.ts: which providers and models are published, and in which order.

module ProviderResolver {
  import opened Options
  import opened ProviderOrder
  import opened ProviderRegistries

  // What overlaying the layers makes of one provider. The layers themselves are not part of this model.
  datatype Effective = Effective(
    family: bool,
    isAccount: bool,
    ruleEnabled: Option<bool>,
    entitled: bool,
    complete: bool,
    template: Option<Id>,
    builtinModelIds: seq<Id>,
    personalModelIds: seq<Id>,
    modelOrder: seq<Id>,
    config: string)

  datatype ModelState = ModelState(enabled: bool, complete: bool, config: string, levels: seq<string>)

  datatype Input = Input(
    builtin: seq<Id>,
    personal: seq<Id>,
    effective: seq<Id>,
    rules: map<Id, Effective>,
    templates: set<Id>,
    notCurrent: set<Id>,
    requested: seq<Id>,
    model: (Id, Id) -> ModelState)

  // Overlaying merges the keys of the two layers.
  ghost predicate WellFormed(input: Input) {
    && Distinct(input.effective)
    && (forall id :: id in input.effective <==> id in input.builtin || id in input.personal)
    && forall id :: id in input.effective <==> id in input.rules
  }

  function ProvidersInOrder(input: Input): seq<Id> {
    var family := set id | id in input.rules && input.rules[id].family;
    ResolveProviderOrder(input.effective, family, input.builtin, input.personal, input.requested)
  }

  function ModelsInOrder(rule: Effective): seq<Id> {
    var builtin := Unique(rule.builtinModelIds);
    ResolveOwnedOrder(builtin, Drop(Unique(rule.personalModelIds), Members(builtin)), rule.modelOrder)
  }

  predicate HasNoIssues(input: Input, rule: Effective) {
    rule.complete && (rule.template.Some? ==> rule.template.value in input.templates)
  }

  predicate ProviderExecutable(input: Input, id: Id, rule: Effective) {
    && (rule.isAccount || rule.ruleEnabled.None? || rule.ruleEnabled.value)
    && (!rule.isAccount || rule.entitled)
    && id !in input.notCurrent
    && HasNoIssues(input, rule)
  }

  predicate Executable(input: Input, id: Id, rule: Effective, modelId: Id) {
    && ProviderExecutable(input, id, rule)
    && input.model(id, modelId).enabled
    && input.model(id, modelId).complete
  }

  // -- What is published --

  function PublishedModels(input: Input, id: Id, rule: Effective, order: seq<Id>): seq<ProviderModel> {
    if order == [] then []
    else var front, last := order[..|order| - 1], order[|order| - 1];
         PublishedModels(input, id, rule, front)
         + if Executable(input, id, rule, last) then [ModelOf(input, id, last)] else []
  }

  function ModelOf(input: Input, id: Id, modelId: Id): ProviderModel {
    ProviderModel(modelId, input.model(id, modelId).config, input.model(id, modelId).levels)
  }

  function Published(input: Input, order: seq<Id>): seq<Provider>
    requires forall id | id in order :: id in input.rules
  {
    if order == [] then []
    else var front, last := order[..|order| - 1], order[|order| - 1];
         var rule := input.rules[last];
         var models := PublishedModels(input, last, rule, ModelsInOrder(rule));
         Published(input, front) + if models == [] then [] else [Provider(last, rule.config, models)]
  }

  method OrderModels(rule: Effective) returns (order: seq<Id>)
    ensures order == ModelsInOrder(rule)
  {
    var builtin := UniqueInOrder(rule.builtinModelIds);
    var personal := UniqueInOrder(rule.personalModelIds);
    order := ResolveOwnedOrder(builtin, Drop(personal, Members(builtin)), rule.modelOrder);
  }

  method ResolveModels(input: Input, id: Id, rule: Effective) returns (models: seq<ProviderModel>)
    ensures models == PublishedModels(input, id, rule, ModelsInOrder(rule))
  {
    hide Executable, ModelsInOrder;
    var order := OrderModels(rule);
    models := [];
    var i := 0;
    while i < |order|
      invariant i <= |order| && models == PublishedModels(input, id, rule, order[..i])
    {
      assert order[..i + 1][..i] == order[..i];
      if Executable(input, id, rule, order[i]) {
        models := models + [ModelOf(input, id, order[i])];
      }
      i := i + 1;
    }
    assert order[..i] == order;
  }

  method Resolve(input: Input) returns (providers: seq<Provider>)
    requires WellFormed(input)
    ensures OrderIsKnown(input) && providers == Published(input, ProvidersInOrder(input))
  {
    hide ResolveProviderOrder, PublishedModels, ModelsInOrder;
    OrderCoversEffective(input);
    var order := ProvidersInOrder(input);
    providers := [];
    var i := 0;
    while i < |order|
      invariant i <= |order| && providers == Published(input, order[..i])
    {
      assert order[..i + 1][..i] == order[..i];
      var rule := input.rules[order[i]];
      var models := ResolveModels(input, order[i], rule);
      i := i + 1;
      if !HasNoIssues(input, rule) {
        NothingExecutable(input, order[i - 1], rule, ModelsInOrder(rule));
        continue;
      }
      if |models| == 0 {
        continue;
      }
      providers := providers + [Provider(order[i - 1], rule.config, models)];
    }
    assert order[..i] == order;
  }

  lemma {:induction false} NothingExecutable(input: Input, id: Id, rule: Effective, order: seq<Id>)
    requires !HasNoIssues(input, rule)
    ensures PublishedModels(input, id, rule, order) == []
    decreases |order|
  {
    if order != [] {
      NothingExecutable(input, id, rule, order[..|order| - 1]);
    }
  }

  ghost predicate OrderIsKnown(input: Input) {
    forall id | id in ProvidersInOrder(input) :: id in input.rules
  }

  lemma {:induction false} OrderCoversEffective(input: Input)
    requires WellFormed(input)
    ensures OrderIsKnown(input) && Distinct(ProvidersInOrder(input))
    ensures forall id :: id in ProvidersInOrder(input) <==> id in input.rules
  {
    hide ResolveProviderOrder;
    var family := set id | id in input.rules && input.rules[id].family;
    var order := ProvidersInOrder(input);
    ProviderOrderIsAPermutation(input.effective, family, input.builtin, input.personal, input.requested);
    assert forall id :: id in order <==> id in multiset(order);
    assert forall id :: id in input.effective <==> id in multiset(input.effective);
  }

  // -- What the published list offers --

  lemma {:induction false} ModelsOffered(input: Input, id: Id, rule: Effective, order: seq<Id>, m: Id)
    requires Distinct(order)
    ensures ScanModels(PublishedModels(input, id, rule, order), m)
         == if m in order && Executable(input, id, rule, m) then Some(ModelOf(input, id, m)) else None
    ensures ModelsOnce(PublishedModels(input, id, rule, order))
    ensures forall i | 0 <= i < |PublishedModels(input, id, rule, order)| ::
      PublishedModels(input, id, rule, order)[i].modelId in order
    decreases |order|
  {
    hide Executable;
    if order != [] {
      var n := |order| - 1;
      var front := PublishedModels(input, id, rule, order[..n]);
      var last := ModelOf(input, id, order[n]);
      ModelsOffered(input, id, rule, order[..n], m);
      ScanLastModel(front, last, m);
      assert order == order[..n] + [order[n]] && front + [] == front;
      assert PublishedModels(input, id, rule, order)
          == front + if Executable(input, id, rule, order[n]) then [last] else [];
      assert m in order <==> m in order[..n] || m == order[n];
      assert order[n] !in order[..n];
    }
  }

  // The model ids of a provider, whatever the requested order: the built-in and the personal ones.
  predicate IsModelOf(rule: Effective, m: Id) {
    m in rule.builtinModelIds || m in rule.personalModelIds
  }

  lemma {:induction false} ModelOrderCovers(rule: Effective)
    ensures Distinct(ModelsInOrder(rule))
    ensures forall m :: m in ModelsInOrder(rule) <==> IsModelOf(rule, m)
  {
    hide ResolveOwnedOrder, Unique;
    var builtin := Unique(rule.builtinModelIds);
    OwnedOrderIsOrdered(builtin, Drop(Unique(rule.personalModelIds), Members(builtin)), rule.modelOrder);
  }

  lemma {:induction false} ProvidersOffered(input: Input, order: seq<Id>, p: Id)
    requires Distinct(order) && forall id | id in order :: id in input.rules
    ensures var models := if p in input.rules
                          then PublishedModels(input, p, input.rules[p], ModelsInOrder(input.rules[p])) else [];
            ScanProviders(Published(input, order), p)
            == if p in order && models != [] then Some(Provider(p, input.rules[p].config, models)) else None
    ensures NoRepeats(Published(input, order))
    ensures forall i | 0 <= i < |Published(input, order)| :: Published(input, order)[i].providerId in order
    decreases |order|
  {
    hide PublishedModels, ModelsInOrder, ModelsOnce, Published, ScanProviders;
    if order == [] {
      NothingPublished(input, p);
    } else {
      var n := |order| - 1;
      var rule := input.rules[order[n]];
      var models := PublishedModels(input, order[n], rule, ModelsInOrder(rule));
      var front, last := Published(input, order[..n]), Provider(order[n], rule.config, models);
      assert p in order <==> p in order[..n] || p == order[n];
      assert order[n] !in order[..n];
      ProvidersOffered(input, order[..n], p);
      ModelOrderCovers(rule);
      ModelsOffered(input, order[n], rule, ModelsInOrder(rule), "");
      ScanLastProvider(front, last, p);
      LastPublished(input, order);
    }
  }

  lemma {:induction false} NothingPublished(input: Input, p: Id)
    ensures Published(input, []) == [] && ScanProviders([], p) == None
  {
  }

  lemma {:induction false} LastPublished(input: Input, order: seq<Id>)
    requires order != [] && forall id | id in order :: id in input.rules
    ensures var n := |order| - 1;
            var rule := input.rules[order[n]];
            var models := PublishedModels(input, order[n], rule, ModelsInOrder(rule));
      Published(input, order)
      == if models == [] then Published(input, order[..n])
         else Published(input, order[..n]) + [Provider(order[n], rule.config, models)]
  {
    hide PublishedModels, ModelsInOrder;
  }

  function ProviderIds(providers: seq<Provider>): seq<Id> {
    if providers == [] then []
    else ProviderIds(providers[..|providers| - 1]) + [providers[|providers| - 1].providerId]
  }

  function Offering(input: Input): set<Id> {
    set id | id in input.rules && PublishedModels(input, id, input.rules[id], ModelsInOrder(input.rules[id])) != []
  }

  // The published providers come in the order of all providers, those without an executable model left out.
  lemma {:induction false} PublishedInOrder(input: Input, order: seq<Id>)
    requires forall id | id in order :: id in input.rules
    ensures ProviderIds(Published(input, order)) == Keep(order, Offering(input))
    decreases |order|
  {
    hide PublishedModels, ModelsInOrder;
    if order != [] {
      var n := |order| - 1;
      PublishedInOrder(input, order[..n]);
      var front := Published(input, order[..n]);
      var rule := input.rules[order[n]];
      var models := PublishedModels(input, order[n], rule, ModelsInOrder(rule));
      var last := Provider(order[n], rule.config, models);
      assert (front + [last])[..|front|] == front && front + [] == front;
    }
  }

  // The resolver's output repeats no id, so the registry accepts it, and it offers exactly the executable models of the
  // effective providers.
  lemma {:induction false} ResolvedProvidersOfferTheExecutable(input: Input, p: Id, m: Id)
    requires WellFormed(input)
    ensures OrderIsKnown(input)
    ensures var providers := Published(input, ProvidersInOrder(input));
      && NoRepeats(providers)
      && ScanFor(providers, p, m)
         == if p in input.rules && IsModelOf(input.rules[p], m) && Executable(input, p, input.rules[p], m)
            then Some(ModelOf(input, p, m)) else None
  {
    hide Published, PublishedModels, ModelsInOrder, ResolveProviderOrder, Executable, ProvidersInOrder;
    var order := ProvidersInOrder(input);
    OrderCoversEffective(input);
    ProvidersOffered(input, order, p);
    if p in input.rules {
      var rule := input.rules[p];
      ModelOrderCovers(rule);
      ModelsOffered(input, p, rule, ModelsInOrder(rule), m);
    }
  }
}
