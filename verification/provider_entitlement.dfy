// Which account providers packages/provider/src/resolver.ts publishes, told by the fields of its input and by the
// rounds of account queries that the entitlements come from.

module ProviderEntitlement {
  import opened Options
  import opened ProviderOrder
  import opened ProviderRegistries
  import opened ProviderResolver
  import opened AccountResolution

  function PublishedOf(input: Input): seq<Provider>
    requires WellFormed(input)
  {
    OrderCoversEffective(input);
    Published(input, ProvidersInOrder(input))
  }

  // Not unentitled, not switched off, current, complete, and of a known template if of any.
  predicate Usable(input: Input, p: Id) {
    && p in input.rules
    && var rule := input.rules[p];
       && (if rule.isAccount then rule.entitled else rule.ruleEnabled != Some(false))
       && p !in input.notCurrent
       && rule.complete
       && (rule.template == None || (rule.template.Some? && rule.template.value in input.templates))
  }

  predicate Offers(input: Input, p: Id, m: Id) {
    && p in input.rules
    && (m in input.rules[p].builtinModelIds || m in input.rules[p].personalModelIds)
    && input.model(p, m).enabled && input.model(p, m).complete
  }

  // -- What is published --

  // The models published are the enabled complete ones of usable providers, with their own configuration and levels.
  lemma {:induction false} PublishedModelsAre(input: Input, p: Id, m: Id)
    requires WellFormed(input)
    ensures ScanFor(PublishedOf(input), p, m)
         == if Usable(input, p) && Offers(input, p, m)
            then Some(ProviderModel(m, input.model(p, m).config, input.model(p, m).levels)) else None
  {
    hide Published, ProvidersInOrder, WellFormed, NoRepeats;
    ResolvedProvidersOfferTheExecutable(input, p, m);
  }

  // A provider is published exactly if it is usable and has such a model.
  lemma {:induction false} PublishedProvidersAre(input: Input, p: Id)
    requires WellFormed(input)
    ensures ScanProviders(PublishedOf(input), p).Some? <==> Usable(input, p) && exists m :: Offers(input, p, m)
    ensures ScanProviders(PublishedOf(input), p).Some? ==>
      ScanProviders(PublishedOf(input), p).value.config == input.rules[p].config
  {
    hide Published, PublishedModels, ProvidersInOrder, ModelsInOrder, WellFormed, NoRepeats, Usable, Offers;
    var order := ProvidersInOrder(input);
    OrderCoversEffective(input);
    ProvidersOffered(input, order, p);
    if p in input.rules {
      var rule := input.rules[p];
      var models := PublishedModels(input, p, rule, ModelsInOrder(rule));
      if models != [] {
        var m := models[0].modelId;
        assert ScanModels(models, m) == Some(models[0]);
        PublishedModelsAre(input, p, m);
      }
      forall m | Usable(input, p) && Offers(input, p, m)
        ensures models != []
      {
        PublishedModelsAre(input, p, m);
      }
    } else {
      assert !Usable(input, p) by { NotKnown(input, p); }
    }
  }

  lemma {:induction false} NotKnown(input: Input, p: Id)
    requires p !in input.rules
    ensures !Usable(input, p)
  {
  }

  // -- In which order --

  function ModelIds(models: seq<ProviderModel>): seq<Id> {
    seq(|models|, i requires 0 <= i < |models| => models[i].modelId)
  }

  predicate ComesBefore(ids: seq<Id>, x: Id, y: Id) {
    exists k, l | 0 <= k < l < |ids| :: ids[k] == x && ids[l] == y
  }

  // What is in `r` comes in the order of `ids`.
  ghost predicate InOrderOf(r: seq<Id>, ids: seq<Id>) {
    forall i, j | 0 <= i < j < |r| :: ComesBefore(ids, r[i], r[j])
  }

  lemma {:induction false} OneMoreInOrder(r: seq<Id>, ids: seq<Id>, last: Id)
    requires InOrderOf(r, ids) && forall id | id in r :: id in ids
    ensures InOrderOf(r, ids + [last]) && InOrderOf(r + [last], ids + [last])
  {
    var more := ids + [last];
    forall i, j | 0 <= i < j < |r| + 1
      ensures ComesBefore(more, (r + [last])[i], (r + [last])[j])
    {
      if j < |r| {
        assert ComesBefore(ids, r[i], r[j]);
        var k, l :| 0 <= k < l < |ids| && ids[k] == r[i] && ids[l] == r[j];
        assert more[k] == r[i] && more[l] == r[j];
      } else {
        assert r[i] in r;
        var k :| 0 <= k < |ids| && ids[k] == r[i];
        assert more[k] == r[i] && more[|ids|] == last;
      }
    }
    forall i, j | 0 <= i < j < |r|
      ensures ComesBefore(more, r[i], r[j])
    {
      assert (r + [last])[i] == r[i] && (r + [last])[j] == r[j];
    }
  }

  lemma {:induction false} ModelsKeepOrder(input: Input, id: Id, rule: Effective, order: seq<Id>)
    ensures var ids := ModelIds(PublishedModels(input, id, rule, order));
            InOrderOf(ids, order) && forall m | m in ids :: m in order
    decreases |order|
  {
    hide Executable, InOrderOf;
    if order == [] {
      NothingInOrder();
    } else {
      var n := |order| - 1;
      var front, last := PublishedModels(input, id, rule, order[..n]), ModelOf(input, id, order[n]);
      ModelsKeepOrder(input, id, rule, order[..n]);
      OneMoreInOrder(ModelIds(front), order[..n], order[n]);
      assert order == order[..n] + [order[n]] && front + [] == front;
      assert ModelIds(front + [last]) == ModelIds(front) + [order[n]];
    }
  }

  lemma {:induction false} NothingInOrder()
    ensures InOrderOf([], []) && ModelIds([]) == []
  {
  }

  lemma {:induction false} KeepsOrder(ids: seq<Id>, kept: set<Id>)
    ensures InOrderOf(Keep(ids, kept), ids)
    decreases |ids|
  {
    hide InOrderOf;
    if ids == [] {
      NothingInOrder();
    } else {
      var n := |ids| - 1;
      KeepsOrder(ids[..n], kept);
      OneMoreInOrder(Keep(ids[..n], kept), ids[..n], ids[n]);
      assert ids == ids[..n] + [ids[n]] && Keep(ids[..n], kept) + [] == Keep(ids[..n], kept);
    }
  }

  // The models of a published provider come in its model order: built-in ones nobody ordered, then the ordered ones,
  // then the other personal ones.
  lemma {:induction false} ModelsInTheirOrder(input: Input, p: Id, i: nat, j: nat)
    requires WellFormed(input) && ScanProviders(PublishedOf(input), p).Some?
    requires i < j < |ScanProviders(PublishedOf(input), p).value.models|
    ensures p in input.rules
    ensures var rule, models := input.rules[p], ScanProviders(PublishedOf(input), p).value.models;
            var builtin := Unique(rule.builtinModelIds);
            var personal := Drop(Unique(rule.personalModelIds), Members(builtin));
            Before(builtin, personal, rule.modelOrder, models[i].modelId, models[j].modelId)
  {
    hide Published, PublishedModels, ProvidersInOrder, WellFormed, NoRepeats, Usable, Offers, Before, InOrderOf,
         ResolveOwnedOrder, Unique, Drop;
    PublishedProvidersAre(input, p);
    UsableIsKnown(input, p);
    var rule := input.rules[p];
    var order := ProvidersInOrder(input);
    OrderCoversEffective(input);
    ProvidersOffered(input, order, p);
    var builtin := Unique(rule.builtinModelIds);
    var personal := Drop(Unique(rule.personalModelIds), Members(builtin));
    OwnedOrderIsOrdered(builtin, personal, rule.modelOrder);
    var ids := ResolveOwnedOrder(builtin, personal, rule.modelOrder);
    var models := PublishedModels(input, p, rule, ids);
    ModelsKeepOrder(input, p, rule, ids);
    var k, l := Placed(ModelIds(models), ids, i, j);
  }

  lemma {:induction false} Placed(r: seq<Id>, ids: seq<Id>, i: nat, j: nat) returns (k: nat, l: nat)
    requires InOrderOf(r, ids) && i < j < |r|
    ensures k < l < |ids| && ids[k] == r[i] && ids[l] == r[j]
  {
    assert ComesBefore(ids, r[i], r[j]);
    k, l :| 0 <= k < l < |ids| && ids[k] == r[i] && ids[l] == r[j];
  }

  lemma {:induction false} UsableIsKnown(input: Input, p: Id)
    requires Usable(input, p)
    ensures p in input.rules
  {
  }

  // The published providers: the families first, in the order of the effective keys, then the others as requested.
  lemma {:induction false} ProvidersInTheirOrder(input: Input, i: nat, j: nat)
    requires WellFormed(input) && i < j < |ProviderIds(PublishedOf(input))|
    ensures var family := set id | id in input.rules && input.rules[id].family;
            var builtin := Drop(input.builtin, Members(Keep(input.effective, family)));
            var personal := Drop(input.personal, Members(builtin) + Members(Keep(input.effective, family)));
            var x, y := ProviderIds(PublishedOf(input))[i], ProviderIds(PublishedOf(input))[j];
      && x in input.rules && y in input.rules
      && (input.rules[y].family ==> input.rules[x].family && First(input.effective, x) < First(input.effective, y))
      && (!input.rules[x].family ==> !input.rules[y].family && Before(builtin, personal, input.requested, x, y))
  {
    hide Published, WellFormed, Offering, Before, InOrderOf, Drop, First;
    var order := ProvidersInOrder(input);
    OrderCoversEffective(input);
    PublishedInOrder(input, order);
    KeepsOrder(order, Offering(input));
    var ids := ProviderIds(PublishedOf(input));
    var k, l := Placed(ids, order, i, j);
    var family := set id | id in input.rules && input.rules[id].family;
    EffectiveIsDistinct(input);
    FamiliesComeFirst(input.effective, family, input.builtin, input.personal, input.requested, k, l);
    assert ids[i] in order && ids[j] in order;
  }

  lemma {:induction false} EffectiveIsDistinct(input: Input)
    requires WellFormed(input)
    ensures Distinct(input.effective) && forall id :: id in input.effective <==> id in input.rules
  {
  }

  // -- Entitlements --

  function WithEntitlement(input: Input, p: Id, entitled: bool): Input
    requires p in input.rules
  {
    input.(rules := input.rules[p := input.rules[p].(entitled := entitled)])
  }

  // Taking the entitlement from an account provider takes away its models and nothing else.
  lemma {:induction false} RevokingRemovesIt(input: Input, p: Id, q: Id, m: Id)
    requires WellFormed(input) && p in input.rules && input.rules[p].isAccount
    ensures WellFormed(WithEntitlement(input, p, false))
    ensures ScanFor(PublishedOf(WithEntitlement(input, p, false)), q, m)
         == if q == p then None else ScanFor(PublishedOf(input), q, m)
  {
    hide PublishedOf, ScanFor;
    var revoked := WithEntitlement(input, p, false);
    PublishedModelsAre(input, q, m);
    PublishedModelsAre(revoked, q, m);
  }

  // Granting it to one that lacks nothing else offers its enabled complete models and changes nothing else.
  lemma {:induction false} GrantingOffersIt(input: Input, p: Id, q: Id, m: Id)
    requires WellFormed(input) && p in input.rules && input.rules[p].isAccount
    requires p !in input.notCurrent && input.rules[p].complete
    requires input.rules[p].template.None? || input.rules[p].template.value in input.templates
    ensures WellFormed(WithEntitlement(input, p, true))
    ensures ScanFor(PublishedOf(WithEntitlement(input, p, true)), q, m)
         == if q != p then ScanFor(PublishedOf(input), q, m)
            else if Offers(input, p, m)
            then Some(ProviderModel(m, input.model(p, m).config, input.model(p, m).levels)) else None
  {
    hide PublishedOf, ScanFor;
    var granted := WithEntitlement(input, p, true);
    PublishedModelsAre(input, q, m);
    PublishedModelsAre(granted, q, m);
  }

  // The account providers are entitled as the overlays say.
  ghost predicate EntitledBy(input: Input, overlays: Overlays) {
    forall p | p in input.rules && input.rules[p].isAccount :: input.rules[p].entitled <==> Entitled(overlays, p)
  }

  // Over any rounds of account queries: an account provider is published only if some round reported it available and
  // every round since kept it.
  lemma {:induction false} PublishedWereGranted(input: Input, trim: Id -> Id, rounds: seq<Round>, p: Id)
    requires WellFormed(input) && EntitledBy(input, OverlaysAfter(trim, rounds))
    requires p in input.rules && input.rules[p].isAccount && ScanProviders(PublishedOf(input), p).Some?
    ensures exists m: nat :: GrantedAndKept(rounds, p, m)
  {
    hide PublishedOf, ScanProviders, WellFormed, OverlaysAfter;
    PublishedProvidersAre(input, p);
    EntitlementHasASource(trim, rounds, p);
  }

  // After a fail-closed start no account provider is published.
  lemma {:induction false} FailClosedPublishesNone(input: Input, configured: Configured, p: Id)
    requires WellFormed(input) && EntitledBy(input, FailClosedOverlays(configured))
    requires p in input.rules && input.rules[p].isAccount
    ensures ScanProviders(PublishedOf(input), p) == None
  {
    hide PublishedOf, ScanProviders, WellFormed;
    PublishedProvidersAre(input, p);
  }
}
