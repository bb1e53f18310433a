// Model of packages/provider/src/registry.ts: the published list of providers and the indexes derived from it.

module ProviderRegistries {
  import opened Options
  import opened ProviderOrder

  datatype ProviderModel = ProviderModel(modelId: Id, config: string, levels: seq<string>)

  datatype Provider = Provider(providerId: Id, config: string, models: seq<ProviderModel>)

  datatype View = View(revision: nat, providers: seq<Provider>)

  datatype Selection = Selection(providerId: Id, modelId: Id, level: Option<string>)

  datatype Validation =
    | Valid | ProviderNotFound | ModelNotFound | LevelMissing | LevelNotSupported(supported: seq<string>)

  // -- Linear scans --

  function ScanModels(models: seq<ProviderModel>, id: Id): Option<ProviderModel> {
    if models == [] then None
    else if models[0].modelId == id then Some(models[0])
    else ScanModels(models[1..], id)
  }

  function ScanProviders(providers: seq<Provider>, id: Id): Option<Provider> {
    if providers == [] then None
    else if providers[0].providerId == id then Some(providers[0])
    else ScanProviders(providers[1..], id)
  }

  function ScanFor(providers: seq<Provider>, providerId: Id, modelId: Id): Option<ProviderModel> {
    match ScanProviders(providers, providerId)
    case None => None
    case Some(provider) => ScanModels(provider.models, modelId)
  }

  predicate ModelsOnce(models: seq<ProviderModel>) {
    forall i, j | 0 <= i < j < |models| :: models[i].modelId != models[j].modelId
  }

  // No provider id repeats, nor a model id within a provider.
  predicate NoRepeats(providers: seq<Provider>) {
    && (forall i, j | 0 <= i < j < |providers| :: providers[i].providerId != providers[j].providerId)
    && forall i | 0 <= i < |providers| :: ModelsOnce(providers[i].models)
  }

  ghost predicate IndexesModels(index: map<Id, ProviderModel>, models: seq<ProviderModel>) {
    forall id :: Get(index, id) == ScanModels(models, id)
  }

  ghost predicate IndexesProviders(index: map<Id, Provider>, providers: seq<Provider>) {
    forall id :: Get(index, id) == ScanProviders(providers, id)
  }

  lemma {:induction false} ScanLastModel(models: seq<ProviderModel>, last: ProviderModel, id: Id)
    ensures ScanModels(models + [last], id)
         == if ScanModels(models, id).Some? then ScanModels(models, id)
            else if last.modelId == id then Some(last) else None
    ensures ScanModels(models, id).Some? <==> exists i :: 0 <= i < |models| && models[i].modelId == id
    decreases |models|
  {
    if models == [] {
      assert models + [last] == [last];
    } else {
      assert (models + [last])[1..] == models[1..] + [last];
      ScanLastModel(models[1..], last, id);
    }
  }

  lemma {:induction false} ScanLastProvider(providers: seq<Provider>, last: Provider, id: Id)
    ensures ScanProviders(providers + [last], id)
         == if ScanProviders(providers, id).Some? then ScanProviders(providers, id)
            else if last.providerId == id then Some(last) else None
    ensures ScanProviders(providers, id).Some? <==> exists i :: 0 <= i < |providers| && providers[i].providerId == id
    decreases |providers|
  {
    if providers == [] {
      assert providers + [last] == [last];
    } else {
      assert (providers + [last])[1..] == providers[1..] + [last];
      ScanLastProvider(providers[1..], last, id);
    }
  }

  lemma {:induction false} AnotherModel(front: seq<ProviderModel>, last: ProviderModel, index: map<Id, ProviderModel>)
    requires IndexesModels(index, front)
    ensures ModelsOnce(front + [last]) <==> ModelsOnce(front) && last.modelId !in index
    ensures last.modelId !in index ==> IndexesModels(index[last.modelId := last], front + [last])
  {
    var all := front + [last];
    forall id
      ensures last.modelId !in index ==> Get(index[last.modelId := last], id) == ScanModels(all, id)
    {
      ScanLastModel(front, last, id);
      assert Get(index, id) == ScanModels(front, id);
    }
    ScanLastModel(front, last, last.modelId);
    assert Get(index, last.modelId) == ScanModels(front, last.modelId);
    assert forall i | 0 <= i < |front| :: all[i] == front[i];
    assert all[|front|] == last;
  }

  // The index of one provider's models, or the news that a model id repeats.
  method IndexModels(models: seq<ProviderModel>) returns (index: Option<map<Id, ProviderModel>>)
    ensures index.Some? <==> ModelsOnce(models)
    ensures index.Some? ==> IndexesModels(index.value, models)
  {
    var result: map<Id, ProviderModel> := map[];
    var i := 0;
    while i < |models|
      invariant i <= |models| && ModelsOnce(models[..i])
      invariant IndexesModels(result, models[..i])
    {
      var model := models[i];
      assert models[..i + 1] == models[..i] + [model];
      AnotherModel(models[..i], model, result);
      if model.modelId in result {
        assert forall k | 0 <= k < i + 1 :: models[..i + 1][k] == models[k];
        return None;
      }
      result := result[model.modelId := model];
      i := i + 1;
    }
    assert models[..i] == models;
    return Some(result);
  }

  ghost predicate Agrees(providers: seq<Provider>, byId: map<Id, Provider>, models: map<Id, map<Id, ProviderModel>>) {
    && IndexesProviders(byId, providers)
    && models.Keys == byId.Keys
    && forall id | id in byId :: IndexesModels(models[id], byId[id].models)
  }

  lemma {:induction false} AnotherProvider(front: seq<Provider>, last: Provider, byId: map<Id, Provider>)
    requires IndexesProviders(byId, front)
    ensures NoRepeats(front + [last]) <==> NoRepeats(front) && last.providerId !in byId && ModelsOnce(last.models)
    ensures last.providerId !in byId ==> IndexesProviders(byId[last.providerId := last], front + [last])
  {
    hide ModelsOnce;
    var all := front + [last];
    forall id
      ensures last.providerId !in byId ==> Get(byId[last.providerId := last], id) == ScanProviders(all, id)
    {
      ScanLastProvider(front, last, id);
      assert Get(byId, id) == ScanProviders(front, id);
    }
    ScanLastProvider(front, last, last.providerId);
    assert Get(byId, last.providerId) == ScanProviders(front, last.providerId);
    assert forall i | 0 <= i < |front| :: all[i] == front[i];
    assert all[|front|] == last;
  }

  lemma {:induction false} NothingYet()
    ensures NoRepeats([]) && Agrees([], map[], map[])
  {
  }

  lemma {:induction false} RepeatsStay(providers: seq<Provider>, n: nat)
    requires n <= |providers| && !NoRepeats(providers[..n])
    ensures !NoRepeats(providers)
  {
    assert forall i | 0 <= i < n :: providers[..n][i] == providers[i];
  }

  class ProviderRegistry {
    var view: View
    var providerById: map<Id, Provider>
    var modelByProviderId: map<Id, map<Id, ProviderModel>>

    // The indexes agree with a linear scan of the view.
    ghost predicate Coherent()
      reads this
    {
      Agrees(view.providers, providerById, modelByProviderId)
    }

    constructor ()
      ensures view == View(0, []) && Coherent()
    {
      view := View(0, []);
      providerById, modelByProviderId := map[], map[];
    }

    // The view is replaced first; the indexes follow only if no id repeats.
    method Replace(providers: seq<Provider>) returns (ok: bool)
      modifies this
      ensures view == View(old(view.revision) + 1, providers)
      ensures ok <==> NoRepeats(providers)
      ensures ok ==> Coherent()
      ensures !ok ==> providerById == old(providerById) && modelByProviderId == old(modelByProviderId)
    {
      view := View(view.revision + 1, providers);
      ok := RebuildIndexes();
    }

    method RebuildIndexes() returns (ok: bool)
      modifies this`providerById, this`modelByProviderId
      ensures ok <==> NoRepeats(view.providers)
      ensures ok ==> Coherent()
      ensures !ok ==> providerById == old(providerById) && modelByProviderId == old(modelByProviderId)
    {
      hide NoRepeats, IndexesProviders, IndexesModels, ModelsOnce;
      var providers := view.providers;
      var byId: map<Id, Provider> := map[];
      var models: map<Id, map<Id, ProviderModel>> := map[];
      var i := 0;
      NothingYet();
      while i < |providers|
        invariant i <= |providers| && NoRepeats(providers[..i])
        invariant Agrees(providers[..i], byId, models)
        invariant providerById == old(providerById) && modelByProviderId == old(modelByProviderId)
      {
        var provider := providers[i];
        assert providers[..i + 1] == providers[..i] + [provider];
        AnotherProvider(providers[..i], provider, byId);
        if provider.providerId in byId {
          RepeatsStay(providers, i + 1);
          return false;
        }
        byId := byId[provider.providerId := provider];
        var index := IndexModels(provider.models);
        if index.None? {
          RepeatsStay(providers, i + 1);
          return false;
        }
        models := models[provider.providerId := index.value];
        i := i + 1;
      }
      assert providers[..i] == providers;
      providerById, modelByProviderId := byId, models;
      ok := true;
    }

    method GetModel(providerId: Id, modelId: Id) returns (r: Option<ProviderModel>)
      ensures Coherent() ==> r == ScanFor(view.providers, providerId, modelId)
    {
      if providerId in modelByProviderId && modelId in modelByProviderId[providerId] {
        return Some(modelByProviderId[providerId][modelId]);
      }
      return None;
    }

    // A selection is valid exactly if the view lists its provider, the model there, and the model supports the level.
    method ValidateSelection(selection: Selection) returns (r: Validation)
      ensures var model := ScanFor(view.providers, selection.providerId, selection.modelId);
              Coherent() ==>
              r == if ScanProviders(view.providers, selection.providerId).None? then ProviderNotFound
                   else if model.None? then ModelNotFound
                   else if selection.level.None? then LevelMissing
                   else if selection.level.value in model.value.levels then Valid
                   else LevelNotSupported(model.value.levels)
    {
      if selection.providerId !in providerById {
        return ProviderNotFound;
      }
      var model := GetModel(selection.providerId, selection.modelId);
      if model.None? {
        return ModelNotFound;
      }
      if selection.level.None? {
        return LevelMissing;
      }
      r := if selection.level.value in model.value.levels then Valid else LevelNotSupported(model.value.levels);
    }
  }
}
