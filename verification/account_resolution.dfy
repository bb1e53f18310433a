// Model of packages/provider/src/account-provider-resolution.ts and of the fail-closed overlay of sources.ts: what a
// round of account queries makes of the previous overlay, and where an entitlement comes from.

module AccountResolution {
  import opened Options
  import opened ProviderOrder

  datatype Access = ZhipuAccount(startPlan: bool) | OtherAccess

  type Configured = map<Id, Access>

  datatype Overlay = Overlay(entitled: bool, models: Option<seq<Id>>)

  type Overlays = map<Id, Overlay>

  datatype Status = Available | Pending | Unavailable | Unknown

  datatype Connection = Connection(
    providerId: Id,
    status: Status,
    resetPrevious: bool,
    models: seq<Id>,
    unavailableReason: Option<string>,
    current: Option<bool>,
    connectionKey: Option<string>,
    effectiveAt: Option<int>)

  datatype State = State(
    availability: Status,
    entitled: bool,
    unavailableReason: Option<string>,
    current: Option<bool>,
    connectionKey: Option<string>,
    effectiveAt: Option<int>)

  type States = map<Id, State>

  predicate IsAccount(configured: Configured, id: Id) {
    id in configured && configured[id].ZhipuAccount?
  }

  // -- Connections --

  function ConnectionFor(connections: seq<Connection>, id: Id): (r: Option<Connection>)
    ensures r.Some? ==> r.value in connections && r.value.providerId == id
    ensures r.None? ==> forall c | c in connections :: c.providerId != id
  {
    if connections == [] then None
    else if connections[|connections| - 1].providerId == id then Some(connections[|connections| - 1])
    else ConnectionFor(connections[..|connections| - 1], id)
  }

  // One result a provider, and only for configured account providers.
  predicate Acceptable(configured: Configured, connections: seq<Connection>) {
    connections == []
    || (var n := |connections| - 1;
        && Acceptable(configured, connections[..n])
        && IsAccount(configured, connections[n].providerId)
        && ConnectionFor(connections[..n], connections[n].providerId).None?)
  }

  lemma {:induction false} AcceptableStart(configured: Configured, connections: seq<Connection>, i: nat)
    requires i <= |connections| && Acceptable(configured, connections)
    ensures Acceptable(configured, connections[..i])
    decreases |connections|
  {
    if i == |connections| {
      assert connections[..i] == connections;
    } else {
      var front := connections[..|connections| - 1];
      assert front[..i] == connections[..i];
      AcceptableStart(configured, front, i);
    }
  }

  ghost predicate Indexed(index: map<Id, Connection>, connections: seq<Connection>) {
    forall id :: Get(index, id) == ConnectionFor(connections, id)
  }

  lemma {:induction false} IndexedLast(index: map<Id, Connection>, front: seq<Connection>, last: Connection)
    requires Indexed(index, front)
    ensures Indexed(index[last.providerId := last], front + [last])
  {
    var next := front + [last];
    assert next[..|next| - 1] == front;
    forall id
      ensures Get(index[last.providerId := last], id) == ConnectionFor(next, id)
    {
      assert Get(index, id) == ConnectionFor(front, id);
    }
  }

  lemma {:induction false} AcceptableNext(configured: Configured, connections: seq<Connection>, i: nat)
    requires i < |connections| && Acceptable(configured, connections[..i])
    ensures var id := connections[i].providerId;
            if ConnectionFor(connections[..i], id).Some? || !IsAccount(configured, id)
            then !Acceptable(configured, connections) else Acceptable(configured, connections[..i + 1])
  {
    var next := connections[..i + 1];
    assert next[..i] == connections[..i] && next[i] == connections[i];
    if Acceptable(configured, connections) {
      AcceptableStart(configured, connections, i + 1);
    }
  }

  // Acceptable connections are results for configured account providers, one for each at most.
  lemma {:induction false} AcceptableMeans(configured: Configured, connections: seq<Connection>)
    ensures Acceptable(configured, connections) <==>
      && (forall i | 0 <= i < |connections| :: IsAccount(configured, connections[i].providerId))
      && forall i, j | 0 <= i < j < |connections| :: connections[i].providerId != connections[j].providerId
    decreases |connections|
  {
    hide IsAccount, ConnectionFor;
    if connections != [] {
      var n := |connections| - 1;
      var front := connections[..n];
      AcceptableMeans(configured, front);
      NoneFor(front, connections[n].providerId);
      assert forall i | 0 <= i < n :: front[i] == connections[i];
    }
  }

  lemma {:induction false} NoneFor(connections: seq<Connection>, id: Id)
    ensures ConnectionFor(connections, id).None?
            <==> forall i | 0 <= i < |connections| :: connections[i].providerId != id
  {
    assert forall i | 0 <= i < |connections| :: connections[i] in connections;
  }

  method IndexConnections(configured: Configured, connections: seq<Connection>) returns (r: Option<map<Id, Connection>>)
    ensures r.Some? <==> Acceptable(configured, connections)
    ensures r.Some? ==> Indexed(r.value, connections)
  {
    hide Indexed, Acceptable;
    var result: map<Id, Connection> := map[];
    var i := 0;
    NothingIndexed(configured);
    while i < |connections|
      invariant i <= |connections| && Acceptable(configured, connections[..i])
      invariant Indexed(result, connections[..i])
    {
      var id := connections[i].providerId;
      AcceptableNext(configured, connections, i);
      LookedUp(result, connections[..i], id);
      if id in result {
        return None;
      }
      if id !in configured {
        return None;
      }
      if !configured[id].ZhipuAccount? {
        return None;
      }
      IndexedLast(result, connections[..i], connections[i]);
      assert connections[..i + 1] == connections[..i] + [connections[i]];
      result := result[id := connections[i]];
      i := i + 1;
    }
    assert connections[..i] == connections;
    return Some(result);
  }

  lemma {:induction false} LookedUp(index: map<Id, Connection>, connections: seq<Connection>, id: Id)
    requires Indexed(index, connections)
    ensures Get(index, id) == ConnectionFor(connections, id)
  {
  }

  lemma {:induction false} NothingIndexed(configured: Configured)
    ensures Indexed(map[], []) && Acceptable(configured, [])
  {
  }

  // -- One round --

  // Trims each id and leaves out the empty ones.
  function Normalized(trim: Id -> Id, values: seq<Id>): seq<Id> {
    if values == [] then []
    else var last := trim(values[|values| - 1]);
         Normalized(trim, values[..|values| - 1]) + if last == "" then [] else [last]
  }

  method NormalizeModelIds(trim: Id -> Id, values: seq<Id>) returns (result: seq<Id>)
    ensures result == Normalized(trim, values)
  {
    result := [];
    var i := 0;
    while i < |values|
      invariant i <= |values| && result == Normalized(trim, values[..i])
    {
      assert values[..i + 1][..i] == values[..i];
      var modelId := trim(values[i]);
      if modelId != "" {
        result := result + [modelId];
      }
      i := i + 1;
    }
    assert values[..i] == values;
  }

  // The normalized ids are the trimmed ones that are not empty.
  lemma {:induction false} NormalizedIds(trim: Id -> Id, values: seq<Id>, id: Id)
    ensures id in Normalized(trim, values) <==> id != "" && exists v :: v in values && trim(v) == id
    decreases |values|
  {
    if values != [] {
      var front, last := values[..|values| - 1], values[|values| - 1];
      NormalizedIds(trim, front, id);
      assert values == front + [last];
      assert forall v :: v in values <==> v in front || v == last;
    }
  }

  // And they keep their order.
  lemma {:induction false} NormalizedOfTwoParts(trim: Id -> Id, a: seq<Id>, b: seq<Id>)
    ensures Normalized(trim, a + b) == Normalized(trim, a) + Normalized(trim, b)
    decreases |b|
  {
    if b == [] {
      assert a + b == a;
    } else {
      var n := |b| - 1;
      assert (a + b)[..|a + b| - 1] == a + b[..n];
      NormalizedOfTwoParts(trim, a, b[..n]);
    }
  }

  // What the provider had before, unless its connection asks to forget it.
  function OverlayFor(trim: Id -> Id, access: Access, connection: Option<Connection>,
                      previous: Option<Overlay>): Overlay
    requires access.ZhipuAccount?
  {
    if connection.Some? && (connection.value.status.Available? || connection.value.status.Pending?) then
      Overlay(connection.value.status.Available?,
              if access.startPlan then Some(Normalized(trim, connection.value.models)) else None)
    else if connection.Some? && (connection.value.status.Unavailable? || connection.value.resetPrevious) then
      Overlay(false, None)
    else if previous.Some? then previous.value
    else Overlay(false, None)
  }

  function RoundOverlays(trim: Id -> Id, configured: Configured, previous: Overlays,
                         connections: seq<Connection>): Overlays
  {
    map id | id in configured && configured[id].ZhipuAccount? ::
      OverlayFor(trim, configured[id], ConnectionFor(connections, id), Get(previous, id))
  }

  method ResolveAccountProviderConfigs(trim: Id -> Id, configured: Configured, previous: Overlays,
                                       connections: seq<Connection>) returns (r: Option<Overlays>)
    ensures r.Some? <==> Acceptable(configured, connections)
    ensures r.Some? ==> r.value == RoundOverlays(trim, configured, previous, connections)
  {
    var index := IndexConnections(configured, connections);
    if index.None? {
      return None;
    }
    var resolved: Overlays := map[];
    var ids := configured.Keys;
    ghost var all := RoundOverlays(trim, configured, previous, connections);
    while ids != {}
      invariant ids <= configured.Keys
      invariant forall id :: Get(resolved, id) == if id in ids then None else Get(all, id)
      decreases |ids|
    {
      var id :| id in ids;
      ids := ids - {id};
      var access := configured[id];
      if !access.ZhipuAccount? {
        continue;
      }
      var connection := Get(index.value, id);
      var overlay := Overlay(false, None);
      if connection.Some? && (connection.value.status.Available? || connection.value.status.Pending?) {
        overlay := Overlay(connection.value.status.Available?, None);
        if access.startPlan {
          var models := NormalizeModelIds(trim, connection.value.models);
          overlay := Overlay(connection.value.status.Available?, Some(models));
        }
      } else if connection.None? || connection.value.status.Unknown? {
        if (connection.None? || !connection.value.resetPrevious) && id in previous {
          overlay := previous[id];
        }
      }
      resolved := resolved[id := overlay];
    }
    SameOptions(resolved, all);
    return Some(resolved);
  }

  lemma {:induction false} SameOptions<T>(a: map<Id, T>, b: map<Id, T>)
    requires forall id :: Get(a, id) == Get(b, id)
    ensures a == b
  {
    assert forall id | id in a || id in b :: Get(a, id) == Get(b, id);
    assert forall id | id in a :: id in b && a[id] == b[id];
    assert a.Keys == b.Keys;
  }

  // -- States --

  function StateFor(connection: Connection, before: Option<State>, overlay: Option<Overlay>): State {
    var previous := if connection.resetPrevious then None else before;
    var kept := connection.status.Unknown? && previous.Some?;
    State(
      availability := if kept then previous.value.availability else connection.status,
      entitled := overlay.Some? && overlay.value.entitled,
      unavailableReason := if kept then previous.value.unavailableReason
                           else if connection.status.Unavailable? then connection.unavailableReason
                           else None,
      current := if connection.current.None? && kept then previous.value.current else connection.current,
      connectionKey := connection.connectionKey,
      effectiveAt := if connection.effectiveAt.None? && kept then previous.value.effectiveAt
                     else connection.effectiveAt)
  }

  function RoundStates(connections: seq<Connection>, before: States, overlays: Overlays): States {
    if connections == [] then map[]
    else var last := connections[|connections| - 1];
         RoundStates(connections[..|connections| - 1], before, overlays)
         [last.providerId := StateFor(last, Get(before, last.providerId), Get(overlays, last.providerId))]
  }

  method ResolveStates(connections: seq<Connection>, before: States, overlays: Overlays) returns (states: States)
    ensures states == RoundStates(connections, before, overlays)
  {
    hide StateFor;
    states := map[];
    var i := 0;
    while i < |connections|
      invariant i <= |connections| && states == RoundStates(connections[..i], before, overlays)
    {
      assert connections[..i + 1][..i] == connections[..i];
      var c := connections[i];
      states := states[c.providerId := StateFor(c, Get(before, c.providerId), Get(overlays, c.providerId))];
      i := i + 1;
    }
    assert connections[..i] == connections;
  }

  // What the connections make of the previous overlay and states; nothing if a connection is not acceptable.
  method ResolveRound(trim: Id -> Id, configured: Configured, previous: Overlays, before: States,
                      connections: seq<Connection>) returns (r: Option<(Overlays, States)>)
    ensures r.Some? <==> Acceptable(configured, connections)
    ensures r.Some? ==>
      var overlays := RoundOverlays(trim, configured, previous, connections);
      r.value == (overlays, RoundStates(connections, before, overlays))
  {
    hide Acceptable, RoundOverlays, RoundStates;
    var overlays := ResolveAccountProviderConfigs(trim, configured, previous, connections);
    if overlays.None? {
      return None;
    }
    var states := ResolveStates(connections, before, overlays.value);
    return Some((overlays.value, states));
  }

  // `current` is what this round selected, except exactly when the round knows nothing and an old value survives.
  lemma {:induction false} CurrentComesFromTheRound(c: Connection, before: Option<State>, overlay: Option<Overlay>)
    ensures StateFor(c, before, overlay).current == c.current
      <==> !(c.current.None? && c.status.Unknown? && !c.resetPrevious
             && before.Some? && before.value.current.Some?)
  {
  }

  lemma {:induction false} StatesFollowConnections(connections: seq<Connection>, before: States, overlays: Overlays,
                                                   id: Id)
    ensures var c := ConnectionFor(connections, id);
            Get(RoundStates(connections, before, overlays), id)
            == if c.None? then None else Some(StateFor(c.value, Get(before, id), Get(overlays, id)))
    decreases |connections|
  {
    if connections != [] {
      StatesFollowConnections(connections[..|connections| - 1], before, overlays, id);
    }
  }

  // A state says entitled exactly if the overlay of the same round does.
  lemma {:induction false} StatesAgreeWithOverlays(connections: seq<Connection>, before: States, overlays: Overlays,
                                                   id: Id)
    requires id in RoundStates(connections, before, overlays)
    ensures RoundStates(connections, before, overlays)[id].entitled <==> id in overlays && overlays[id].entitled
  {
    StatesFollowConnections(connections, before, overlays, id);
  }

  // -- Many rounds --

  // An accepted round: a successful query of the connections, or the fail-closed start when the first query failed.
  datatype Round = Queried(configured: Configured, connections: seq<Connection>) | FailClosed(configured: Configured)

  function FailClosedOverlays(configured: Configured): Overlays {
    map id | id in configured && configured[id].ZhipuAccount? :: Overlay(false, None)
  }

  function OverlaysAfter(trim: Id -> Id, rounds: seq<Round>): Overlays {
    if rounds == [] then map[]
    else match rounds[|rounds| - 1]
         case FailClosed(configured) => FailClosedOverlays(configured)
         case Queried(configured, connections) =>
           RoundOverlays(trim, configured, OverlaysAfter(trim, rounds[..|rounds| - 1]), connections)
  }

  predicate Entitled(overlays: Overlays, id: Id) {
    id in overlays && overlays[id].entitled
  }

  // The round reported the provider available.
  predicate Grants(round: Round, id: Id) {
    && round.Queried? && IsAccount(round.configured, id)
    && var c := ConnectionFor(round.connections, id); c.Some? && c.value.status.Available?
  }

  // The round kept the provider configured, knew nothing of it, and did not ask to forget it.
  predicate Keeps(round: Round, id: Id) {
    && round.Queried? && IsAccount(round.configured, id)
    && var c := ConnectionFor(round.connections, id); c.None? || (c.value.status.Unknown? && !c.value.resetPrevious)
  }

  predicate GrantedAndKept(rounds: seq<Round>, id: Id, m: nat) {
    && m < |rounds| && Grants(rounds[m], id)
    && forall j | m < j < |rounds| :: Keeps(rounds[j], id)
  }

  // The overlay a granting round gives: a start plan has the models of its connection, another plan all models.
  function Granted(trim: Id -> Id, round: Round, id: Id): Overlay
    requires Grants(round, id)
  {
    Overlay(true, if round.configured[id].startPlan
                  then Some(Normalized(trim, ConnectionFor(round.connections, id).value.models)) else None)
  }

  // A pending provider has its models already, but is not entitled; one that the round made unavailable, or forgot, has
  // neither.
  lemma {:induction false} NotGranted(trim: Id -> Id, rounds: seq<Round>, id: Id)
    requires rounds != [] && rounds[|rounds| - 1].Queried? && IsAccount(rounds[|rounds| - 1].configured, id)
    requires !Grants(rounds[|rounds| - 1], id) && !Keeps(rounds[|rounds| - 1], id)
    ensures var last, after := rounds[|rounds| - 1], OverlaysAfter(trim, rounds);
            var c := ConnectionFor(last.connections, id).value;
      && id in after && !after[id].entitled
      && (c.status.Pending? && last.configured[id].startPlan ==> after[id].models == Some(Normalized(trim, c.models)))
      && (!c.status.Pending? || !last.configured[id].startPlan ==> after[id].models == None)
  {
  }

  lemma {:induction false} LastRoundDecides(trim: Id -> Id, rounds: seq<Round>, id: Id)
    requires rounds != []
    ensures var n := |rounds| - 1;
            var before, after := OverlaysAfter(trim, rounds[..n]), OverlaysAfter(trim, rounds);
      && (Grants(rounds[n], id) ==>
            Entitled(after, id) && after[id] == Granted(trim, rounds[n], id) && !Keeps(rounds[n], id))
      && (Keeps(rounds[n], id) ==> Entitled(after, id) == Entitled(before, id))
      && (Keeps(rounds[n], id) && Entitled(before, id) ==> after[id] == before[id])
      && (!Grants(rounds[n], id) && !Keeps(rounds[n], id) ==> !Entitled(after, id))
  {
    hide Normalized;
  }

  lemma {:induction false} KeptSince(rounds: seq<Round>, id: Id, m: nat)
    requires rounds != [] && m < |rounds|
    ensures var n := |rounds| - 1;
            GrantedAndKept(rounds, id, m) <==>
            if m == n then Grants(rounds[n], id) else GrantedAndKept(rounds[..n], id, m) && Keeps(rounds[n], id)
  {
    hide Grants, Keeps;
    var front := rounds[..|rounds| - 1];
    assert forall j | 0 <= j < |front| :: front[j] == rounds[j];
  }

  // A provider is entitled exactly if some round reported it available and every round since kept it; its overlay, with
  // its models, is then the one of that round.
  lemma {:induction false} EntitlementHasASource(trim: Id -> Id, rounds: seq<Round>, id: Id)
    ensures Entitled(OverlaysAfter(trim, rounds), id) <==> exists m: nat :: GrantedAndKept(rounds, id, m)
    ensures forall m: nat | GrantedAndKept(rounds, id, m) ::
      id in OverlaysAfter(trim, rounds) && OverlaysAfter(trim, rounds)[id] == Granted(trim, rounds[m], id)
    decreases |rounds|
  {
    if rounds == [] {
    } else {
      hide OverlaysAfter, Granted;
      var n := |rounds| - 1;
      EntitlementHasASource(trim, rounds[..n], id);
      Sourced(trim, rounds, id);
    }
  }

  lemma {:induction false} Sourced(trim: Id -> Id, rounds: seq<Round>, id: Id)
    requires rounds != []
    requires var front := rounds[..|rounds| - 1];
      && (Entitled(OverlaysAfter(trim, front), id) <==> exists m: nat :: GrantedAndKept(front, id, m))
      && forall m: nat | GrantedAndKept(front, id, m) ::
           id in OverlaysAfter(trim, front) && OverlaysAfter(trim, front)[id] == Granted(trim, front[m], id)
    ensures Entitled(OverlaysAfter(trim, rounds), id) <==> exists m: nat :: GrantedAndKept(rounds, id, m)
    ensures forall m: nat | GrantedAndKept(rounds, id, m) ::
      id in OverlaysAfter(trim, rounds) && OverlaysAfter(trim, rounds)[id] == Granted(trim, rounds[m], id)
  {
    var n, front := |rounds| - 1, rounds[..|rounds| - 1];
    LastRoundDecides(trim, rounds, id);
    hide OverlaysAfter, Granted, Grants, Keeps;
    if m: nat :| GrantedAndKept(front, id, m) && Keeps(rounds[n], id) {
      KeptSince(rounds, id, m);
    }
    KeptSince(rounds, id, n);
    forall m: nat | GrantedAndKept(rounds, id, m)
      ensures Entitled(OverlaysAfter(trim, rounds), id)
      ensures OverlaysAfter(trim, rounds)[id] == Granted(trim, rounds[m], id)
    {
      KeptSince(rounds, id, m);
      assert m < n ==> front[m] == rounds[m];
    }
  }

  // Once a round has reported a provider unavailable, or dropped it, it is not entitled before a later round grants it.
  lemma {:induction false} RevocationLasts(trim: Id -> Id, rounds: seq<Round>, id: Id, k: nat)
    requires k < |rounds| && !Keeps(rounds[k], id)
    requires forall j | k <= j < |rounds| :: !Grants(rounds[j], id)
    ensures !Entitled(OverlaysAfter(trim, rounds), id)
  {
    EntitlementHasASource(trim, rounds, id);
    assert forall m: nat | GrantedAndKept(rounds, id, m) :: m < k;
  }

  // -- States over many rounds --

  // The states after some rounds; a round builds on those of the round before.
  function StatesAfter(trim: Id -> Id, rounds: seq<Round>): States {
    if rounds == [] then map[]
    else match rounds[|rounds| - 1]
         case FailClosed(_) => map[]
         case Queried(_, connections) =>
           RoundStates(connections, StatesAfter(trim, rounds[..|rounds| - 1]), OverlaysAfter(trim, rounds))
  }

  function ResultOf(round: Round, id: Id): Option<Connection> {
    if round.Queried? then ConnectionFor(round.connections, id) else None
  }

  // The round has a result for the provider that knows nothing and does not ask to forget.
  predicate Silent(round: Round, id: Id) {
    var c := ResultOf(round, id);
    c.Some? && c.value.status.Unknown? && !c.value.resetPrevious
  }

  // The m-th round is the last one that says something of the provider: it knows something, or asks to forget, or the
  // round before had no result for the provider.
  predicate SaidLast(rounds: seq<Round>, id: Id, m: nat) {
    && m < |rounds| && ResultOf(rounds[m], id).Some?
    && (Silent(rounds[m], id) ==> m == 0 || ResultOf(rounds[m - 1], id).None?)
    && forall j | m < j < |rounds| :: Silent(rounds[j], id)
  }

  // The last value given in the rounds from the m-th on.
  function LastGiven<T>(rounds: seq<Round>, id: Id, m: nat, field: Connection -> Option<T>): Option<T>
    decreases |rounds|
  {
    if |rounds| <= m then None
    else var c := ResultOf(rounds[|rounds| - 1], id);
         if c.Some? && field(c.value).Some? then field(c.value)
         else LastGiven(rounds[..|rounds| - 1], id, m, field)
  }

  // What the state says comes from the round that said something last and the silent ones since.
  ghost predicate StateExplained(trim: Id -> Id, rounds: seq<Round>, id: Id, m: nat) {
    && m < |rounds| && ResultOf(rounds[m], id).Some? && ResultOf(rounds[|rounds| - 1], id).Some?
    && id in StatesAfter(trim, rounds)
    && var said, last, state :=
         ResultOf(rounds[m], id).value, ResultOf(rounds[|rounds| - 1], id).value, StatesAfter(trim, rounds)[id];
       && state.availability == said.status
       && state.unavailableReason == (if said.status.Unavailable? then said.unavailableReason else None)
       && state.entitled == Entitled(OverlaysAfter(trim, rounds), id)
       && state.connectionKey == last.connectionKey
       && state.current == LastGiven(rounds, id, m, (c: Connection) => c.current)
       && state.effectiveAt == LastGiven(rounds, id, m, (c: Connection) => c.effectiveAt)
  }

  lemma {:induction false} StateHasASource(trim: Id -> Id, rounds: seq<Round>, id: Id)
    ensures id in StatesAfter(trim, rounds) <==> exists m: nat :: SaidLast(rounds, id, m)
    ensures forall m: nat | SaidLast(rounds, id, m) :: StateExplained(trim, rounds, id, m)
    decreases |rounds|
  {
    if rounds != [] {
      hide StateExplained, SaidLast, StatesAfter;
      var n := |rounds| - 1;
      var front := rounds[..n];
      StateHasASource(trim, front, id);
      LastState(trim, rounds, id);
      HasStateIfResult(trim, front, id);
      forall m: nat
        ensures SaidLast(rounds, id, m) <==>
          if m == n then ResultOf(rounds[n], id).Some? && !(Silent(rounds[n], id) && id in StatesAfter(trim, front))
          else SaidLast(front, id, m) && Silent(rounds[n], id)
      {
        SaidLastNext(rounds, id, m);
      }
      forall m: nat | SaidLast(rounds, id, m)
        ensures StateExplained(trim, rounds, id, m)
      {
        if m == n {
          SaidNow(trim, rounds, id);
        } else {
          SaidBefore(trim, rounds, id, m);
        }
      }
      if ResultOf(rounds[n], id).Some? && Silent(rounds[n], id) && id in StatesAfter(trim, front) {
        var m: nat :| SaidLast(front, id, m);
        SaidLastIsBefore(front, id, m);
        assert SaidLast(rounds, id, m);
      } else if ResultOf(rounds[n], id).Some? {
        assert SaidLast(rounds, id, n);
      }
    }
  }

  lemma {:induction false} SaidLastIsBefore(rounds: seq<Round>, id: Id, m: nat)
    requires SaidLast(rounds, id, m)
    ensures m < |rounds|
  {
  }

  lemma {:induction false} SaidLastNext(rounds: seq<Round>, id: Id, m: nat)
    requires rounds != []
    ensures var n := |rounds| - 1;
            SaidLast(rounds, id, m) <==>
            if m == n then ResultOf(rounds[n], id).Some?
                           && !(Silent(rounds[n], id) && n > 0 && ResultOf(rounds[n - 1], id).Some?)
            else SaidLast(rounds[..n], id, m) && Silent(rounds[n], id)
  {
    hide Silent;
    var front := rounds[..|rounds| - 1];
    assert forall j | 0 <= j < |front| :: front[j] == rounds[j];
  }

  // After a round there is a state exactly if the round had a result.
  lemma {:induction false} HasStateIfResult(trim: Id -> Id, rounds: seq<Round>, id: Id)
    ensures id in StatesAfter(trim, rounds) <==> rounds != [] && ResultOf(rounds[|rounds| - 1], id).Some?
  {
    hide StateFor, OverlaysAfter;
    if rounds != [] && rounds[|rounds| - 1].Queried? {
      StatesFollowConnections(rounds[|rounds| - 1].connections, StatesAfter(trim, rounds[..|rounds| - 1]),
                              OverlaysAfter(trim, rounds), id);
    }
  }

  lemma {:induction false} LastState(trim: Id -> Id, rounds: seq<Round>, id: Id)
    requires rounds != []
    ensures var c, n := ResultOf(rounds[|rounds| - 1], id), |rounds| - 1;
            Get(StatesAfter(trim, rounds), id)
            == if c.None? then None
               else Some(StateFor(c.value, Get(StatesAfter(trim, rounds[..n]), id),
                               Get(OverlaysAfter(trim, rounds), id)))
  {
    hide StateFor, OverlaysAfter;
    if rounds[|rounds| - 1].Queried? {
      StatesFollowConnections(rounds[|rounds| - 1].connections, StatesAfter(trim, rounds[..|rounds| - 1]),
                              OverlaysAfter(trim, rounds), id);
    }
  }

  lemma {:induction false} SaidNow(trim: Id -> Id, rounds: seq<Round>, id: Id)
    requires rounds != []
    requires var n := |rounds| - 1;
             ResultOf(rounds[n], id).Some? && !(Silent(rounds[n], id) && id in StatesAfter(trim, rounds[..n]))
    ensures StateExplained(trim, rounds, id, |rounds| - 1)
  {
    hide OverlaysAfter, StatesAfter;
    var n := |rounds| - 1;
    LastState(trim, rounds, id);
    assert LastGiven(rounds[..n], id, n, (c: Connection) => c.current) == None;
    assert LastGiven(rounds[..n], id, n, (c: Connection) => c.effectiveAt) == None;
  }

  lemma {:induction false} SaidBefore(trim: Id -> Id, rounds: seq<Round>, id: Id, m: nat)
    requires rounds != [] && m < |rounds| - 1 && Silent(rounds[|rounds| - 1], id)
    requires StateExplained(trim, rounds[..|rounds| - 1], id, m)
    ensures StateExplained(trim, rounds, id, m)
  {
    hide OverlaysAfter, StatesAfter;
    LastState(trim, rounds, id);
  }
}
