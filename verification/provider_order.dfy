// Model of packages/provider/src/owned-order.ts and of the provider order of resolver.ts.

module ProviderOrder {
  type Id = string

  predicate Distinct<T(==)>(s: seq<T>) {
    forall i, j | 0 <= i < j < |s| :: s[i] != s[j]
  }

  function Keep(ids: seq<Id>, kept: set<Id>): (r: seq<Id>)
    ensures forall id :: id in r <==> id in ids && id in kept
    ensures |r| <= |ids|
  {
    if ids == [] then []
    else var last := ids[|ids| - 1];
         Keep(ids[..|ids| - 1], kept) + if last in kept then [last] else []
  }

  function Drop(ids: seq<Id>, dropped: set<Id>): seq<Id> {
    Keep(ids, Members(ids) - dropped)
  }

  function Members(ids: seq<Id>): set<Id> {
    set id | id in ids
  }

  // The first occurrences.
  function Unique(ids: seq<Id>): (r: seq<Id>)
    ensures forall id :: id in r <==> id in ids
  {
    if ids == [] then []
    else var front, last := ids[..|ids| - 1], ids[|ids| - 1];
         Unique(front) + if last in front then [] else [last]
  }

  method UniqueInOrder(ids: seq<Id>) returns (result: seq<Id>)
    ensures result == Unique(ids)
  {
    var seen: set<Id> := {};
    result := [];
    var i := 0;
    while i < |ids|
      invariant i <= |ids|
      invariant seen == Members(ids[..i]) && result == Unique(ids[..i])
    {
      assert ids[..i + 1][..i] == ids[..i];
      if ids[i] !in seen {
        seen := seen + {ids[i]};
        result := result + [ids[i]];
      }
      i := i + 1;
    }
    assert ids[..i] == ids;
  }

  function ResolveOwnedOrder(builtinIds: seq<Id>, personalIds: seq<Id>, requestedOrder: seq<Id>): seq<Id> {
    var builtin := Unique(builtinIds);
    var personal := Drop(Unique(personalIds), Members(builtin));
    var ordered := Keep(Unique(requestedOrder), Members(builtin) + Members(personal));
    Drop(builtin, Members(ordered)) + ordered + Drop(personal, Members(ordered))
  }

  // -- Positions --

  // The position of the first occurrence, the length if there is none.
  function First(ids: seq<Id>, id: Id): (r: nat)
    ensures r <= |ids| && (r < |ids| <==> id in ids)
    ensures r < |ids| ==> ids[r] == id
    ensures forall i | 0 <= i < r :: ids[i] != id
  {
    if ids == [] then 0 else if ids[0] == id then 0 else 1 + First(ids[1..], id)
  }

  // The members of `r` come in the order of their first occurrences in `ids`.
  predicate Follows(r: seq<Id>, ids: seq<Id>) {
    && (forall i | 0 <= i < |r| :: r[i] in ids)
    && forall i, j | 0 <= i < j < |r| :: First(ids, r[i]) < First(ids, r[j])
  }

  lemma {:induction false} FirstOfPrefix(ids: seq<Id>, n: nat, id: Id)
    requires n <= |ids| && id in ids[..n]
    ensures First(ids[..n], id) == First(ids, id)
  {
    var k := First(ids, id);
    var m := First(ids[..n], id);
    assert ids[m] == id;
    assert forall i | 0 <= i < m :: ids[..n][i] == ids[i];
  }

  lemma {:induction false} UniqueFollows(ids: seq<Id>)
    ensures Follows(Unique(ids), ids)
    decreases |ids|
  {
    if ids != [] {
      var n := |ids| - 1;
      var front, r := Unique(ids[..n]), Unique(ids);
      UniqueFollows(ids[..n]);
      forall i, j | 0 <= i < j < |r|
        ensures First(ids, r[i]) < First(ids, r[j])
      {
        FirstOfPrefix(ids, n, r[i]);
        if j < |front| {
          FirstOfPrefix(ids, n, r[j]);
        } else {
          assert ids[..n][First(ids[..n], r[i])] == r[i];
          assert r[j] !in ids[..n] && forall i | 0 <= i < n :: ids[..n][i] == ids[i];
        }
      }
    }
  }

  lemma {:induction false} KeepFollows(ids: seq<Id>, kept: set<Id>, source: seq<Id>)
    requires Follows(ids, source)
    ensures Follows(Keep(ids, kept), source)
    decreases |ids|
  {
    if ids != [] {
      var front, last := ids[..|ids| - 1], ids[|ids| - 1];
      KeepFollows(front, kept, source);
      var f, r := Keep(front, kept), Keep(ids, kept);
      forall i, j | 0 <= i < j < |r|
        ensures First(source, r[i]) < First(source, r[j])
      {
        if j == |f| {
          assert r[i] in front;
          var k :| 0 <= k < |front| && front[k] == r[i];
          assert ids[k] == r[i];
        }
      }
    }
  }

  // -- The order --

  // Built-in members nobody ordered come first, then the ordered ones, then the other personal ones; within a class the
  // members keep the order of their list.
  function Rank(b: seq<Id>, q: seq<Id>, id: Id): nat {
    if id in q then 1 else if id in b then 0 else 2
  }

  predicate Before(b: seq<Id>, p: seq<Id>, q: seq<Id>, x: Id, y: Id) {
    var list := if x in q then q else if x in b then b else p;
    Rank(b, q, x) < Rank(b, q, y) || (Rank(b, q, x) == Rank(b, q, y) && First(list, x) < First(list, y))
  }

  ghost predicate Ordered(b: seq<Id>, p: seq<Id>, q: seq<Id>, r: seq<Id>) {
    && (forall id :: id in r <==> id in b || id in p)
    && forall i, j | 0 <= i < j < |r| :: Before(b, p, q, r[i], r[j])
  }

  // The order lists every member once, sorted by rank and then by position.
  lemma {:induction false} OwnedOrderIsOrdered(b: seq<Id>, p: seq<Id>, q: seq<Id>)
    ensures Ordered(b, p, q, ResolveOwnedOrder(b, p, q)) && Distinct(ResolveOwnedOrder(b, p, q))
  {
    hide Keep, Unique;
    var builtin := Unique(b);
    var personal := Drop(Unique(p), Members(builtin));
    var ordered := Keep(Unique(q), Members(builtin) + Members(personal));
    var first, third := Drop(builtin, Members(ordered)), Drop(personal, Members(ordered));
    UniqueFollows(b);
    UniqueFollows(p);
    UniqueFollows(q);
    KeepFollows(Unique(p), Members(Unique(p)) - Members(builtin), p);
    KeepFollows(Unique(q), Members(builtin) + Members(personal), q);
    KeepFollows(builtin, Members(builtin) - Members(ordered), b);
    KeepFollows(personal, Members(personal) - Members(ordered), p);
    Concatenated(b, p, q, first, ordered, third);
  }

  lemma {:induction false} Concatenated(b: seq<Id>, p: seq<Id>, q: seq<Id>, first: seq<Id>, ordered: seq<Id>,
                                        third: seq<Id>)
    requires Follows(first, b) && Follows(ordered, q) && Follows(third, p)
    requires forall id :: id in first <==> id in b && id !in q
    requires forall id :: id in ordered <==> id in q && (id in b || id in p)
    requires forall id :: id in third <==> id in p && id !in b && id !in q
    ensures Ordered(b, p, q, first + ordered + third) && Distinct(first + ordered + third)
  {
    hide First;
    var r := first + ordered + third;
    forall i, j | 0 <= i < j < |r|
      ensures Before(b, p, q, r[i], r[j]) && r[i] != r[j]
    {
      assert r[i] in if i < |first| then first else if i < |first| + |ordered| then ordered else third;
      assert r[j] in if j < |first| then first else if j < |first| + |ordered| then ordered else third;
    }
  }

  // No other list is in this order.
  lemma {:induction false} OrderedIsUnique(b: seq<Id>, p: seq<Id>, q: seq<Id>, r: seq<Id>, s: seq<Id>, n: nat)
    requires Ordered(b, p, q, r) && Ordered(b, p, q, s) && n <= |r|
    ensures n <= |s| && r[..n] == s[..n]
    decreases n
  {
    hide First, Rank;
    if n > 0 {
      OrderedIsUnique(b, p, q, r, s, n - 1);
      var x := r[n - 1];
      assert x in s;
      var i :| 0 <= i < |s| && s[i] == x;
      if i < n - 1 {
        assert s[..n - 1][i] == r[..n - 1][i] == r[i];
        Irreflexive(b, p, q, x);
        assert false;
      }
      var y := s[n - 1];
      assert y in r;
      var j :| 0 <= j < |r| && r[j] == y;
      if j < n - 1 {
        assert r[..n - 1][j] == s[..n - 1][j] == s[j];
        Irreflexive(b, p, q, y);
        assert false;
      }
      if x != y {
        Asymmetric(b, p, q, x, y);
        assert false;
      }
    }
  }

  lemma {:induction false} Irreflexive(b: seq<Id>, p: seq<Id>, q: seq<Id>, x: Id)
    ensures !Before(b, p, q, x, x)
  {
  }

  lemma {:induction false} Asymmetric(b: seq<Id>, p: seq<Id>, q: seq<Id>, x: Id, y: Id)
    ensures !(Before(b, p, q, x, y) && Before(b, p, q, y, x))
  {
  }

  // Requesting the order one has changes nothing.
  lemma {:induction false} OrderIsStable(b: seq<Id>, p: seq<Id>, q: seq<Id>)
    ensures var r := ResolveOwnedOrder(b, p, q); ResolveOwnedOrder(b, p, r) == r
  {
    hide ResolveOwnedOrder;
    var r := ResolveOwnedOrder(b, p, q);
    var s := ResolveOwnedOrder(b, p, r);
    OwnedOrderIsOrdered(b, p, q);
    OwnedOrderIsOrdered(b, p, r);
    forall i, j | 0 <= i < j < |r|
      ensures Before(b, p, r, r[i], r[j])
    {
      FirstOfDistinct(r, i);
      FirstOfDistinct(r, j);
    }
    assert Ordered(b, p, r, r);
    OrderedIsUnique(b, p, r, r, s, |r|);
    OrderedIsUnique(b, p, r, s, r, |s|);
  }

  lemma {:induction false} FirstOfDistinct(r: seq<Id>, i: nat)
    requires Distinct(r) && i < |r|
    ensures First(r, r[i]) == i
  {
  }

  // -- The order of all providers --

  // `effective` lists the keys of the built-in and personal providers together; `family` those of the two families.
  function ResolveProviderOrder(effective: seq<Id>, family: set<Id>, builtin: seq<Id>, personal: seq<Id>,
                                requested: seq<Id>): seq<Id>
  {
    var familyIds := Keep(effective, family);
    var builtinIds := Drop(builtin, Members(familyIds));
    var personalIds := Drop(personal, Members(builtinIds) + Members(familyIds));
    familyIds + ResolveOwnedOrder(builtinIds, personalIds, requested)
  }

  lemma {:induction false} KeepIsDistinct(ids: seq<Id>, kept: set<Id>)
    requires Distinct(ids)
    ensures Distinct(Keep(ids, kept))
    decreases |ids|
  {
    if ids != [] {
      KeepIsDistinct(ids[..|ids| - 1], kept);
      assert ids[|ids| - 1] !in ids[..|ids| - 1];
    }
  }

  // The order is a permutation of the effective keys, whatever order is requested.
  lemma {:induction false} ProviderOrderIsAPermutation(effective: seq<Id>, family: set<Id>, builtin: seq<Id>,
                                                       personal: seq<Id>, requested: seq<Id>)
    requires Distinct(effective) && forall id :: id in effective <==> id in builtin || id in personal
    ensures var r := ResolveProviderOrder(effective, family, builtin, personal, requested);
            Distinct(r) && multiset(r) == multiset(effective)
  {
    hide Keep, ResolveOwnedOrder;
    var familyIds := Keep(effective, family);
    var builtinIds := Drop(builtin, Members(familyIds));
    var personalIds := Drop(personal, Members(builtinIds) + Members(familyIds));
    var owned := ResolveOwnedOrder(builtinIds, personalIds, requested);
    KeepIsDistinct(effective, family);
    OwnedOrderIsOrdered(builtinIds, personalIds, requested);
    var r := familyIds + owned;
    assert forall id :: id in owned ==> id !in familyIds;
    forall i, j | 0 <= i < j < |r|
      ensures r[i] != r[j]
    {
      if i < |familyIds| <= j {
        assert r[i] in familyIds && owned[j - |familyIds|] in owned;
      }
    }
    assert forall id :: id in r <==> id in effective;
    SameMembersOnce(r, effective);
  }

  // The families come first, in the order of the effective keys; the others are sorted by rank and position.
  lemma {:induction false} FamiliesComeFirst(effective: seq<Id>, family: set<Id>, builtin: seq<Id>, personal: seq<Id>,
                                             requested: seq<Id>, i: nat, j: nat)
    requires Distinct(effective)
    requires i < j < |ResolveProviderOrder(effective, family, builtin, personal, requested)|
    ensures var r := ResolveProviderOrder(effective, family, builtin, personal, requested);
            var familyIds := Keep(effective, family);
            var b := Drop(builtin, Members(familyIds));
            var p := Drop(personal, Members(b) + Members(familyIds));
      && (r[j] in familyIds ==> r[i] in familyIds && First(effective, r[i]) < First(effective, r[j]))
      && (r[i] !in familyIds ==> r[j] !in familyIds && Before(b, p, requested, r[i], r[j]))
  {
    hide Keep, ResolveOwnedOrder, Before;
    var familyIds := Keep(effective, family);
    var b := Drop(builtin, Members(familyIds));
    var p := Drop(personal, Members(b) + Members(familyIds));
    var owned := ResolveOwnedOrder(b, p, requested);
    OwnedOrderIsOrdered(b, p, requested);
    DistinctFollows(effective);
    KeepFollows(effective, family, effective);
    var r := familyIds + owned;
    var n := |familyIds|;
    assert i < n ==> r[i] == familyIds[i];
    assert i >= n ==> r[i] == owned[i - n] && owned[i - n] in owned;
    assert j >= n ==> r[j] == owned[j - n] && owned[j - n] in owned;
    assert forall id :: id in owned ==> id !in familyIds;
  }

  lemma {:induction false} DistinctFollows(ids: seq<Id>)
    requires Distinct(ids)
    ensures Follows(ids, ids)
  {
    forall i, j | 0 <= i < j < |ids|
      ensures First(ids, ids[i]) < First(ids, ids[j])
    {
      FirstOfDistinct(ids, i);
      FirstOfDistinct(ids, j);
    }
  }

  lemma {:induction false} SameMembersOnce(r: seq<Id>, s: seq<Id>)
    requires Distinct(r) && Distinct(s) && forall id :: id in r <==> id in s
    ensures multiset(r) == multiset(s)
  {
    forall id
      ensures multiset(r)[id] == multiset(s)[id]
    {
      Once(r, id);
      Once(s, id);
    }
  }

  lemma {:induction false} Once(s: seq<Id>, id: Id)
    requires Distinct(s)
    ensures multiset(s)[id] == if id in s then 1 else 0
    decreases |s|
  {
    if s != [] {
      var n := |s| - 1;
      assert s == s[..n] + [s[n]] && s[n] !in s[..n];
      Once(s[..n], id);
    }
  }
}
