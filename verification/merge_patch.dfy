// Model of packages/model-option-map/src/merge-patch.ts: ordered JSON Merge Patches with a path conflict check.

module MergePatch {
  import opened Options
  import opened CelTokenizer
  import opened JsonValues

  type Path = seq<Text>
  type Patch = p: Json | p.JObj? witness JObj(map[])

  // -- What the operations compute --

  // What a patch of an object starts from: the object that is there, or an empty one.
  function Base(target: Fields, key: Text): Fields {
    if key in target && target[key].JObj? then target[key].fields else map[]
  }

  function Merge(target: Fields, patch: Patch): Fields
    decreases patch
  {
    map key | key in target.Keys + patch.fields.Keys && !(key in patch.fields && patch.fields[key].JNull?) ::
      if key !in patch.fields then target[key]
      else if patch.fields[key].JObj? then JObj(Merge(Base(target, key), patch.fields[key]))
      else patch.fields[key]
  }

  function MergeAll(body: Fields, patches: seq<Patch>): Fields
    decreases |patches|
  {
    if patches == [] then body else MergeAll(Merge(body, patches[0]), patches[1..])
  }

  predicate IsBranch(value: Json) {
    value.JObj? && value.fields != map[]
  }

  // The paths a patch writes: those of its leaves, an empty object being one.
  predicate Writes(patch: Patch, path: Path)
    decreases |path|
  {
    && path != [] && path[0] in patch.fields
    && var value := patch.fields[path[0]];
       if IsBranch(value) then Writes(value, path[1..]) else path[1..] == []
  }

  predicate Overlap(a: Path, b: Path) {
    a <= b || b <= a
  }

  ghost predicate Clash(p: Patch, q: Patch) {
    exists a, b :: Writes(p, a) && Writes(q, b) && Overlap(a, b)
  }

  ghost predicate ClashesWithAny(p: Patch, others: seq<Patch>) {
    exists q :: q in others && Clash(p, q)
  }

  // No two patches of the list write overlapping paths.
  ghost predicate Accepted(patches: seq<Patch>)
    decreases |patches|
  {
    patches == [] || (!ClashesWithAny(patches[0], patches[1..]) && Accepted(patches[1..]))
  }

  // -- Paths of one patch --

  lemma {:induction false} BranchWrites(patch: Patch) returns (path: Path)
    requires IsBranch(patch)
    ensures Writes(patch, path)
    decreases patch
  {
    var key :| key in patch.fields;
    if IsBranch(patch.fields[key]) {
      var rest := BranchWrites(patch.fields[key]);
      path := [key] + rest;
      assert path[1..] == rest;
    } else {
      path := [key];
    }
  }

  // The written paths of one patch are prefix-free: a patch never conflicts with itself.
  lemma {:induction false} PrefixFree(patch: Patch, a: Path, b: Path)
    requires Writes(patch, a) && Writes(patch, b) && Overlap(a, b)
    ensures a == b
    decreases |a|
  {
    assert a[0] == b[0] && Overlap(a[1..], b[1..]);
    if IsBranch(patch.fields[a[0]]) {
      PrefixFree(patch.fields[a[0]], a[1..], b[1..]);
    }
    assert a == [a[0]] + a[1..] && b == [b[0]] + b[1..];
  }

  lemma {:induction false} ClashBelow(p: Patch, q: Patch, key: Text, a: Path, b: Path)
    requires key in p.fields && key in q.fields
    requires Writes(p, [key] + a) && Writes(q, [key] + b) && Overlap(a, b)
    ensures Clash(p, q)
  {
    assert Overlap([key] + a, [key] + b);
  }

  // Two patches that do not clash share a key only if both have a non-empty object there, and those do not clash.
  lemma {:induction false} SharedKey(p: Patch, q: Patch, key: Text)
    requires !Clash(p, q) && key in p.fields && key in q.fields
    ensures IsBranch(p.fields[key]) && IsBranch(q.fields[key]) && !Clash(p.fields[key], q.fields[key])
  {
    var v, w := p.fields[key], q.fields[key];
    var a: Path, b: Path := [], [];
    if IsBranch(v) {
      a := BranchWrites(v);
    }
    if IsBranch(w) {
      b := BranchWrites(w);
    }
    assert ([key] + a)[1..] == a && ([key] + b)[1..] == b;
    if !IsBranch(v) || !IsBranch(w) {
      ClashBelow(p, q, key, a, b);
    }
    if a', b' :| Writes(v, a') && Writes(w, b') && Overlap(a', b') {
      assert ([key] + a')[1..] == a' && ([key] + b')[1..] == b';
      ClashBelow(p, q, key, a', b');
    }
  }

  // -- Order independence --

  lemma {:induction false} MergeCommutes(target: Fields, p: Patch, q: Patch)
    requires !Clash(p, q)
    ensures Merge(Merge(target, p), q) == Merge(Merge(target, q), p)
    decreases p
  {
    var x, y := Merge(Merge(target, p), q), Merge(Merge(target, q), p);
    forall key
      ensures key in x <==> key in y
      ensures key in x && key in y ==> x[key] == y[key]
    {
      if key in p.fields && key in q.fields {
        SharedKey(p, q, key);
        MergeCommutes(Base(target, key), p.fields[key], q.fields[key]);
      }
    }
  }

  lemma {:induction false} ClashIsSymmetric(p: Patch, q: Patch)
    ensures Clash(p, q) == Clash(q, p)
  {
    if a, b :| Writes(p, a) && Writes(q, b) && Overlap(a, b) {
      assert Overlap(b, a);
    }
    if a, b :| Writes(q, a) && Writes(p, b) && Overlap(a, b) {
      assert Overlap(b, a);
    }
  }

  lemma {:induction false} Consed(body: Fields, p: Patch, ps: seq<Patch>)
    ensures Accepted([p] + ps) <==> !ClashesWithAny(p, ps) && Accepted(ps)
    ensures MergeAll(body, [p] + ps) == MergeAll(Merge(body, p), ps)
  {
    assert ([p] + ps)[1..] == ps;
  }

  // Taking a patch to the front of the list changes neither the verdict nor, if accepted, the result.
  lemma {:induction false} ToTheFront(body: Fields, a: seq<Patch>, x: Patch, b: seq<Patch>)
    ensures Accepted(a + [x] + b) <==> Accepted([x] + (a + b))
    ensures Accepted(a + [x] + b) ==> MergeAll(body, a + [x] + b) == MergeAll(body, [x] + (a + b))
    decreases |a|
  {
    hide Merge, Clash;
    if a == [] {
      assert a + [x] + b == [x] + (a + b);
    } else {
      var y, a' := a[0], a[1..];
      var moved, without := a' + [x] + b, a' + b;
      assert a + [x] + b == [y] + moved && a + b == [y] + without;
      ToTheFront(Merge(body, y), a', x, b);
      ClashIsSymmetric(x, y);
      Consed(body, y, moved);
      Consed(Merge(body, y), x, without);
      Consed(Merge(body, x), y, without);
      Consed(body, x, [y] + without);
      if !Clash(x, y) {
        MergeCommutes(body, x, y);
      }
      assert ClashesWithAny(y, moved) <==> ClashesWithAny(y, without) || Clash(y, x) by {
        assert forall q :: q in moved <==> q in without || q == x;
      }
      assert ClashesWithAny(x, [y] + without) <==> ClashesWithAny(x, without) || Clash(x, y) by {
        assert forall q :: q in [y] + without <==> q in without || q == y;
      }
    }
  }

  lemma {:induction false} SameMembers(p: Patch, ps: seq<Patch>, qs: seq<Patch>)
    requires multiset(ps) == multiset(qs)
    ensures ClashesWithAny(p, ps) <==> ClashesWithAny(p, qs)
  {
    hide Clash;
    assert forall q :: q in ps <==> q in multiset(ps);
    assert forall q :: q in qs <==> q in multiset(qs);
  }

  lemma {:induction false} Occurrence(ps: seq<Patch>, x: Patch, rest: seq<Patch>) returns (a: seq<Patch>, b: seq<Patch>)
    requires multiset(ps) == multiset([x] + rest)
    ensures ps == a + [x] + b && multiset(a + b) == multiset(rest)
  {
    assert ([x] + rest)[0] == x;
    assert x in multiset(ps);
    var i :| 0 <= i < |ps| && ps[i] == x;
    a, b := ps[..i], ps[i + 1..];
    assert ps == a + [x] + b;
    assert multiset(ps) == multiset(a) + multiset{x} + multiset(b);
    assert multiset(a + b) == multiset(a) + multiset(b) == multiset(ps) - multiset{x};
    assert multiset([x] + rest) == multiset{x} + multiset(rest);
  }

  // The order of the patches does not matter, neither for the conflict check nor for the result.
  lemma {:induction false} OrderDoesNotMatter(body: Fields, ps: seq<Patch>, qs: seq<Patch>)
    requires multiset(ps) == multiset(qs)
    ensures Accepted(ps) <==> Accepted(qs)
    ensures Accepted(ps) ==> MergeAll(body, ps) == MergeAll(body, qs)
    decreases |qs|
  {
    hide Merge, Clash, ClashesWithAny, Accepted, MergeAll;
    if qs == [] {
      assert |multiset(ps)| == |ps|;
    } else {
      var x, rest := qs[0], qs[1..];
      assert qs == [x] + rest;
      var a, b := Occurrence(ps, x, rest);
      ToTheFront(body, a, x, b);
      Consed(body, x, a + b);
      Consed(body, x, rest);
      OrderDoesNotMatter(Merge(body, x), a + b, rest);
      SameMembers(x, a + b, rest);
    }
  }

  // -- What a patch changes and what it leaves alone --

  function Lookup(value: Json, path: Path): Option<Json>
    decreases |path|
  {
    if path == [] then Some(value)
    else if value.JObj? && path[0] in value.fields then Lookup(value.fields[path[0]], path[1..])
    else None
  }

  ghost predicate Untouched(patch: Patch, path: Path)
  {
    forall a :: Writes(patch, a) ==> !Overlap(a, path)
  }

  lemma {:induction false} UntouchedBelow(patch: Patch, path: Path)
    requires path != [] && path[0] in patch.fields && Untouched(patch, path)
    ensures IsBranch(patch.fields[path[0]]) && Untouched(patch.fields[path[0]], path[1..]) && path[1..] != []
  {
    var key := path[0];
    var value := patch.fields[key];
    assert !IsBranch(value) ==> Writes(patch, [key]) && Overlap([key], path);
    var a := BranchWrites(value);
    assert ([key] + a)[1..] == a && Writes(patch, [key] + a);
    assert path[1..] == [] ==> path <= [key] + a;
    forall b | Writes(value, b)
      ensures !Overlap(b, path[1..])
    {
      assert ([key] + b)[1..] == b && Writes(patch, [key] + b);
      assert path == [key] + path[1..];
    }
  }

  // A path that overlaps no written path looks up the same value before and after.
  lemma {:induction false} MergeLeavesAlone(target: Fields, patch: Patch, path: Path)
    requires path != [] && Untouched(patch, path)
    ensures Lookup(JObj(Merge(target, patch)), path) == Lookup(JObj(target), path)
    decreases |path|
  {
    var key := path[0];
    if key in patch.fields {
      UntouchedBelow(patch, path);
      MergeLeavesAlone(Base(target, key), patch.fields[key], path[1..]);
    }
  }

  ghost predicate UntouchedByAll(patches: seq<Patch>, path: Path)
    decreases |patches|
  {
    patches == [] || (Untouched(patches[0], path) && UntouchedByAll(patches[1..], path))
  }

  lemma {:induction false} ListLeavesAlone(body: Fields, patches: seq<Patch>, path: Path)
    requires path != [] && UntouchedByAll(patches, path)
    ensures Lookup(JObj(MergeAll(body, patches)), path) == Lookup(JObj(body), path)
    decreases |patches|
  {
    if patches != [] {
      MergeLeavesAlone(body, patches[0], path);
      ListLeavesAlone(Merge(body, patches[0]), patches[1..], path);
    }
  }

  // What a leaf of a patch asks for: null removes, an empty object asks for some object, anything else for itself.
  predicate Honoured(leaf: Json, found: Option<Json>) {
    if leaf.JNull? then found == None
    else if leaf.JObj? then found.Some? && found.value.JObj?
    else found == Some(leaf)
  }

  lemma {:induction false} MergeHonours(target: Fields, patch: Patch, path: Path)
    requires Writes(patch, path)
    ensures Lookup(patch, path).Some?
    ensures Honoured(Lookup(patch, path).value, Lookup(JObj(Merge(target, patch)), path))
    decreases |path|
  {
    var value := patch.fields[path[0]];
    if IsBranch(value) {
      MergeHonours(Base(target, path[0]), value, path[1..]);
    }
  }

  lemma {:induction false} OthersLeaveAlone(p: Patch, others: seq<Patch>, path: Path)
    requires !ClashesWithAny(p, others) && Writes(p, path)
    ensures UntouchedByAll(others, path)
    decreases |others|
  {
    if others != [] {
      forall a | Writes(others[0], a)
        ensures !Overlap(a, path)
      {
        assert !Clash(p, others[0]);
        assert Overlap(a, path) ==> Overlap(path, a);
      }
      OthersLeaveAlone(p, others[1..], path);
    }
  }

  // Of an accepted list every patch takes effect: in the result, each written path has what its patch asked for.
  lemma {:induction false} EveryPatchTakesEffect(body: Fields, patches: seq<Patch>, i: nat, path: Path)
    requires Accepted(patches) && i < |patches|
    requires Writes(patches[i], path)
    ensures Lookup(patches[i], path).Some?
    ensures Honoured(Lookup(patches[i], path).value, Lookup(JObj(MergeAll(body, patches)), path))
    decreases |patches|
  {
    var after := Merge(body, patches[0]);
    if i == 0 {
      MergeHonours(body, patches[0], path);
      OthersLeaveAlone(patches[0], patches[1..], path);
      ListLeavesAlone(after, patches[1..], path);
    } else {
      EveryPatchTakesEffect(after, patches[1..], i - 1, path);
    }
  }

  lemma {:induction false} MergeIsIdempotent(target: Fields, patch: Patch)
    ensures Merge(Merge(target, patch), patch) == Merge(target, patch)
    decreases patch
  {
    var x, y := Merge(Merge(target, patch), patch), Merge(target, patch);
    forall key
      ensures key in x <==> key in y
      ensures key in x && key in y ==> x[key] == y[key]
    {
      if key in patch.fields && patch.fields[key].JObj? {
        MergeIsIdempotent(Base(target, key), patch.fields[key]);
      }
    }
  }

  // The algorithm of section 2 of RFC 7396, for any target and patch.
  function RfcMergePatch(target: Json, patch: Json): Json
    decreases patch
  {
    if !patch.JObj? then patch else
    var fields := if target.JObj? then target.fields else map[];
    JObj(map key | key in fields.Keys + patch.fields.Keys && !(key in patch.fields && patch.fields[key].JNull?) ::
           if key in patch.fields
           then RfcMergePatch(if key in fields then fields[key] else JNull, patch.fields[key])
           else fields[key])
  }

  // A target that is no object is read as an empty one.
  lemma {:induction false} RfcReadsBase(target: Fields, key: Text, patch: Patch)
    ensures RfcMergePatch(if key in target then target[key] else JNull, patch)
         == RfcMergePatch(JObj(Base(target, key)), patch)
  {
    var before := if key in target then target[key] else JNull;
    assert (if before.JObj? then before.fields else map[]) == Base(target, key);
  }

  // The source's merge is the RFC's.
  lemma {:induction false} MergeFollowsRfc(target: Fields, patch: Patch)
    ensures RfcMergePatch(JObj(target), patch) == JObj(Merge(target, patch))
    decreases patch
  {
    var x, y := RfcMergePatch(JObj(target), patch).fields, Merge(target, patch);
    assert x.Keys == y.Keys;
    forall key | key in x
      ensures x[key] == y[key]
    {
      if key in patch.fields && patch.fields[key].JObj? {
        RfcReadsBase(target, key, patch.fields[key]);
        MergeFollowsRfc(Base(target, key), patch.fields[key]);
      } else if key in patch.fields {
        assert RfcMergePatch(if key in target then target[key] else JNull, patch.fields[key]) == patch.fields[key];
      }
    }
    assert x == y;
  }

  // -- The algorithms --

  // Object keys are visited in an arbitrary order: the outcome does not depend on it.

  predicate Distinct(paths: seq<Path>) {
    forall i, j | 0 <= i < j < |paths| :: paths[i] != paths[j]
  }

  lemma {:induction false} DistinctAppend(a: seq<Path>, b: seq<Path>)
    requires Distinct(a) && Distinct(b) && forall path | path in a :: path !in b
    ensures Distinct(a + b)
  {
    forall i, j | 0 <= i < j < |a + b|
      ensures (a + b)[i] != (a + b)[j]
    {
      if i < |a| <= j {
        assert a[i] in a && b[j - |a|] in b;
      }
    }
  }

  // `path` lies below `prefix` and the patch found there writes its rest.
  predicate WrittenBelow(patch: Patch, prefix: Path, path: Path) {
    prefix <= path && Writes(patch, path[|prefix|..])
  }

  lemma {:induction false} BelowKey(patch: Patch, prefix: Path, key: Text, path: Path)
    requires key in patch.fields
    ensures IsBranch(patch.fields[key]) ==>
      (WrittenBelow(patch.fields[key], prefix + [key], path)
       <==> WrittenBelow(patch, prefix, path) && path[|prefix|] == key)
    ensures !IsBranch(patch.fields[key]) ==>
      (path == prefix + [key] <==> WrittenBelow(patch, prefix, path) && path[|prefix|] == key)
  {
    if prefix < path {
      assert path == prefix + path[|prefix|..] && path[|prefix|..][1..] == path[|prefix| + 1..];
    }
  }

  method CollectWrittenPaths(patch: Patch, prefix: Path) returns (paths: seq<Path>)
    ensures forall path :: path in paths <==> WrittenBelow(patch, prefix, path)
    ensures Distinct(paths)
    decreases patch
  {
    paths := [];
    var keys := patch.fields.Keys;
    while keys != {}
      invariant keys <= patch.fields.Keys
      invariant forall path :: path in paths <==> WrittenBelow(patch, prefix, path) && path[|prefix|] !in keys
      invariant Distinct(paths)
      decreases |keys|
    {
      hide Writes;
      var key :| key in keys;
      var value := patch.fields[key];
      var path := prefix + [key];
      var added := [path];
      if IsBranch(value) {
        added := CollectWrittenPaths(value, path);
      }
      forall path { BelowKey(patch, prefix, key, path); }
      keys := keys - {key};
      DistinctAppend(paths, added);
      paths := paths + added;
    }
    assert forall path :: WrittenBelow(patch, prefix, path) ==> path[|prefix|] in patch.fields;
  }

  lemma {:induction false} PathsOfOnePatch(patch: Patch, paths: seq<Path>)
    requires Distinct(paths) && forall path :: path in paths <==> WrittenBelow(patch, [], path)
    ensures forall path :: path in paths <==> Writes(patch, path)
    ensures forall i, j | 0 <= i < j < |paths| :: !Overlap(paths[i], paths[j])
  {
    assert forall path: Path :: path[0..] == path;
    forall i, j | 0 <= i < j < |paths|
      ensures !Overlap(paths[i], paths[j])
    {
      assert paths[i] in paths && paths[j] in paths;
      if Overlap(paths[i], paths[j]) {
        PrefixFree(patch, paths[i], paths[j]);
      }
    }
  }

  method PathsOverlap(left: Path, right: Path) returns (overlap: bool)
    ensures overlap <==> Overlap(left, right)
  {
    var shared := if |left| < |right| then |left| else |right|;
    var index := 0;
    while index < shared
      invariant index <= shared && left[..index] == right[..index]
    {
      if left[index] != right[index] {
        return false;
      }
      index := index + 1;
    }
    return true;
  }

  predicate SameAt(x: Fields, y: Fields, key: Text) {
    (key in x <==> key in y) && (key in x && key in y ==> x[key] == y[key])
  }

  lemma {:induction false} MergedAt(target: Fields, patch: Patch, key: Text)
    ensures key !in patch.fields ==> SameAt(Merge(target, patch), target, key)
    ensures key in patch.fields ==>
      var value := patch.fields[key];
      var merged := if value.JObj? then JObj(Merge(Base(target, key), value)) else value;
      SameAt(Merge(target, patch), if value.JNull? then map[] else map[key := merged], key)
  {
  }

  // The recursion merges into whatever object is at the key, or into a new one.
  method MergeObject(target: Fields, patch: Patch) returns (result: Fields)
    ensures result == Merge(target, patch)
    decreases patch
  {
    hide Merge, Base;
    result := target;
    var keys := patch.fields.Keys;
    ghost var merged := Merge(target, patch);
    while keys != {}
      invariant keys <= patch.fields.Keys
      invariant forall key | key in keys :: SameAt(result, target, key)
      invariant forall key | key !in keys && key in patch.fields :: SameAt(result, merged, key)
      invariant forall key | key !in patch.fields :: SameAt(result, target, key)
      decreases |keys|
    {
      var key :| key in keys;
      keys := keys - {key};
      MergedAt(target, patch, key);
      var value := patch.fields[key];
      assert SameAt(result, target, key);
      if value.JNull? {
        result := result - {key};
      } else if value.JObj? {
        var inner := MergeObject(Base(result, key), value);
        SameBase(result, target, key);
        result := result[key := JObj(inner)];
      } else {
        result := result[key := value];
      }
    }
    forall key
      ensures SameAt(result, merged, key)
    {
      MergedAt(target, patch, key);
    }
    SameEverywhere(result, merged);
  }

  lemma {:induction false} SameEverywhere(x: Fields, y: Fields)
    requires forall key :: SameAt(x, y, key)
    ensures x == y
  {
    assert forall key | key in x || key in y :: SameAt(x, y, key);
    assert forall key | key in x :: key in y && x[key] == y[key];
    assert x.Keys == y.Keys;
  }

  lemma {:induction false} SameBase(x: Fields, y: Fields, key: Text)
    requires SameAt(x, y, key)
    ensures Base(x, key) == Base(y, key)
  {
  }

  datatype Named = Named(option: Text, patch: Patch)

  function PatchesOf(named: seq<Named>): (r: seq<Patch>)
    ensures |r| == |named| && forall i | 0 <= i < |r| :: r[i] == named[i].patch
  {
    if named == [] then [] else PatchesOf(named[..|named| - 1]) + [named[|named| - 1].patch]
  }

  datatype Owned = Owned(option: Text, path: Path)

  datatype Applied =
    | Merged(body: Fields)
    | Conflict(path: Path, owner: Text, option: Text)

  method FindOverlapping(owned: seq<Owned>, path: Path) returns (found: Option<Owned>)
    ensures found.Some? ==> found.value in owned && Overlap(found.value.path, path)
    ensures found.None? ==> forall o | o in owned :: !Overlap(o.path, path)
  {
    var i := 0;
    while i < |owned|
      invariant i <= |owned|
      invariant forall k | 0 <= k < i :: !Overlap(owned[k].path, path)
    {
      var overlap := PathsOverlap(owned[i].path, path);
      if overlap {
        return Some(owned[i]);
      }
      i := i + 1;
    }
    return None;
  }

  // Takes the paths of one option into the owned ones, unless one of them overlaps an earlier option's.
  method ClaimPaths(owned: seq<Owned>, option: Text, paths: seq<Path>)
    returns (claimed: seq<Owned>, conflict: Option<(Path, Owned)>)
    requires forall i, j | 0 <= i < j < |paths| :: !Overlap(paths[i], paths[j])
    ensures conflict.Some? ==>
      conflict.value.0 in paths && conflict.value.1 in owned && Overlap(conflict.value.1.path, conflict.value.0)
    ensures conflict.None? ==> forall o, p | o in owned && p in paths :: !Overlap(o.path, p)
    ensures conflict.None? ==>
      forall o :: o in claimed <==> o in owned || (o.option == option && o.path in paths)
  {
    claimed := owned;
    var j := 0;
    while j < |paths|
      invariant j <= |paths|
      invariant forall o, p | o in owned && p in paths[..j] :: !Overlap(o.path, p)
      invariant forall o :: o in claimed <==> o in owned || (o.option == option && o.path in paths[..j])
    {
      hide Overlap;
      var found := FindOverlapping(claimed, paths[j]);
      if found.Some? {
        var earlier := found.value;
        assert earlier in owned;
        return claimed, Some((paths[j], earlier));
      }
      claimed := claimed + [Owned(option, paths[j])];
      assert paths[..j + 1] == paths[..j] + [paths[j]];
      j := j + 1;
    }
    assert paths[..j] == paths;
    conflict := None;
  }

  lemma {:induction false} AddedLast(body: Fields, ps: seq<Patch>, q: Patch)
    ensures Accepted(ps + [q]) <==> Accepted(ps) && forall p | p in ps :: !Clash(p, q)
    ensures MergeAll(body, ps + [q]) == Merge(MergeAll(body, ps), q)
    decreases |ps|
  {
    hide Merge, Clash;
    if ps == [] {
      assert ps + [q] == [q] + [];
      Consed(body, q, []);
    } else {
      var p, rest := ps[0], ps[1..];
      assert ps == [p] + rest && ps + [q] == [p] + (rest + [q]);
      Consed(body, p, rest);
      Consed(body, p, rest + [q]);
      AddedLast(Merge(body, p), rest, q);
      assert ClashesWithAny(p, rest + [q]) <==> ClashesWithAny(p, rest) || Clash(p, q) by {
        assert forall x :: x in rest + [q] <==> x in rest || x == q;
      }
    }
  }

  lemma {:induction false} StartAccepted(ps: seq<Patch>, n: nat)
    requires n <= |ps| && Accepted(ps)
    ensures Accepted(ps[..n])
    decreases |ps|
  {
    if n < |ps| {
      var start := ps[..|ps| - 1];
      assert ps == start + [ps[|ps| - 1]] && start[..n] == ps[..n];
      AddedLast(map[], start, ps[|ps| - 1]);
      StartAccepted(start, n);
    } else {
      assert ps[..n] == ps;
    }
  }

  // The owned paths are those the first n patches write, each with an option whose patch writes it.
  ghost predicate OwnedByFirst(owned: seq<Owned>, named: seq<Named>, n: nat)
    requires n <= |named|
  {
    && (forall k, path | 0 <= k < n && Writes(named[k].patch, path) :: Owned(named[k].option, path) in owned)
    && (forall o | o in owned :: exists k :: 0 <= k < n && OwnedBy(o, named[k]))
  }

  predicate OwnedBy(o: Owned, named: Named) {
    o.option == named.option && Writes(named.patch, o.path)
  }

  // A reported conflict names a written path, its option, and an earlier option that writes an overlapping path.
  ghost predicate ConflictIsReal(named: seq<Named>, path: Path, owner: Text, option: Text) {
    exists i, j, a :: 0 <= i < j < |named| && OwnedBy(Owned(owner, a), named[i])
                   && OwnedBy(Owned(option, path), named[j]) && Overlap(a, path)
  }

  lemma {:induction false} RefusedHere(named: seq<Named>, n: nat, owned: seq<Owned>, path: Path, earlier: Owned)
    requires n < |named| && OwnedByFirst(owned, named, n) && earlier in owned
    requires Writes(named[n].patch, path) && Overlap(earlier.path, path)
    ensures ConflictIsReal(named, path, earlier.option, named[n].option)
    ensures !Accepted(PatchesOf(named))
  {
    var all := PatchesOf(named);
    var k :| 0 <= k < n && OwnedBy(earlier, named[k]);
    assert OwnedBy(Owned(earlier.option, earlier.path), named[k]) && OwnedBy(Owned(named[n].option, path), named[n]);
    assert Clash(named[k].patch, named[n].patch);
    assert all[..n][k] == named[k].patch && all[..n + 1] == all[..n] + [named[n].patch];
    AddedLast(map[], all[..n], named[n].patch);
    if Accepted(all) {
      StartAccepted(all, n + 1);
    }
  }

  lemma {:induction false} ClaimedHere(named: seq<Named>, n: nat, owned: seq<Owned>, claimed: seq<Owned>,
                                       paths: seq<Path>)
    requires n < |named| && OwnedByFirst(owned, named, n)
    requires forall path :: path in paths <==> Writes(named[n].patch, path)
    requires forall o :: o in claimed <==> o in owned || (o.option == named[n].option && o.path in paths)
    ensures OwnedByFirst(claimed, named, n + 1)
  {
    hide Writes;
    forall o | o in claimed
      ensures exists k :: 0 <= k < n + 1 && OwnedBy(o, named[k])
    {
      if o in owned {
        var k :| 0 <= k < n && OwnedBy(o, named[k]);
      } else {
        assert OwnedBy(o, named[n]);
      }
    }
  }

  lemma {:induction false} NoClashHere(named: seq<Named>, n: nat, owned: seq<Owned>, paths: seq<Path>)
    requires n < |named| && OwnedByFirst(owned, named, n)
    requires forall path :: path in paths <==> Writes(named[n].patch, path)
    requires forall o, p | o in owned && p in paths :: !Overlap(o.path, p)
    ensures forall p | p in PatchesOf(named)[..n] :: !Clash(p, named[n].patch)
  {
    hide Writes, Overlap;
    forall k, a, b | 0 <= k < n && Writes(named[k].patch, a) && Writes(named[n].patch, b)
      ensures !Overlap(a, b)
    {
      assert Owned(named[k].option, a) in owned && b in paths;
    }
  }

  method ApplyOrderedJsonMergePatches(body: Fields, named: seq<Named>) returns (r: Applied)
    ensures r.Merged? <==> Accepted(PatchesOf(named))
    ensures r.Merged? ==> r.body == MergeAll(body, PatchesOf(named))
    ensures r.Conflict? ==> ConflictIsReal(named, r.path, r.owner, r.option)
  {
    var owned: seq<Owned> := [];
    var result := body;
    var n := 0;
    ghost var all := PatchesOf(named);
    while n < |named|
      invariant n <= |named|
      invariant OwnedByFirst(owned, named, n)
      invariant Accepted(all[..n]) && result == MergeAll(body, all[..n])
    {
      hide Merge, MergeAll, Accepted, Clash;
      var patch := named[n].patch;
      var paths := CollectWrittenPaths(patch, []);
      PathsOfOnePatch(patch, paths);
      var claimed, conflict := ClaimPaths(owned, named[n].option, paths);
      assert all[..n + 1] == all[..n] + [patch];
      AddedLast(body, all[..n], patch);
      if conflict.Some? {
        RefusedHere(named, n, owned, conflict.value.0, conflict.value.1);
        return Conflict(conflict.value.0, conflict.value.1.option, named[n].option);
      }
      ClaimedHere(named, n, owned, claimed, paths);
      NoClashHere(named, n, owned, paths);
      owned := claimed;
      result := MergeObject(result, patch);
      n := n + 1;
    }
    assert all[..n] == all;
    return Merged(result);
  }
}
