// The in-memory backend (internal/store/store.go, Memory) and the order in which both backends
// list claims.
module MemoryStore {
  import opened Wrappers
  import opened Observations
  import opened Sorting

  // ----- listing claims

  function ClaimKeyOf(n: Naming, c: AssetClaim): ClaimKey { (c.assetID, n.sourceKey(c.source.source)) }

  predicate KeyLe(a: ClaimKey, b: ClaimKey) {
    if a.0 != b.0 then StringLe(a.0, b.0) else StringLe(a.1, b.1)
  }

  function ClaimOrder(n: Naming): (AssetClaim, AssetClaim) -> bool {
    (a, b) => KeyLe(ClaimKeyOf(n, a), ClaimKeyOf(n, b))
  }

  ghost predicate Keyed(n: Naming, claims: Claims) {
    forall k :: k in claims ==> ClaimKeyOf(n, claims[k]) == k
  }

  ghost predicate Lists(n: Naming, claims: Claims, out: seq<AssetClaim>) {
    Sorted(ClaimOrder(n), out) && NoDuplicates(out) && forall c :: c in out <==> c in claims.Values
  }

  lemma {:induction false} KeyOrder()
    ensures TotalPreorder(KeyLe) && forall a, b :: KeyLe(a, b) && KeyLe(b, a) ==> a == b
  {
    StringOrder();
    forall a, b ensures (KeyLe(a, b) || KeyLe(b, a)) && (KeyLe(a, b) && KeyLe(b, a) ==> a == b) {
      StringLeTotal(a.0, b.0);
      StringLeTotal(a.1, b.1);
    }
    forall a, b, c | KeyLe(a, b) && KeyLe(b, c) ensures KeyLe(a, c) {
      if a.0 != b.0 && a.0 == c.0 { StringLeTotal(a.0, b.0); }
      if a.0 != b.0 && b.0 != c.0 && a.0 != c.0 { StringLeTransitive(a.0, b.0, c.0); }
      if a.0 == b.0 == c.0 { StringLeTransitive(a.1, b.1, c.1); }
    }
  }

  lemma {:induction false} ClaimOrderTotal(n: Naming)
    ensures TotalPreorder(ClaimOrder(n))
  {
    KeyOrder();
  }

  // THEOREM. A set of claims has one listing, whichever backend and whichever sort made it.
  lemma {:induction false} ListingUnique(n: Naming, claims: Claims, a: seq<AssetClaim>, b: seq<AssetClaim>)
    requires Keyed(n, claims) && Lists(n, claims, a) && Lists(n, claims, b)
    ensures a == b
  {
    KeyOrder();
    ClaimOrderTotal(n);
    forall x, y | x in a && y in a && ClaimOrder(n)(x, y) && ClaimOrder(n)(y, x) ensures x == y {
      assert x in claims.Values && y in claims.Values;
      var j :| j in claims && claims[j] == x;
      var k :| k in claims && claims[k] == y;
      assert j == k;
    }
    SortedSetUnique(ClaimOrder(n), a, b);
  }

  lemma {:induction false} KeyedAssets(n: Naming, claims: Claims, e: Envelope, assets: seq<Asset>)
    requires Keyed(n, claims)
    ensures Keyed(n, SaveAssets(n, claims, e, assets))
  {
    if assets != [] {
      KeyedAssets(n, claims, e, assets[..|assets| - 1]);
    }
  }

  lemma {:induction false} KeyedAll(n: Naming, es: seq<Envelope>)
    ensures Keyed(n, SaveAll(n, EMPTY, es).claims)
  {
    if es != [] {
      KeyedAll(n, es[..|es| - 1]);
      KeyedAssets(n, SaveAll(n, EMPTY, es[..|es| - 1]).claims, es[|es| - 1], es[|es| - 1].assets);
    }
  }

  lemma {:induction false} MapSorted(n: Naming, claims: Claims, found: seq<AssetClaim>)
    requires Keyed(n, claims) && NoDuplicates(found) && forall c :: c in found <==> c in claims.Values
    ensures Lists(n, claims, Sort(ClaimOrder(n), found))
  {
    ClaimOrderTotal(n);
    SortCorrect(ClaimOrder(n), found);
    SortNoDuplicates(ClaimOrder(n), found);
  }

  // ----- the backend

  type Nested = map<string, map<string, AssetClaim>>

  ghost function Flatten(m: Nested): Claims {
    map a, s | a in m && s in m[a] :: (a, s) := m[a][s]
  }

  lemma {:induction false} FlattenLookup(m: Nested, id: string, key: string)
    ensures Lookup(Flatten(m), (id, key)) == if id in m then Lookup(m[id], key) else None
  {
  }

  lemma {:induction false} FlattenUpdate(m: Nested, id: string, key: string, c: AssetClaim)
    ensures Flatten(m[id := (if id in m then m[id] else map[])[key := c]]) == Flatten(m)[(id, key) := c]
  {
    hide Flatten;
    var m' := m[id := (if id in m then m[id] else map[])[key := c]];
    forall k: ClaimKey ensures Lookup(Flatten(m'), k) == Lookup(Flatten(m)[(id, key) := c], k) {
      FlattenLookup(m', k.0, k.1);
      FlattenLookup(m, k.0, k.1);
    }
    SameMaps(Flatten(m'), Flatten(m)[(id, key) := c]);
  }

  class Memory {
    const n: Naming
    var observations: seq<Envelope>
    var observationIndex: map<string, nat>
    var assetClaims: Nested
    var relationships: map<string, ResolvedRelationship>

    constructor (n: Naming)
      ensures Valid() && View() == EMPTY && this.n == n
    {
      this.n := n;
      observations := [];
      observationIndex := map[];
      assetClaims := map[];
      relationships := map[];
    }

    ghost predicate Valid()
      reads this
    {
      && Keyed(n, View().claims)
      && (forall i :: 0 <= i < |observations| ==> observations[i].id in observationIndex && observationIndex[observations[i].id] == i)
      && (forall id :: id in observationIndex ==> observationIndex[id] < |observations| && observations[observationIndex[id]].id == id)
    }

    ghost function View(): Contents
      reads this
    {
      Contents(observations, Flatten(assetClaims), relationships)
    }

    method SaveObservation(e: Envelope)
      requires Valid()
      modifies this
      ensures Valid() && View() == Save(n, old(View()), e)
    {
      RetainObservation(e);
      SaveClaims(e);
      SaveRelationships(e);
    }

    method SaveClaims(e: Envelope)
      requires Valid()
      modifies this`assetClaims
      ensures Valid() && View().claims == SaveAssets(n, old(View()).claims, e, e.assets)
    {
      hide Flatten, Keyed, SaveAsset;
      for i := 0 to |e.assets|
        invariant Valid() && View().claims == SaveAssets(n, old(View()).claims, e, e.assets[..i])
      {
        SaveClaim(e, e.assets[i]);
        assert e.assets[..i + 1][..i] == e.assets[..i];
      }
      assert e.assets[..|e.assets|] == e.assets;
    }

    method SaveRelationships(e: Envelope)
      requires Valid()
      modifies this`relationships
      ensures Valid() && relationships == Observations.SaveRelationships(n, old(relationships), e, e.relationships)
    {
      hide Flatten, Keyed;
      for i := 0 to |e.relationships|
        invariant Valid() && relationships == Observations.SaveRelationships(n, old(relationships), e, e.relationships[..i])
      {
        var rel := e.relationships[i];
        var id := n.relationshipID(rel);
        var r := if id in relationships then relationships[id] else ResolvedRelationship(id, rel, e.id, e.id);
        relationships := relationships[id := ResolvedRelationship(id, rel, r.firstID, e.id)];
        assert e.relationships[..i + 1][..i] == e.relationships[..i];
      }
      assert e.relationships[..|e.relationships|] == e.relationships;
    }

    method RetainObservation(e: Envelope)
      requires Valid()
      modifies this`observations, this`observationIndex
      ensures Valid() && observations == Retain(old(observations), e)
    {
      hide Flatten, Keyed;
      if e.id in observationIndex {
        var idx := observationIndex[e.id];
        assert IndexOf(observations, e.id) == idx;
        observations := observations[idx := e];
      } else {
        assert IndexOf(observations, e.id) == |observations|;
        observationIndex := observationIndex[e.id := |observations|];
        observations := observations + [e];
      }
    }

    method SaveClaim(e: Envelope, a: Asset)
      requires Valid()
      modifies this`assetClaims
      ensures Valid() && View().claims == SaveAsset(n, old(View()).claims, e, a)
    {
      hide Flatten;
      var id := n.assetID(a);
      var key := n.sourceKey(e.source);
      var claims := if id in assetClaims then assetClaims[id] else map[];
      var known := key in claims;
      var claim := if known then claims[key] else AssetClaim(id, a, AssetSource(e.source, e.id, e.id, e.at, e.at, 0, false));
      FlattenLookup(assetClaims, id, key);
      if !known || e.at < claim.source.firstAt {
        claim := claim.(source := claim.source.(firstID := e.id, firstAt := e.at));
      }
      if !known || !(e.at < claim.source.lastAt) {
        claim := claim.(asset := a, source := claim.source.(lastID := e.id, lastAt := e.at));
      }
      FlattenUpdate(assetClaims, id, key, claim);
      KeyedAssets(n, Flatten(assetClaims), e, [a]);
      assert SaveAssets(n, Flatten(assetClaims), e, []) == Flatten(assetClaims);
      assetClaims := assetClaims[id := claims[key := claim]];
    }

    // Every claim, found in no particular order and then sorted.
    method ListAssetClaims() returns (out: seq<AssetClaim>)
      requires Valid()
      ensures Lists(n, View().claims, out)
    {
      ghost var claims := View().claims;
      out := [];
      var ids := assetClaims.Keys;
      while ids != {}
        invariant ids <= assetClaims.Keys && NoDuplicates(out)
        invariant forall c :: c in out <==> exists k :: k in claims && k.0 !in ids && claims[k] == c
        decreases |ids|
      {
        var id :| id in ids;
        ids := ids - {id};
        out := ListClaimsOf(id, ids, out);
      }
      forall c ensures c in out <==> c in claims.Values {}
      MapSorted(n, claims, out);
      out := Sort(ClaimOrder(n), out);
    }

    method ListClaimsOf(id: string, ghost ids: set<string>, before: seq<AssetClaim>) returns (out: seq<AssetClaim>)
      requires Valid() && id in assetClaims && id !in ids && NoDuplicates(before)
      requires forall c :: c in before <==> exists k :: k in View().claims && k.0 !in ids && k.0 != id && View().claims[k] == c
      ensures NoDuplicates(out)
      ensures forall c :: c in out <==> exists k :: k in View().claims && k.0 !in ids && View().claims[k] == c
    {
      ghost var claims := View().claims;
      out := before;
      var keys := assetClaims[id].Keys;
      while keys != {}
        invariant keys <= assetClaims[id].Keys && NoDuplicates(out)
        invariant forall c :: c in out <==> exists k :: k in claims && k.0 !in ids && (k.0 == id ==> k.1 !in keys) && claims[k] == c
        decreases |keys|
      {
        var key :| key in keys;
        keys := keys - {key};
        var c := assetClaims[id][key];
        assert claims[(id, key)] == c;
        assert c !in out;
        out := out + [c];
      }
    }
  }
}
