// The SQLite backend over abstract tables (internal/store/sqlite/sqlite.go): transactions that
// commit whole or change nothing, and the migration that rebuilds claims.
module SqliteStore {
  import opened Wrappers
  import opened Observations
  import opened Sorting
  import opened MemoryStore

  const SCHEMA_VERSION := 5
  const CLAIMS_VERSION := 5

  datatype ClaimRow = ClaimRow(
    asset: Asset, site: string, collector: string, plugin: string,
    firstID: string, lastID: string, firstAt: Time, lastAt: Time)

  type ClaimTable = map<ClaimKey, ClaimRow>

  function ClaimOf(k: ClaimKey, row: ClaimRow): AssetClaim {
    AssetClaim(k.0, row.asset,
               AssetSource(Source(row.site, row.collector, row.plugin), row.firstID, row.lastID, row.firstAt, row.lastAt, 0, false))
  }

  ghost function ClaimsOf(t: ClaimTable): Claims {
    map k | k in t :: ClaimOf(k, t[k])
  }

  datatype RelationshipRow = RelationshipRow(relationship: Relationship, firstID: string, lastID: string)

  type RelationshipTable = map<string, RelationshipRow>

  ghost function RelationshipsOf(t: RelationshipTable): map<string, ResolvedRelationship> {
    map id | id in t :: ResolvedRelationship(id, t[id].relationship, t[id].firstID, t[id].lastID)
  }

  // Insert the row, or update what changes.
  method SaveRelationshipRow(n: Naming, t: RelationshipTable, e: Envelope, r: Relationship) returns (t': RelationshipTable)
    ensures RelationshipsOf(t') == SaveRelationship(n, RelationshipsOf(t), e, r)
  {
    var id := n.relationshipID(r);
    t' := t[id := if id in t then t[id].(relationship := r, lastID := e.id) else RelationshipRow(r, e.id, e.id)];
  }

  method SaveRelationshipRows(n: Naming, t: RelationshipTable, e: Envelope) returns (t': RelationshipTable)
    ensures RelationshipsOf(t') == SaveRelationships(n, RelationshipsOf(t), e, e.relationships)
  {
    hide RelationshipsOf, SaveRelationship;
    t' := t;
    for i := 0 to |e.relationships|
      invariant RelationshipsOf(t') == SaveRelationships(n, RelationshipsOf(t), e, e.relationships[..i])
    {
      t' := SaveRelationshipRow(n, t', e, e.relationships[i]);
      assert e.relationships[..i + 1][..i] == e.relationships[..i];
    }
    assert e.relationships[..|e.relationships|] == e.relationships;
  }

  // Read the row, then insert or update it.
  method SaveAssetClaim(n: Naming, t: ClaimTable, e: Envelope, a: Asset) returns (t': ClaimTable)
    ensures ClaimsOf(t') == SaveAsset(n, ClaimsOf(t), e, a)
  {
    var k := (n.assetID(a), n.sourceKey(e.source));
    if k !in t {
      t' := t[k := ClaimRow(a, e.source.site, e.source.collector, e.source.plugin, e.id, e.id, e.at, e.at)];
    } else {
      var row := t[k];
      if e.at < row.firstAt {
        row := row.(firstAt := e.at, firstID := e.id);
      }
      if !(e.at < row.lastAt) {
        row := row.(lastAt := e.at, lastID := e.id, asset := a);
      }
      t' := t[k := row];
    }
  }

  method SaveAssetClaims(n: Naming, t: ClaimTable, e: Envelope) returns (t': ClaimTable)
    ensures ClaimsOf(t') == SaveAssets(n, ClaimsOf(t), e, e.assets)
  {
    hide ClaimsOf, SaveAsset;
    t' := t;
    for i := 0 to |e.assets|
      invariant ClaimsOf(t') == SaveAssets(n, ClaimsOf(t), e, e.assets[..i])
    {
      t' := SaveAssetClaim(n, t', e, e.assets[i]);
      assert e.assets[..i + 1][..i] == e.assets[..i];
    }
    assert e.assets[..|e.assets|] == e.assets;
  }

  // Claims rebuilt from the retained envelopes in row order.
  method BackfillAssetClaims(n: Naming, observations: seq<Envelope>) returns (t: ClaimTable)
    ensures ClaimsOf(t) == SaveAll(n, EMPTY, observations).claims
  {
    hide SaveAssets;
    t := map[];
    for i := 0 to |observations|
      invariant ClaimsOf(t) == SaveAll(n, EMPTY, observations[..i]).claims
    {
      t := SaveAssetClaims(n, t, observations[i]);
      assert observations[..i + 1][..i] == observations[..i];
    }
    assert observations[..|observations|] == observations;
  }

  // What a database of an older version turns into.
  function Migrated(n: Naming, version: nat, s: Contents): Contents {
    if version < CLAIMS_VERSION then s.(claims := SaveAll(n, EMPTY, s.observations).claims) else s
  }

  class Store {
    const n: Naming
    var version: nat
    var observations: seq<Envelope>
    var assetClaims: ClaimTable
    var relationships: RelationshipTable

    constructor (n: Naming)
      ensures Valid() && version == 0 && View() == EMPTY && this.n == n
    {
      this.n := n;
      version := 0;
      observations := [];
      assetClaims := map[];
      relationships := map[];
    }

    // Tables exist from the version that created them.
    ghost predicate Valid()
      reads this
    {
      && Keyed(n, View().claims)
      && (version < CLAIMS_VERSION ==> assetClaims == map[])
      && (version < 1 ==> observations == [] && relationships == map[])
    }

    ghost function View(): Contents
      reads this
    {
      Contents(observations, ClaimsOf(assetClaims), RelationshipsOf(relationships))
    }

    // The migrations in one transaction, each of which may fail.
    method Migrate(failing: set<nat>) returns (ok: bool)
      requires Valid()
      modifies this
      ensures Valid()
      ensures ok <==> old(version) <= SCHEMA_VERSION && forall v :: old(version) < v <= SCHEMA_VERSION ==> v !in failing
      ensures !ok ==> version == old(version) && View() == old(View())
      ensures ok ==> version == SCHEMA_VERSION && View() == Migrated(n, old(version), old(View()))
    {
      if version > SCHEMA_VERSION {
        return false;
      }
      if version == SCHEMA_VERSION {
        return true;
      }
      var claims, v := assetClaims, version;
      while v < SCHEMA_VERSION
        invariant version <= v <= SCHEMA_VERSION && View() == old(View()) && version == old(version)
        invariant forall u :: version < u <= v ==> u !in failing
        invariant v < CLAIMS_VERSION ==> claims == assetClaims
        invariant v == CLAIMS_VERSION ==> ClaimsOf(claims) == SaveAll(n, EMPTY, observations).claims
      {
        v := v + 1;
        if v in failing {
          return false;
        }
        if v == CLAIMS_VERSION {
          claims := BackfillAssetClaims(n, observations);
        }
      }
      KeyedAll(n, observations);
      assetClaims, version := claims, SCHEMA_VERSION;
      return true;
    }

    // One transaction: everything the envelope says, or nothing.
    method SaveObservation(e: Envelope, failing: bool) returns (ok: bool)
      requires Valid() && version == SCHEMA_VERSION
      modifies this
      ensures Valid() && version == SCHEMA_VERSION && ok == !failing
      ensures View() == if ok then Save(n, old(View()), e) else old(View())
    {
      hide ClaimsOf, RelationshipsOf, SaveAssets, SaveRelationships, Keyed;
      var i := IndexOf(observations, e.id);
      var kept := if i < |observations| then observations[i := e] else observations + [e];
      var claims := SaveAssetClaims(n, assetClaims, e);
      var rels := SaveRelationshipRows(n, relationships, e);
      if failing {
        return false;
      }
      KeyedAssets(n, ClaimsOf(assetClaims), e, e.assets);
      observations, assetClaims, relationships := kept, claims, rels;
      return true;
    }

    // SELECT ... ORDER BY asset_id, source_key.
    method ListAssetClaims() returns (out: seq<AssetClaim>)
      requires Valid()
      ensures Lists(n, View().claims, out)
    {
      out := [];
      var keys := assetClaims.Keys;
      while keys != {}
        invariant keys <= assetClaims.Keys && NoDuplicates(out)
        invariant forall c :: c in out <==> exists k :: k in assetClaims && k !in keys && ClaimOf(k, assetClaims[k]) == c
        decreases |keys|
      {
        var k :| k in keys;
        var c := ClaimOf(k, assetClaims[k]);
        assert View().claims[k] == c;
        forall j | j in assetClaims && j !in keys ensures ClaimOf(j, assetClaims[j]) != c {
          assert View().claims[j] == ClaimOf(j, assetClaims[j]);
        }
        assert c !in out;
        keys := keys - {k};
        out := out + [c];
      }
      forall c ensures c in out <==> c in View().claims.Values {
        assert forall k :: k in assetClaims ==> View().claims[k] == ClaimOf(k, assetClaims[k]);
      }
      MapSorted(n, View().claims, out);
      out := Sort(ClaimOrder(n), out);
    }
  }

  // Both backends, given the same observations, list the same claims and relationships.
  method SaveInBoth(n: Naming, es: seq<Envelope>) returns (memory: Memory, database: Store)
    ensures fresh(memory) && fresh(database) && memory.Valid() && database.Valid()
    ensures memory.n == database.n == n && memory.View() == database.View() == SaveAll(n, EMPTY, es)
  {
    hide Save, ClaimsOf, RelationshipsOf, Flatten, Keyed;
    memory := new Memory(n);
    database := new Store(n);
    var migrated := database.Migrate({});
    for i := 0 to |es|
      invariant fresh(memory) && fresh(database) && memory.Valid() && database.Valid()
      invariant memory.n == database.n == n && database.version == SCHEMA_VERSION
      invariant memory.View() == database.View() == SaveAll(n, EMPTY, es[..i])
    {
      memory.SaveObservation(es[i]);
      var saved := database.SaveObservation(es[i], false);
      assert es[..i + 1][..i] == es[..i];
    }
    assert es[..|es|] == es;
  }

  // THEOREM. The same claims are listed by both backends after any saves.
  method ListsAgree(n: Naming, es: seq<Envelope>) returns (fromMemory: seq<AssetClaim>, fromDatabase: seq<AssetClaim>)
    ensures fromMemory == fromDatabase && Lists(n, SaveAll(n, EMPTY, es).claims, fromMemory)
  {
    hide Lists;
    var memory, database := SaveInBoth(n, es);
    fromMemory := memory.ListAssetClaims();
    fromDatabase := database.ListAssetClaims();
    KeyedAll(n, es);
    ListingUnique(n, SaveAll(n, EMPTY, es).claims, fromMemory, fromDatabase);
  }

  // THEOREM (migration). If an ID always named the same observation and no source reported
  // twice at one time, upgrading a database from before claims existed gives the claims that
  // its deliveries would have given.
  lemma {:induction false} MigrationRebuilds(n: Naming, version: nat, s: Contents, es: seq<Envelope>)
    requires version < CLAIMS_VERSION && s.observations == SaveAll(n, EMPTY, es).observations
    requires DistinctSources(n, es) && NoTies(n, es) && forall a, b :: a in es && b in es && a.id == b.id ==> a == b
    ensures Migrated(n, version, s).claims == SaveAll(n, EMPTY, es).claims
  {
    RebuiltClaims(n, es);
  }
}
