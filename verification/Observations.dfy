// What an observation store holds after any deliveries (internal/store/store.go): the retained
// envelopes, one claim per asset and source, and the relationships.
//
// Envelopes may arrive in any order and more than once. Both backends are proved to hold what
// Save says here; the theorems say what that is.
module Observations {
  import opened Wrappers

  type Time = int

  datatype Asset = Asset(kind: string, nativeID: string, name: string, identifiers: map<string, string>, attributes: map<string, string>)
  datatype Relationship = Relationship(kind: string, from: string, to: string)
  datatype Source = Source(site: string, collector: string, plugin: string)
  datatype Envelope = Envelope(id: string, source: Source, at: Time, assets: seq<Asset>, relationships: seq<Relationship>)

  // The stable identities, which the sources compute with SHA-256.
  datatype Naming = Naming(assetID: Asset -> string, relationshipID: Relationship -> string, sourceKey: Source -> string)

  // The sources of some observations are told apart by their keys.
  ghost predicate DistinctSources(n: Naming, es: seq<Envelope>) {
    forall a, b :: a in es && b in es && n.sourceKey(a.source) == n.sourceKey(b.source) ==> a.source == b.source
  }

  datatype AssetSource = AssetSource(
    source: Source, firstID: string, lastID: string, firstAt: Time, lastAt: Time, rank: nat, explicit: bool)
  datatype AssetClaim = AssetClaim(assetID: string, asset: Asset, source: AssetSource)
  datatype ResolvedRelationship = ResolvedRelationship(id: string, relationship: Relationship, firstID: string, lastID: string)

  type ClaimKey = (string, string)
  type Claims = map<ClaimKey, AssetClaim>
  type Relationships = map<string, ResolvedRelationship>

  datatype Contents = Contents(observations: seq<Envelope>, claims: Claims, relationships: Relationships)
  const EMPTY := Contents([], map[], map[])

  // ----- saving

  function Update(claim: Option<AssetClaim>, id: string, e: Envelope, a: Asset): AssetClaim {
    match claim
    case None => AssetClaim(id, a, AssetSource(e.source, e.id, e.id, e.at, e.at, 0, false))
    case Some(c) =>
      var first := if e.at < c.source.firstAt then c.source.(firstID := e.id, firstAt := e.at) else c.source;
      if e.at < c.source.lastAt then c.(source := first) else c.(asset := a, source := first.(lastID := e.id, lastAt := e.at))
  }

  function KeyOf(n: Naming, e: Envelope, a: Asset): ClaimKey { (n.assetID(a), n.sourceKey(e.source)) }

  function Lookup<K, V>(m: map<K, V>, k: K): Option<V> { if k in m then Some(m[k]) else None }

  function SaveAsset(n: Naming, claims: Claims, e: Envelope, a: Asset): Claims {
    var k := KeyOf(n, e, a);
    claims[k := Update(Lookup(claims, k), k.0, e, a)]
  }

  function SaveAssets(n: Naming, claims: Claims, e: Envelope, assets: seq<Asset>): Claims {
    if assets == [] then claims else SaveAsset(n, SaveAssets(n, claims, e, assets[..|assets| - 1]), e, assets[|assets| - 1])
  }

  function SaveRelationship(n: Naming, rels: Relationships, e: Envelope, r: Relationship): Relationships {
    var id := n.relationshipID(r);
    rels[id := ResolvedRelationship(id, r, if id in rels then rels[id].firstID else e.id, e.id)]
  }

  function SaveRelationships(n: Naming, rels: Relationships, e: Envelope, rs: seq<Relationship>): Relationships {
    if rs == [] then rels else SaveRelationship(n, SaveRelationships(n, rels, e, rs[..|rs| - 1]), e, rs[|rs| - 1])
  }

  function IndexOf(es: seq<Envelope>, id: string): (i: nat)
    ensures i <= |es| && (i < |es| ==> es[i].id == id) && forall j :: 0 <= j < i ==> es[j].id != id
  {
    if es == [] || es[0].id == id then 0 else 1 + IndexOf(es[1..], id)
  }

  // An envelope replaces the retained one with its ID, or is appended.
  function Retain(es: seq<Envelope>, e: Envelope): seq<Envelope> {
    var i := IndexOf(es, e.id);
    if i < |es| then es[i := e] else es + [e]
  }

  function Save(n: Naming, s: Contents, e: Envelope): Contents {
    Contents(Retain(s.observations, e), SaveAssets(n, s.claims, e, e.assets), SaveRelationships(n, s.relationships, e, e.relationships))
  }

  function SaveAll(n: Naming, s: Contents, es: seq<Envelope>): Contents {
    if es == [] then s else Save(n, SaveAll(n, s, es[..|es| - 1]), es[|es| - 1])
  }

  // ----- what one envelope does to one claim

  predicate Names(n: Naming, assets: seq<Asset>, id: string) {
    exists i :: 0 <= i < |assets| && n.assetID(assets[i]) == id
  }

  predicate Reports(n: Naming, e: Envelope, k: ClaimKey) {
    n.sourceKey(e.source) == k.1 && Names(n, e.assets, k.0)
  }

  // The asset reported last under an ID.
  function LastNamed(n: Naming, assets: seq<Asset>, id: string): Asset
    requires Names(n, assets, id)
  {
    var last := |assets| - 1;
    if n.assetID(assets[last]) == id then assets[last] else LastNamed(n, assets[..last], id)
  }

  lemma {:induction false} UpdateAgain(c: Option<AssetClaim>, id: string, e: Envelope, a: Asset, b: Asset)
    ensures Update(Some(Update(c, id, e, a)), id, e, b) == Update(c, id, e, b)
  {
  }

  lemma {:induction false} SaveAssetsAt(n: Naming, claims: Claims, e: Envelope, assets: seq<Asset>, k: ClaimKey)
    ensures Lookup(SaveAssets(n, claims, e, assets), k) ==
      if n.sourceKey(e.source) == k.1 && Names(n, assets, k.0) then Some(Update(Lookup(claims, k), k.0, e, LastNamed(n, assets, k.0)))
      else Lookup(claims, k)
  {
    if assets != [] {
      hide Update;
      var before, a := assets[..|assets| - 1], assets[|assets| - 1];
      SaveAssetsAt(n, claims, e, before, k);
      if n.assetID(a) != k.0 {
        assert Names(n, assets, k.0) ==> Names(n, before, k.0) by {
          if i :| 0 <= i < |assets| && n.assetID(assets[i]) == k.0 { assert before[i] == assets[i]; }
        }
        assert Names(n, before, k.0) ==> Names(n, assets, k.0) by {
          if i :| 0 <= i < |before| && n.assetID(before[i]) == k.0 { assert before[i] == assets[i]; }
        }
      } else if Names(n, before, k.0) {
        UpdateAgain(Lookup(claims, k), k.0, e, LastNamed(n, before, k.0), a);
      }
    }
  }

  // ----- claims after any deliveries

  // The deliveries that report an asset for a source, in arrival order.
  function Reporting(n: Naming, es: seq<Envelope>, k: ClaimKey): seq<Envelope> {
    if es == [] then []
    else
      var before := Reporting(n, es[..|es| - 1], k);
      if Reports(n, es[|es| - 1], k) then before + [es[|es| - 1]] else before
  }

  lemma {:induction false} ReportingElements(n: Naming, es: seq<Envelope>, k: ClaimKey)
    ensures forall e :: e in Reporting(n, es, k) <==> e in es && Reports(n, e, k)
  {
    if es != [] {
      ReportingElements(n, es[..|es| - 1], k);
      assert es == es[..|es| - 1] + [es[|es| - 1]];
    }
  }

  // The earliest observation; the first to arrive of those.
  ghost predicate IsEarliest(rs: seq<Envelope>, i: nat) {
    i < |rs| && forall j :: 0 <= j < |rs| ==> rs[i].at <= rs[j].at && (rs[i].at == rs[j].at ==> i <= j)
  }

  // The latest observation; the last to arrive of those.
  ghost predicate IsLatest(rs: seq<Envelope>, i: nat) {
    i < |rs| && forall j :: 0 <= j < |rs| ==> rs[j].at <= rs[i].at && (rs[i].at == rs[j].at ==> j <= i)
  }

  ghost predicate Summarizes(n: Naming, rs: seq<Envelope>, k: ClaimKey, c: AssetClaim, first: nat, last: nat) {
    && IsEarliest(rs, first) && IsLatest(rs, last) && Names(n, rs[last].assets, k.0)
    && c == AssetClaim(k.0, LastNamed(n, rs[last].assets, k.0),
                       AssetSource(rs[0].source, rs[first].id, rs[last].id, rs[first].at, rs[last].at, 0, false))
  }

  lemma {:induction false} SummaryGrows(n: Naming, rs: seq<Envelope>, k: ClaimKey, c: AssetClaim, first: nat, last: nat, e: Envelope)
      returns (first': nat, last': nat)
    requires Summarizes(n, rs, k, c, first, last) && Names(n, e.assets, k.0)
    ensures Summarizes(n, rs + [e], k, Update(Some(c), k.0, e, LastNamed(n, e.assets, k.0)), first', last')
  {
    first' := if e.at < c.source.firstAt then |rs| else first;
    last' := if e.at < c.source.lastAt then last else |rs|;
  }

  // THEOREM. After any deliveries a source has a claim about an asset exactly if it reported
  // it, and the claim joins the earliest report (the first to arrive on ties) with the latest
  // one (the last to arrive on ties).
  lemma {:induction false} ClaimMeaning(n: Naming, es: seq<Envelope>, k: ClaimKey)
    ensures var claims, rs := SaveAll(n, EMPTY, es).claims, Reporting(n, es, k);
      && (k in claims <==> rs != [])
      && (k in claims ==> exists first, last :: Summarizes(n, rs, k, claims[k], first, last))
  {
    if es != [] {
      var before, e := es[..|es| - 1], es[|es| - 1];
      ClaimMeaning(n, before, k);
      var claims, rs := SaveAll(n, EMPTY, before).claims, Reporting(n, before, k);
      SaveAssetsAt(n, claims, e, e.assets, k);
      var claims' := SaveAll(n, EMPTY, es).claims;
      assert Lookup(claims', k) == Lookup(SaveAssets(n, claims, e, e.assets), k);
      if Reports(n, e, k) {
        if k in claims {
          var first, last :| Summarizes(n, rs, k, claims[k], first, last);
          var first', last' := SummaryGrows(n, rs, k, claims[k], first, last, e);
          assert Summarizes(n, rs + [e], k, claims'[k], first', last');
        } else {
          assert Reporting(n, es, k) == [e];
          assert Summarizes(n, [e], k, claims'[k], 0, 0);
        }
      }
    }
  }

  // Observations that one source made at one time are one observation.
  ghost predicate NoTies(n: Naming, es: seq<Envelope>) {
    forall a, b :: a in es && b in es && n.sourceKey(a.source) == n.sourceKey(b.source) && a.at == b.at ==> a == b
  }

  lemma {:induction false} SameClaim(n: Naming, es: seq<Envelope>, es': seq<Envelope>, k: ClaimKey)
    requires DistinctSources(n, es) && NoTies(n, es) && forall e :: e in es <==> e in es'
    ensures ClaimAt(n, es, k) == ClaimAt(n, es', k)
  {
    assert TiesAgree(n, es, k);
    AgreeingTies(n, es, es', k);
  }

  // THEOREM (convergence). Two stores that received the same observations, in any order and any
  // number of times each, hold the same claims.
  lemma {:induction false} ClaimsConverge(n: Naming, es: seq<Envelope>, es': seq<Envelope>)
    requires DistinctSources(n, es) && NoTies(n, es) && forall e :: e in es <==> e in es'
    ensures SaveAll(n, EMPTY, es).claims == SaveAll(n, EMPTY, es').claims
  {
    var a, b := SaveAll(n, EMPTY, es).claims, SaveAll(n, EMPTY, es').claims;
    forall k ensures Lookup(a, k) == Lookup(b, k) {
      SameClaim(n, es, es', k);
    }
    SameMaps(a, b);
  }

  lemma {:induction false} SameMaps<K, V>(a: map<K, V>, b: map<K, V>)
    requires forall k :: Lookup(a, k) == Lookup(b, k)
    ensures a == b
  {
    assert forall k :: k in a <==> Lookup(a, k).Some?;
    assert forall k :: k in b <==> Lookup(b, k).Some?;
    forall k | k in a ensures a[k] == b[k] {
      assert Lookup(a, k) == Some(a[k]) && Lookup(b, k) == Some(b[k]);
    }
  }

  // THEOREM (ties). Two observations that one source made of an asset at one time give the same
  // claim in both orders exactly if they agree on their ID and on the asset.
  lemma {:induction false} TieExactly(n: Naming, a: Envelope, b: Envelope, k: ClaimKey)
    requires DistinctSources(n, [a, b]) && a.at == b.at && Reports(n, a, k) && Reports(n, b, k)
    ensures Lookup(SaveAll(n, EMPTY, [a, b]).claims, k) == Lookup(SaveAll(n, EMPTY, [b, a]).claims, k)
      <==> a.id == b.id && LastNamed(n, a.assets, k.0) == LastNamed(n, b.assets, k.0)
  {
    SavePair(n, a, b, k);
    SavePair(n, b, a, k);
  }

  lemma {:induction false} SavePair(n: Naming, a: Envelope, b: Envelope, k: ClaimKey)
    requires Reports(n, a, k) && Reports(n, b, k)
    ensures Lookup(SaveAll(n, EMPTY, [a, b]).claims, k) ==
      Some(Update(Some(Update(None, k.0, a, LastNamed(n, a.assets, k.0))), k.0, b, LastNamed(n, b.assets, k.0)))
  {
    hide Update, LastNamed, Names, SaveAssets;
    assert [a, b][..1] == [a] && [a][..0] == [];
    assert SaveAll(n, EMPTY, [a]) == Save(n, EMPTY, a);
    SaveAssetsAt(n, map[], a, a.assets, k);
    SaveAssetsAt(n, Save(n, EMPTY, a).claims, b, b.assets, k);
  }

  // What reports at the extremes must agree on: the ID at the least time; the ID and the asset at
  // the greatest.
  ghost predicate TiesAgree(n: Naming, es: seq<Envelope>, k: ClaimKey) {
    forall a, b :: a in es && b in es && Reports(n, a, k) && Reports(n, b, k) ==>
      && (Least(n, es, k, a) && Least(n, es, k, b) ==> a.id == b.id)
      && (Greatest(n, es, k, a) && Greatest(n, es, k, b) ==>
            a.id == b.id && LastNamed(n, a.assets, k.0) == LastNamed(n, b.assets, k.0))
  }

  ghost predicate Least(n: Naming, es: seq<Envelope>, k: ClaimKey, a: Envelope) {
    forall e :: e in es && Reports(n, e, k) ==> a.at <= e.at
  }

  ghost predicate Greatest(n: Naming, es: seq<Envelope>, k: ClaimKey, a: Envelope) {
    forall e :: e in es && Reports(n, e, k) ==> e.at <= a.at
  }

  function ClaimAt(n: Naming, es: seq<Envelope>, k: ClaimKey): Option<AssetClaim> {
    Lookup(SaveAll(n, EMPTY, es).claims, k)
  }

  lemma {:induction false} ExtremesReported(n: Naming, es: seq<Envelope>, k: ClaimKey, rs: seq<Envelope>, first: nat, last: nat)
    requires rs == Reporting(n, es, k) && IsEarliest(rs, first) && IsLatest(rs, last)
    ensures rs[first] in es && Reports(n, rs[first], k) && Least(n, es, k, rs[first])
    ensures rs[last] in es && Reports(n, rs[last], k) && Greatest(n, es, k, rs[last])
  {
    ReportingElements(n, es, k);
    forall e | e in es && Reports(n, e, k) ensures rs[first].at <= e.at <= rs[last].at {
      var j :| 0 <= j < |rs| && rs[j] == e;
    }
    assert rs[first] in rs && rs[last] in rs;
  }

  // The claim at a key that was reported, and which reports it joins.
  lemma {:induction false} ClaimJoins(n: Naming, es: seq<Envelope>, k: ClaimKey) returns (first: nat, last: nat)
    requires Reporting(n, es, k) != []
    ensures var rs := Reporting(n, es, k);
      && IsEarliest(rs, first) && IsLatest(rs, last) && Names(n, rs[last].assets, k.0)
      && ClaimAt(n, es, k) == Some(AssetClaim(k.0, LastNamed(n, rs[last].assets, k.0),
           AssetSource(rs[0].source, rs[first].id, rs[last].id, rs[first].at, rs[last].at, 0, false)))
  {
    ClaimMeaning(n, es, k);
    first, last :| Summarizes(n, Reporting(n, es, k), k, SaveAll(n, EMPTY, es).claims[k], first, last);
  }

  lemma {:induction false} AgreeingTies(n: Naming, es: seq<Envelope>, es': seq<Envelope>, k: ClaimKey)
    requires DistinctSources(n, es) && TiesAgree(n, es, k) && forall e :: e in es <==> e in es'
    ensures ClaimAt(n, es, k) == ClaimAt(n, es', k)
  {
    var rs, rs' := Reporting(n, es, k), Reporting(n, es', k);
    ClaimMeaning(n, es, k);
    ClaimMeaning(n, es', k);
    ReportingElements(n, es, k);
    ReportingElements(n, es', k);
    assert (rs != [] ==> rs[0] in rs && rs[0] in rs') && (rs' != [] ==> rs'[0] in rs' && rs'[0] in rs);
    if rs != [] {
      hide ClaimAt, LastNamed, Reporting, SaveAll, Least, Greatest;
      var first, last := ClaimJoins(n, es, k);
      var first', last' := ClaimJoins(n, es', k);
      SameTimes(n, es, es', k, rs, rs', first, last, first', last');
    }
  }

  lemma {:induction false} SameTimes(n: Naming, es: seq<Envelope>, es': seq<Envelope>, k: ClaimKey,
      rs: seq<Envelope>, rs': seq<Envelope>, first: nat, last: nat, first': nat, last': nat)
    requires (forall e :: e in es <==> e in es') && rs == Reporting(n, es, k) && rs' == Reporting(n, es', k)
    requires IsEarliest(rs, first) && IsLatest(rs, last) && IsEarliest(rs', first') && IsLatest(rs', last')
    ensures rs[first].at == rs'[first'].at && rs[last].at == rs'[last'].at
    ensures rs[first] in es && rs'[first'] in es && Reports(n, rs[first], k) && Reports(n, rs'[first'], k)
    ensures rs[last] in es && rs'[last'] in es && Reports(n, rs[last], k) && Reports(n, rs'[last'], k)
    ensures Least(n, es, k, rs[first]) && Least(n, es, k, rs'[first'])
    ensures Greatest(n, es, k, rs[last]) && Greatest(n, es, k, rs'[last'])
  {
    hide Reports, Reporting;
    ExtremesReported(n, es, k, rs, first, last);
    ExtremesReported(n, es', k, rs', first', last');
  }

  lemma {:induction false} ReportingFirst(n: Naming, e: Envelope, es: seq<Envelope>, k: ClaimKey)
    requires Reports(n, e, k)
    ensures Reporting(n, [e] + es, k) == [e] + Reporting(n, es, k)
  {
    hide Reports;
    var all := [e] + es;
    if es == [] {
      assert all == [e] && all[..0] == [];
    } else {
      assert all[..|all| - 1] == [e] + es[..|es| - 1] && all[|all| - 1] == es[|es| - 1];
      ReportingFirst(n, e, es[..|es| - 1], k);
    }
  }

  // The first arrival among the earliest gives the first ID.
  lemma {:induction false} FirstArrival(n: Naming, e: Envelope, es: seq<Envelope>, k: ClaimKey)
    requires Reports(n, e, k) && Least(n, [e] + es, k, e)
    ensures ClaimAt(n, [e] + es, k).Some? && ClaimAt(n, [e] + es, k).value.source.firstID == e.id
  {
    hide Reports, LastNamed;
    var all := [e] + es;
    var rs := Reporting(n, all, k);
    ReportingFirst(n, e, es, k);
    ReportingElements(n, all, k);
    var first, last := ClaimJoins(n, all, k);
    assert rs[first] in rs && rs[0] == e;
  }

  // The last arrival among the latest gives the last ID and the asset.
  lemma {:induction false} LastArrival(n: Naming, e: Envelope, es: seq<Envelope>, k: ClaimKey)
    requires Reports(n, e, k) && Greatest(n, es + [e], k, e)
    ensures Names(n, e.assets, k.0) && ClaimAt(n, es + [e], k).Some?
    ensures ClaimAt(n, es + [e], k).value.source.lastID == e.id
    ensures ClaimAt(n, es + [e], k).value.asset == LastNamed(n, e.assets, k.0)
  {
    hide LastNamed;
    var all := es + [e];
    var rs := Reporting(n, all, k);
    assert all[..|all| - 1] == es;
    assert rs == Reporting(n, es, k) + [e];
    ReportingElements(n, all, k);
    var first, last := ClaimJoins(n, all, k);
    assert rs[last] in rs && rs[|rs| - 1] == e;
  }

  ghost predicate Rearranged(es: seq<Envelope>, es': seq<Envelope>) { multiset(es) == multiset(es') }

  lemma {:induction false} RearrangedElements(es: seq<Envelope>, es': seq<Envelope>)
    requires Rearranged(es, es')
    ensures forall e :: e in es <==> e in es'
  {
    forall e ensures e in es <==> e in es' {
      assert e in es <==> e in multiset(es);
      assert e in es' <==> e in multiset(es');
    }
  }

  // Any delivery can be made the first, or the last.
  lemma {:induction false} Moved(es: seq<Envelope>, e: Envelope) returns (rest: seq<Envelope>)
    requires e in es
    ensures Rearranged(es, [e] + rest) && Rearranged(es, rest + [e])
  {
    var i :| 0 <= i < |es| && es[i] == e;
    rest := es[..i] + es[i + 1..];
    assert es == es[..i] + [e] + es[i + 1..];
  }

  lemma {:induction false} TieShows(n: Naming, es: seq<Envelope>, k: ClaimKey, a: Envelope, b: Envelope)
    requires a in es && b in es && Reports(n, a, k) && Reports(n, b, k)
    requires forall es' :: Rearranged(es, es') ==> ClaimAt(n, es', k) == ClaimAt(n, es, k)
    ensures Least(n, es, k, a) && Least(n, es, k, b) ==> a.id == b.id
    ensures Greatest(n, es, k, a) && Greatest(n, es, k, b) ==>
      a.id == b.id && LastNamed(n, a.assets, k.0) == LastNamed(n, b.assets, k.0)
  {
    hide Reports, LastNamed, ClaimAt, Rearranged;
    var restA := Moved(es, a);
    var restB := Moved(es, b);
    RearrangedElements(es, [a] + restA);
    RearrangedElements(es, [b] + restB);
    RearrangedElements(es, restA + [a]);
    RearrangedElements(es, restB + [b]);
    if Least(n, es, k, a) && Least(n, es, k, b) {
      FirstArrival(n, a, restA, k);
      FirstArrival(n, b, restB, k);
    }
    if Greatest(n, es, k, a) && Greatest(n, es, k, b) {
      LastArrival(n, a, restA, k);
      LastArrival(n, b, restB, k);
    }
  }

  // THEOREM (convergence, exactly). Every rearrangement of some deliveries gives one claim at a
  // key exactly if the reports at the least time agree on their ID, and those at the greatest on
  // their ID and the asset; ties in between do not matter. Then repeats do not matter either.
  lemma {:induction false} ConvergesExactly(n: Naming, es: seq<Envelope>, k: ClaimKey)
    requires DistinctSources(n, es)
    ensures (forall es' :: Rearranged(es, es') ==> ClaimAt(n, es', k) == ClaimAt(n, es, k)) <==> TiesAgree(n, es, k)
    ensures TiesAgree(n, es, k) ==> forall es' :: (forall e :: e in es <==> e in es') ==> ClaimAt(n, es', k) == ClaimAt(n, es, k)
  {
    hide LastNamed, ClaimAt, Rearranged, Least, Greatest, DistinctSources;
    if TiesAgree(n, es, k) {
      forall es' | forall e :: e in es <==> e in es' ensures ClaimAt(n, es', k) == ClaimAt(n, es, k) {
        AgreeingTies(n, es, es', k);
      }
      forall es' | Rearranged(es, es') ensures ClaimAt(n, es', k) == ClaimAt(n, es, k) {
        RearrangedElements(es, es');
        AgreeingTies(n, es, es', k);
      }
    } else {
      if forall es' :: Rearranged(es, es') ==> ClaimAt(n, es', k) == ClaimAt(n, es, k) {
        forall a, b | a in es && b in es && Reports(n, a, k) && Reports(n, b, k)
          ensures Least(n, es, k, a) && Least(n, es, k, b) ==> a.id == b.id
          ensures Greatest(n, es, k, a) && Greatest(n, es, k, b) ==>
            a.id == b.id && LastNamed(n, a.assets, k.0) == LastNamed(n, b.assets, k.0)
        {
          TieShows(n, es, k, a, b);
        }
      }
    }
  }

  // ----- retained envelopes

  ghost predicate DistinctIDs(es: seq<Envelope>) {
    forall i, j :: 0 <= i < j < |es| ==> es[i].id != es[j].id
  }

  ghost predicate HasID(es: seq<Envelope>, id: string) {
    exists i :: 0 <= i < |es| && es[i].id == id
  }

  lemma {:induction false} RetainElements(es: seq<Envelope>, e: Envelope)
    requires DistinctIDs(es)
    ensures DistinctIDs(Retain(es, e))
    ensures forall x :: x in Retain(es, e) <==> x == e || (x in es && x.id != e.id)
    ensures forall id :: HasID(Retain(es, e), id) <==> id == e.id || HasID(es, id)
  {
    var i, es' := IndexOf(es, e.id), Retain(es, e);
    assert es'[i] == e;
    forall x | x in es && x.id != e.id ensures x in es' {
      var j :| 0 <= j < |es| && es[j] == x;
      assert es'[j] == x;
    }
    forall id | HasID(es, id) ensures HasID(es', id) {
      var j :| 0 <= j < |es| && es[j].id == id;
      assert es'[j].id == id;
    }
  }

  lemma {:induction false} LastWithGrows(es: seq<Envelope>, e: Envelope, x: Envelope)
    ensures LastWith(es + [e], x.id, x) <==> if x.id == e.id then x == e else LastWith(es, x.id, x)
  {
    var es' := es + [e];
    if x == e {
      assert IsLastWith(es', x.id, x, |es|);
    } else if x.id == e.id {
      assert es'[|es|] == e;
    } else {
      if i: nat :| IsLastWith(es, x.id, x, i) { assert IsLastWith(es', x.id, x, i); }
      if i: nat :| IsLastWith(es', x.id, x, i) {
        forall j | i < j < |es| ensures es[j].id != x.id { assert es'[j] == es[j]; }
        assert IsLastWith(es, x.id, x, i);
      }
    }
  }

  // THEOREM. A store retains each delivered ID once, with the content delivered last.
  lemma {:induction false} RetainedMeaning(n: Naming, es: seq<Envelope>)
    ensures var obs := SaveAll(n, EMPTY, es).observations;
      && DistinctIDs(obs)
      && (forall e :: e in obs <==> LastWith(es, e.id, e))
      && (forall id :: HasID(obs, id) <==> HasID(es, id))
  {
    if es != [] {
      hide IsLastWith, LastWith, HasID, DistinctIDs, Retain;
      var before, e := es[..|es| - 1], es[|es| - 1];
      var obs := SaveAll(n, EMPTY, before).observations;
      RetainedMeaning(n, before);
      RetainElements(obs, e);
      assert es == before + [e];
      forall x ensures x in Retain(obs, e) <==> LastWith(es, x.id, x) {
        LastWithGrows(before, e, x);
      }
      HasIDGrows(before, e);
    }
  }

  lemma {:induction false} HasIDGrows(es: seq<Envelope>, e: Envelope)
    ensures forall id :: HasID(es + [e], id) <==> id == e.id || HasID(es, id)
  {
    var es' := es + [e];
    assert es'[|es|] == e;
    forall id | HasID(es, id) ensures HasID(es', id) {
      var j :| 0 <= j < |es| && es[j].id == id;
      assert es'[j] == es[j];
    }
  }

  ghost predicate IsLastWith(es: seq<Envelope>, id: string, e: Envelope, i: nat) {
    i < |es| && es[i] == e && e.id == id && forall j :: i < j < |es| ==> es[j].id != id
  }

  ghost predicate LastWith(es: seq<Envelope>, id: string, e: Envelope) {
    exists i: nat :: IsLastWith(es, id, e, i)
  }

  // THEOREM (rebuilding). If an ID always named the same observation, the claims that the
  // retained envelopes give are the claims of the store that received the deliveries.
  lemma {:induction false} RebuiltClaims(n: Naming, es: seq<Envelope>)
    requires DistinctSources(n, es) && NoTies(n, es)
    requires forall a, b :: a in es && b in es && a.id == b.id ==> a == b
    ensures SaveAll(n, EMPTY, SaveAll(n, EMPTY, es).observations).claims == SaveAll(n, EMPTY, es).claims
  {
    var obs := SaveAll(n, EMPTY, es).observations;
    RetainedMeaning(n, es);
    forall e | e in obs ensures e in es {
      var i :| IsLastWith(es, e.id, e, i);
    }
    forall e | e in es ensures e in obs {
      var j :| 0 <= j < |es| && es[j] == e;
      assert HasID(es, e.id);
      var i :| 0 <= i < |obs| && obs[i].id == e.id;
      assert obs[i] in obs && obs[i] in es;
    }
    ClaimsConverge(n, es, obs);
  }

  // ----- repeats

  lemma {:induction false} RelationshipsAt(n: Naming, rels: Relationships, e: Envelope, rs: seq<Relationship>, id: string)
    ensures var after := SaveRelationships(n, rels, e, rs);
      && (Named(n, rs, id) ==>
            Lookup(after, id) == Some(ResolvedRelationship(
              id, LastRelationship(n, rs, id), if id in rels then rels[id].firstID else e.id, e.id)))
      && (!Named(n, rs, id) ==> Lookup(after, id) == Lookup(rels, id))
  {
    if rs != [] {
      var before, r := rs[..|rs| - 1], rs[|rs| - 1];
      RelationshipsAt(n, rels, e, before, id);
      if n.relationshipID(r) != id {
        assert Named(n, rs, id) ==> Named(n, before, id) by {
          if i :| 0 <= i < |rs| && n.relationshipID(rs[i]) == id { assert before[i] == rs[i]; }
        }
        assert Named(n, before, id) ==> Named(n, rs, id) by {
          if i :| 0 <= i < |before| && n.relationshipID(before[i]) == id { assert before[i] == rs[i]; }
        }
      }
    }
  }

  predicate Named(n: Naming, rs: seq<Relationship>, id: string) {
    exists i :: 0 <= i < |rs| && n.relationshipID(rs[i]) == id
  }

  function LastRelationship(n: Naming, rs: seq<Relationship>, id: string): Relationship
    requires Named(n, rs, id)
  {
    var last := |rs| - 1;
    if n.relationshipID(rs[last]) == id then rs[last] else LastRelationship(n, rs[..last], id)
  }

  // THEOREM (idempotence). Delivering an observation again at once changes nothing, even when
  // it names one asset or relationship several times.
  lemma {:induction false} SaveIdempotent(n: Naming, s: Contents, e: Envelope)
    ensures Save(n, Save(n, s, e), e) == Save(n, s, e)
  {
    var once := Save(n, s, e);
    var twice := Save(n, once, e);
    forall k ensures Lookup(once.claims, k) == Lookup(twice.claims, k) {
      SaveAssetsAt(n, s.claims, e, e.assets, k);
      SaveAssetsAt(n, once.claims, e, e.assets, k);
    }
    SameMaps(once.claims, twice.claims);
    forall id ensures Lookup(once.relationships, id) == Lookup(twice.relationships, id) {
      RelationshipsAt(n, s.relationships, e, e.relationships, id);
      RelationshipsAt(n, once.relationships, e, e.relationships, id);
    }
    SameMaps(once.relationships, twice.relationships);
    RetainTwice(s.observations, e);
  }

  lemma {:induction false} RetainTwice(es: seq<Envelope>, e: Envelope)
    ensures Retain(Retain(es, e), e) == Retain(es, e)
  {
    var i, es' := IndexOf(es, e.id), Retain(es, e);
    assert es'[i].id == e.id && IndexOf(es', e.id) == i;
  }
}
