// Resolving the claims of many sources into one view of each asset
// (internal/store/resolution.go).
module Resolution {
  import opened Wrappers
  import opened Observations
  import opened Sorting
  import opened MemoryStore

  datatype ConflictClaim = ConflictClaim(source: AssetSource, value: Option<string>)
  datatype Conflict = Conflict(field: string, claims: seq<ConflictClaim>)
  datatype ResolvedAsset = ResolvedAsset(
    id: string, asset: Asset, firstID: string, lastID: string, firstAt: Time, lastAt: Time,
    winner: AssetSource, sources: seq<AssetSource>, conflicts: seq<Conflict>)

  // ----- precedence

  // The rank of a plugin in the configured order; a repeated name has its last rank.
  function RankOf(precedence: seq<string>, plugin: string): Option<nat> {
    if precedence == [] then None
    else if precedence[|precedence| - 1] == plugin then Some(|precedence| - 1)
    else RankOf(precedence[..|precedence| - 1], plugin)
  }

  function Ranked(precedence: seq<string>, c: AssetClaim): AssetClaim {
    var rank := RankOf(precedence, c.source.source.plugin);
    c.(source := c.source.(rank := if rank.Some? then rank.value else |precedence|, explicit := rank.Some?))
  }

  predicate ClaimPrecedes(n: Naming, a: AssetClaim, b: AssetClaim) {
    if a.source.rank != b.source.rank then a.source.rank < b.source.rank
    else if a.source.lastAt != b.source.lastAt then a.source.lastAt > b.source.lastAt
    else
      var ka, kb := n.sourceKey(a.source.source), n.sourceKey(b.source.source);
      ka != kb && StringLe(ka, kb)
  }

  function Order(n: Naming): (AssetClaim, AssetClaim) -> bool {
    (a, b) => !ClaimPrecedes(n, b, a)
  }

  lemma {:induction false} PrecedesTransitive(n: Naming, a: AssetClaim, b: AssetClaim, c: AssetClaim)
    requires !ClaimPrecedes(n, b, a) && !ClaimPrecedes(n, c, b)
    ensures !ClaimPrecedes(n, c, a)
  {
    hide StringLe;
    var ka, kb, kc := n.sourceKey(a.source.source), n.sourceKey(b.source.source), n.sourceKey(c.source.source);
    StringLeTotal(ka, kb);
    StringLeTotal(kb, kc);
    StringLeTotal(ka, kc);
    if StringLe(ka, kb) && StringLe(kb, kc) { StringLeTransitive(ka, kb, kc); }
  }

  lemma {:induction false} OrderTotal(n: Naming)
    ensures TotalPreorder(Order(n))
  {
    hide StringLe;
    forall a, b ensures Order(n)(a, b) || Order(n)(b, a) {
      StringLeTotal(n.sourceKey(a.source.source), n.sourceKey(b.source.source));
    }
    hide ClaimPrecedes;
    forall a, b, c | Order(n)(a, b) && Order(n)(b, c) ensures Order(n)(a, c) {
      PrecedesTransitive(n, a, b, c);
    }
  }

  // ----- the resolver as a function

  ghost function AssetIDs(claims: seq<AssetClaim>): set<string> {
    set c | c in claims :: c.assetID
  }

  // One asset's claims, ranked, in the order they were given.
  function Group(precedence: seq<string>, claims: seq<AssetClaim>, id: string): seq<AssetClaim> {
    if claims == [] then []
    else
      var before, c := Group(precedence, claims[..|claims| - 1], id), claims[|claims| - 1];
      if c.assetID == id then before + [Ranked(precedence, c)] else before
  }

  // The claim that saw the asset first, and the one that saw it last; on ties the first of them.
  function Earliest(cs: seq<AssetClaim>): AssetClaim
    requires cs != []
  {
    var c := cs[|cs| - 1];
    if |cs| == 1 then c
    else
      var e := Earliest(cs[..|cs| - 1]);
      if c.source.firstAt < e.source.firstAt then c else e
  }

  function Latest(cs: seq<AssetClaim>): AssetClaim
    requires cs != []
  {
    var c := cs[|cs| - 1];
    if |cs| == 1 then c
    else
      var e := Latest(cs[..|cs| - 1]);
      if e.source.lastAt < c.source.lastAt then c else e
  }

  function Sources(cs: seq<AssetClaim>): seq<AssetSource> {
    seq(|cs|, i requires 0 <= i < |cs| => cs[i].source)
  }

  ghost function ResolveOne(id: string, cs: seq<AssetClaim>): ResolvedAsset
    requires cs != []
  {
    ResolvedAsset(id, cs[0].asset, Earliest(cs).source.firstID, Latest(cs).source.lastID,
                  Earliest(cs).source.firstAt, Latest(cs).source.lastAt, cs[0].source, Sources(cs), Conflicts(cs))
  }

  ghost function SortedGroup(n: Naming, precedence: seq<string>, claims: seq<AssetClaim>, id: string): seq<AssetClaim> {
    Sort(Order(n), Group(precedence, claims, id))
  }

  ghost function Resolve(n: Naming, precedence: seq<string>, claims: seq<AssetClaim>, ids: seq<string>): seq<ResolvedAsset>
    requires forall id :: id in ids ==> id in AssetIDs(claims)
  {
    if ids == [] then []
    else
      GroupElements(precedence, claims, ids[|ids| - 1]);
      OrderTotal(n);
      SortCorrect(Order(n), Group(precedence, claims, ids[|ids| - 1]));
      Resolve(n, precedence, claims, ids[..|ids| - 1]) + [ResolveOne(ids[|ids| - 1], SortedGroup(n, precedence, claims, ids[|ids| - 1]))]
  }

  ghost function ResolveAll(n: Naming, precedence: seq<string>, claims: seq<AssetClaim>): seq<ResolvedAsset> {
    InOrderCorrect(AssetIDs(claims));
    Resolve(n, precedence, claims, InOrder(AssetIDs(claims)))
  }

  lemma {:induction false} GroupElements(precedence: seq<string>, claims: seq<AssetClaim>, id: string)
    ensures forall c :: c in claims && c.assetID == id ==> Ranked(precedence, c) in Group(precedence, claims, id)
    ensures forall r :: r in Group(precedence, claims, id) ==> exists c :: c in claims && c.assetID == id && r == Ranked(precedence, c)
    ensures id in AssetIDs(claims) <==> Group(precedence, claims, id) != []
  {
    if claims != [] {
      var before, c := claims[..|claims| - 1], claims[|claims| - 1];
      assert claims == before + [c];
      GroupElements(precedence, before, id);
      assert AssetIDs(claims) == AssetIDs(before) + {c.assetID};
    }
  }

  // ----- conflicts

  const IDENTIFIERS_PREFIX := "identifiers."
  const ATTRIBUTES_PREFIX := "attributes."

  predicate HasPrefix(s: string, p: string) { |p| <= |s| && s[..|p|] == p }

  function AssetField(a: Asset, field: string): Option<string> {
    if field == "name" then Some(a.name)
    else if HasPrefix(field, IDENTIFIERS_PREFIX) then Lookup(a.identifiers, field[|IDENTIFIERS_PREFIX|..])
    else Lookup(a.attributes, if HasPrefix(field, ATTRIBUTES_PREFIX) then field[|ATTRIBUTES_PREFIX|..] else field)
  }

  ghost function IdentifierKeys(cs: seq<AssetClaim>): set<string> {
    set c, k | c in cs && k in c.asset.identifiers :: IDENTIFIERS_PREFIX + k
  }

  ghost function AttributeKeys(cs: seq<AssetClaim>): set<string> {
    set c, k | c in cs && k in c.asset.attributes :: ATTRIBUTES_PREFIX + k
  }

  ghost function Fields(cs: seq<AssetClaim>): seq<string> {
    ["name"] + InOrder(IdentifierKeys(cs)) + InOrder(AttributeKeys(cs))
  }

  // Some two claims differ in whether they have the field, or in its value.
  ghost predicate Disagree(cs: seq<AssetClaim>, field: string) {
    exists a, b :: a in cs && b in cs && AssetField(a.asset, field) != AssetField(b.asset, field)
  }

  function ConflictClaims(cs: seq<AssetClaim>, field: string): seq<ConflictClaim> {
    seq(|cs|, i requires 0 <= i < |cs| => ConflictClaim(cs[i].source, AssetField(cs[i].asset, field)))
  }

  ghost function ConflictsIn(cs: seq<AssetClaim>, fields: seq<string>): seq<Conflict> {
    if fields == [] then []
    else
      var before, field := ConflictsIn(cs, fields[..|fields| - 1]), fields[|fields| - 1];
      if Disagree(cs, field) then before + [Conflict(field, ConflictClaims(cs, field))] else before
  }

  ghost function Conflicts(cs: seq<AssetClaim>): seq<Conflict> {
    if |cs| < 2 then [] else ConflictsIn(cs, Fields(cs))
  }

  lemma {:induction false} ConflictsListed(cs: seq<AssetClaim>, fields: seq<string>, field: string)
    ensures (exists c :: c in ConflictsIn(cs, fields) && c.field == field) <==> field in fields && Disagree(cs, field)
    ensures forall c :: c in ConflictsIn(cs, fields) ==> c.claims == ConflictClaims(cs, c.field)
  {
    if fields != [] {
      var before, last := fields[..|fields| - 1], fields[|fields| - 1];
      assert fields == before + [last];
      ConflictsListed(cs, before, field);
      var all := ConflictsIn(cs, fields);
      if Disagree(cs, last) {
        assert all[|all| - 1].field == last;
        assert forall c :: c in ConflictsIn(cs, before) ==> c in all;
      }
    }
  }

  // A field of an asset as the resolver names it.
  predicate FieldName(field: string) {
    field == "name" || HasPrefix(field, IDENTIFIERS_PREFIX) || HasPrefix(field, ATTRIBUTES_PREFIX)
  }

  // A field that some claim has is among those compared.
  lemma {:induction false} FieldListed(cs: seq<AssetClaim>, c: AssetClaim, field: string)
    requires c in cs && FieldName(field) && AssetField(c.asset, field).Some?
    ensures field in Fields(cs)
  {
    InOrderCorrect(IdentifierKeys(cs));
    InOrderCorrect(AttributeKeys(cs));
    if field == "name" {
      assert Fields(cs)[0] == field;
    } else if HasPrefix(field, IDENTIFIERS_PREFIX) {
      var k := field[|IDENTIFIERS_PREFIX|..];
      assert field == IDENTIFIERS_PREFIX + k && k in c.asset.identifiers;
      assert field in IdentifierKeys(cs);
    } else {
      var k := field[|ATTRIBUTES_PREFIX|..];
      assert field == ATTRIBUTES_PREFIX + k && k in c.asset.attributes;
      assert field in AttributeKeys(cs);
    }
  }

  // THEOREM (conflicts). A field is reported exactly if two claims differ in it, with what
  // every claim says.
  lemma {:induction false} ConflictsExact(cs: seq<AssetClaim>, field: string)
    requires FieldName(field)
    ensures (exists c :: c in Conflicts(cs) && c.field == field) <==> Disagree(cs, field)
    ensures forall c :: c in Conflicts(cs) ==> c.claims == ConflictClaims(cs, c.field)
  {
    ConflictsListed(cs, Fields(cs), field);
    if Disagree(cs, field) {
      var a, b :| a in cs && b in cs && AssetField(a.asset, field) != AssetField(b.asset, field);
      var i :| 0 <= i < |cs| && cs[i] == a;
      var j :| 0 <= j < |cs| && cs[j] == b;
      assert i != j;
      if AssetField(a.asset, field).Some? { FieldListed(cs, a, field); } else { FieldListed(cs, b, field); }
    }
  }

  // ----- what a resolved asset is

  // The first of those with the least first time.
  predicate FirstOf(cs: seq<AssetClaim>, i: int) {
    && 0 <= i < |cs| && forall j :: 0 <= j < |cs| ==>
      cs[i].source.firstAt <= cs[j].source.firstAt && (j < i ==> cs[i].source.firstAt < cs[j].source.firstAt)
  }

  // The first of those with the greatest last time.
  predicate LastOf(cs: seq<AssetClaim>, i: int) {
    && 0 <= i < |cs| && forall j :: 0 <= j < |cs| ==>
      cs[j].source.lastAt <= cs[i].source.lastAt && (j < i ==> cs[j].source.lastAt < cs[i].source.lastAt)
  }

  lemma {:induction false} EarliestLeast(cs: seq<AssetClaim>)
    requires cs != []
    ensures Earliest(cs) in cs && forall c :: c in cs ==> Earliest(cs).source.firstAt <= c.source.firstAt
    ensures exists i :: FirstOf(cs, i) && Earliest(cs) == cs[i]
  {
    var last := |cs| - 1;
    assert cs == cs[..last] + [cs[last]];
    if last == 0 {
      assert FirstOf(cs, 0);
    } else {
      EarliestLeast(cs[..last]);
      var i :| FirstOf(cs[..last], i) && Earliest(cs[..last]) == cs[..last][i];
      assert FirstOf(cs, if cs[last].source.firstAt < cs[i].source.firstAt then last else i);
    }
  }

  lemma {:induction false} LatestGreatest(cs: seq<AssetClaim>)
    requires cs != []
    ensures Latest(cs) in cs && forall c :: c in cs ==> c.source.lastAt <= Latest(cs).source.lastAt
    ensures exists i :: LastOf(cs, i) && Latest(cs) == cs[i]
  {
    var last := |cs| - 1;
    assert cs == cs[..last] + [cs[last]];
    if last == 0 {
      assert LastOf(cs, 0);
    } else {
      LatestGreatest(cs[..last]);
      var i :| LastOf(cs[..last], i) && Latest(cs[..last]) == cs[..last][i];
      assert LastOf(cs, if cs[i].source.lastAt < cs[last].source.lastAt then last else i);
    }
  }

  lemma {:induction false} ResolveAt(n: Naming, precedence: seq<string>, claims: seq<AssetClaim>, ids: seq<string>, i: nat)
    requires i < |ids| && forall id :: id in ids ==> id in AssetIDs(claims)
    ensures |Resolve(n, precedence, claims, ids)| == |ids| && SortedGroup(n, precedence, claims, ids[i]) != []
    ensures Resolve(n, precedence, claims, ids)[i] == ResolveOne(ids[i], SortedGroup(n, precedence, claims, ids[i]))
  {
    hide ResolveOne, Group, Order, Ranked, AssetIDs;
    GroupElements(precedence, claims, ids[i]);
    OrderTotal(n);
    SortCorrect(Order(n), Group(precedence, claims, ids[i]));
    if |ids| > 1 { ResolveAt(n, precedence, claims, ids[..|ids| - 1], if i < |ids| - 1 then i else 0); }
  }

  lemma {:induction false} ResolvedIDs(n: Naming, precedence: seq<string>, claims: seq<AssetClaim>)
    ensures var out, ids := ResolveAll(n, precedence, claims), InOrder(AssetIDs(claims));
      && |out| == |ids| && Sorted(StringLe, ids) && NoDuplicates(ids) && (forall id :: id in ids <==> id in AssetIDs(claims))
      && forall i :: 0 <= i < |out| ==>
           && SortedGroup(n, precedence, claims, ids[i]) != []
           && out[i] == ResolveOne(ids[i], SortedGroup(n, precedence, claims, ids[i]))
  {
    var ids := InOrder(AssetIDs(claims));
    InOrderCorrect(AssetIDs(claims));
    forall i | 0 <= i < |ids|
      ensures |ResolveAll(n, precedence, claims)| == |ids| && SortedGroup(n, precedence, claims, ids[i]) != []
      ensures ResolveAll(n, precedence, claims)[i] == ResolveOne(ids[i], SortedGroup(n, precedence, claims, ids[i]))
    {
      ResolveAt(n, precedence, claims, ids, i);
    }
  }

  // THEOREM. Every claimed asset is listed once, in order of ID.
  lemma {:induction false} EachAssetOnce(n: Naming, precedence: seq<string>, claims: seq<AssetClaim>)
    ensures var out := ResolveAll(n, precedence, claims);
      && (forall i, j :: 0 <= i < j < |out| ==> out[i].id != out[j].id && StringLe(out[i].id, out[j].id))
      && (forall c :: c in claims ==> exists r :: r in out && r.id == c.assetID)
      && (forall r :: r in out ==> exists c :: c in claims && c.assetID == r.id)
  {
    hide Conflicts, SortedGroup, ResolveAll, StringLe;
    ResolvedIDs(n, precedence, claims);
    var out, ids := ResolveAll(n, precedence, claims), InOrder(AssetIDs(claims));
    forall c | c in claims ensures exists r :: r in out && r.id == c.assetID {
      assert c.assetID in ids;
      var i :| 0 <= i < |ids| && ids[i] == c.assetID;
      assert out[i] in out && out[i].id == c.assetID;
    }
    forall r | r in out ensures exists c :: c in claims && c.assetID == r.id {
      var i :| 0 <= i < |out| && out[i] == r;
      assert ids[i] in ids;
    }
  }

  // THEOREM. The winner precedes every other claim; the sources are those of all claims, in
  // order of precedence; the first and last times are the extremes over all claims.
  lemma {:induction false} ResolvedMeaning(n: Naming, precedence: seq<string>, claims: seq<AssetClaim>, r: ResolvedAsset)
    requires r in ResolveAll(n, precedence, claims)
    ensures var cs := SortedGroup(n, precedence, claims, r.id);
      && multiset(cs) == multiset(Group(precedence, claims, r.id)) && Sorted(Order(n), cs)
      && r.sources == Sources(cs) && r.conflicts == Conflicts(cs)
    ensures exists w :: w in claims && w.assetID == r.id && r.asset == w.asset && r.winner == Ranked(precedence, w).source
              && forall c :: c in claims && c.assetID == r.id ==> !ClaimPrecedes(n, Ranked(precedence, c), Ranked(precedence, w))
    ensures forall c :: c in claims && c.assetID == r.id ==> r.firstAt <= c.source.firstAt && c.source.lastAt <= r.lastAt
    ensures exists c :: c in claims && c.assetID == r.id && c.source.firstAt == r.firstAt && c.source.firstID == r.firstID
    ensures exists c :: c in claims && c.assetID == r.id && c.source.lastAt == r.lastAt && c.source.lastID == r.lastID
  {
    hide Conflicts, Ranked, ClaimPrecedes;
    ResolvedIDs(n, precedence, claims);
    var i :| 0 <= i < |ResolveAll(n, precedence, claims)| && ResolveAll(n, precedence, claims)[i] == r;
    var group, cs := Group(precedence, claims, r.id), SortedGroup(n, precedence, claims, r.id);
    GroupElements(precedence, claims, r.id);
    OrderTotal(n);
    SortCorrect(Order(n), group);
    EarliestLeast(cs);
    LatestGreatest(cs);
    RankedKeepsTimes(precedence);
    WinnerLeast(n, precedence, claims, r.id);
    var e :| e in claims && e.assetID == r.id && Earliest(cs) == Ranked(precedence, e);
    var l :| l in claims && l.assetID == r.id && Latest(cs) == Ranked(precedence, l);
    assert e.source.firstAt == r.firstAt && l.source.lastAt == r.lastAt;
  }

  // A plugin's rank is its last place in the configured order, or the number of places if it has
  // none.
  predicate HasRank(precedence: seq<string>, plugin: string, rank: nat) {
    if rank < |precedence| then precedence[rank] == plugin && plugin !in precedence[rank + 1..]
    else rank == |precedence| && plugin !in precedence
  }

  lemma {:induction false} RankExactly(precedence: seq<string>, plugin: string, rank: nat)
    ensures HasRank(precedence, plugin, rank) <==>
      rank == if RankOf(precedence, plugin).Some? then RankOf(precedence, plugin).value else |precedence|
    ensures RankOf(precedence, plugin).Some? <==> plugin in precedence
    ensures RankOf(precedence, plugin).Some? ==> RankOf(precedence, plugin).value < |precedence|
  {
    if precedence != [] {
      var before, last := precedence[..|precedence| - 1], precedence[|precedence| - 1];
      assert precedence == before + [last];
      if last != plugin {
        RankExactly(before, plugin, if rank == |precedence| then |before| else rank);
        if rank < |before| { assert precedence[rank + 1..] == before[rank + 1..] + [last]; }
      } else {
        assert precedence[|precedence|..] == [];
        if rank < |before| { assert last in precedence[rank + 1..] by { assert precedence[rank + 1..][|before| - rank - 1] == last; } }
      }
    }
  }

  // One source before another: the smaller rank, then the later observation, then the smaller key.
  predicate Before(n: Naming, a: AssetSource, b: AssetSource) {
    || a.rank < b.rank
    || (a.rank == b.rank && a.lastAt > b.lastAt)
    || (a.rank == b.rank && a.lastAt == b.lastAt && StringLe(n.sourceKey(a.source), n.sourceKey(b.source)))
  }

  predicate RankShown(precedence: seq<string>, s: AssetSource) {
    HasRank(precedence, s.source.plugin, s.rank) && (s.explicit <==> s.source.plugin in precedence)
  }

  lemma {:induction false} RankedShown(precedence: seq<string>, c: AssetClaim)
    ensures RankShown(precedence, Ranked(precedence, c).source)
  {
    RankExactly(precedence, c.source.source.plugin, Ranked(precedence, c).source.rank);
  }

  lemma {:induction false} OrderBefore(n: Naming, a: AssetClaim, b: AssetClaim)
    ensures Order(n)(a, b) <==> Before(n, a.source, b.source)
  {
    StringLeTotal(n.sourceKey(a.source.source), n.sourceKey(b.source.source));
  }

  // THEOREM (precedence). Told by places in the configured order, times and keys: every listed
  // source carries its plugin's rank, and is listed before all that it precedes; the winner is
  // the first of them, and its claim is the asset.
  lemma {:induction false} WinnerFirst(n: Naming, precedence: seq<string>, claims: seq<AssetClaim>, r: ResolvedAsset)
    requires r in ResolveAll(n, precedence, claims)
    ensures r.sources != [] && r.winner == r.sources[0]
    ensures forall s :: s in r.sources ==> RankShown(precedence, s)
    ensures forall i, j :: 0 <= i < j < |r.sources| ==> Before(n, r.sources[i], r.sources[j])
    ensures exists c :: c in claims && c.assetID == r.id && c.asset == r.asset && c.source.source == r.winner.source
              && c.source.lastAt == r.winner.lastAt
    ensures forall c :: c in claims && c.assetID == r.id ==>
              exists s :: s in r.sources && s == c.source.(rank := s.rank, explicit := s.explicit) && (s == r.winner || Before(n, r.winner, s))
  {
    hide Ranked, Before, RankShown, SortedGroup, ResolveAll, Sources;
    var cs := SortedGroup(n, precedence, claims, r.id);
    ResolvedHead(n, precedence, claims, r);
    SourcesOrdered(n, precedence, claims, r.id);
    assert cs[0] in cs;
    WinnerClaimed(n, precedence, claims, r, cs);
    SourcesShown(n, precedence, cs);
    forall c | c in claims && c.assetID == r.id
      ensures exists s :: s in r.sources && s == c.source.(rank := s.rank, explicit := s.explicit) && (s == r.winner || Before(n, r.winner, s))
    {
      assert Ranked(precedence, c) in cs;
      SourceListed(n, precedence, cs, c);
    }
  }

  lemma {:induction false} SourcesShown(n: Naming, precedence: seq<string>, cs: seq<AssetClaim>)
    requires forall c :: c in cs ==> RankShown(precedence, c.source)
    requires forall i, j :: 0 <= i < j < |cs| ==> Before(n, cs[i].source, cs[j].source)
    ensures |Sources(cs)| == |cs| && (cs != [] ==> Sources(cs)[0] == cs[0].source)
    ensures forall s :: s in Sources(cs) ==> RankShown(precedence, s)
    ensures forall i, j :: 0 <= i < j < |Sources(cs)| ==> Before(n, Sources(cs)[i], Sources(cs)[j])
  {
    hide RankShown, Before;
  }

  lemma {:induction false} SourceListed(n: Naming, precedence: seq<string>, cs: seq<AssetClaim>, c: AssetClaim)
    requires Ranked(precedence, c) in cs
    requires forall i, j :: 0 <= i < j < |cs| ==> Before(n, cs[i].source, cs[j].source)
    ensures exists s :: s in Sources(cs) && s == c.source.(rank := s.rank, explicit := s.explicit)
              && (s == cs[0].source || Before(n, cs[0].source, s))
  {
    hide Ranked, Before;
    RankedSource(precedence, c);
    var i :| 0 <= i < |cs| && cs[i] == Ranked(precedence, c);
    assert Sources(cs)[i] == cs[i].source && Sources(cs)[i] in Sources(cs);
    assert i > 0 ==> Before(n, cs[0].source, cs[i].source);
  }

  lemma {:induction false} WinnerClaimed(n: Naming, precedence: seq<string>, claims: seq<AssetClaim>, r: ResolvedAsset, cs: seq<AssetClaim>)
    requires cs != [] && r.asset == cs[0].asset && r.winner == cs[0].source
    requires exists d :: d in claims && d.assetID == r.id && cs[0] == Ranked(precedence, d)
    ensures exists c :: c in claims && c.assetID == r.id && c.asset == r.asset && c.source.source == r.winner.source
              && c.source.lastAt == r.winner.lastAt
  {
    hide Ranked;
    RankedKeepsTimes(precedence);
    var d :| d in claims && d.assetID == r.id && cs[0] == Ranked(precedence, d);
    assert d.asset == r.asset;
  }

  lemma {:induction false} SourcesOrdered(n: Naming, precedence: seq<string>, claims: seq<AssetClaim>, id: string)
    ensures var cs := SortedGroup(n, precedence, claims, id);
      && (forall c :: c in cs ==> RankShown(precedence, c.source) && exists d :: d in claims && d.assetID == id && c == Ranked(precedence, d))
      && (forall c :: c in claims && c.assetID == id ==> Ranked(precedence, c) in cs)
      && (forall i, j :: 0 <= i < j < |cs| ==> Before(n, cs[i].source, cs[j].source))
  {
    hide Ranked, Order, Before, RankShown;
    var group := Group(precedence, claims, id);
    GroupElements(precedence, claims, id);
    OrderTotal(n);
    SortCorrect(Order(n), group);
    var cs := Sort(Order(n), group);
    forall c | c in cs ensures RankShown(precedence, c.source) {
      var d :| d in claims && d.assetID == id && c == Ranked(precedence, d);
      RankedShown(precedence, d);
    }
    forall i, j | 0 <= i < j < |cs| ensures Before(n, cs[i].source, cs[j].source) {
      OrderBefore(n, cs[i], cs[j]);
    }
  }

  lemma {:induction false} RankedSource(precedence: seq<string>, c: AssetClaim)
    ensures var s := Ranked(precedence, c).source; s == c.source.(rank := s.rank, explicit := s.explicit)
  {
  }

  lemma {:induction false} ResolvedHead(n: Naming, precedence: seq<string>, claims: seq<AssetClaim>, r: ResolvedAsset)
    requires r in ResolveAll(n, precedence, claims)
    ensures var cs := SortedGroup(n, precedence, claims, r.id);
      && cs != [] && r.asset == cs[0].asset && r.winner == cs[0].source && r.sources == Sources(cs)
      && r.firstAt == Earliest(cs).source.firstAt && r.firstID == Earliest(cs).source.firstID
      && r.lastAt == Latest(cs).source.lastAt && r.lastID == Latest(cs).source.lastID
  {
    hide Conflicts, SortedGroup;
    ResolvedIDs(n, precedence, claims);
    var i :| 0 <= i < |ResolveAll(n, precedence, claims)| && ResolveAll(n, precedence, claims)[i] == r;
  }

  // The source first seen, or seen last; on ties the first in the list.
  predicate SeenFirst(r: ResolvedAsset, i: int) {
    && 0 <= i < |r.sources| && r.firstAt == r.sources[i].firstAt && r.firstID == r.sources[i].firstID
    && forall j :: 0 <= j < |r.sources| ==> r.firstAt <= r.sources[j].firstAt && (j < i ==> r.firstAt < r.sources[j].firstAt)
  }

  predicate SeenLast(r: ResolvedAsset, i: int) {
    && 0 <= i < |r.sources| && r.lastAt == r.sources[i].lastAt && r.lastID == r.sources[i].lastID
    && forall j :: 0 <= j < |r.sources| ==> r.sources[j].lastAt <= r.lastAt && (j < i ==> r.sources[j].lastAt < r.lastAt)
  }

  // THEOREM (extremes). The first and last times are those of the first source in the list with
  // the least first time, and with the greatest last time, each with that source's observation.
  lemma {:induction false} ExtremesShown(n: Naming, precedence: seq<string>, claims: seq<AssetClaim>, r: ResolvedAsset)
    requires r in ResolveAll(n, precedence, claims)
    ensures (exists i :: SeenFirst(r, i)) && (exists i :: SeenLast(r, i))
  {
    hide SortedGroup, Conflicts, Earliest, Latest, ResolveAll, Sources;
    ResolvedHead(n, precedence, claims, r);
    var cs := SortedGroup(n, precedence, claims, r.id);
    EarliestLeast(cs);
    LatestGreatest(cs);
    var i :| FirstOf(cs, i) && Earliest(cs) == cs[i];
    var k :| LastOf(cs, k) && Latest(cs) == cs[k];
    SeenIn(cs, r, i, k);
  }

  lemma {:induction false} SeenIn(cs: seq<AssetClaim>, r: ResolvedAsset, i: int, k: int)
    requires r.sources == Sources(cs) && FirstOf(cs, i) && LastOf(cs, k)
    requires r.firstAt == cs[i].source.firstAt && r.firstID == cs[i].source.firstID
    requires r.lastAt == cs[k].source.lastAt && r.lastID == cs[k].source.lastID
    ensures SeenFirst(r, i) && SeenLast(r, k)
  {
  }

  // What the resolver reads of an asset under each name.
  lemma {:induction false} FieldsRead(a: Asset, key: string)
    ensures AssetField(a, "name") == Some(a.name)
    ensures AssetField(a, "identifiers." + key) == if key in a.identifiers then Some(a.identifiers[key]) else None
    ensures AssetField(a, "attributes." + key) == if key in a.attributes then Some(a.attributes[key]) else None
  {
    var i, t := "identifiers." + key, "attributes." + key;
    assert i[..12] == "identifiers." && i[12..] == key && t[..11] == "attributes." && t[11..] == key;
    assert i[0] == 'i' && t[0] == 'a' && (|t| >= 12 ==> t[..12][0] == 'a');
  }

  lemma {:induction false} RankedKeepsTimes(precedence: seq<string>)
    ensures forall c :: var r := Ranked(precedence, c);
      && r.assetID == c.assetID && r.asset == c.asset && r.source.source == c.source.source
      && r.source.firstAt == c.source.firstAt && r.source.lastAt == c.source.lastAt
      && r.source.firstID == c.source.firstID && r.source.lastID == c.source.lastID
  {
  }

  lemma {:induction false} WinnerLeast(n: Naming, precedence: seq<string>, claims: seq<AssetClaim>, id: string)
    requires SortedGroup(n, precedence, claims, id) != []
    ensures var cs := SortedGroup(n, precedence, claims, id);
      exists w :: w in claims && w.assetID == id && cs[0] == Ranked(precedence, w)
        && forall c :: c in claims && c.assetID == id ==> !ClaimPrecedes(n, Ranked(precedence, c), Ranked(precedence, w))
  {
    hide Ranked, ClaimPrecedes;
    var cs := SortedGroup(n, precedence, claims, id);
    GroupElements(precedence, claims, id);
    OrderTotal(n);
    SortCorrect(Order(n), Group(precedence, claims, id));
    assert cs[0] in cs;
    var w :| w in claims && w.assetID == id && cs[0] == Ranked(precedence, w);
    forall c | c in claims && c.assetID == id ensures !ClaimPrecedes(n, Ranked(precedence, c), cs[0]) {
      assert Ranked(precedence, c) in cs;
      var j :| 0 <= j < |cs| && cs[j] == Ranked(precedence, c);
      assert Order(n)(cs[0], cs[0]) && (j > 0 ==> Order(n)(cs[0], cs[j]));
    }
  }

  // ----- canonicity

  predicate SameSource(n: Naming, a: AssetClaim, b: AssetClaim) {
    a.assetID == b.assetID && n.sourceKey(a.source.source) == n.sourceKey(b.source.source)
  }

  // A source makes one claim about an asset.
  ghost predicate OneClaimPerSource(n: Naming, claims: seq<AssetClaim>) {
    && NoDuplicates(claims)
    && forall a, b :: a in claims && b in claims && SameSource(n, a, b) ==> a == b
  }

  lemma {:induction false} GroupDistinguishes(n: Naming, precedence: seq<string>, claims: seq<AssetClaim>, id: string)
    requires OneClaimPerSource(n, claims)
    ensures Distinguishes(Order(n), Group(precedence, claims, id))
  {
    hide Ranked;
    GroupElements(precedence, claims, id);
    RankedKeepsTimes(precedence);
    var group := Group(precedence, claims, id);
    forall a, b | a in group && b in group && Order(n)(a, b) && Order(n)(b, a) ensures a == b {
      StringLeTotal(n.sourceKey(a.source.source), n.sourceKey(b.source.source));
    }
  }

  lemma {:induction false} GroupDistinct(n: Naming, precedence: seq<string>, claims: seq<AssetClaim>, id: string)
    requires OneClaimPerSource(n, claims)
    ensures NoDuplicates(Group(precedence, claims, id))
  {
    hide Ranked;
    RankedKeepsTimes(precedence);
    if claims != [] {
      var before, c := claims[..|claims| - 1], claims[|claims| - 1];
      GroupDistinct(n, precedence, before, id);
      GroupElements(precedence, before, id);
      forall d | d in before && d.assetID == id && c.assetID == id ensures Ranked(precedence, d) != Ranked(precedence, c) {
        var j :| 0 <= j < |before| && before[j] == d;
        assert claims[j] == d && d != c && d in claims && c in claims;
        assert !SameSource(n, c, d);
      }
      if c.assetID == id {
        assert Ranked(precedence, c) !in Group(precedence, before, id);
      }
    }
  }

  lemma {:induction false} SameGroup(n: Naming, precedence: seq<string>, a: seq<AssetClaim>, b: seq<AssetClaim>, id: string)
    requires OneClaimPerSource(n, a) && OneClaimPerSource(n, b) && forall c :: c in a <==> c in b
    ensures SortedGroup(n, precedence, a, id) == SortedGroup(n, precedence, b, id)
  {
    hide Ranked, ClaimPrecedes;
    var ga, gb := Group(precedence, a, id), Group(precedence, b, id);
    GroupElements(precedence, a, id);
    GroupElements(precedence, b, id);
    GroupDistinct(n, precedence, a, id);
    GroupDistinct(n, precedence, b, id);
    GroupDistinguishes(n, precedence, a, id);
    OrderTotal(n);
    SortCorrect(Order(n), ga);
    SortCorrect(Order(n), gb);
    SortNoDuplicates(Order(n), ga);
    SortNoDuplicates(Order(n), gb);
    assert Distinguishes(Order(n), Sort(Order(n), ga));
    SortedSetUnique(Order(n), Sort(Order(n), ga), Sort(Order(n), gb));
  }

  // THEOREM (canonicity). The order in which claims are given does not matter.
  lemma {:induction false} Canonical(n: Naming, precedence: seq<string>, a: seq<AssetClaim>, b: seq<AssetClaim>)
    requires OneClaimPerSource(n, a) && OneClaimPerSource(n, b) && forall c :: c in a <==> c in b
    ensures ResolveAll(n, precedence, a) == ResolveAll(n, precedence, b)
  {
    hide Conflicts, Ranked, ClaimPrecedes;
    assert AssetIDs(a) == AssetIDs(b);
    var ids := InOrder(AssetIDs(a));
    ResolvedIDs(n, precedence, a);
    ResolvedIDs(n, precedence, b);
    forall i | 0 <= i < |ids| ensures ResolveAll(n, precedence, a)[i] == ResolveAll(n, precedence, b)[i] {
      SameGroup(n, precedence, a, b, ids[i]);
    }
  }

  lemma {:induction false} ListedOnePerSource(n: Naming, claims: Claims, listed: seq<AssetClaim>)
    requires Keyed(n, claims) && NoDuplicates(listed) && forall c :: c in listed <==> c in claims.Values
    ensures OneClaimPerSource(n, listed)
  {
    forall a, b | a in listed && b in listed && ClaimKeyOf(n, a) == ClaimKeyOf(n, b) ensures a == b {
      assert a in claims.Values && b in claims.Values;
      var j :| j in claims && claims[j] == a;
      var k :| k in claims && claims[k] == b;
    }
    forall a, b | a in listed && b in listed && SameSource(n, a, b) ensures a == b {
      assert ClaimKeyOf(n, a) == ClaimKeyOf(n, b);
    }
  }

  // THEOREM. Two stores that received the same observations in any order, with any repeats,
  // resolve to the same assets, in whatever order their claims are read.
  lemma {:induction false} StoresResolveAlike(n: Naming, precedence: seq<string>, es: seq<Envelope>, es': seq<Envelope>,
      a: seq<AssetClaim>, b: seq<AssetClaim>)
    requires DistinctSources(n, es) && NoTies(n, es) && forall e :: e in es <==> e in es'
    requires NoDuplicates(a) && forall c :: c in a <==> c in SaveAll(n, EMPTY, es).claims.Values
    requires NoDuplicates(b) && forall c :: c in b <==> c in SaveAll(n, EMPTY, es').claims.Values
    ensures ResolveAll(n, precedence, a) == ResolveAll(n, precedence, b)
  {
    ClaimsConverge(n, es, es');
    KeyedAll(n, es);
    ListedOnePerSource(n, SaveAll(n, EMPTY, es).claims, a);
    ListedOnePerSource(n, SaveAll(n, EMPTY, es).claims, b);
    Canonical(n, precedence, a, b);
  }

  // ----- the resolver as the source runs it

  method ResolveAssetClaims(n: Naming, claims: seq<AssetClaim>, precedence: seq<string>) returns (out: seq<ResolvedAsset>)
    ensures out == ResolveAll(n, precedence, claims)
  {
    var byAsset := GroupByAsset(claims, precedence);
    assert byAsset.Keys == AssetIDs(claims);
    var assetIDs := SortKeys(byAsset.Keys);
    InOrderCorrect(AssetIDs(claims));
    out := ResolveGroups(n, claims, precedence, byAsset, assetIDs);
  }

  method ResolveGroups(n: Naming, claims: seq<AssetClaim>, precedence: seq<string>, byAsset: map<string, seq<AssetClaim>>, assetIDs: seq<string>)
      returns (out: seq<ResolvedAsset>)
    requires byAsset.Keys == AssetIDs(claims) && forall id :: id in assetIDs ==> id in AssetIDs(claims)
    requires forall id :: id in byAsset ==> byAsset[id] == Group(precedence, claims, id)
    ensures out == Resolve(n, precedence, claims, assetIDs)
  {
    hide Conflicts, ResolveOne, Order, Group, Sort, AssetIDs;
    out := [];
    for i := 0 to |assetIDs|
      invariant out == Resolve(n, precedence, claims, assetIDs[..i])
    {
      var id := assetIDs[i];
      GroupElements(precedence, claims, id);
      OrderTotal(n);
      SortCorrect(Order(n), byAsset[id]);
      var r := ResolveSorted(id, Sort(Order(n), byAsset[id]));
      assert assetIDs[..i + 1][..i] == assetIDs[..i];
      out := out + [r];
    }
    assert assetIDs[..|assetIDs|] == assetIDs;
  }

  method GroupByAsset(claims: seq<AssetClaim>, precedence: seq<string>) returns (byAsset: map<string, seq<AssetClaim>>)
    ensures byAsset.Keys == AssetIDs(claims)
    ensures forall id :: id in byAsset ==> byAsset[id] == Group(precedence, claims, id)
  {
    hide Ranked, RankOf, Grouped, Group, AssetIDs;
    var ranks := Ranks(precedence);
    byAsset := map[];
    GroupedNone(precedence);
    assert claims[..0] == [];
    for i := 0 to |claims|
      invariant Grouped(precedence, claims[..i], byAsset)
    {
      var claim := RankClaim(ranks, precedence, claims[i]);
      var id := claims[i].assetID;
      GroupedNext(precedence, claims[..i], claims[i], byAsset);
      byAsset := byAsset[id := (if id in byAsset then byAsset[id] else []) + [claim]];
      assert claims[..i + 1] == claims[..i] + [claims[i]];
    }
    assert claims[..|claims|] == claims;
    GroupedMeaning(precedence, claims, byAsset);
  }

  ghost predicate Grouped(precedence: seq<string>, claims: seq<AssetClaim>, byAsset: map<string, seq<AssetClaim>>) {
    && byAsset.Keys == AssetIDs(claims)
    && forall id :: (if id in byAsset then byAsset[id] else []) == Group(precedence, claims, id)
  }

  lemma {:induction false} GroupedNone(precedence: seq<string>)
    ensures Grouped(precedence, [], map[])
  {
  }

  lemma {:induction false} GroupedMeaning(precedence: seq<string>, claims: seq<AssetClaim>, byAsset: map<string, seq<AssetClaim>>)
    requires Grouped(precedence, claims, byAsset)
    ensures byAsset.Keys == AssetIDs(claims) && forall id :: id in byAsset ==> byAsset[id] == Group(precedence, claims, id)
  {
    hide Group;
    forall id | id in byAsset ensures byAsset[id] == Group(precedence, claims, id) {}
  }

  lemma {:induction false} GroupedNext(precedence: seq<string>, claims: seq<AssetClaim>, c: AssetClaim, byAsset: map<string, seq<AssetClaim>>)
    requires Grouped(precedence, claims, byAsset)
    ensures Grouped(precedence, claims + [c],
                    byAsset[c.assetID := (if c.assetID in byAsset then byAsset[c.assetID] else []) + [Ranked(precedence, c)]])
  {
    hide Ranked;
    assert (claims + [c])[..|claims|] == claims;
    assert AssetIDs(claims + [c]) == AssetIDs(claims) + {c.assetID};
  }

  method RankClaim(ranks: map<string, nat>, precedence: seq<string>, c: AssetClaim) returns (claim: AssetClaim)
    requires forall plugin :: Lookup(ranks, plugin) == RankOf(precedence, plugin)
    ensures claim == Ranked(precedence, c) && claim.assetID == c.assetID
  {
    var plugin := c.source.source.plugin;
    var explicit := plugin in ranks;
    assert Lookup(ranks, plugin) == RankOf(precedence, plugin);
    var rank := if explicit then ranks[plugin] else |precedence|;
    claim := c.(source := c.source.(rank := rank, explicit := explicit));
  }

  method Ranks(precedence: seq<string>) returns (ranks: map<string, nat>)
    ensures forall plugin :: Lookup(ranks, plugin) == RankOf(precedence, plugin)
  {
    ranks := map[];
    for i := 0 to |precedence|
      invariant forall plugin :: Lookup(ranks, plugin) == RankOf(precedence[..i], plugin)
    {
      ranks := ranks[precedence[i] := i];
      assert precedence[..i + 1][..i] == precedence[..i];
    }
    assert precedence[..|precedence|] == precedence;
  }

  method ResolveSorted(id: string, cs: seq<AssetClaim>) returns (r: ResolvedAsset)
    requires cs != []
    ensures r == ResolveOne(id, cs)
  {
    var winner := cs[0];
    r := ResolvedAsset(id, winner.asset, winner.source.firstID, winner.source.lastID,
                       winner.source.firstAt, winner.source.lastAt, winner.source, [], []);
    for i := 0 to |cs|
      invariant r.id == id && r.asset == winner.asset && r.winner == winner.source && r.sources == Sources(cs[..i])
      invariant i == 0 ==> r.firstAt == winner.source.firstAt && r.firstID == winner.source.firstID
      invariant i == 0 ==> r.lastAt == winner.source.lastAt && r.lastID == winner.source.lastID
      invariant i > 0 ==> r.firstAt == Earliest(cs[..i]).source.firstAt && r.firstID == Earliest(cs[..i]).source.firstID
      invariant i > 0 ==> r.lastAt == Latest(cs[..i]).source.lastAt && r.lastID == Latest(cs[..i]).source.lastID
    {
      var claim := cs[i];
      assert cs[..i + 1][..i] == cs[..i];
      r := r.(sources := r.sources + [claim.source]);
      if claim.source.firstAt < r.firstAt {
        r := r.(firstAt := claim.source.firstAt, firstID := claim.source.firstID);
      }
      if r.lastAt < claim.source.lastAt {
        r := r.(lastAt := claim.source.lastAt, lastID := claim.source.lastID);
      }
    }
    assert cs[..|cs|] == cs;
    var conflicts := AssetConflicts(cs);
    r := r.(conflicts := conflicts);
  }

  method AssetConflicts(cs: seq<AssetClaim>) returns (conflicts: seq<Conflict>)
    ensures conflicts == Conflicts(cs)
  {
    if |cs| < 2 {
      return [];
    }
    var fields := CollectFields(cs);
    conflicts := [];
    for i := 0 to |fields|
      invariant conflicts == ConflictsIn(cs, fields[..i])
    {
      assert fields[..i + 1][..i] == fields[..i];
      var disagree, conflictClaims := Compare(cs, fields[i]);
      if disagree {
        conflicts := conflicts + [Conflict(fields[i], conflictClaims)];
      }
    }
    assert fields[..|fields|] == fields;
  }

  method CollectFields(cs: seq<AssetClaim>) returns (fields: seq<string>)
    ensures fields == Fields(cs)
  {
    var identifiers, attributes := {}, {};
    for i := 0 to |cs|
      invariant identifiers == IdentifierKeys(cs[..i]) && attributes == AttributeKeys(cs[..i])
    {
      assert cs[..i + 1] == cs[..i] + [cs[i]];
      identifiers := identifiers + set k | k in cs[i].asset.identifiers :: IDENTIFIERS_PREFIX + k;
      attributes := attributes + set k | k in cs[i].asset.attributes :: ATTRIBUTES_PREFIX + k;
    }
    assert cs[..|cs|] == cs;
    var identifierFields := SortKeys(identifiers);
    var attributeFields := SortKeys(attributes);
    fields := ["name"] + identifierFields + attributeFields;
  }

  // What every claim says about a field, and whether they say more than one thing.
  method Compare(cs: seq<AssetClaim>, field: string) returns (disagree: bool, claims: seq<ConflictClaim>)
    ensures disagree <==> Disagree(cs, field)
    ensures claims == ConflictClaims(cs, field)
  {
    var values: set<Option<string>> := {};
    claims := [];
    for i := 0 to |cs|
      invariant claims == ConflictClaims(cs[..i], field)
      invariant forall v :: v in values <==> exists j :: 0 <= j < i && AssetField(cs[j].asset, field) == v
    {
      var value := AssetField(cs[i].asset, field);
      values := values + {value};
      claims := claims + [ConflictClaim(cs[i].source, value)];
    }
    assert cs[..|cs|] == cs;
    disagree := |values| > 1;
    SeveralValues(values);
    if Disagree(cs, field) {
      var a, b :| a in cs && b in cs && AssetField(a.asset, field) != AssetField(b.asset, field);
      assert AssetField(a.asset, field) in values && AssetField(b.asset, field) in values;
    }
  }

  lemma {:induction false} SeveralValues<T>(values: set<T>)
    ensures |values| > 1 <==> exists a, b :: a in values && b in values && a != b
  {
    if a, b :| a in values && b in values && a != b {
      var rest := values - {a, b};
      assert values == rest + {a, b};
      assert |values| == |rest| + 2;
    } else if |values| > 0 {
      var a :| a in values;
      assert values == {a};
    }
  }
}
