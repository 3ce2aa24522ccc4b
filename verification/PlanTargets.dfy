// The whole planner: reading the scope, dropping covered prefixes, applying every exclusion,
// splitting, sorting and numbering. The functions say what each loop of the methods at the
// end computes; the theorems are about those functions.
module PlanTargets {
  import opened Wrappers
  import opened Prefixes
  import opened Sorting
  import opened Planner

  // ----- reading CIDRs

  function MaskedBlock(c: Cidr): Block
    requires c.Parsed?
  {
    MaskedCorrect(c.prefix, Address(V4, 0));
    Masked(c.prefix)
  }

  function ParsePrefixes(values: seq<Cidr>): Result<seq<Block>, PlanError> {
    if values == [] then Ok([])
    else if values[0].Malformed? then Err(InvalidCIDR)
    else
      match ParsePrefixes(values[1..])
      case Err(e) => Err(e)
      case Ok(rest) => Ok([MaskedBlock(values[0])] + rest)
  }

  ghost predicate Selects(values: seq<Cidr>, a: Address) {
    exists c :: c in values && c.Parsed? && Contains(c.prefix, a)
  }

  ghost predicate Holds(ps: seq<Block>, a: Address) {
    exists p :: p in ps && Contains(p, a)
  }

  lemma {:induction false} ParseElements(values: seq<Cidr>)
    ensures ParsePrefixes(values).Ok? <==> Malformed !in values
    ensures ParsePrefixes(values).Err? ==> ParsePrefixes(values).error == InvalidCIDR
    ensures ParsePrefixes(values).Ok? ==>
      && (forall p :: p in ParsePrefixes(values).value <==> exists c :: c in values && c.Parsed? && MaskedBlock(c) == p)
  {
    if values != [] {
      ParseElements(values[1..]);
      assert values == [values[0]] + values[1..];
      if ParsePrefixes(values).Ok? {
        var rest := ParsePrefixes(values[1..]).value;
        forall p ensures p in ParsePrefixes(values).value <==> exists c :: c in values && c.Parsed? && MaskedBlock(c) == p {
          assert p in ParsePrefixes(values).value <==> p == MaskedBlock(values[0]) || p in rest;
        }
      }
    }
  }

  lemma {:induction false} ParseHolds(values: seq<Cidr>, a: Address)
    requires ParsePrefixes(values).Ok?
    ensures Holds(ParsePrefixes(values).value, a) <==> Selects(values, a)
  {
    ParseElements(values);
    var ps := ParsePrefixes(values).value;
    if Holds(ps, a) {
      var p :| p in ps && Contains(p, a);
      var c :| c in values && c.Parsed? && MaskedBlock(c) == p;
      MaskedCorrect(c.prefix, a);
    }
    if Selects(values, a) {
      var c :| c in values && c.Parsed? && Contains(c.prefix, a);
      MaskedCorrect(c.prefix, a);
      assert MaskedBlock(c) in ps;
    }
  }

  // ----- the two orders

  function FamilyRank(f: Family): nat { if f == V4 then 0 else 1 }

  // removeCovered sorts the widest prefixes of a family first.
  predicate WideLe(p: Block, q: Block) {
    if p.family != q.family then FamilyRank(p.family) < FamilyRank(q.family)
    else if p.bits != q.bits then p.bits < q.bits
    else p.addr <= q.addr
  }

  // sortPrefixes sorts by address.
  predicate AddressLe(p: Block, q: Block) {
    if p.family != q.family then FamilyRank(p.family) < FamilyRank(q.family)
    else if p.addr != q.addr then p.addr < q.addr
    else p.bits <= q.bits
  }

  lemma {:induction false} Orders()
    ensures TotalPreorder(WideLe) && TotalPreorder(AddressLe)
    ensures forall s: seq<Block> :: Distinguishes(WideLe, s) && Distinguishes(AddressLe, s)
  {
  }

  // ----- dropping covered prefixes

  predicate CoveredBy(p: Block, kept: seq<Block>) {
    exists q :: q in kept && q.family == p.family && Contains(q, Address(p.family, p.addr))
  }

  function Keep(rest: seq<Block>, kept: seq<Block>): seq<Block>
    decreases |rest|
  {
    if rest == [] then kept
    else Keep(rest[1..], if CoveredBy(rest[0], kept) then kept else kept + [rest[0]])
  }

  function RemoveCovered(ps: seq<Block>): seq<Block> {
    Keep(Sort(WideLe, ps), [])
  }

  predicate Covers(q: Block, p: Block) {
    q.family == p.family && q.bits <= p.bits && Contains(q, Address(p.family, p.addr))
  }

  lemma {:induction false} CoversIsInside(q: Block, p: Block)
    ensures Covers(q, p) <==> Inside(p, q) && q.bits <= p.bits
    ensures Covers(q, p) <==> Overlaps(q, p) && q.bits <= p.bits
  {
    ContainsRange(q, Address(p.family, p.addr));
    Pow2Positive(HostBits(p));
    if q.family == p.family && q.bits <= p.bits {
      NestedOrDisjoint(q, p);
    }
  }

  lemma {:induction false} CoversOrder(r: Block, q: Block, p: Block)
    ensures Covers(p, p)
    ensures Covers(q, p) && Covers(p, q) ==> p == q
    ensures Covers(r, q) && Covers(q, p) ==> Covers(r, p)
  {
    CoversIsInside(p, p);
    CoversIsInside(q, p);
    CoversIsInside(p, q);
    CoversIsInside(r, q);
    CoversIsInside(r, p);
  }

  // What removeCovered keeps: the prefixes that no other prefix of the list covers.
  ghost predicate Maximal(p: Block, s: seq<Block>) {
    p in s && forall q :: q in s && Covers(q, p) ==> q == p
  }

  ghost predicate Represents(kept: seq<Block>, s: seq<Block>) {
    && (forall p :: p in kept <==> Maximal(p, s))
    && (forall d :: d in s ==> exists m :: m in kept && Covers(m, d))
    && Sorted(WideLe, kept) && NoDuplicates(kept)
  }

  // A prefix taken after every prefix at least as wide covers no earlier one but itself.
  lemma {:induction false} LaterCoversNothing(p: Block, r: Block)
    requires WideLe(r, p) && Covers(p, r)
    ensures r == p
  {
    CoversIsInside(p, r);
  }

  lemma {:induction false} KeepCovered(p: Block, q: Block, done: seq<Block>, kept: seq<Block>)
    requires Represents(kept, done) && forall r :: r in done ==> WideLe(r, p)
    requires q in kept && Covers(q, p)
    ensures Represents(kept, done + [p])
  {
    var s := done + [p];
    assert Maximal(q, done);
    forall r ensures Maximal(r, s) <==> Maximal(r, done) {
      if r in done && Covers(p, r) { LaterCoversNothing(p, r); }
      if r == p && Maximal(r, s) { assert q == p; }
    }
  }

  lemma {:induction false} KeepUncovered(p: Block, done: seq<Block>, kept: seq<Block>)
    requires Represents(kept, done) && forall r :: r in done ==> WideLe(r, p)
    requires forall m :: m in kept ==> !Covers(m, p)
    ensures Represents(kept + [p], done + [p])
  {
    var s, kept' := done + [p], kept + [p];
    CoversOrder(p, p, p);
    forall d | d in done ensures !Covers(d, p) {
      if Covers(d, p) {
        var m :| m in kept && Covers(m, d);
        CoversOrder(m, d, p);
      }
    }
    assert p !in done;
    forall r ensures r in kept' <==> Maximal(r, s) {
      if r in done && Covers(p, r) { LaterCoversNothing(p, r); }
    }
    forall d | d in s ensures exists m :: m in kept' && Covers(m, d) {
      if d in done {
        var m :| m in kept && Covers(m, d);
        assert m in kept';
      } else {
        assert p in kept' && Covers(p, d);
      }
    }
    forall r | r in kept ensures WideLe(r, p) { assert Maximal(r, done); }
  }

  lemma {:induction false} KeepStep(p: Block, done: seq<Block>, kept: seq<Block>)
    requires Represents(kept, done) && forall r :: r in done ==> WideLe(r, p)
    ensures Represents(if CoveredBy(p, kept) then kept else kept + [p], done + [p])
  {
    if CoveredBy(p, kept) {
      var q :| q in kept && q.family == p.family && Contains(q, Address(p.family, p.addr));
      assert Maximal(q, done) && WideLe(q, p);
      KeepCovered(p, q, done, kept);
    } else {
      KeepUncovered(p, done, kept);
    }
  }

  lemma {:induction false} KeepCorrect(done: seq<Block>, rest: seq<Block>, kept: seq<Block>)
    requires Sorted(WideLe, done + rest) && Represents(kept, done)
    ensures Represents(Keep(rest, kept), done + rest)
    decreases |rest|
  {
    if rest == [] {
      assert done + rest == done;
    } else {
      var all := done + rest;
      forall q | q in done ensures WideLe(q, rest[0]) {
        var i :| 0 <= i < |done| && done[i] == q;
        assert all[i] == q && all[|done|] == rest[0];
      }
      KeepStep(rest[0], done, kept);
      assert done + [rest[0]] + rest[1..] == all;
      KeepCorrect(done + [rest[0]], rest[1..], if CoveredBy(rest[0], kept) then kept else kept + [rest[0]]);
    }
  }

  lemma {:induction false} RepresentsSame(kept: seq<Block>, s: seq<Block>, t: seq<Block>)
    requires Represents(kept, s) && forall x :: x in s <==> x in t
    ensures Represents(kept, t)
  {
    forall p ensures Maximal(p, s) <==> Maximal(p, t) {}
  }

  // removeCovered keeps exactly the maximal prefixes, and they are disjoint.
  lemma {:induction false} RemoveCoveredCorrect(ps: seq<Block>)
    ensures Represents(RemoveCovered(ps), ps)
  {
    Orders();
    SortCorrect(WideLe, ps);
    var sorted := Sort(WideLe, ps);
    assert [] + sorted == sorted;
    KeepCorrect([], sorted, []);
    RepresentsSame(RemoveCovered(ps), sorted, ps);
  }

  lemma {:induction false} RemoveCoveredCount(ps: seq<Block>, a: Address)
    ensures Count(RemoveCovered(ps), a) == if Holds(ps, a) then 1 else 0
  {
    RemoveCoveredCorrect(ps);
    var kept := RemoveCovered(ps);
    forall i, j | 0 <= i < j < |kept| ensures !Overlaps(kept[i], kept[j]) {
      var p, q := kept[i], kept[j];
      assert p in kept && q in kept && Maximal(p, ps) && Maximal(q, ps);
      CoversIsInside(p, q);
      CoversIsInside(q, p);
      OverlapsIffShared(p, q);
    }
    DisjointCount(kept, a);
    CountPositive(kept, a);
    if Holds(ps, a) {
      var d :| d in ps && Contains(d, a);
      var m :| m in kept && Covers(m, d);
      CoversIsInside(m, d);
      OverlapsNested(m, d, a);
    }
  }

  // The result depends only on which prefixes are listed, not on their order or repetition.
  lemma {:induction false} RemoveCoveredCanonical(s: seq<Block>, t: seq<Block>)
    requires forall x :: x in s <==> x in t
    ensures RemoveCovered(s) == RemoveCovered(t)
  {
    Orders();
    RemoveCoveredCorrect(s);
    RemoveCoveredCorrect(t);
    RepresentsSame(RemoveCovered(s), s, t);
    SortedSetUnique(WideLe, RemoveCovered(s), RemoveCovered(t));
  }

  // ----- applying exclusions

  function SubtractOne(allowed: seq<Block>, deny: Block, maximum: nat, next: seq<Block>): Result<seq<Block>, PlanError>
    decreases |allowed|
  {
    if allowed == [] then Ok(next)
    else
      var candidate := allowed[0];
      if candidate.family != deny.family || !Overlaps(candidate, deny)
      then SubtractOne(allowed[1..], deny, maximum, next + [candidate])
      else
        match SubtractPrefix(candidate, deny, maximum - |next|)
        case Err(e) => Err(e)
        case Ok(parts) =>
          if |next + parts| > maximum then Err(LimitExceeded)
          else SubtractOne(allowed[1..], deny, maximum, next + parts)
  }

  function SubtractAll(allowed: seq<Block>, excluded: seq<Block>, maximum: nat): Result<seq<Block>, PlanError>
    decreases |excluded|
  {
    if excluded == [] then Ok(allowed)
    else
      match SubtractOne(allowed, excluded[0], maximum, [])
      case Err(e) => Err(e)
      case Ok(next) => SubtractAll(next, excluded[1..], maximum)
  }

  lemma {:induction false} SubtractOneCount(allowed: seq<Block>, deny: Block, maximum: nat, next: seq<Block>, a: Address)
    requires SubtractOne(allowed, deny, maximum, next).Ok?
    ensures Count(SubtractOne(allowed, deny, maximum, next).value, a)
         == Count(next, a) + if Contains(deny, a) then 0 else Count(allowed, a)
    decreases |allowed|
  {
    if allowed != [] {
      var candidate := allowed[0];
      OverlapsIffShared(candidate, deny);
      if candidate.family != deny.family || !Overlaps(candidate, deny) {
        SubtractOneCount(allowed[1..], deny, maximum, next + [candidate], a);
        CountConcat(next, [candidate], a);
        if Contains(deny, a) { assert !Contains(candidate, a); }
      } else {
        var parts := SubtractPrefix(candidate, deny, maximum - |next|).value;
        SubtractCover(candidate, deny, maximum - |next|, a);
        SubtractOneCount(allowed[1..], deny, maximum, next + parts, a);
        CountConcat(next, parts, a);
      }
    }
  }

  lemma {:induction false} SubtractAllCount(allowed: seq<Block>, excluded: seq<Block>, maximum: nat, a: Address)
    requires SubtractAll(allowed, excluded, maximum).Ok?
    ensures Count(SubtractAll(allowed, excluded, maximum).value, a)
         == if Holds(excluded, a) then 0 else Count(allowed, a)
    decreases |excluded|
  {
    if excluded != [] {
      SubtractOneCount(allowed, excluded[0], maximum, [], a);
      SubtractAllCount(SubtractOne(allowed, excluded[0], maximum, []).value, excluded[1..], maximum, a);
      assert excluded == [excluded[0]] + excluded[1..];
      assert Holds(excluded, a) <==> Contains(excluded[0], a) || Holds(excluded[1..], a);
    }
  }

  lemma {:induction false} SubtractOneError(allowed: seq<Block>, deny: Block, maximum: nat, next: seq<Block>)
    ensures SubtractOne(allowed, deny, maximum, next).Err? ==> SubtractOne(allowed, deny, maximum, next).error == LimitExceeded
    decreases |allowed|
  {
    if allowed != [] {
      var candidate := allowed[0];
      if candidate.family != deny.family || !Overlaps(candidate, deny) {
        SubtractOneError(allowed[1..], deny, maximum, next + [candidate]);
      } else {
        SubtractBudget(candidate, deny, maximum - |next|);
        var parts := SubtractPrefix(candidate, deny, maximum - |next|);
        if parts.Ok? { SubtractOneError(allowed[1..], deny, maximum, next + parts.value); }
      }
    }
  }

  lemma {:induction false} SubtractAllError(allowed: seq<Block>, excluded: seq<Block>, maximum: nat)
    ensures SubtractAll(allowed, excluded, maximum).Err? ==> SubtractAll(allowed, excluded, maximum).error == LimitExceeded
    decreases |excluded|
  {
    if excluded != [] {
      SubtractOneError(allowed, excluded[0], maximum, []);
      var next := SubtractOne(allowed, excluded[0], maximum, []);
      if next.Ok? { SubtractAllError(next.value, excluded[1..], maximum); }
    }
  }

  // What one exclusion leaves of a list of blocks, with no limit.
  function Remaining(allowed: seq<Block>, deny: Block): seq<Block> {
    if allowed == [] then [] else Outside(allowed[0], deny) + Remaining(allowed[1..], deny)
  }

  function RemainingAll(allowed: seq<Block>, excluded: seq<Block>): seq<Block>
    decreases |excluded|
  {
    if excluded == [] then allowed else RemainingAll(Remaining(allowed, excluded[0]), excluded[1..])
  }

  // One pass fits if, right after each block that meets the exclusion, the blocks so far do:
  // each counts as many parts as the exclusion is longer than it.
  predicate PassFits(allowed: seq<Block>, deny: Block, maximum: nat, before: nat) {
    allowed == [] ||
    (var after := before + SubtractParts(allowed[0], deny);
     (Overlaps(allowed[0], deny) ==> after <= maximum) && PassFits(allowed[1..], deny, maximum, after))
  }

  predicate ExclusionsFit(allowed: seq<Block>, excluded: seq<Block>, maximum: nat)
    decreases |excluded|
  {
    excluded == [] ||
    (PassFits(allowed, excluded[0], maximum, 0) && ExclusionsFit(Remaining(allowed, excluded[0]), excluded[1..], maximum))
  }

  lemma {:induction false} SubtractOneExactly(allowed: seq<Block>, deny: Block, maximum: nat, next: seq<Block>)
    ensures SubtractOne(allowed, deny, maximum, next).Ok? <==> PassFits(allowed, deny, maximum, |next|)
    ensures SubtractOne(allowed, deny, maximum, next).Ok? ==>
      SubtractOne(allowed, deny, maximum, next).value == next + Remaining(allowed, deny)
    decreases |allowed|
  {
    if allowed == [] {
      assert next + [] == next;
    } else {
      hide Outside, Overlaps, SubtractParts, Valid, SubtractOne;
      SubtractOneStep(allowed, deny, maximum, next);
      SubtractFirst(allowed[0], deny, maximum, next);
      var after := next + Outside(allowed[0], deny);
      SubtractOneExactly(allowed[1..], deny, maximum, after);
      assert after + Remaining(allowed[1..], deny) == next + Remaining(allowed, deny);
    }
  }

  lemma {:induction false} SubtractOneStep(allowed: seq<Block>, deny: Block, maximum: nat, next: seq<Block>)
    requires allowed != []
    ensures SubtractOne(allowed, deny, maximum, next) ==
      if Overlaps(allowed[0], deny) && |next| + SubtractParts(allowed[0], deny) > maximum then Err(LimitExceeded)
      else SubtractOne(allowed[1..], deny, maximum, next + Outside(allowed[0], deny))
  {
    hide Outside, SubtractPrefix, Overlaps, SubtractParts, Valid;
    SubtractFirst(allowed[0], deny, maximum, next);
    SubtractBudget(allowed[0], deny, maximum - |next|);
  }

  // What the loop does with one block.
  lemma {:induction false} SubtractFirst(candidate: Block, deny: Block, maximum: nat, next: seq<Block>)
    ensures |Outside(candidate, deny)| == SubtractParts(candidate, deny)
    ensures candidate.family != deny.family || !Overlaps(candidate, deny) ==>
      !Overlaps(candidate, deny) && Outside(candidate, deny) == [candidate]
    ensures candidate.family == deny.family && Overlaps(candidate, deny) ==>
      var parts := SubtractPrefix(candidate, deny, maximum - |next|);
      && (parts.Ok? && |next + parts.value| <= maximum <==> |next| + SubtractParts(candidate, deny) <= maximum)
      && (parts.Ok? ==> parts.value == Outside(candidate, deny))
  {
    hide Overlaps, SubtractPrefix, Outside, SubtractParts, SubtractNeeds;
    ApartParts(candidate, deny);
    var enough := SubtractNeeds(candidate, deny);
    SubtractBudget(candidate, deny, enough);
    SubtractOutside(candidate, deny, enough);
    SubtractBudget(candidate, deny, maximum - |next|);
    if SubtractPrefix(candidate, deny, maximum - |next|).Ok? { SubtractOutside(candidate, deny, maximum - |next|); }
  }

  lemma {:induction false} ApartParts(base: Block, deny: Block)
    ensures base.family != deny.family ==> !Overlaps(base, deny)
    ensures !Overlaps(base, deny) ==> Outside(base, deny) == [base] && SubtractParts(base, deny) == 1
    ensures SubtractNeeds(base, deny) <= SubtractParts(base, deny)
  {
  }

  lemma {:induction false} SubtractAllExactly(allowed: seq<Block>, excluded: seq<Block>, maximum: nat)
    ensures SubtractAll(allowed, excluded, maximum).Ok? <==> ExclusionsFit(allowed, excluded, maximum)
    ensures SubtractAll(allowed, excluded, maximum).Ok? ==>
      SubtractAll(allowed, excluded, maximum).value == RemainingAll(allowed, excluded)
    decreases |excluded|
  {
    if excluded != [] {
      SubtractOneExactly(allowed, excluded[0], maximum, []);
      assert [] + Remaining(allowed, excluded[0]) == Remaining(allowed, excluded[0]);
      SubtractAllExactly(Remaining(allowed, excluded[0]), excluded[1..], maximum);
    }
  }

  // ----- splitting everything to the target length

  function TargetBits(limits: Limits, f: Family): nat {
    if f == V4 then limits.v4 else limits.v6
  }

  function SplitAll(allowed: seq<Block>, limits: Limits, planned: seq<Block>): Result<seq<Block>, PlanError>
    decreases |allowed|
  {
    if allowed == [] then Ok(planned)
    else
      match SplitToPrefix(allowed[0], TargetBits(limits, allowed[0].family), limits.maximum - |planned|)
      case Err(e) => Err(e)
      case Ok(parts) =>
        if |planned + parts| > limits.maximum then Err(LimitExceeded)
        else SplitAll(allowed[1..], limits, planned + parts)
  }

  function TotalParts(allowed: seq<Block>, limits: Limits): nat {
    if allowed == [] then 0
    else SplitParts(allowed[0], TargetBits(limits, allowed[0].family)) + TotalParts(allowed[1..], limits)
  }

  predicate Narrow(ps: seq<Block>, limits: Limits) {
    forall p :: p in ps ==> p.bits >= TargetBits(limits, p.family)
  }

  predicate Sane(limits: Limits) {
    limits.v4 <= 32 && limits.v6 <= 128
  }

  // The splitting loop succeeds exactly when all the parts together fit the maximum.
  lemma {:induction false} SplitAllBudget(allowed: seq<Block>, limits: Limits, planned: seq<Block>)
    requires Sane(limits) && |planned| <= limits.maximum
    ensures SplitAll(allowed, limits, planned).Ok? <==> |planned| + TotalParts(allowed, limits) <= limits.maximum
    ensures SplitAll(allowed, limits, planned).Ok? ==>
      |SplitAll(allowed, limits, planned).value| == |planned| + TotalParts(allowed, limits)
    ensures SplitAll(allowed, limits, planned).Err? ==> SplitAll(allowed, limits, planned).error == LimitExceeded
    decreases |allowed|
  {
    if allowed != [] {
      var bits := TargetBits(limits, allowed[0].family);
      SplitBudget(allowed[0], bits, limits.maximum - |planned|);
      var parts := SplitToPrefix(allowed[0], bits, limits.maximum - |planned|);
      if parts.Ok? { SplitAllBudget(allowed[1..], limits, planned + parts.value); }
    }
  }

  lemma {:induction false} SplitAllCount(allowed: seq<Block>, limits: Limits, planned: seq<Block>, a: Address)
    requires SplitAll(allowed, limits, planned).Ok?
    ensures Count(SplitAll(allowed, limits, planned).value, a) == Count(planned, a) + Count(allowed, a)
    decreases |allowed|
  {
    if allowed != [] {
      var bits := TargetBits(limits, allowed[0].family);
      var parts := SplitToPrefix(allowed[0], bits, limits.maximum - |planned|).value;
      SplitCover(allowed[0], bits, limits.maximum - |planned|, a);
      SplitAllCount(allowed[1..], limits, planned + parts, a);
      CountConcat(planned, parts, a);
    }
  }

  lemma {:induction false} SplitAllNarrow(allowed: seq<Block>, limits: Limits, planned: seq<Block>)
    requires SplitAll(allowed, limits, planned).Ok? && Narrow(planned, limits)
    ensures Narrow(SplitAll(allowed, limits, planned).value, limits)
    decreases |allowed|
  {
    if allowed != [] {
      var bits := TargetBits(limits, allowed[0].family);
      var parts := SplitToPrefix(allowed[0], bits, limits.maximum - |planned|).value;
      SplitNarrow(allowed[0], bits, limits.maximum - |planned|);
      SplitAllNarrow(allowed[1..], limits, planned + parts);
    }
  }

  // ----- the plan

  function PlanBlocks(included: seq<Block>, excluded: seq<Block>, limits: Limits): Result<seq<Block>, PlanError> {
    match SubtractAll(RemoveCovered(included), RemoveCovered(excluded), limits.maximum)
    case Err(e) => Err(e)
    case Ok(allowed) =>
      match SplitAll(allowed, limits, [])
      case Err(e) => Err(e)
      case Ok(planned) => Ok(Sort(AddressLe, planned))
  }

  function Number(scope: TargetScope, planned: seq<Block>): seq<TargetPartition> {
    seq(|planned|, i requires 0 <= i < |planned| =>
      TargetPartition(Key(scope.scopeID, scope.revision, planned[i]), i, |planned|, planned[i]))
  }

  function Plan(scope: TargetScope): Result<seq<TargetPartition>, PlanError> {
    match Validate(scope)
    case Err(e) => Err(e)
    case Ok(limits) =>
      match ParsePrefixes(scope.cidrs)
      case Err(e) => Err(e)
      case Ok(included) =>
        match ParsePrefixes(scope.exclusions)
        case Err(e) => Err(e)
        case Ok(excluded) =>
          match PlanBlocks(included, excluded, limits)
          case Err(e) => Err(e)
          case Ok(planned) => Ok(Number(scope, planned))
  }

  function Blocks(partitions: seq<TargetPartition>): seq<Block> {
    seq(|partitions|, i requires 0 <= i < |partitions| => partitions[i].prefix)
  }

  lemma {:induction false} BlocksOfNumber(scope: TargetScope, planned: seq<Block>)
    ensures Blocks(Number(scope, planned)) == planned
  {
  }

  // THEOREM. A successful plan holds each address the scope selects and does not exclude in
  // exactly one partition, and every other address in none.
  lemma {:induction false} ExactCover(scope: TargetScope, a: Address)
    requires Plan(scope).Ok?
    ensures Count(Blocks(Plan(scope).value), a)
         == if Selects(scope.cidrs, a) && !Selects(scope.exclusions, a) then 1 else 0
  {
    var limits := Validate(scope).value;
    var included, excluded := ParsePrefixes(scope.cidrs).value, ParsePrefixes(scope.exclusions).value;
    var allowed := SubtractAll(RemoveCovered(included), RemoveCovered(excluded), limits.maximum).value;
    var planned := SplitAll(allowed, limits, []).value;
    BlocksOfNumber(scope, Sort(AddressLe, planned));
    CountSort(AddressLe, planned, a);
    SplitAllCount(allowed, limits, [], a);
    SubtractAllCount(RemoveCovered(included), RemoveCovered(excluded), limits.maximum, a);
    RemoveCoveredCount(included, a);
    RemoveCoveredCount(excluded, a);
    CountPositive(RemoveCovered(excluded), a);
    ParseHolds(scope.cidrs, a);
    ParseHolds(scope.exclusions, a);
  }

  lemma {:induction false} StrictlySorted(ps: seq<Block>)
    requires Sorted(AddressLe, ps) && Disjoint(ps)
    ensures forall i, j :: 0 <= i < j < |ps| && ps[i].family == ps[j].family ==> ps[i].addr + Size(ps[i]) <= ps[j].addr
  {
    forall i, j | 0 <= i < j < |ps| && ps[i].family == ps[j].family
      ensures ps[i].addr + Size(ps[i]) <= ps[j].addr
    {
      var p, q := ps[i], ps[j];
      assert AddressLe(p, q) && !Overlaps(p, q);
      OverlapsIffShared(p, q);
      if p.bits <= q.bits { NestedOrDisjoint(p, q); } else { NestedOrDisjoint(q, p); }
      Pow2Positive(HostBits(q));
    }
  }

  // THEOREM. The partitions of a plan are numbered 0..n-1, no more than the maximum, no wider
  // than the target, in address order with each ending before the next begins.
  lemma {:induction false} PlanShape(scope: TargetScope)
    requires Plan(scope).Ok?
    ensures var ps, limits := Plan(scope).value, Validate(scope).value;
      && |ps| <= limits.maximum
      && (forall i :: 0 <= i < |ps| ==> ps[i].ordinal == i && ps[i].count == |ps|)
      && (forall i :: 0 <= i < |ps| ==> ps[i].prefix.bits >= TargetBits(limits, ps[i].prefix.family))
      && (forall i, j :: 0 <= i < j < |ps| ==>
            && FamilyRank(ps[i].prefix.family) <= FamilyRank(ps[j].prefix.family)
            && (ps[i].prefix.family == ps[j].prefix.family ==>
                 ps[i].prefix.addr + Size(ps[i].prefix) <= ps[j].prefix.addr))
      && (forall i, j :: 0 <= i < j < |ps| ==> ps[i].key != ps[j].key)
  {
    hide RemoveCovered, SubtractAll, SplitAll, Sort, Count, Shr, Shl, Pow2, Selects;
    var limits := Validate(scope).value;
    var included, excluded := ParsePrefixes(scope.cidrs).value, ParsePrefixes(scope.exclusions).value;
    var allowed := SubtractAll(RemoveCovered(included), RemoveCovered(excluded), limits.maximum).value;
    var planned := SplitAll(allowed, limits, []).value;
    var sorted := Sort(AddressLe, planned);
    SplitAllBudget(allowed, limits, []);
    SplitAllNarrow(allowed, limits, []);
    Orders();
    SortCorrect(AddressLe, planned);
    BlocksOfNumber(scope, sorted);
    forall a ensures Count(sorted, a) <= 1 { ExactCover(scope, a); }
    CountDisjoint(sorted);
    StrictlySorted(sorted);
    PlanNumbered(scope, sorted);
  }

  // What splitting makes of the blocks: those narrow enough as they are, and parts of the target
  // length of the others.
  lemma {:induction false} SplitAllWidths(allowed: seq<Block>, limits: Limits, planned: seq<Block>)
    requires SplitAll(allowed, limits, planned).Ok?
    ensures var split := SplitAll(allowed, limits, planned).value;
      && (forall q :: q in split ==>
            q in planned || q.bits == TargetBits(limits, q.family) || (q.bits > TargetBits(limits, q.family) && q in allowed))
      && (forall q :: q in planned || (q in allowed && q.bits >= TargetBits(limits, q.family)) ==> q in split)
    decreases |allowed|
  {
    if allowed != [] {
      hide SplitToPrefix;
      var bits := TargetBits(limits, allowed[0].family);
      var parts := SplitToPrefix(allowed[0], bits, limits.maximum - |planned|).value;
      SplitWidths(allowed[0], bits, limits.maximum - |planned|);
      SplitAllWidths(allowed[1..], limits, planned + parts);
    }
  }

  // THEOREM (widths). Told by the fields of the scope: a partition has its family's partition
  // prefix length, by default 24 and 64, or is a narrower block that the exclusions left; every
  // such block is a partition; the partitions are at most as many as the scope allows.
  lemma {:induction false} PlanWidths(scope: TargetScope)
    requires Plan(scope).Ok?
    ensures ParsePrefixes(scope.cidrs).Ok? && ParsePrefixes(scope.exclusions).Ok?
    ensures var ps := Plan(scope).value;
      var v4 := if scope.ipv4PartitionPrefix == 0 then 24 else scope.ipv4PartitionPrefix;
      var v6 := if scope.ipv6PartitionPrefix == 0 then 64 else scope.ipv6PartitionPrefix;
      var left := RemainingAll(RemoveCovered(ParsePrefixes(scope.cidrs).value), RemoveCovered(ParsePrefixes(scope.exclusions).value));
      && (forall p :: p in ps && p.prefix.family == V4 ==> p.prefix.bits == v4 || (p.prefix.bits > v4 && p.prefix in left))
      && (forall p :: p in ps && p.prefix.family == V6 ==> p.prefix.bits == v6 || (p.prefix.bits > v6 && p.prefix in left))
      && (forall b :: b in left && b.bits >= (if b.family == V4 then v4 else v6) ==> exists p :: p in ps && p.prefix == b)
      && |ps| <= (if scope.maxPartitions == 0 then 100000 else scope.maxPartitions)
  {
    hide RemoveCovered, SubtractAll, SplitAll, Sort, RemainingAll;
    var limits := Validate(scope).value;
    var included, excluded := RemoveCovered(ParsePrefixes(scope.cidrs).value), RemoveCovered(ParsePrefixes(scope.exclusions).value);
    SubtractAllExactly(included, excluded, limits.maximum);
    var left := RemainingAll(included, excluded);
    SplitAllWidths(left, limits, []);
    SplitAllBudget(left, limits, []);
    Orders();
    var planned := SplitAll(left, limits, []).value;
    SortCorrect(AddressLe, planned);
    var sorted := Sort(AddressLe, planned);
    var ps := Plan(scope).value;
    assert forall p :: p in ps ==> p.prefix in sorted;
    forall b | b in sorted ensures exists p :: p in ps && p.prefix == b {
      var i :| 0 <= i < |sorted| && sorted[i] == b;
      assert ps[i] in ps && ps[i].prefix == b;
    }
  }

  // THEOREM (order and identity). IPv4 partitions come before IPv6 ones; a partition's key is
  // made of the scope, its revision and the block.
  lemma {:induction false} PlanIdentity(scope: TargetScope)
    requires Plan(scope).Ok?
    ensures var ps := Plan(scope).value;
      && (forall i, j :: 0 <= i < j < |ps| && ps[i].prefix.family == V6 ==> ps[j].prefix.family == V6)
      && (forall i :: 0 <= i < |ps| ==> ps[i].key == Key(scope.scopeID, scope.revision, ps[i].prefix))
  {
    hide PlanBlocks;
    PlanShape(scope);
  }

  // THEOREM (invalid scopes). A scope is rejected for its fields exactly if one is out of range.
  lemma {:induction false} ScopeRejectedExactly(scope: TargetScope)
    ensures Plan(scope) == Err(InvalidScope) <==>
      || |scope.scopeID| == 0 || |scope.scopeID| > 128 || scope.scopeID[0] in "._-"
      || (exists c :: c in scope.scopeID && !('0' <= c <= '9' || 'A' <= c <= 'Z' || 'a' <= c <= 'z' || c == '.' || c == '_' || c == '-'))
      || scope.revision < 1 || scope.revision > 1000000
      || |scope.cidrs| == 0 || |scope.cidrs| > 4096 || |scope.exclusions| > 4096
      || (scope.ipv4PartitionPrefix != 0 && !(8 <= scope.ipv4PartitionPrefix <= 32))
      || (scope.ipv6PartitionPrefix != 0 && !(32 <= scope.ipv6PartitionPrefix <= 128))
      || (scope.maxPartitions != 0 && !(1 <= scope.maxPartitions <= 100000))
  {
    hide ParsePrefixes, PlanBlocks;
    PlanErrors(scope);
    if |scope.scopeID| > 0 { assert scope.scopeID[0] in scope.scopeID; }
  }

  lemma {:induction false} PlanNumbered(scope: TargetScope, sorted: seq<Block>)
    requires forall i, j :: 0 <= i < j < |sorted| && sorted[i].family == sorted[j].family ==>
               sorted[i].addr + Size(sorted[i]) <= sorted[j].addr
    ensures var ps := Number(scope, sorted); forall i, j :: 0 <= i < j < |ps| ==> ps[i].key != ps[j].key
  {
    var ps := Number(scope, sorted);
    forall i, j | 0 <= i < j < |ps| ensures ps[i].key != ps[j].key {
      Pow2Positive(HostBits(sorted[i]));
    }
  }

  ghost predicate SameScope(s: TargetScope, t: TargetScope) {
    && t == s.(cidrs := t.cidrs, exclusions := t.exclusions)
    && (forall c :: c in s.cidrs <==> c in t.cidrs)
    && (forall c :: c in s.exclusions <==> c in t.exclusions)
    && |s.cidrs| <= MAX_SCOPE_CIDRS && |t.cidrs| <= MAX_SCOPE_CIDRS
    && |s.exclusions| <= MAX_SCOPE_CIDRS && |t.exclusions| <= MAX_SCOPE_CIDRS
  }

  lemma {:induction false} ParseSame(s: seq<Cidr>, t: seq<Cidr>)
    requires forall c :: c in s <==> c in t
    ensures ParsePrefixes(s).Ok? <==> ParsePrefixes(t).Ok?
    ensures ParsePrefixes(s).Ok? ==> RemoveCovered(ParsePrefixes(s).value) == RemoveCovered(ParsePrefixes(t).value)
  {
    ParseElements(s);
    ParseElements(t);
    if ParsePrefixes(s).Ok? {
      RemoveCoveredCanonical(ParsePrefixes(s).value, ParsePrefixes(t).value);
    }
  }

  // THEOREM. Permuting or repeating CIDRs and exclusions within the entry limits changes
  // nothing: the same partitions with the same keys, or the same failure.
  lemma {:induction false} PlanCanonical(s: TargetScope, t: TargetScope)
    requires SameScope(s, t)
    ensures Plan(s) == Plan(t)
  {
    hide RemoveCovered, SubtractAll, SplitAll;
    if s.cidrs != [] { assert s.cidrs[0] in t.cidrs; }
    if t.cidrs != [] { assert t.cidrs[0] in s.cidrs; }
    assert Validate(s) == Validate(t);
    ParseSame(s.cidrs, t.cidrs);
    ParseSame(s.exclusions, t.exclusions);
    ParseElements(s.cidrs);
    ParseElements(t.cidrs);
    ParseElements(s.exclusions);
    ParseElements(t.exclusions);
  }

  // THEOREM. The planner fails for exactly three reasons; it never reports an unsplittable
  // host prefix.
  lemma {:induction false} PlanErrors(scope: TargetScope)
    ensures Plan(scope) == Err(InvalidScope) <==> Validate(scope).Err?
    ensures Plan(scope) == Err(InvalidCIDR) <==>
      Validate(scope).Ok? && (Malformed in scope.cidrs || Malformed in scope.exclusions)
    ensures Plan(scope) != Err(CannotSplitHost)
  {
    ParseElements(scope.cidrs);
    ParseElements(scope.exclusions);
    if Validate(scope).Ok? && ParsePrefixes(scope.cidrs).Ok? && ParsePrefixes(scope.exclusions).Ok? {
      var limits := Validate(scope).value;
      var included, excluded := ParsePrefixes(scope.cidrs).value, ParsePrefixes(scope.exclusions).value;
      SubtractAllError(RemoveCovered(included), RemoveCovered(excluded), limits.maximum);
      var allowed := SubtractAll(RemoveCovered(included), RemoveCovered(excluded), limits.maximum);
      if allowed.Ok? { SplitAllBudget(allowed.value, limits, []); }
    }
  }

  // THEOREM (success, exactly). A well-formed scope is planned exactly if the blocks fit the
  // limit while each exclusion is applied, and the parts of what remains fit it together.
  lemma {:induction false} PlanSucceedsExactly(scope: TargetScope)
    requires Validate(scope).Ok? && Malformed !in scope.cidrs && Malformed !in scope.exclusions
    ensures ParsePrefixes(scope.cidrs).Ok? && ParsePrefixes(scope.exclusions).Ok?
    ensures var limits := Validate(scope).value;
      var included := RemoveCovered(ParsePrefixes(scope.cidrs).value);
      var excluded := RemoveCovered(ParsePrefixes(scope.exclusions).value);
      Plan(scope).Ok? <==>
        ExclusionsFit(included, excluded, limits.maximum)
        && TotalParts(RemainingAll(included, excluded), limits) <= limits.maximum
  {
    hide RemoveCovered, SubtractAll, SplitAll, ExclusionsFit, RemainingAll, TotalParts, Sort, Number;
    ParseElements(scope.cidrs);
    ParseElements(scope.exclusions);
    var limits := Validate(scope).value;
    var included := RemoveCovered(ParsePrefixes(scope.cidrs).value);
    var excluded := RemoveCovered(ParsePrefixes(scope.exclusions).value);
    SubtractAllExactly(included, excluded, limits.maximum);
    SplitAllBudget(RemainingAll(included, excluded), limits, []);
  }

  // Without exclusions the outcome is decided by the number of parts alone.
  lemma {:induction false} PlanSucceedsWithoutExclusions(scope: TargetScope)
    requires Validate(scope).Ok? && Malformed !in scope.cidrs && scope.exclusions == []
    ensures ParsePrefixes(scope.cidrs).Ok?
    ensures Plan(scope).Ok? <==>
      TotalParts(RemoveCovered(ParsePrefixes(scope.cidrs).value), Validate(scope).value) <= Validate(scope).value.maximum
  {
    ParseElements(scope.cidrs);
    assert Sort(WideLe, []) == [];
    SplitAllBudget(RemoveCovered(ParsePrefixes(scope.cidrs).value), Validate(scope).value, []);
  }

  // ----- the loops

  method ParseLoop(values: seq<Cidr>) returns (r: Result<seq<Block>, PlanError>)
    ensures r == ParsePrefixes(values)
  {
    var prefixes: seq<Block> := [];
    assert values[0..] == values;
    assert ParsePrefixes(values).Ok? ==> prefixes + ParsePrefixes(values).value == ParsePrefixes(values).value;
    for i := 0 to |values|
      invariant ParsePrefixes(values) ==
        match ParsePrefixes(values[i..])
        case Err(e) => Err(e)
        case Ok(rest) => Ok(prefixes + rest)
    {
      if values[i].Malformed? {
        return Err(InvalidCIDR);
      }
      assert values[i..][1..] == values[i + 1..];
      ghost var rest := ParsePrefixes(values[i + 1..]);
      assert rest.Ok? ==> prefixes + ([MaskedBlock(values[i])] + rest.value) == prefixes + [MaskedBlock(values[i])] + rest.value;
      prefixes := prefixes + [MaskedBlock(values[i])];
    }
    assert prefixes + [] == prefixes;
    r := Ok(prefixes);
  }

  method IsCovered(prefix: Block, result: seq<Block>) returns (covered: bool)
    ensures covered <==> CoveredBy(prefix, result)
  {
    for j := 0 to |result|
      invariant !CoveredBy(prefix, result[..j])
    {
      assert result[..j + 1] == result[..j] + [result[j]];
      if result[j].family == prefix.family && Contains(result[j], Address(prefix.family, prefix.addr)) {
        return true;
      }
    }
    assert result[..|result|] == result;
    return false;
  }

  method RemoveCoveredLoop(prefixes: seq<Block>) returns (result: seq<Block>)
    ensures result == RemoveCovered(prefixes)
    ensures Represents(result, prefixes)
  {
    hide Valid, Represents;
    var sorted := Sort(WideLe, prefixes);
    result := [];
    for i := 0 to |sorted|
      invariant Keep(sorted[i..], result) == Keep(sorted, [])
    {
      var covered := IsCovered(sorted[i], result);
      assert sorted[i..][1..] == sorted[i + 1..];
      if !covered {
        result := result + [sorted[i]];
      }
    }
    RemoveCoveredCorrect(prefixes);
  }

  method SubtractLoop(allowed: seq<Block>, deny: Block, maximum: nat) returns (r: Result<seq<Block>, PlanError>)
    ensures r == SubtractOne(allowed, deny, maximum, [])
  {
    var next: seq<Block> := [];
    for i := 0 to |allowed|
      invariant SubtractOne(allowed[i..], deny, maximum, next) == SubtractOne(allowed, deny, maximum, [])
    {
      var candidate := allowed[i];
      assert allowed[i..][1..] == allowed[i + 1..];
      if candidate.family != deny.family || !Overlaps(candidate, deny) {
        next := next + [candidate];
        continue;
      }
      var parts := SubtractPrefix(candidate, deny, maximum - |next|);
      if parts.Err? {
        return parts;
      }
      if |next + parts.value| > maximum {
        return Err(LimitExceeded);
      }
      next := next + parts.value;
    }
    r := Ok(next);
  }

  method SplitLoop(allowed: seq<Block>, limits: Limits) returns (r: Result<seq<Block>, PlanError>)
    ensures r == SplitAll(allowed, limits, [])
  {
    var planned: seq<Block> := [];
    for i := 0 to |allowed|
      invariant SplitAll(allowed[i..], limits, planned) == SplitAll(allowed, limits, [])
    {
      assert allowed[i..][1..] == allowed[i + 1..];
      var parts := SplitToPrefix(allowed[i], TargetBits(limits, allowed[i].family), limits.maximum - |planned|);
      if parts.Err? {
        return parts;
      }
      planned := planned + parts.value;
      if |planned| > limits.maximum {
        return Err(LimitExceeded);
      }
    }
    r := Ok(planned);
  }

  // The planner as the source runs it, with what callers rely on.
  method PlanTargetPartitions(scope: TargetScope) returns (r: Result<seq<TargetPartition>, PlanError>)
    ensures r == Plan(scope)
    ensures r.Ok? ==> |r.value| <= DEFAULT_MAX_PARTITIONS
    ensures r.Ok? ==> forall a ::
      Count(Blocks(r.value), a) == if Selects(scope.cidrs, a) && !Selects(scope.exclusions, a) then 1 else 0
  {
    var checked := Validate(scope);
    if checked.Err? {
      return Err(checked.error);
    }
    var limits := checked.value;
    var included := ParseLoop(scope.cidrs);
    if included.Err? {
      return Err(included.error);
    }
    var excluded := ParseLoop(scope.exclusions);
    if excluded.Err? {
      return Err(excluded.error);
    }
    var allowed := RemoveCoveredLoop(included.value);
    var denied := RemoveCoveredLoop(excluded.value);
    ghost var start := allowed;
    for i := 0 to |denied|
      invariant SubtractAll(allowed, denied[i..], limits.maximum) == SubtractAll(start, denied, limits.maximum)
    {
      assert denied[i..][1..] == denied[i + 1..];
      var next := SubtractLoop(allowed, denied[i], limits.maximum);
      if next.Err? {
        return Err(next.error);
      }
      allowed := next.value;
    }
    var planned := SplitLoop(allowed, limits);
    if planned.Err? {
      return Err(planned.error);
    }
    r := Ok(Number(scope, Sort(AddressLe, planned.value)));
    PlanShape(scope);
    forall a ensures Count(Blocks(r.value), a) == if Selects(scope.cidrs, a) && !Selects(scope.exclusions, a) then 1 else 0 {
      ExactCover(scope, a);
    }
  }
}
