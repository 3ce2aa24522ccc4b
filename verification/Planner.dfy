// The target partition planner (internal/worker/partition.go).
//
// The planner is specified by how many planned partitions hold each address: exactly one
// if the scope selects the address, none otherwise. That count is additive over
// concatenation and blind to order, so it survives every loop, split and sort.
module Planner {
  import opened Wrappers
  import opened Prefixes
  import opened Sorting

  const DEFAULT_IPV4_PARTITION_PREFIX := 24
  const DEFAULT_IPV6_PARTITION_PREFIX := 64
  const DEFAULT_MAX_PARTITIONS := 100000
  const MAX_SCOPE_CIDRS := 4096

  // A CIDR string as netip.ParsePrefix reads it; zoned and malformed text is Malformed.
  datatype CidrText = Malformed | Parsed(prefix: Prefix)
  type Cidr = c: CidrText | c.Parsed? ==> c.prefix.bits <= Width(c.prefix.family) && c.prefix.addr < Pow2(Width(c.prefix.family))
    witness Malformed

  datatype TargetScope = TargetScope(
    scopeID: string, revision: int, cidrs: seq<Cidr>, exclusions: seq<Cidr>,
    ipv4PartitionPrefix: int, ipv6PartitionPrefix: int, maxPartitions: int)

  // The key is a hash of the scope, its revision and the canonical prefix; it stands for them.
  datatype Key = Key(scopeID: string, revision: int, prefix: Prefix)
  datatype TargetPartition = TargetPartition(key: Key, ordinal: nat, count: nat, prefix: Block)

  datatype Limits = Limits(v4: nat, v6: nat, maximum: nat)

  predicate AlphaNumeric(c: char) {
    'A' <= c <= 'Z' || 'a' <= c <= 'z' || '0' <= c <= '9'
  }

  predicate SafeID(s: string) {
    && 1 <= |s| <= 128 && AlphaNumeric(s[0])
    && forall c :: c in s ==> AlphaNumeric(c) || c in "._-"
  }

  function OrDefault(value: int, default: int): int {
    if value == 0 then default else value
  }

  function Validate(scope: TargetScope): (r: Result<Limits, PlanError>)
    ensures r.Ok? ==> r.value.v4 <= 32 && r.value.v6 <= 128 && 1 <= r.value.maximum <= DEFAULT_MAX_PARTITIONS
    ensures r.Ok? ==> 1 <= |scope.cidrs| <= MAX_SCOPE_CIDRS && |scope.exclusions| <= MAX_SCOPE_CIDRS
  {
    var v4 := OrDefault(scope.ipv4PartitionPrefix, DEFAULT_IPV4_PARTITION_PREFIX);
    var v6 := OrDefault(scope.ipv6PartitionPrefix, DEFAULT_IPV6_PARTITION_PREFIX);
    var maximum := OrDefault(scope.maxPartitions, DEFAULT_MAX_PARTITIONS);
    if || !SafeID(scope.scopeID)
       || !(1 <= scope.revision <= 1000000)
       || !(1 <= |scope.cidrs| <= MAX_SCOPE_CIDRS && |scope.exclusions| <= MAX_SCOPE_CIDRS)
       || !(8 <= v4 <= 32 && 32 <= v6 <= 128)
       || !(1 <= maximum <= DEFAULT_MAX_PARTITIONS)
    then Err(InvalidScope)
    else Ok(Limits(v4, v6, maximum))
  }

  // ----- how many blocks of a list hold an address

  function Hits(p: Block, a: Address): nat {
    if Contains(p, a) then 1 else 0
  }

  function Count(ps: seq<Block>, a: Address): nat {
    if ps == [] then 0 else Hits(ps[0], a) + Count(ps[1..], a)
  }

  lemma {:induction false} CountConcat(ps: seq<Block>, qs: seq<Block>, a: Address)
    ensures Count(ps + qs, a) == Count(ps, a) + Count(qs, a)
  {
    if ps == [] {
      assert ps + qs == qs;
    } else {
      CountConcat(ps[1..], qs, a);
      assert (ps + qs)[1..] == ps[1..] + qs;
    }
  }

  lemma {:induction false} CountPositive(ps: seq<Block>, a: Address)
    ensures Count(ps, a) > 0 <==> exists p :: p in ps && Contains(p, a)
  {
    if ps != [] {
      CountPositive(ps[1..], a);
      assert ps == [ps[0]] + ps[1..];
    }
  }

  lemma {:induction false} CountPair(ps: seq<Block>, i: nat, j: nat, a: Address)
    requires i < j < |ps| && Contains(ps[i], a) && Contains(ps[j], a)
    ensures Count(ps, a) >= 2
  {
    if i > 0 {
      CountPair(ps[1..], i - 1, j - 1, a);
    } else {
      CountPositive(ps[1..], a);
      assert ps[1..][j - 1] == ps[j];
    }
  }

  lemma {:induction false} CountInsert(le: (Block, Block) -> bool, p: Block, ps: seq<Block>, a: Address)
    ensures Count(Insert(le, p, ps), a) == Hits(p, a) + Count(ps, a)
  {
    if ps == [] || le(p, ps[0]) {
      assert ([p] + ps)[1..] == ps;
    } else {
      CountInsert(le, p, ps[1..], a);
      assert ([ps[0]] + Insert(le, p, ps[1..]))[1..] == Insert(le, p, ps[1..]);
    }
  }

  lemma {:induction false} CountSort(le: (Block, Block) -> bool, ps: seq<Block>, a: Address)
    ensures Count(Sort(le, ps), a) == Count(ps, a)
  {
    if ps != [] {
      CountSort(le, ps[1..], a);
      CountInsert(le, ps[0], Sort(le, ps[1..]), a);
    }
  }

  // No address is held twice exactly when the blocks are pairwise disjoint.
  ghost predicate Disjoint(ps: seq<Block>) {
    forall i, j :: 0 <= i < j < |ps| ==> !Overlaps(ps[i], ps[j])
  }

  lemma {:induction false} DisjointCount(ps: seq<Block>, a: Address)
    requires Disjoint(ps)
    ensures Count(ps, a) <= 1
  {
    if ps != [] {
      DisjointCount(ps[1..], a);
      CountPositive(ps[1..], a);
      if Contains(ps[0], a) && Count(ps[1..], a) > 0 {
        var q :| q in ps[1..] && Contains(q, a);
        var j :| 0 <= j < |ps[1..]| && ps[1..][j] == q;
        assert ps[j + 1] == q && !Overlaps(ps[0], q);
        OverlapsIffShared(ps[0], q);
      }
    }
  }

  lemma {:induction false} CountDisjoint(ps: seq<Block>)
    requires forall a :: Count(ps, a) <= 1
    ensures Disjoint(ps)
  {
    forall i, j | 0 <= i < j < |ps| ensures !Overlaps(ps[i], ps[j]) {
      if Overlaps(ps[i], ps[j]) {
        OverlapsIffShared(ps[i], ps[j]);
        var a :| Contains(ps[i], a) && Contains(ps[j], a);
        CountPair(ps, i, j, a);
      }
    }
  }

  // ----- subtracting one exclusion from one block

  function SubtractPrefix(base: Block, deny: Block, budget: int): Result<seq<Block>, PlanError>
    decreases Width(base.family) - base.bits
  {
    if budget < 0 then Err(LimitExceeded)
    else if !Overlaps(base, deny) then Ok([base])
    else if deny.bits <= base.bits && Contains(deny, Address(base.family, base.addr)) then Ok([])
    else
      SplitPrefixHalves(base);
      match SplitPrefix(base)
      case Err(e) => Err(e)
      case Ok((left, right)) =>
        match SubtractPrefix(left, deny, budget)
        case Err(e) => Err(e)
        case Ok(leftParts) =>
          match SubtractPrefix(right, deny, budget - |leftParts|)
          case Err(e) => Err(e)
          case Ok(rightParts) => Ok(leftParts + rightParts)
  }

  predicate Inside(inner: Prefix, outer: Prefix)
    requires inner.bits <= Width(inner.family) && outer.bits <= Width(outer.family)
  {
    && inner.family == outer.family && outer.addr <= inner.addr
    && inner.addr + Size(inner) <= outer.addr + Size(outer)
  }

  // The guard of the second branch is exactly "the exclusion swallows the block".
  lemma {:induction false} Swallows(base: Block, deny: Block)
    requires Overlaps(base, deny)
    ensures deny.bits <= base.bits <==> deny.bits <= base.bits && Contains(deny, Address(base.family, base.addr))
    ensures deny.bits <= base.bits ==> Inside(base, deny)
    ensures base.bits <= deny.bits ==> Inside(deny, base)
  {
    hide Shr, Shl, Pow2, Valid;
    OverlapsIffShared(base, deny);
    if deny.bits <= base.bits {
      NestedOrDisjoint(deny, base);
      ContainsRange(deny, Address(base.family, base.addr));
      Pow2Positive(HostBits(base));
    } else {
      NestedOrDisjoint(base, deny);
    }
  }

  // A strictly nested exclusion meets exactly one half; the last one iff it reaches the right half.
  lemma {:induction false} OneHalf(base: Block, deny: Block)
    requires Overlaps(base, deny) && base.bits < deny.bits
    ensures SplitPrefix(base).Ok?
    ensures var (l, r) := SplitPrefix(base).value;
      && Valid(l) && Valid(r) && l.bits == r.bits == base.bits + 1 && l.family == r.family == base.family
      && Overlaps(l, deny) == !Overlaps(r, deny)
      && (Overlaps(l, deny) ==> !ReachesEnd(base, deny))
      && (Overlaps(r, deny) ==> (ReachesEnd(base, deny) <==> ReachesEnd(r, deny)))
  {
    SplitPrefixHalves(base);
    var (l, r) := SplitPrefix(base).value;
    Swallows(base, deny);
    NestedOrDisjoint(l, deny);
    NestedOrDisjoint(r, deny);
    Pow2Positive(HostBits(deny));
    Pow2Positive(HostBits(r));
  }

  predicate ReachesEnd(base: Block, deny: Block) {
    deny.addr + Size(deny) == base.addr + Size(base)
  }

  // What subtraction of a strictly nested exclusion needs of its budget. It may exceed the
  // budget by one unless the exclusion is the last sub-block.
  function SubtractNeeds(base: Block, deny: Block): int {
    if !Overlaps(base, deny) || deny.bits <= base.bits then 0
    else deny.bits - base.bits - (if ReachesEnd(base, deny) then 0 else 1)
  }

  function SubtractParts(base: Block, deny: Block): nat {
    if !Overlaps(base, deny) then 1
    else if deny.bits <= base.bits then 0
    else deny.bits - base.bits
  }

  // Subtraction succeeds exactly when the budget suffices, and returns one block for each
  // bit by which the exclusion is longer. SplitPrefix never fails.
  lemma {:induction false} SubtractBudget(base: Block, deny: Block, budget: int)
    ensures SubtractPrefix(base, deny, budget).Ok? <==> budget >= SubtractNeeds(base, deny)
    ensures SubtractPrefix(base, deny, budget).Ok? ==>
      var n := |SubtractPrefix(base, deny, budget).value|;
      n == SubtractParts(base, deny) && (Overlaps(base, deny) ==> n <= budget + 1)
    ensures SubtractPrefix(base, deny, budget).Err? ==> SubtractPrefix(base, deny, budget).error == LimitExceeded
    decreases Width(base.family) - base.bits
  {
    if budget >= 0 && Overlaps(base, deny) {
      Swallows(base, deny);
      if base.bits < deny.bits {
        OneHalf(base, deny);
        var (left, right) := SplitPrefix(base).value;
        SubtractBudget(left, deny, budget);
        if SubtractPrefix(left, deny, budget).Ok? {
          SubtractBudget(right, deny, budget - |SubtractPrefix(left, deny, budget).value|);
        }
      }
    }
  }

  // Subtraction with no budget at all.
  function Outside(base: Block, deny: Block): seq<Block>
    decreases Width(base.family) - base.bits
  {
    if !Overlaps(base, deny) then [base]
    else if deny.bits <= base.bits then []
    else
      OneHalf(base, deny);
      var (left, right) := SplitPrefix(base).value;
      Outside(left, deny) + Outside(right, deny)
  }

  // The budget decides whether subtraction succeeds, never what it gives.
  lemma {:induction false} SubtractOutside(base: Block, deny: Block, budget: int)
    requires SubtractPrefix(base, deny, budget).Ok?
    ensures SubtractPrefix(base, deny, budget).value == Outside(base, deny)
    decreases Width(base.family) - base.bits
  {
    if Overlaps(base, deny) {
      Swallows(base, deny);
      if base.bits < deny.bits {
        OneHalf(base, deny);
        var (left, right) := SplitPrefix(base).value;
        SubtractOutside(left, deny, budget);
        SubtractOutside(right, deny, budget - |SubtractPrefix(left, deny, budget).value|);
      }
    }
  }

  // The parts hold exactly the addresses of the block outside the exclusion, each once.
  lemma {:induction false} SubtractCover(base: Block, deny: Block, budget: int, a: Address)
    requires SubtractPrefix(base, deny, budget).Ok?
    ensures Count(SubtractPrefix(base, deny, budget).value, a) == if Contains(deny, a) then 0 else Hits(base, a)
    decreases Width(base.family) - base.bits
  {
    OverlapsIffShared(base, deny);
    if Overlaps(base, deny) {
      Swallows(base, deny);
      if deny.bits <= base.bits {
        if Contains(base, a) { OverlapsNested(deny, base, a); }
      } else {
        SplitPrefixHalves(base);
        var (left, right) := SplitPrefix(base).value;
        var leftParts := SubtractPrefix(left, deny, budget).value;
        var rightParts := SubtractPrefix(right, deny, budget - |leftParts|).value;
        SubtractCover(left, deny, budget, a);
        SubtractCover(right, deny, budget - |leftParts|, a);
        CountConcat(leftParts, rightParts, a);
        SplitPrefixContains(base, a);
      }
    }
  }

  // ----- splitting a block to the target length

  function SplitToPrefix(p: Block, targetBits: nat, budget: int): Result<seq<Block>, PlanError>
    decreases Width(p.family) - p.bits
  {
    if budget < 1 then Err(LimitExceeded)
    else if p.bits >= targetBits then Ok([p])
    else
      SplitPrefixHalves(p);
      match SplitPrefix(p)
      case Err(e) => Err(e)
      case Ok((left, right)) =>
        match SplitToPrefix(left, targetBits, budget)
        case Err(e) => Err(e)
        case Ok(leftParts) =>
          match SplitToPrefix(right, targetBits, budget - |leftParts|)
          case Err(e) => Err(e)
          case Ok(rightParts) => Ok(leftParts + rightParts)
  }

  function SplitParts(p: Block, targetBits: nat): nat {
    if p.bits >= targetBits then 1 else Pow2(targetBits - p.bits)
  }

  // Splitting succeeds exactly when 2^(targetBits - bits) blocks fit the budget.
  lemma {:induction false} SplitBudget(p: Block, targetBits: nat, budget: int)
    requires targetBits <= Width(p.family)
    ensures SplitToPrefix(p, targetBits, budget).Ok? <==> SplitParts(p, targetBits) <= budget
    ensures SplitToPrefix(p, targetBits, budget).Ok? ==>
      |SplitToPrefix(p, targetBits, budget).value| == SplitParts(p, targetBits)
    ensures SplitToPrefix(p, targetBits, budget).Err? ==> SplitToPrefix(p, targetBits, budget).error == LimitExceeded
    decreases Width(p.family) - p.bits
  {
    hide SplitPrefix, Valid, Size;
    if p.bits < targetBits {
      Pow2Positive(targetBits - p.bits);
      Pow2Positive(targetBits - p.bits - 1);
      if budget >= 1 {
        SplitPrefixHalves(p);
        var (left, right) := SplitPrefix(p).value;
        SplitBudget(left, targetBits, budget);
        if SplitToPrefix(left, targetBits, budget).Ok? {
          SplitBudget(right, targetBits, budget - |SplitToPrefix(left, targetBits, budget).value|);
        }
      }
    }
  }

  // No part is wider than the target.
  // A block that is narrow enough stays whole; every part of a wider one has the target length.
  lemma {:induction false} SplitWidths(p: Block, targetBits: nat, budget: int)
    requires SplitToPrefix(p, targetBits, budget).Ok?
    ensures p.bits >= targetBits ==> SplitToPrefix(p, targetBits, budget).value == [p]
    ensures p.bits < targetBits ==>
      forall q :: q in SplitToPrefix(p, targetBits, budget).value ==> q.family == p.family && q.bits == targetBits
    decreases Width(p.family) - p.bits
  {
    hide SplitPrefix, Valid;
    if p.bits < targetBits {
      SplitPrefixHalves(p);
      var (left, right) := SplitPrefix(p).value;
      var leftParts := SplitToPrefix(left, targetBits, budget).value;
      SplitWidths(left, targetBits, budget);
      SplitWidths(right, targetBits, budget - |leftParts|);
    }
  }

  lemma {:induction false} SplitNarrow(p: Block, targetBits: nat, budget: int)
    requires SplitToPrefix(p, targetBits, budget).Ok?
    ensures forall q :: q in SplitToPrefix(p, targetBits, budget).value ==> q.family == p.family && q.bits >= targetBits
    decreases Width(p.family) - p.bits
  {
    if p.bits < targetBits {
      SplitPrefixHalves(p);
      var (left, right) := SplitPrefix(p).value;
      var leftParts := SplitToPrefix(left, targetBits, budget).value;
      SplitNarrow(left, targetBits, budget);
      SplitNarrow(right, targetBits, budget - |leftParts|);
    }
  }

  lemma {:induction false} SplitCover(p: Block, targetBits: nat, budget: int, a: Address)
    requires SplitToPrefix(p, targetBits, budget).Ok?
    ensures Count(SplitToPrefix(p, targetBits, budget).value, a) == Hits(p, a)
    decreases Width(p.family) - p.bits
  {
    if p.bits < targetBits {
      SplitPrefixHalves(p);
      var (left, right) := SplitPrefix(p).value;
      var leftParts := SplitToPrefix(left, targetBits, budget).value;
      var rightParts := SplitToPrefix(right, targetBits, budget - |leftParts|).value;
      SplitCover(left, targetBits, budget, a);
      SplitCover(right, targetBits, budget - |leftParts|, a);
      CountConcat(leftParts, rightParts, a);
      SplitPrefixContains(p, a);
    }
  }
}
