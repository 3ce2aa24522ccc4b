// CIDR prefixes as aligned blocks of addresses (RFC 4632 section 3.1, RFC 4291 section 2.3).
// An address is a family and a number below 2^32 or 2^128. Netip masks and compares the
// leading bits of addresses; here that is a shift right by the number of host bits.
module Prefixes {
  import opened Wrappers

  datatype Family = V4 | V6
  datatype Address = Address(family: Family, value: nat)
  datatype Prefix = Prefix(family: Family, addr: nat, bits: nat)

  function Shr(x: nat, n: nat): nat {
    if n == 0 then x else Shr(x / 2, n - 1)
  }

  function Shl(x: nat, n: nat): nat {
    if n == 0 then x else 2 * Shl(x, n - 1)
  }

  function Pow2(n: nat): nat {
    Shl(1, n)
  }

  function Width(family: Family): nat {
    if family == V4 then 32 else 128
  }

  function HostBits(p: Prefix): nat
    requires p.bits <= Width(p.family)
  {
    Width(p.family) - p.bits
  }

  function Size(p: Prefix): nat
    requires p.bits <= Width(p.family)
  {
    Pow2(HostBits(p))
  }

  // A masked prefix of an address of its family.
  predicate Valid(p: Prefix) {
    && p.bits <= Width(p.family)
    && Shl(Shr(p.addr, HostBits(p)), HostBits(p)) == p.addr
    && p.addr + Size(p) <= Pow2(Width(p.family))
  }

  lemma {:induction false} ShiftZero(n: nat)
    ensures Shr(0, n) == 0 && Shl(0, n) == 0
  {
    if n > 0 { ShiftZero(n - 1); }
  }

  // The /0 prefix of a family.
  function Everything(family: Family): (p: Prefix)
    ensures Valid(p) && forall a: Address :: a.family == family && a.value < Pow2(Width(family)) ==> Contains(p, a)
  {
    var p := Prefix(family, 0, 0);
    ShiftZero(Width(family));
    assert forall a: Address :: a.family == family && a.value < Pow2(Width(family)) ==> Contains(p, a) by {
      forall a: Address | a.family == family && a.value < Pow2(Width(family)) ensures Contains(p, a) {
        ShrRange(a.value, Width(family), 0);
      }
    }
    p
  }

  type Block = p: Prefix | Valid(p) witness Everything(V4)

  // netip.Prefix.Contains: the first p.bits bits agree.
  predicate Contains(p: Prefix, a: Address)
    requires p.bits <= Width(p.family)
  {
    p.family == a.family && Shr(a.value, HostBits(p)) == Shr(p.addr, HostBits(p))
  }

  // netip.Prefix.Overlaps: the bits of the shorter prefix agree.
  predicate Overlaps(p: Prefix, q: Prefix)
    requires p.bits <= Width(p.family) && q.bits <= Width(q.family)
  {
    && p.family == q.family
    && var host := if p.bits < q.bits then HostBits(p) else HostBits(q);
       Shr(p.addr, host) == Shr(q.addr, host)
  }

  // netip.Prefix.Masked: clear the host bits.
  function Masked(p: Prefix): Prefix
    requires p.bits <= Width(p.family)
  {
    p.(addr := Shl(Shr(p.addr, HostBits(p)), HostBits(p)))
  }

  datatype PlanError = CannotSplitHost | LimitExceeded | InvalidScope | InvalidCIDR

  // The upper half of the block sets the first host bit, which is clear in a masked prefix.
  function SplitPrefix(prefix: Prefix): Result<(Prefix, Prefix), PlanError>
    requires prefix.bits <= Width(prefix.family)
  {
    var p := Masked(prefix);
    if p.bits >= Width(p.family) then Err(CannotSplitHost)
    else
      var half := Pow2(HostBits(p) - 1);
      Ok((Prefix(p.family, p.addr, p.bits + 1), Prefix(p.family, p.addr + half, p.bits + 1)))
  }

  // ----- shifts

  lemma {:induction false} ShlAdd(x: nat, y: nat, n: nat)
    ensures Shl(x + y, n) == Shl(x, n) + Shl(y, n)
  {
    if n > 0 { ShlAdd(x, y, n - 1); }
  }

  lemma {:induction false} ShlDouble(x: nat, n: nat)
    ensures Shl(x, n + 1) == Shl(x, n) + Shl(x, n)
  {
  }

  lemma {:induction false} ShlMonotone(x: nat, y: nat, n: nat)
    requires x <= y
    ensures Shl(x, n) <= Shl(y, n)
  {
    if n > 0 { ShlMonotone(x, y, n - 1); }
  }

  lemma {:induction false} ShlShl(x: nat, m: nat, n: nat)
    ensures Shl(Shl(x, m), n) == Shl(x, m + n)
  {
    if n > 0 { ShlShl(x, m, n - 1); }
  }

  lemma {:induction false} Pow2Positive(n: nat)
    ensures Pow2(n) >= 1
    ensures n > 0 ==> Pow2(n) == 2 * Pow2(n - 1)
  {
    if n > 0 { Pow2Positive(n - 1); }
  }

  // The numbers with leading part k are those of the k-th block of 2^n.
  lemma {:induction false} ShrRange(x: nat, n: nat, k: nat)
    ensures Shr(x, n) == k <==> Shl(k, n) <= x < Shl(k, n) + Pow2(n)
  {
    if n > 0 { ShrRange(x / 2, n - 1, k); }
  }

  lemma {:induction false} BlocksApart(i: nat, k: nat, n: nat)
    requires i < k
    ensures Shl(i, n) + Pow2(n) <= Shl(k, n)
  {
    ShlAdd(i, 1, n);
    ShlMonotone(i + 1, k, n);
  }

  // ----- blocks

  // A masked prefix contains exactly the addresses of its block.
  lemma {:induction false} ContainsRange(p: Prefix, a: Address)
    requires Valid(p)
    ensures Contains(p, a) <==> p.family == a.family && p.addr <= a.value < p.addr + Size(p)
  {
    ShrRange(a.value, HostBits(p), Shr(p.addr, HostBits(p)));
  }

  // A short block of 2^n inside the i-th block of 2^(d+n) ends inside it.
  lemma {:induction false} InsideBlock(i: nat, j: nat, d: nat, n: nat)
    requires Shl(i, d + n) <= Shl(j, n) < Shl(i, d + n) + Pow2(d + n)
    ensures Shl(j, n) + Pow2(n) <= Shl(i, d + n) + Pow2(d + n)
  {
    ShlShl(i, d, n);
    ShlShl(1, d, n);
    ShlAdd(Shl(i, d), Pow2(d), n);
    var stop := Shl(i, d) + Pow2(d);
    if j >= stop {
      ShlMonotone(stop, j, n);
    } else {
      BlocksApart(j, stop, n);
    }
  }

  // Two blocks are nested or disjoint, and overlapping means the longer prefix is nested.
  lemma {:induction false} NestedOrDisjoint(p: Prefix, q: Prefix)
    requires Valid(p) && Valid(q) && p.family == q.family && p.bits <= q.bits
    ensures Overlaps(p, q) ==> p.addr <= q.addr && q.addr + Size(q) <= p.addr + Size(p)
    ensures !Overlaps(p, q) ==> q.addr + Size(q) <= p.addr || p.addr + Size(p) <= q.addr
  {
    var n, m := HostBits(q), HostBits(p);
    var i, j, k := Shr(p.addr, m), Shr(q.addr, n), Shr(q.addr, m);
    ShrRange(q.addr, m, k);
    InsideBlock(k, j, m - n, n);
    if i < k {
      BlocksApart(i, k, m);
    } else if k < i {
      BlocksApart(k, i, m);
    }
  }

  // Overlapping means sharing an address.
  lemma {:induction false} OverlapsIffShared(p: Prefix, q: Prefix)
    requires Valid(p) && Valid(q)
    ensures Overlaps(p, q) <==> exists a :: Contains(p, a) && Contains(q, a)
    ensures Overlaps(p, q) <==> Overlaps(q, p)
  {
    if p.family == q.family {
      if p.bits <= q.bits { NestedOrDisjoint(p, q); } else { NestedOrDisjoint(q, p); }
      forall a ensures (Contains(p, a) <==> p.family == a.family && p.addr <= a.value < p.addr + Size(p))
                    && (Contains(q, a) <==> q.family == a.family && q.addr <= a.value < q.addr + Size(q)) {
        ContainsRange(p, a);
        ContainsRange(q, a);
      }
      Pow2Positive(HostBits(p));
      Pow2Positive(HostBits(q));
      var a := Address(p.family, if p.bits <= q.bits then q.addr else p.addr);
      assert Overlaps(p, q) ==> Contains(p, a) && Contains(q, a);
    }
  }

  // Of two overlapping prefixes the longer lies inside the shorter.
  lemma {:induction false} OverlapsNested(p: Prefix, q: Prefix, a: Address)
    requires Valid(p) && Valid(q) && Overlaps(p, q) && p.bits <= q.bits && Contains(q, a)
    ensures Contains(p, a)
  {
    NestedOrDisjoint(p, q);
    ContainsRange(p, a);
    ContainsRange(q, a);
  }

  // Masking gives the block of its length around the address.
  lemma {:induction false} MaskedCorrect(p: Prefix, a: Address)
    requires p.bits <= Width(p.family) && p.addr < Pow2(Width(p.family))
    ensures Valid(Masked(p))
    ensures Contains(Masked(p), a) <==> Contains(p, a)
  {
    var n, w := HostBits(p), Width(p.family);
    var k := Shr(p.addr, n);
    ShrRange(p.addr, n, k);
    Pow2Positive(n);
    ShrRange(Shl(k, n), n, k);
    ShlShl(1, p.bits, n);
    assert p.bits + n == w;
    if k >= Pow2(p.bits) {
      ShlMonotone(Pow2(p.bits), k, n);
    } else {
      BlocksApart(k, Pow2(p.bits), n);
    }
  }

  // The two halves of a block are blocks, side by side.
  lemma {:induction false} SplitPrefixHalves(p: Prefix)
    requires Valid(p)
    ensures SplitPrefix(p).Err? <==> p.bits == Width(p.family)
    ensures SplitPrefix(p).Ok? ==>
      var (l, r) := SplitPrefix(p).value;
      && Valid(l) && Valid(r) && l.family == r.family == p.family && l.bits == r.bits == p.bits + 1
      && l.addr == p.addr && l.addr + Size(l) == r.addr && r.addr + Size(r) == p.addr + Size(p)
  {
    hide Shr, Shl;
    if p.bits < Width(p.family) {
      var n := HostBits(p) - 1;
      var k := Shr(p.addr, n + 1);
      assert p.addr == Shl(k, n + 1);
      ShlDouble(k, n);
      ShlAdd(k, k, n);
      assert p.addr == Shl(2 * k, n);
      ShlAdd(2 * k, 1, n);
      Pow2Positive(n);
      Pow2Positive(n + 1);
      ShrRange(Shl(2 * k, n), n, 2 * k);
      ShrRange(Shl(2 * k + 1, n), n, 2 * k + 1);
    }
  }

  // Splitting divides the addresses of a block between its halves.
  lemma {:induction false} SplitPrefixContains(p: Prefix, a: Address)
    requires Valid(p) && p.bits < Width(p.family)
    ensures var (l, r) := SplitPrefix(p).value;
      (Contains(p, a) <==> Contains(l, a) || Contains(r, a)) && !(Contains(l, a) && Contains(r, a))
  {
    SplitPrefixHalves(p);
    var (l, r) := SplitPrefix(p).value;
    ContainsRange(p, a);
    ContainsRange(l, a);
    ContainsRange(r, a);
  }
}
