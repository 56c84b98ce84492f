/**
 Subnets of the VPN instances: src/utils/netmask.ts, the mask rule of src/utils/config.ts, the
 lookup of src/vpn-worker.ts and the addresses passed to OpenVPN in src/utils/openvpn.ts.

 Addresses are numbers below 2^32 in the sense of section 3.1 of RFC 4632; clearing the host bits
 is rounding down to a multiple of the block size, and turning a number into an address keeps its
 low 32 bits.
 */
module Subnets {
  import opened Sequences

  const SPACE: int := 0x1_0000_0000

  function Pow2(n: nat): (p: nat)
    ensures p >= 1
  {
    if n == 0 then 1 else 2 * Pow2(n - 1)
  }

  datatype Net = Net(base: nat, mask: nat)

  datatype Result<+T> = Ok(value: T) | Err(error: Error)
  datatype Error = MaskTooSmall(mask: nat) | CannotSplit(from: nat, into: nat)

  type Mask = m: nat | m <= 32 witness 0

  /** The number of addresses in a /mask block. */
  function Size(mask: Mask): (n: nat)
    ensures n >= 1 && (mask <= 29 ==> n >= 8)
  {
    assert mask <= 29 ==> Pow2(32 - mask) >= Pow2(3) by {
      if mask <= 29 { Pow2Monotone(3, 32 - mask); }
    }
    Pow2(32 - mask)
  }

  /** The host bits: the remainder of `x` by the block size (see OffsetIsRemainder). */
  function Offset(x: nat, size: nat): (r: nat)
    requires size >= 1
    ensures r < size && r <= x
  {
    if x < size then x else Offset(x - size, size)
  }

  /** The address with its host bits cleared. */
  function RoundDown(x: nat, size: nat): (r: nat)
    requires size >= 1
  {
    x - Offset(x, size)
  }

  /** `long2ip` keeps 32 bits. */
  function Wrap(x: nat): (a: nat) {
    Offset(x, SPACE)
  }

  /** The constructor: three usable addresses are required. */
  function MakeNet(ip: nat, mask: nat): (r: Result<Net>) {
    if mask > 29 then Err(MaskTooSmall(mask)) else Ok(Net(RoundDown(ip, Size(mask)), mask))
  }

  /** A value the constructor makes from an address. */
  predicate WellFormed(n: Net) {
    n.mask <= 29 && n.base < SPACE && Offset(n.base, Size(n.mask)) == 0
  }

  function First(n: Net): (a: nat) {
    Wrap(n.base + 1)
  }

  function Second(n: Net): (a: nat) {
    Wrap(First(n) + 1)
  }

  function Third(n: Net): (a: nat) {
    Wrap(First(n) + 2)
  }

  function LastUsable(n: Net): (a: nat)
    requires n.mask <= 29
  {
    Wrap(n.base + Size(n.mask) - 2)
  }

  function Broadcast(n: Net): (a: nat)
    requires n.mask <= 29
  {
    Wrap(n.base + Size(n.mask) - 1)
  }

  predicate ContainsIp(n: Net, ip: nat)
    requires n.mask <= 29
  {
    RoundDown(ip, Size(n.mask)) == n.base
  }

  /** `contains` of another block: its base and its broadcast address. */
  predicate Contains(n: Net, inner: Net)
    requires n.mask <= 29 && inner.mask <= 29
  {
    ContainsIp(n, inner.base) && ContainsIp(n, Broadcast(inner))
  }

  /** `next()` */
  function Next(n: Net): (r: Net)
    requires n.mask <= 29
  {
    Net(RoundDown(Wrap(n.base + Size(n.mask)), Size(n.mask)), n.mask)
  }

  // ---------------------------------------------------------------------------------------
  // Arithmetic
  // ---------------------------------------------------------------------------------------

  lemma {:induction false} Pow2Add(a: nat, b: nat)
    ensures Pow2(a + b) == Pow2(a) * Pow2(b)
  {
    if a > 0 {
      Pow2Add(a - 1, b);
      assert 2 * (Pow2(a - 1) * Pow2(b)) == (2 * Pow2(a - 1)) * Pow2(b);
    }
  }

  lemma {:induction false} Pow2Monotone(a: nat, b: nat)
    requires a <= b
    ensures Pow2(a) <= Pow2(b)
  {
    if a < b { Pow2Monotone(a, b - 1); }
  }

  lemma Pow2Of32()
    ensures Pow2(32) == SPACE
  {
    assert Pow2(8) == 256;
    Pow2Add(8, 8);
    Pow2Add(16, 16);
  }

  /** A /m block divides a /p block for p <= m: 2^(m-p) of them fit. */
  lemma SizeDivides(p: Mask, m: Mask)
    requires p <= m
    ensures Size(p) == Pow2(m - p) * Size(m)
  {
    Pow2Add(m - p, 32 - m);
  }

  lemma SizeInSpace(m: Mask)
    ensures SPACE == Pow2(m) * Size(m)
    ensures m >= 1 ==> Size(m) < SPACE
  {
    Pow2Of32();
    Pow2Add(m, 32 - m);
    if m >= 1 { Pow2Monotone(32 - m, 31); }
  }

  lemma {:induction false} OffsetIsRemainder(x: nat, size: nat)
    requires size >= 1
    ensures Offset(x, size) == x % size
  {
    if x >= size {
      OffsetIsRemainder(x - size, size);
      var q, r := (x - size) / size, (x - size) % size;
      assert x == (q + 1) * size + r;
      RemainderUnique(x, size, q + 1, r);
    }
  }

  lemma RemainderUnique(x: nat, d: nat, q: nat, r: nat)
    requires r < d && x == q * d + r
    ensures x % d == r
  {
    var q', r' := x / d, x % d;
    assert x == q' * d + r' && 0 <= r' < d;
    MultiplesApart(q, q', d);
    MultiplesApart(q', q, d);
  }

  lemma {:induction false} MultiplesApart(a: nat, b: nat, d: nat)
    ensures a < b ==> a * d + d <= b * d
    decreases b
  {
    if a < b {
      TimesStep(b, d);
      MultiplesApart(a, b - 1, d);
    }
  }

  lemma TimesStep(k: nat, s: nat)
    requires k >= 1
    ensures (k - 1) * s + s == k * s
  {
  }

  lemma {:induction false} OffsetAdd(x: nat, size: nat, r: nat)
    requires r < size && Offset(x, size) == 0
    ensures Offset(x + r, size) == r
  {
    if x >= size { OffsetAdd(x - size, size, r); }
  }

  lemma {:induction false} AlignedGap(x: nat, y: nat, size: nat)
    requires size >= 1 && Offset(x, size) == 0 && Offset(y, size) == 0 && x < y
    ensures x + size <= y
  {
    if x >= size { AlignedGap(x - size, y - size, size); }
  }

  lemma {:induction false} AlignedHalf(x: nat, size: nat)
    requires size >= 1 && Offset(x, 2 * size) == 0
    ensures Offset(x, size) == 0
    decreases x
  {
    if x > 0 {
      AlignedHalf(x - 2 * size, size);
      assert Offset(x - size, size) == Offset(x - size - size, size);
    }
  }

  lemma {:induction false} AlignedRefine(x: nat, p: Mask, m: Mask)
    requires p <= m && Offset(x, Size(p)) == 0
    ensures Offset(x, Size(m)) == 0
    decreases m - p
  {
    if p < m {
      assert Size(p) == 2 * Size(p + 1);
      AlignedHalf(x, Size(p + 1));
      AlignedRefine(x, p + 1, m);
    }
  }

  /** A block ends within the address space. */
  lemma BlockFits(n: Net)
    requires WellFormed(n)
    ensures n.base + Size(n.mask) <= SPACE
  {
    Pow2Of32();
    assert Offset(SPACE - SPACE, SPACE) == 0;
    assert Offset(SPACE, Size(0)) == 0;
    AlignedRefine(SPACE, 0, n.mask);
    AlignedGap(n.base, SPACE, Size(n.mask));
  }

  /** Within a block, `contains` is membership in [base, base + size). */
  lemma ContainsIpIff(n: Net, ip: nat)
    requires WellFormed(n)
    ensures ContainsIp(n, ip) <==> n.base <= ip < n.base + Size(n.mask)
  {
    if n.base <= ip < n.base + Size(n.mask) {
      OffsetAdd(n.base, Size(n.mask), ip - n.base);
    }
  }

  /** The addresses of a block, written out. */
  lemma BlockAddresses(n: Net)
    requires WellFormed(n)
    ensures First(n) == n.base + 1 && Second(n) == n.base + 2 && Third(n) == n.base + 3
    ensures LastUsable(n) == n.base + Size(n.mask) - 2 && Broadcast(n) == n.base + Size(n.mask) - 1
    ensures Size(n.mask) >= 8 && Broadcast(n) < SPACE
  {
    SizeInSpace(n.mask);
    BlockFits(n);
  }

  /** `contains` of another block is inclusion of its addresses. */
  lemma ContainsIff(n: Net, inner: Net)
    requires WellFormed(n) && WellFormed(inner)
    ensures Contains(n, inner) <==> forall a: nat :: ContainsIp(inner, a) ==> ContainsIp(n, a)
  {
    BlockAddresses(inner);
    hide WellFormed, Broadcast, ContainsIp, Size;
    ContainsIpIff(n, inner.base);
    ContainsIpIff(n, Broadcast(inner));
    ContainsIpIff(inner, inner.base);
    ContainsIpIff(inner, Broadcast(inner));
    forall a: nat | ContainsIp(inner, a) && Contains(n, inner) ensures ContainsIp(n, a) {
      ContainsIpIff(inner, a);
      ContainsIpIff(n, a);
    }
  }

  // ---------------------------------------------------------------------------------------
  // split
  // ---------------------------------------------------------------------------------------

  /** The `k`-th block of size /m from the base of `parent`, before wrapping. */
  function Piece(parent: Net, m: Mask, k: nat): (r: nat) {
    if k == 0 then parent.base else Piece(parent, m, k - 1) + Size(m)
  }

  lemma {:induction false} PieceIs(parent: Net, m: Mask, k: nat)
    ensures Piece(parent, m, k) == parent.base + k * Size(m)
  {
    if k > 0 {
      PieceIs(parent, m, k - 1);
      TimesStep(k, Size(m));
    }
  }

  lemma PieceEnd(parent: Net, m: Mask)
    requires parent.mask <= m
    ensures Piece(parent, m, Pow2(m - parent.mask)) == parent.base + Size(parent.mask)
  {
    PieceIs(parent, m, Pow2(m - parent.mask));
    SizeDivides(parent.mask, m);
  }

  lemma {:induction false} PieceMonotone(parent: Net, m: Mask, j: nat, k: nat)
    requires j < k
    ensures Piece(parent, m, j) + Size(m) <= Piece(parent, m, k)
  {
    if j + 1 < k { PieceMonotone(parent, m, j, k - 1); }
  }

  lemma {:induction false} PieceAligned(parent: Net, m: Mask, k: nat)
    requires Offset(parent.base, Size(m)) == 0
    ensures Offset(Piece(parent, m, k), Size(m)) == 0
  {
    if k > 0 { PieceAligned(parent, m, k - 1); }
  }

  lemma PieceBounds(parent: Net, m: Mask, k: nat)
    requires WellFormed(parent) && parent.mask <= m <= 29 && k < Pow2(m - parent.mask)
    ensures parent.base <= Piece(parent, m, k)
    ensures Piece(parent, m, k) + Size(m) <= parent.base + Size(parent.mask) <= SPACE
    ensures WellFormed(Net(Piece(parent, m, k), m))
  {
    BlockFits(parent);
    PieceEnd(parent, m);
    PieceMonotone(parent, m, k, Pow2(m - parent.mask));
    if k > 0 { PieceMonotone(parent, m, 0, k); }
    AlignedRefine(parent.base, parent.mask, m);
    PieceAligned(parent, m, k);
  }

  lemma PieceContained(parent: Net, m: Mask, k: nat)
    requires WellFormed(parent) && parent.mask <= m <= 29 && k < Pow2(m - parent.mask)
    ensures Contains(parent, Net(Piece(parent, m, k), m))
  {
    PieceBounds(parent, m, k);
    var n := Net(Piece(parent, m, k), m);
    BlockAddresses(n);
    ContainsIpIff(parent, n.base);
    ContainsIpIff(parent, Broadcast(n));
  }

  /** The block after the last piece is outside, also when it wraps around to address zero. */
  lemma PieceAfterLast(parent: Net, m: Mask)
    requires WellFormed(parent) && 1 <= parent.mask <= m <= 29
    ensures !Contains(parent, Net(Wrap(Piece(parent, m, Pow2(m - parent.mask))), m))
  {
    PieceEnd(parent, m);
    BlockFits(parent);
    SizeInSpace(parent.mask);
    ContainsIpIff(parent, Wrap(parent.base + Size(parent.mask)));
  }

  lemma NextPiece(parent: Net, m: Mask, k: nat)
    requires WellFormed(parent) && parent.mask <= m <= 29 && k < Pow2(m - parent.mask)
    ensures Next(Net(Piece(parent, m, k), m)) == Net(Wrap(Piece(parent, m, k + 1)), m)
  {
    PieceBounds(parent, m, k);
    assert Offset(Piece(parent, m, k + 1), Size(m)) == 0;
  }

  /** The state of the loop after `k` rounds: it goes on exactly while pieces are left. */
  lemma SplitLoop(parent: Net, m: Mask, k: nat)
    requires WellFormed(parent) && 1 <= parent.mask <= m <= 29 && k <= Pow2(m - parent.mask)
    ensures Contains(parent, Net(Wrap(Piece(parent, m, k)), m)) <==> k < Pow2(m - parent.mask)
    ensures k < Pow2(m - parent.mask) ==>
              && Wrap(Piece(parent, m, k)) == Piece(parent, m, k)
              && Next(Net(Piece(parent, m, k), m)) == Net(Wrap(Piece(parent, m, k + 1)), m)
  {
    if k < Pow2(m - parent.mask) {
      PieceBounds(parent, m, k);
      PieceContained(parent, m, k);
      NextPiece(parent, m, k);
    } else {
      PieceAfterLast(parent, m);
    }
  }

  lemma FirstPiece(parent: Net, m: Mask)
    requires WellFormed(parent) && parent.mask <= m <= 29
    ensures RoundDown(parent.base, Size(m)) == Wrap(Piece(parent, m, 0))
  {
    PieceBounds(parent, m, 0);
  }

  /** The result of `split`: consecutive blocks from the base of the parent to its end. */
  ghost predicate Partition(parent: Net, m: Mask, subnets: seq<Net>)
    requires parent.mask <= m
  {
    && |subnets| == Pow2(m - parent.mask)
    && forall k :: 0 <= k < |subnets| ==> subnets[k] == Net(Piece(parent, m, k), m)
  }

  method Split(parent: Net, mask: nat) returns (r: Result<seq<Net>>)
    requires WellFormed(parent) && (parent.mask >= 1 || mask > 29)
    ensures mask < parent.mask ==> r == Err(CannotSplit(parent.mask, mask))
    ensures parent.mask <= mask && mask > 29 ==> r == Err(MaskTooSmall(mask))
    ensures parent.mask <= mask <= 29 ==> r.Ok? && Partition(parent, mask, r.value)
  {
    hide Pow2, Size, Offset, Piece, Contains, Wrap, Next, WellFormed;
    if mask < parent.mask {
      return Err(CannotSplit(parent.mask, mask));
    }
    if mask > 29 {
      return Err(MaskTooSmall(mask));
    }
    ghost var count := Pow2(mask - parent.mask);
    var net := Net(RoundDown(parent.base, Size(mask)), mask);
    var subnets := [];
    FirstPiece(parent, mask);
    SplitLoop(parent, mask, 0);
    while Contains(parent, net)
      invariant |subnets| <= count && net.mask == mask
      invariant forall k :: 0 <= k < |subnets| ==> subnets[k] == Net(Piece(parent, mask, k), mask)
      invariant net == Net(Wrap(Piece(parent, mask, |subnets|)), mask)
      invariant Contains(parent, net) <==> |subnets| < count
      decreases count - |subnets|
    {
      SplitLoop(parent, mask, |subnets|);
      SplitLoop(parent, mask, |subnets| + 1);
      subnets := subnets + [net];
      net := Next(net);
    }
    return Ok(subnets);
  }

  /** A partition is aligned, pairwise disjoint, and covers exactly the parent. */
  lemma PartitionIsExact(parent: Net, m: Mask, subnets: seq<Net>)
    requires WellFormed(parent) && parent.mask <= m <= 29 && Partition(parent, m, subnets)
    ensures forall k :: 0 <= k < |subnets| ==> WellFormed(subnets[k]) && subnets[k].mask == m
    ensures forall j, k :: 0 <= j < k < |subnets| ==> subnets[j].base + Size(m) <= subnets[k].base
    ensures forall a: nat :: ContainsIp(parent, a) <==> exists k :: 0 <= k < |subnets| && ContainsIp(subnets[k], a)
  {
    forall k | 0 <= k < |subnets| ensures WellFormed(subnets[k]) {
      PieceBounds(parent, m, k);
    }
    forall j, k | 0 <= j < k < |subnets| ensures subnets[j].base + Size(m) <= subnets[k].base {
      PieceMonotone(parent, m, j, k);
    }
    forall a: nat ensures ContainsIp(parent, a) <==> exists k :: 0 <= k < |subnets| && ContainsIp(subnets[k], a) {
      CoveredByOne(parent, m, subnets, a);
    }
  }

  lemma {:induction false} FindPiece(parent: Net, m: Mask, n: nat, a: nat) returns (k: nat)
    requires parent.base <= a < Piece(parent, m, n)
    ensures k < n && Piece(parent, m, k) <= a < Piece(parent, m, k) + Size(m)
  {
    if a < Piece(parent, m, n - 1) {
      k := FindPiece(parent, m, n - 1, a);
    } else {
      k := n - 1;
    }
  }

  lemma CoveredByOne(parent: Net, m: Mask, subnets: seq<Net>, a: nat)
    requires WellFormed(parent) && parent.mask <= m <= 29 && Partition(parent, m, subnets)
    ensures ContainsIp(parent, a) <==> exists k :: 0 <= k < |subnets| && ContainsIp(subnets[k], a)
  {
    ContainsIpIff(parent, a);
    PieceEnd(parent, m);
    if ContainsIp(parent, a) {
      var k := FindPiece(parent, m, |subnets|, a);
      PieceBounds(parent, m, k);
      ContainsIpIff(subnets[k], a);
    }
    if k :| 0 <= k < |subnets| && ContainsIp(subnets[k], a) {
      PieceBounds(parent, m, k);
      ContainsIpIff(subnets[k], a);
    }
  }

  /** The walk of the loop, as far as one likes. */
  function Walk(parent: Net, m: Mask, k: nat): (n: Net)
    requires m <= 29
    ensures n.mask == m
  {
    if k == 0 then Net(RoundDown(parent.base, Size(m)), m) else Next(Walk(parent, m, k - 1))
  }

  lemma PieceUnwrapped(parent: Net, m: Mask, k: nat)
    requires WellFormed(parent) && parent.mask <= m <= 29 && k < Pow2(m - parent.mask)
    ensures Wrap(Piece(parent, m, k)) == Piece(parent, m, k)
  {
    PieceBounds(parent, m, k);
  }

  lemma {:induction false} WalkVisitsPieces(parent: Net, m: Mask, k: nat)
    requires WellFormed(parent) && parent.mask <= m <= 29 && k <= Pow2(m - parent.mask)
    ensures Walk(parent, m, k) == Net(Wrap(Piece(parent, m, k)), m)
  {
    if k == 0 {
      FirstPiece(parent, m);
      return;
    }
    hide Pow2, Size, Offset, Piece, Next, WellFormed;
    WalkVisitsPieces(parent, m, k - 1);
    PieceUnwrapped(parent, m, k - 1);
    NextPiece(parent, m, k - 1);
  }

  lemma WholeSpaceContainsAll(n: Net)
    requires n.mask <= 29 && n.base < SPACE
    ensures Contains(Net(0, 0), n)
  {
    Pow2Of32();
    assert Broadcast(n) < SPACE;
  }

  lemma {:induction false} WalkInSpace(parent: Net, m: Mask, k: nat)
    requires WellFormed(parent) && m <= 29
    ensures Walk(parent, m, k).base < SPACE
  {
    if k > 0 { WalkInSpace(parent, m, k - 1); }
  }

  /** The loop ends exactly for parents smaller than the whole space: /0 contains every block it comes to. */
  lemma SplitEndsIff(parent: Net, m: Mask)
    requires WellFormed(parent) && parent.mask <= m <= 29
    ensures (exists k: nat :: !Contains(parent, Walk(parent, m, k))) <==> parent.mask >= 1
  {
    if parent.mask >= 1 {
      var n := Pow2(m - parent.mask);
      WalkVisitsPieces(parent, m, n);
      PieceAfterLast(parent, m);
      assert !Contains(parent, Walk(parent, m, n));
    } else {
      Pow2Of32();
      assert parent == Net(0, 0);
      forall k: nat ensures Contains(parent, Walk(parent, m, k)) {
        WalkInSpace(parent, m, k);
        WholeSpaceContainsAll(Walk(parent, m, k));
      }
    }
  }

  // ---------------------------------------------------------------------------------------
  // Default sizing and the lookup
  // ---------------------------------------------------------------------------------------

  /** `Math.ceil(Math.log2(n))`: the least k with n <= 2^k. */
  function CeilLog2(n: nat): (k: nat)
    requires n >= 1
    ensures n <= Pow2(k) && (k > 0 ==> Pow2(k - 1) < n)
  {
    if n == 1 then 0 else 1 + CeilLog2((n + 1) / 2)
  }

  /** VPN_INSTANCE_SUBNET_BITMASK when it is not configured. */
  function DefaultMask(baseMask: nat, count: nat): (m: nat)
    requires count >= 1
  {
    var m := baseMask + CeilLog2(count);
    if m < 16 then 16 else m
  }

  /** No subnet is larger than a /16, and there are enough of them for all instances. */
  ghost predicate Admissible(baseMask: nat, count: nat, m: nat) {
    m >= 16 && m >= baseMask && count <= Pow2(m - baseMask)
  }

  /** The default mask is the shortest admissible one: the instances get subnets as large as possible. */
  lemma DefaultSizing(baseMask: nat, count: nat)
    requires count >= 1
    ensures Admissible(baseMask, count, DefaultMask(baseMask, count))
    ensures forall m: nat :: Admissible(baseMask, count, m) ==> DefaultMask(baseMask, count) <= m
  {
    var k := CeilLog2(count);
    Pow2Monotone(k, DefaultMask(baseMask, count) - baseMask);
    forall m: nat | Admissible(baseMask, count, m) ensures DefaultMask(baseMask, count) <= m {
      if m - baseMask < k {
        Pow2Monotone(m - baseMask, k - 1);
      }
    }
  }

  /** `getInstanceSubnet`: None is an index past the end. */
  method GetInstanceSubnet(baseIp: nat, baseMask: nat, mask: nat, id: nat) returns (r: Result<Option<Net>>)
    requires baseIp < SPACE && (baseMask >= 1 || mask > 29) && id >= 1
    ensures baseMask > 29 ==> r == Err(MaskTooSmall(baseMask))
    ensures mask < baseMask <= 29 ==> r == Err(CannotSplit(baseMask, mask))
    ensures baseMask <= 29 < mask ==> r == Err(MaskTooSmall(mask))
    ensures baseMask <= mask <= 29 ==>
              r == Ok(if id <= Pow2(mask - baseMask)
                      then Some(Net(Piece(Net(RoundDown(baseIp, Size(baseMask)), baseMask), mask, id - 1), mask))
                      else None)
  {
    var network := MakeNet(baseIp, baseMask);
    if network.Err? {
      return Err(network.error);
    }
    MadeWellFormed(baseIp, baseMask);
    var subnets := Split(network.value, mask);
    if subnets.Err? {
      return Err(subnets.error);
    }
    return Ok(if id - 1 < |subnets.value| then Some(subnets.value[id - 1]) else None);
  }

  lemma {:induction false} OffsetCleared(x: nat, size: nat)
    requires size >= 1
    ensures Offset(RoundDown(x, size), size) == 0
  {
    if x >= size {
      OffsetCleared(x - size, size);
      assert RoundDown(x, size) == RoundDown(x - size, size) + size;
    }
  }

  lemma MadeWellFormed(ip: nat, mask: nat)
    requires ip < SPACE && mask <= 29
    ensures WellFormed(Net(RoundDown(ip, Size(mask)), mask))
  {
    OffsetCleared(ip, Size(mask));
  }

  /** With the default mask at most 29 every instance 1..count gets its own subnet of the base network. */
  lemma EveryInstanceHasSubnet(baseMask: nat, count: nat, id: nat)
    requires count >= 1 && 1 <= id <= count && DefaultMask(baseMask, count) <= 29
    ensures baseMask <= DefaultMask(baseMask, count) && id <= Pow2(DefaultMask(baseMask, count) - baseMask)
  {
    DefaultSizing(baseMask, count);
  }

  // ---------------------------------------------------------------------------------------
  // The address plan
  // ---------------------------------------------------------------------------------------

  /** Arguments of --ifconfig and --ifconfig-pool when no gateway is configured. */
  datatype Role = Gateway | Peer | Pool

  predicate Uses(n: Net, role: Role, a: nat)
    requires n.mask <= 29
  {
    match role
    case Gateway => a == First(n)
    case Peer => a == Second(n)
    case Pool => Third(n) <= a <= LastUsable(n)
  }

  /** Strictly between the base and the broadcast address. */
  predicate Between(n: Net, a: nat)
    requires n.mask <= 29
  {
    n.base < a < Broadcast(n)
  }

  /**
   The roles inside a subnet: the gateway is the first address, its peer the second, the pool the
   rest up to the one before the broadcast address; so every address strictly between base and
   broadcast has one role.
   */
  lemma SubnetPlan(n: Net)
    requires WellFormed(n)
    ensures forall a: nat :: Uses(n, Gateway, a) <==> a == n.base + 1
    ensures forall a: nat :: Uses(n, Peer, a) <==> a == n.base + 2
    ensures forall a: nat :: Uses(n, Pool, a) <==> n.base + 3 <= a <= n.base + Size(n.mask) - 2
    ensures forall a: nat :: Between(n, a) <==> exists role :: Uses(n, role, a)
    ensures forall a: nat, r, r' :: Uses(n, r, a) && Uses(n, r', a) ==> r == r'
    ensures LastUsable(n) - Third(n) + 1 == Size(n.mask) - 4
    ensures forall a: nat :: Between(n, a) ==> ContainsIp(n, a)
  {
    BlockAddresses(n);
    forall a: nat | Between(n, a) ensures exists role :: Uses(n, role, a) {
      assert Uses(n, Gateway, a) || Uses(n, Peer, a) || Uses(n, Pool, a);
    }
    forall a: nat | Between(n, a) ensures ContainsIp(n, a) {
      ContainsIpIff(n, a);
    }
  }

  /** Across all instances no address is used twice. */
  lemma AddressPlan(parent: Net, m: Mask, subnets: seq<Net>, i: nat, j: nat, r: Role, r': Role, a: nat)
    requires WellFormed(parent) && parent.mask <= m <= 29 && Partition(parent, m, subnets)
    requires i < |subnets| && j < |subnets|
    requires subnets[i].mask <= 29 && subnets[j].mask <= 29
    requires Uses(subnets[i], r, a) && Uses(subnets[j], r', a)
    ensures i == j && r == r' && ContainsIp(parent, a)
  {
    PartitionIsExact(parent, m, subnets);
    BlockAddresses(subnets[i]);
    BlockAddresses(subnets[j]);
    SubnetPlan(subnets[i]);
  }
}
