/** IPv4 addresses, prefixes and the partition of a node subnet into a gateway, a
    control-plane range and a worker range. All sums are taken modulo 2^32, as the
    `uint32` arithmetic of the controller takes them. */
module Ipv4 {
  import opened Outcomes

  const TWO_TO_32: int := 0x1_0000_0000
  const MAX_UINT32: int := 0xFFFF_FFFF

  type Uint32 = n: int | 0 <= n <= 0xFFFF_FFFF
  type Octet = n: int | 0 <= n < 0x100
  type PrefixLength = n: int | 0 <= n <= 32

  /** The four bytes of an address, most significant first. */
  type Addr = bytes: seq<Octet> | |bytes| == 4 witness [0, 0, 0, 0]

  datatype Prefix = Prefix(addr: Addr, bits: PrefixLength) {
    /** The number of host bits. */
    function HostBits(): PrefixLength {
      32 - bits
    }

    /** The same prefix with its host bits cleared. */
    function Masked(): Prefix {
      this.(addr := FromUint32(ClearLow(ToUint32(addr), HostBits())))
    }

    /** Whether `ip` agrees with the prefix on every network bit. */
    predicate Contains(ip: Addr) {
      ShiftRight(ToUint32(ip), HostBits()) == ShiftRight(ToUint32(addr), HostBits())
    }
  }

  datatype Range = Range(
    network: Uint32,
    broadcast: Uint32,
    controlPlaneStart: Uint32,
    controlPlaneEnd: Uint32,
    workerStart: Uint32,
    workerEnd: Uint32
  ) {
    function Start(controlPlane: bool): Uint32 {
      if controlPlane then controlPlaneStart else workerStart
    }

    function End(controlPlane: bool): Uint32 {
      if controlPlane then controlPlaneEnd else workerEnd
    }
  }

  datatype RangeError = NoHostAddresses | TooSmall

  function Pow2(n: nat): (p: int)
    ensures p >= 1
  {
    if n == 0 then 1 else 2 * Pow2(n - 1)
  }

  /** `v >> n`. */
  function ShiftRight(v: nat, n: nat): nat {
    if n == 0 then v else ShiftRight(v / 2, n - 1)
  }

  /** `v` with its `n` low bits cleared. */
  function ClearLow(v: nat, n: nat): (r: nat)
    ensures r <= v < r + Pow2(n)
  {
    if n == 0 then v else 2 * ClearLow(v / 2, n - 1)
  }

  /** The value left in a `uint32` by a sum or difference: the remainder modulo 2^32. */
  function Wrap(n: int): (r: Uint32)
    ensures 0 <= n < TWO_TO_32 ==> r == n
    ensures TWO_TO_32 <= n < 2 * TWO_TO_32 ==> r == n - TWO_TO_32
    ensures -TWO_TO_32 <= n < 0 ==> r == n + TWO_TO_32
    decreases if n < 0 then TWO_TO_32 - n else n
  {
    if n < 0 then Wrap(n + TWO_TO_32) else if n > MAX_UINT32 then Wrap(n - TWO_TO_32) else n
  }

  /** The number whose base-256 digits are `bytes`. Shifted bytes occupy disjoint bits, so
      joining them with `|` adds them. */
  function Join(bytes: seq<Octet>): nat {
    if |bytes| == 0 then 0 else 0x100 * Join(bytes[..|bytes| - 1]) + bytes[|bytes| - 1]
  }

  /** The `n` low bytes of `v`. */
  function Split(v: nat, n: nat): (bytes: seq<Octet>)
    ensures |bytes| == n
  {
    if n == 0 then [] else Split(v / 0x100, n - 1) + [v % 0x100]
  }

  function ToUint32(addr: Addr): Uint32 {
    JoinBelow(addr);
    Pow256Of4();
    Join(addr)
  }

  function FromUint32(value: Uint32): Addr {
    Split(value, 4)
  }

  function AtLeastOne(reserved: int): int {
    if reserved < 1 then 1 else reserved
  }

  /** The partition of `prefix` that keeps `controlPlaneReserved` addresses for
      control-plane machines. */
  function NewRange(prefix: Prefix, controlPlaneReserved: int): Result<Range, RangeError> {
    if prefix.HostBits() == 0 then Err(NoHostAddresses) else
    Partition(ToUint32(prefix.Masked().addr), Pow2(prefix.HostBits()), AtLeastOne(controlPlaneReserved))
  }

  /** The endpoints for a block of `size` addresses. `1 << 32` is 0 in a `uint32`. */
  function Partition(network: Uint32, size: nat, reserved: int): Result<Range, RangeError> {
    var broadcast := Wrap(network + Wrap(size) - 1);
    var firstUsable := Wrap(network + 1);
    var controlPlaneStart := Wrap(firstUsable + 1);
    var controlPlaneEnd := Wrap(controlPlaneStart + Wrap(reserved) - 1);
    var workerStart := Wrap(controlPlaneEnd + 1);
    var workerEnd := Wrap(broadcast - 1);
    if workerStart > workerEnd then Err(TooSmall) else
    Ok(Range(network, broadcast, controlPlaneStart, controlPlaneEnd, workerStart, workerEnd))
  }

  // ----- bytes and integers -----

  function Pow256(n: nat): (p: int)
    ensures p >= 1
  {
    if n == 0 then 1 else 0x100 * Pow256(n - 1)
  }

  lemma Pow256Of4()
    ensures Pow256(4) == TWO_TO_32
  {
    assert Pow256(2) == 0x1_0000;
  }

  lemma {:induction false} JoinBelow(bytes: seq<Octet>)
    ensures Join(bytes) < Pow256(|bytes|)
  {
    if |bytes| != 0 {
      JoinBelow(bytes[..|bytes| - 1]);
    }
  }

  lemma {:induction false} JoinSplit(v: nat, n: nat)
    requires v < Pow256(n)
    ensures Join(Split(v, n)) == v
  {
    if n != 0 {
      JoinSplit(v / 0x100, n - 1);
      assert Split(v, n)[..n - 1] == Split(v / 0x100, n - 1);
    }
  }

  /** The byte form and the integer form of an address determine each other. */
  lemma {:induction false} SplitJoin(bytes: seq<Octet>)
    ensures Split(Join(bytes), |bytes|) == bytes
  {
    if |bytes| != 0 {
      SplitJoin(bytes[..|bytes| - 1]);
    }
  }

  /** The four shifted bytes, added. */
  lemma ShiftedBytes(a: Octet, b: Octet, c: Octet, d: Octet)
    ensures ToUint32([a, b, c, d]) == a * 0x100_0000 + b * 0x1_0000 + c * 0x100 + d
  {
    assert [a, b, c, d][..3] == [a, b, c];
    assert [a, b, c][..2] == [a, b];
    assert [a, b][..1] == [a];
    assert Join([a]) == a;
    assert Join([a, b]) == a * 0x100 + b;
    assert Join([a, b, c]) == a * 0x1_0000 + b * 0x100 + c;
  }

  lemma FromToUint32(addr: Addr)
    ensures FromUint32(ToUint32(addr)) == addr
  {
    SplitJoin(addr);
  }

  lemma ToFromUint32(value: Uint32)
    ensures ToUint32(FromUint32(value)) == value
  {
    Pow256Of4();
    JoinSplit(value, 4);
  }

  // ----- powers of two and blocks -----

  lemma Pow2Of32()
    ensures Pow2(32) == TWO_TO_32
  {
    assert Pow2(8) == 0x100;
    assert Pow2(16) == 0x1_0000;
    assert Pow2(24) == 0x100_0000;
  }

  /** A block of 2^n values aligned at 2^n does not stick out of the 2^m values below 2^m. */
  lemma {:induction false} BlockFits(v: nat, n: nat, m: nat)
    requires n <= m && v < Pow2(m)
    ensures ClearLow(v, n) + Pow2(n) <= Pow2(m)
  {
    if n != 0 {
      BlockFits(v / 2, n - 1, m - 1);
    }
  }

  /** Two values shift to the same value exactly when they lie in the same aligned block. */
  lemma {:induction false} BlockMembers(v: nat, n: nat, x: nat)
    ensures ShiftRight(x, n) == ShiftRight(v, n) <==> ClearLow(v, n) <= x < ClearLow(v, n) + Pow2(n)
    ensures ShiftRight(x, n) == ShiftRight(v, n) <==> ClearLow(x, n) == ClearLow(v, n)
  {
    if n != 0 {
      BlockMembers(v / 2, n - 1, x / 2);
    }
  }

  /** A prefix contains exactly the addresses from its network to its broadcast address. */
  lemma PrefixMembers(prefix: Prefix, x: Uint32)
    ensures var network := ToUint32(prefix.Masked().addr);
            && network + Pow2(prefix.HostBits()) <= TWO_TO_32
            && (prefix.Contains(FromUint32(x)) <==> network <= x < network + Pow2(prefix.HostBits()))
  {
    var h := prefix.HostBits();
    var v := ToUint32(prefix.addr);
    ToFromUint32(ClearLow(v, h));
    ToFromUint32(x);
    Pow2Of32();
    BlockFits(v, h, 32);
    BlockMembers(v, h, x);
  }

  /** Every member of a prefix masks to the prefix's network, and nothing else does. */
  lemma MaskOfMember(prefix: Prefix, ip: Addr)
    ensures prefix.Contains(ip) <==> Prefix(ip, prefix.bits).Masked() == prefix.Masked()
  {
    var h := prefix.HostBits();
    var v := ToUint32(prefix.addr);
    var w := ToUint32(ip);
    BlockMembers(v, h, w);
    if Prefix(ip, prefix.bits).Masked() == prefix.Masked() {
      SameMask(prefix, ip);
    }
  }

  lemma SameMask(prefix: Prefix, ip: Addr)
    requires Prefix(ip, prefix.bits).Masked() == prefix.Masked()
    ensures ClearLow(ToUint32(ip), prefix.HostBits()) == ClearLow(ToUint32(prefix.addr), prefix.HostBits())
  {
    ToFromUint32(ClearLow(ToUint32(ip), prefix.HostBits()));
    ToFromUint32(ClearLow(ToUint32(prefix.addr), prefix.HostBits()));
  }

  /** Masking is idempotent and keeps the members. */
  lemma MaskedTwice(prefix: Prefix, ip: Addr)
    ensures prefix.Masked().Masked() == prefix.Masked()
    ensures prefix.Masked().Contains(ip) <==> prefix.Contains(ip)
  {
    var h := prefix.HostBits();
    var v := ToUint32(prefix.addr);
    BlockMembers(v, h, ClearLow(v, h));
    ToFromUint32(ClearLow(v, h));
  }

  // ----- the partition -----

  /** The code accepts a subnet exactly when it holds the network, gateway, reserved, at
      least one worker and broadcast address, or when the reserve runs past the top of
      the address space, where the size check compares wrapped values. */
  lemma RangeAccepted(prefix: Prefix, reserved: int)
    requires reserved <= 0x8000_0000
    ensures var r := AtLeastOne(reserved);
            var size := Pow2(prefix.HostBits());
            var network := ToUint32(prefix.Masked().addr);
            match NewRange(prefix, reserved)
            case Ok(range) => prefix.bits < 32 && (r + 4 <= size || network + 2 + r >= TWO_TO_32)
            case Err(NoHostAddresses) => prefix.bits == 32
            case Err(TooSmall) => prefix.bits < 32 && r + 4 > size && network + 2 + r < TWO_TO_32
  {
    RangeShape(prefix, reserved);
  }

  /** Every endpoint written out without nested wrapping. */
  lemma RangeShape(prefix: Prefix, reserved: int)
    requires reserved <= 0x8000_0000
    ensures var r := AtLeastOne(reserved);
            var size := Pow2(prefix.HostBits());
            var network := ToUint32(prefix.Masked().addr);
            && network + size <= TWO_TO_32
            && (prefix.bits < 32 ==> size >= 2)
            && (prefix.bits < 32 ==>
                  (NewRange(prefix, reserved).Ok? <==> Wrap(network + 2 + r) <= network + size - 2))
            && (NewRange(prefix, reserved).Ok? ==>
                  NewRange(prefix, reserved).value ==
                  Range(network, network + size - 1, Wrap(network + 2), Wrap(network + 1 + r), Wrap(network + 2 + r),
                        network + size - 2))
  {
    PrefixMembers(prefix, 0);
    if prefix.bits < 32 {
      assert Pow2(prefix.HostBits()) == 2 * Pow2(prefix.HostBits() - 1);
      PartitionShape(ToUint32(prefix.Masked().addr), Pow2(prefix.HostBits()), AtLeastOne(reserved));
    }
  }

  lemma PartitionShape(network: Uint32, size: nat, r: int)
    requires 2 <= size && network + size <= TWO_TO_32
    requires 1 <= r <= 0x8000_0000
    ensures Partition(network, size, r).Ok? <==> Wrap(network + 2 + r) <= network + size - 2
    ensures Partition(network, size, r).Ok? ==>
              Partition(network, size, r).value ==
              Range(network, network + size - 1, Wrap(network + 2), Wrap(network + 1 + r), Wrap(network + 2 + r),
                    network + size - 2)
  {
  }

  /** When the subnet is large enough nothing wraps, and network, gateway, control-plane
      range, worker range and broadcast follow each other and fill the subnet exactly. */
  lemma RangePartition(prefix: Prefix, reserved: int)
    requires reserved <= 0x8000_0000
    requires prefix.bits < 32 && AtLeastOne(reserved) + 4 <= Pow2(prefix.HostBits())
    ensures var r := AtLeastOne(reserved);
            && NewRange(prefix, reserved).Ok?
            && var range := NewRange(prefix, reserved).value;
               var gateway := range.network + 1;
               && range.network == ToUint32(prefix.Masked().addr)
               && range.controlPlaneStart == gateway + 1
               && range.controlPlaneEnd == range.controlPlaneStart + (r - 1)
               && range.workerStart == range.controlPlaneEnd + 1
               && range.workerEnd - range.workerStart + 1 == Pow2(prefix.HostBits()) - 3 - r >= 1
               && range.broadcast == range.workerEnd + 1
               && forall x: Uint32 :: prefix.Contains(FromUint32(x)) <==> range.network <= x <= range.broadcast
  {
    RangeShape(prefix, reserved);
    forall x: Uint32
      ensures var n := ToUint32(prefix.Masked().addr);
              prefix.Contains(FromUint32(x)) <==> n <= x < n + Pow2(prefix.HostBits())
    {
      PrefixMembers(prefix, x);
    }
  }

  /** An accepted range keeps its worker addresses inside the subnet exactly when the
      subnet holds them; the ranges accepted by wrapped comparison do not. */
  lemma RangeInSubnet(prefix: Prefix, reserved: int)
    requires reserved <= 0x8000_0000
    requires NewRange(prefix, reserved).Ok?
    ensures var range := NewRange(prefix, reserved).value;
            (forall x: Uint32 | range.workerStart <= x <= range.workerEnd :: prefix.Contains(FromUint32(x)))
            <==> AtLeastOne(reserved) + 4 <= Pow2(prefix.HostBits())
  {
    var range := NewRange(prefix, reserved).value;
    RangeShape(prefix, reserved);
    if AtLeastOne(reserved) + 4 <= Pow2(prefix.HostBits()) {
      RangePartition(prefix, reserved);
    } else {
      PrefixMembers(prefix, range.workerStart);
      assert !prefix.Contains(FromUint32(range.workerStart));
    }
  }

  /** The last worker address is always below 2^32 - 1; the last control-plane address is
      2^32 - 1 exactly when the reserve ends at the top of the address space. */
  lemma RangeEnds(prefix: Prefix, reserved: int)
    requires reserved <= 0x8000_0000
    requires NewRange(prefix, reserved).Ok?
    ensures var range := NewRange(prefix, reserved).value;
            && range.workerEnd < range.broadcast
            && (range.controlPlaneEnd == MAX_UINT32 <==>
                ToUint32(prefix.Masked().addr) + 2 + AtLeastOne(reserved) == TWO_TO_32)
  {
    RangeShape(prefix, reserved);
  }

  /** The two subnets at the top of the address space that the size check lets through. */
  lemma WrappedRangeExamples()
    ensures NewRange(Prefix([255, 255, 255, 254], 31), 1)
         == Ok(Range(0xFFFF_FFFE, 0xFFFF_FFFF, 0, 0, 1, 0xFFFF_FFFE))
    ensures NewRange(Prefix([255, 255, 255, 252], 30), 2)
         == Ok(Range(0xFFFF_FFFC, 0xFFFF_FFFF, 0xFFFF_FFFE, 0xFFFF_FFFF, 0, 0xFFFF_FFFE))
  {
    ShiftedBytes(255, 255, 255, 254);
    WrappedRange(Prefix([255, 255, 255, 254], 31), 1, 0xFFFF_FFFE);
    ShiftedBytes(255, 255, 255, 252);
    assert ClearLow(0xFFFF_FFFC, 2) == 2 * ClearLow(0x7FFF_FFFE, 1);
    WrappedRange(Prefix([255, 255, 255, 252], 30), 2, 0xFFFF_FFFC);
  }

  lemma WrappedRange(prefix: Prefix, reserved: int, network: Uint32)
    requires 1 <= prefix.HostBits() <= 2 && 1 <= reserved <= 2
    requires ClearLow(ToUint32(prefix.addr), prefix.HostBits()) == network
    ensures NewRange(prefix, reserved) == Partition(network, 2 * prefix.HostBits(), reserved)
  {
    ToFromUint32(network);
    assert Pow2(1) == 2 && Pow2(2) == 4;
  }
}
