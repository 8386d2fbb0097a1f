/** Which address a machine without one is given, for either role, told by the other claims. */
module Allocation {
  import opened Outcomes
  import opened Sets
  import opened Ipv4
  import opened Allocator
  import opened ClusterState
  import opened MachineIP
  import opened Effects
  import opened Runs
  import opened Pools

  /** Another claim of the namespace and cluster. */
  predicate OtherClaim(claims: map<Key, Claim>, k: Key, own: Key, clusterName: string) {
    k in claims && k.ns == own.ns && k.name != own.name && claims[k].spec.clusterName == clusterName
  }

  /** The claim's address is the number `x`. */
  predicate AddressIs(claim: Claim, x: int) {
    claim.spec.address.Dotted? && ToUint32(claim.spec.address.ip) == x
  }

  ghost predicate Taken(claims: map<Key, Claim>, own: Key, clusterName: string, x: int) {
    exists k :: OtherClaim(claims, k, own, clusterName) && AddressIs(claims[k], x)
  }

  ghost predicate SomeInvalid(claims: map<Key, Claim>, own: Key, clusterName: string) {
    exists k :: OtherClaim(claims, k, own, clusterName) && claims[k].spec.address.Invalid?
  }

  lemma TakenInUse(claims: map<Key, Claim>, own: Key, clusterName: string, x: Uint32)
    ensures Taken(claims, own, clusterName, x) <==> x in InUse(claims, own, clusterName)
  {
    if Taken(claims, own, clusterName, x) {
      var k :| OtherClaim(claims, k, own, clusterName) && AddressIs(claims[k], x);
      assert Holds(claims, k, own, clusterName) && ToUint32(claims[k].spec.address.ip) == x;
    }
    if x in InUse(claims, own, clusterName) {
      var k :| k in claims && Holds(claims, k, own, clusterName) && claims[k].spec.address.Dotted?
               && ToUint32(claims[k].spec.address.ip) == x;
      assert OtherClaim(claims, k, own, clusterName) && AddressIs(claims[k], x);
    }
  }

  lemma InvalidExactly(claims: map<Key, Claim>, own: Key, clusterName: string, controlPlane: bool, range: Range)
    ensures Allocate(claims, own, clusterName, controlPlane, range) == Err(InvalidClaimAddress)
       <==> SomeInvalid(claims, own, clusterName)
  {
    if k :| OtherClaim(claims, k, own, clusterName) && claims[k].spec.address.Invalid? {
      assert Holds(claims, k, own, clusterName);
    }
    if k :| k in claims && Holds(claims, k, own, clusterName) && claims[k].spec.address.Invalid? {
      assert OtherClaim(claims, k, own, clusterName);
    }
  }

  /** For either role: an invalid address on another claim of the cluster stops the
      allocation; otherwise it fails exactly if other claims have every address of the role's
      range, and else gives the least address of the range that none of them has. */
  lemma AllocateSpec(claims: map<Key, Claim>, own: Key, clusterName: string, controlPlane: bool, pool: Pool)
    requires WellFormed(pool)
    ensures var start := if controlPlane then pool.range.controlPlaneStart else pool.range.workerStart;
            var end := if controlPlane then pool.range.controlPlaneEnd else pool.range.workerEnd;
            match Allocate(claims, own, clusterName, controlPlane, pool.range)
            case Ok(ip) =>
              && !SomeInvalid(claims, own, clusterName)
              && start <= ToUint32(ip) <= end
              && !Taken(claims, own, clusterName, ToUint32(ip))
              && (forall x | start <= x < ToUint32(ip) :: Taken(claims, own, clusterName, x))
            case Err(e) =>
              if SomeInvalid(claims, own, clusterName) then e == InvalidClaimAddress
              else
                && e == (if controlPlane then NoControlPlaneIPs else NoWorkerIPs)
                && (forall x | start <= x <= end :: Taken(claims, own, clusterName, x))
  {
    InvalidExactly(claims, own, clusterName, controlPlane, pool.range);
    WellFormedRange(pool);
    var inUse := InUse(claims, own, clusterName);
    NextAvailableIsLeast(controlPlane, inUse, pool.range);
    forall x: Uint32 ensures Taken(claims, own, clusterName, x) <==> x in inUse {
      TakenInUse(claims, own, clusterName, x);
    }
    TakenFrom(claims, own, clusterName, inUse, pool.range.Start(controlPlane),
              match Allocate(claims, own, clusterName, controlPlane, pool.range)
              case Ok(ip) => ToUint32(ip)
              case Err(_) => pool.range.End(controlPlane) + 1);
  }

  lemma TakenFrom(claims: map<Key, Claim>, own: Key, clusterName: string, inUse: set<Uint32>, lo: Uint32, hi: int)
    requires hi <= TWO_TO_32 && inUse == InUse(claims, own, clusterName)
    ensures (forall x: Uint32 | lo <= x < hi :: x in inUse) ==>
              forall x | lo <= x < hi :: Taken(claims, own, clusterName, x)
  {
    if forall x: Uint32 | lo <= x < hi :: x in inUse {
      forall x | lo <= x < hi ensures Taken(claims, own, clusterName, x) {
        var u: Uint32 := x;
        TakenInUse(claims, own, clusterName, u);
      }
    }
  }

  /** Whatever is refused: if a run gives the machine's claim an address, it is the least one
      of the machine's role that no other claim of the machine's cluster has. */
  lemma FirstAddress(s: State, key: Key, verdicts: seq<bool>, pool: Pool)
    requires MachinePool(s, key) == Ok(pool) && WellFormed(pool)
    requires ClaimKey(key) in s.claims ==> s.claims[ClaimKey(key)].spec.address == NoAddress
    ensures var claims, own := Next(s, key, verdicts).claims, Key(key.ns, key.name + "-external-node-ip");
            var clusterName := s.machines[key].clusterName;
            var start := if s.machines[key].controlPlaneLabel.Some? then pool.range.controlPlaneStart
                         else pool.range.workerStart;
            own in claims && claims[own].spec.address != NoAddress ==>
              && claims[own].spec.address.Dotted?
              && var v := ToUint32(claims[own].spec.address.ip);
                 && start <= v && !Taken(s.claims, own, clusterName, v)
                 && forall x | start <= x < v :: Taken(s.claims, own, clusterName, x)
  {
    var m, own := s.machines[key], ClaimKey(key);
    RunWithin(s, key, verdicts);
    AllocateSpec(s.claims, own, m.clusterName, m.IsControlPlane(), pool);
  }

  // ----- a role that is not full -----

  /** While fewer other claims of a role have addresses than the role's range has, a machine of
      the role finds one. */
  lemma RoleFits(s: State, key: Key, cluster: Key, pool: Pool)
    requires PoolInvariant(s, cluster, pool) && WellFormed(pool)
    requires MachinePool(s, key).Ok? && ClusterOf(s, key) == cluster
    requires var cp := s.machines[key].controlPlaneLabel.Some?;
             |RoleHolders(s.claims, cluster, cp) - {ClaimKey(key)}| < pool.range.End(cp) - pool.range.Start(cp) + 1
    ensures ClaimPlan(s.claims, key, s.machines[key], pool).address.Ok?
  {
    var m, own := s.machines[key], ClaimKey(key);
    var cp := m.controlPlaneLabel.Some?;
    FirstVersionsOk(s.claims, key, m, pool);
    NoneInvalid(s, key, cluster, pool);
    if !Allocate(s.claims, own, m.clusterName, cp, pool.range).Ok? {
      AllocateSpec(s.claims, own, m.clusterName, cp, pool);
      assert forall x | pool.range.Start(cp) <= x <= pool.range.End(cp) :: Taken(s.claims, own, m.clusterName, x);
      FullRange(s, own, cluster, pool, cp);
    }
  }

  lemma NoneInvalid(s: State, key: Key, cluster: Key, pool: Pool)
    requires PoolInvariant(s, cluster, pool)
    requires MachinePool(s, key).Ok? && ClusterOf(s, key) == cluster
    ensures !SomeInvalid(s.claims, ClaimKey(key), cluster.name)
    ensures ClaimKey(key) in s.claims ==> !s.claims[ClaimKey(key)].spec.address.Invalid?
  {
    forall k | OtherClaim(s.claims, k, ClaimKey(key), cluster.name) ensures !s.claims[k].spec.address.Invalid? {
      assert s.claims[k].spec.address.Invalid? ==> Member(s.claims, k, cluster);
    }
    NothingKeptOutside(s, key, cluster, pool);
  }

  lemma FullRange(s: State, own: Key, cluster: Key, pool: Pool, cp: bool)
    requires PoolInvariant(s, cluster, pool) && WellFormed(pool) && own.ns == cluster.ns
    requires forall x | pool.range.Start(cp) <= x <= pool.range.End(cp) :: Taken(s.claims, own, cluster.name, x)
    ensures |RoleHolders(s.claims, cluster, cp) - {own}| >= pool.range.End(cp) - pool.range.Start(cp) + 1
  {
    var holders, value := RoleHolders(s.claims, cluster, cp) - {own}, k => AddressValue(s.claims, k);
    WellFormedRange(pool);
    forall x | pool.range.Start(cp) <= x < pool.range.End(cp) + 1 ensures Held(x, holders, value) {
      assert Taken(s.claims, own, cluster.name, x);
      var k :| OtherClaim(s.claims, k, own, cluster.name) && AddressIs(s.claims[k], x);
      assert Member(s.claims, k, cluster);
      assert k in holders && value(k) == x;
    }
    Pigeonhole(pool.range.Start(cp), pool.range.End(cp) + 1, holders, value);
  }

  lemma WorkersFit(s: State, key: Key, cluster: Key, pool: Pool, reserved: int)
    requires FitsReserve(pool, reserved) && PoolInvariant(s, cluster, pool)
    requires MachinePool(s, key).Ok? && ClusterOf(s, key) == cluster && s.machines[key].controlPlaneLabel.None?
    requires |RoleHolders(s.claims, cluster, false) - {ClaimKey(key)}|
             < Pow2(32 - pool.config.subnet.bits) - 3 - reserved
    ensures ClaimPlan(s.claims, key, s.machines[key], pool).address.Ok?
  {
    WorkerCount(pool, reserved);
    RoleFits(s, key, cluster, pool);
  }

  lemma WorkerCount(pool: Pool, reserved: int)
    requires FitsReserve(pool, reserved)
    ensures WellFormed(pool)
    ensures pool.range.End(false) - pool.range.Start(false) + 1 == Pow2(32 - pool.config.subnet.bits) - 3 - reserved
  {
    RangePartition(pool.config.subnet, reserved);
  }

  /** In every state of every run with a fixed pool of 2^h addresses, `reserved` of them for
      control planes: while fewer than 2^h - 3 - reserved other worker claims are addressed, a
      run for a worker finds an address. */
  lemma WorkersFitInEveryRun(states: seq<State>, events: seq<Event>, cluster: Key, pool: Pool, reserved: int, n: nat,
                             key: Key)
    requires FitsReserve(pool, reserved) && IsRun(states, events, PoolKeeping(cluster, pool))
    requires PoolInvariant(states[0], cluster, pool) && n < |states|
    requires MachinePool(states[n], key).Ok? && ClusterOf(states[n], key) == cluster
    requires states[n].machines[key].controlPlaneLabel.None?
    requires |RoleHolders(states[n].claims, cluster, false) - {ClaimKey(key)}|
             < Pow2(32 - pool.config.subnet.bits) - 3 - reserved
    ensures ClaimPlan(states[n].claims, key, states[n].machines[key], pool).address.Ok?
    ensures !Plan(states[n], key).outcome.NoAllocation?
  {
    assert WellFormed(pool);
    PoolInEveryRun(states, events, cluster, pool, n);
    WorkersFit(states[n], key, cluster, pool, reserved);
    AddressedRun(states[n], key);
  }
}
