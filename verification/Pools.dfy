/** Properties of one cluster's address pool over runs in which its configuration stays. */
module Pools {
  import opened Outcomes
  import opened Sets
  import opened Ipv4
  import opened Allocator
  import opened ClusterState
  import opened MachineIP
  import opened Effects
  import opened Runs

  /** The pool comes from a subnet that is large enough for its reserve. */
  ghost predicate WellFormed(pool: Pool) {
    exists reserved :: FitsReserve(pool, reserved)
  }

  predicate FitsReserve(pool: Pool, reserved: int) {
    && 1 <= reserved <= 0x8000_0000
    && pool.config.subnet.bits < 32
    && reserved + 4 <= Pow2(pool.config.subnet.HostBits())
    && NewRange(pool.config.subnet, reserved) == Ok(pool.range)
  }

  predicate InRoleRange(range: Range, controlPlane: bool, ip: Addr) {
    range.Start(controlPlane) <= ToUint32(ip) <= range.End(controlPlane)
  }

  /** An addressed claim of the cluster. */
  predicate Member(claims: map<Key, Claim>, k: Key, cluster: Key) {
    && k in claims && k.ns == cluster.ns
    && claims[k].spec.clusterName == cluster.name && claims[k].spec.address != NoAddress
  }

  ghost predicate Separated(claims: map<Key, Claim>, cluster: Key, range: Range) {
    forall k | Member(claims, k, cluster) ::
      claims[k].spec.address.Dotted? && InRoleRange(range, claims[k].spec.controlPlane, claims[k].spec.address.ip)
  }

  /** A machine and its addressed claim have the same role. */
  ghost predicate KeepsRole(s: State) {
    forall k | k in s.machines && ClaimKey(k) in s.claims && s.claims[ClaimKey(k)].spec.address != NoAddress ::
      s.claims[ClaimKey(k)].spec.controlPlane == s.machines[k].IsControlPlane()
  }

  /** Whenever the cluster has a pool, it is this one. */
  ghost predicate FixedPool(s: State, cluster: Key, pool: Pool) {
    ClusterPool(s, cluster).Ok? ==> ClusterPool(s, cluster).value == pool
  }

  /** The environment assigns no address, changes no role of an addressed claim, and keeps
      the cluster's pool. */
  ghost predicate KeepsRange(s: State, t: State, cluster: Key, pool: Pool) {
    && AssignsNothing(s, t) && FixedPool(t, cluster, pool)
    && forall k | k in t.claims && t.claims[k].spec.address != NoAddress && k in s.claims ::
         t.claims[k].spec.controlPlane == s.claims[k].spec.controlPlane
  }

  ghost function RangeKeeping(cluster: Key, pool: Pool): (State, State) -> bool {
    (s, t) => KeepsRange(s, t, cluster, pool)
  }

  /** Besides, machines keep the cluster and the role of their addressed claims. */
  ghost predicate KeepsPool(s: State, t: State, cluster: Key, pool: Pool) {
    KeepsRange(s, t, cluster, pool) && KeepsCluster(t) && KeepsRole(t)
  }

  ghost function PoolKeeping(cluster: Key, pool: Pool): (State, State) -> bool {
    (s, t) => KeepsPool(s, t, cluster, pool)
  }

  ghost predicate PoolInvariant(s: State, cluster: Key, pool: Pool) {
    KeepsCluster(s) && KeepsRole(s) && FixedPool(s, cluster, pool) && Separated(s.claims, cluster, pool.range)
  }

  /** The shape of a well-formed range. */
  lemma WellFormedRange(pool: Pool)
    requires WellFormed(pool)
    ensures var r := pool.range;
            r.network + 2 == r.controlPlaneStart <= r.controlPlaneEnd < r.controlPlaneEnd + 1 == r.workerStart
            <= r.workerEnd < r.workerEnd + 1 == r.broadcast
    ensures forall x: Uint32 ::
              pool.config.subnet.Contains(FromUint32(x)) <==> pool.range.network <= x <= pool.range.broadcast
  {
    var reserved :| FitsReserve(pool, reserved);
    RangePartition(pool.config.subnet, reserved);
  }

  /** A freshly stored address is the least free address of its role in the pool. */
  lemma FreshAddress(s: State, key: Key, pool: Pool, c: Claim)
    requires MachinePool(s, key) == Ok(pool) && WellFormed(pool)
    requires VersionOk(s.claims, key, s.machines[key], pool, c)
    requires c.spec.address != NoAddress
    requires ClaimKey(key) in s.claims ==> s.claims[ClaimKey(key)].spec.address == NoAddress
    ensures c.spec.address.Dotted? && InRoleRange(pool.range, c.spec.controlPlane, c.spec.address.ip)
    ensures var inUse := InUse(s.claims, ClaimKey(key), s.machines[key].clusterName);
            && ToUint32(c.spec.address.ip) !in inUse
            && forall x: Uint32 ::
                 pool.range.Start(c.spec.controlPlane) <= x < ToUint32(c.spec.address.ip) ==> x in inUse
  {
    var m := s.machines[key];
    WellFormedRange(pool);
    NextAvailableIsLeast(m.IsControlPlane(), InUse(s.claims, ClaimKey(key), m.clusterName), pool.range);
  }

  // ----- addresses kept without a check -----

  /** The machine's claim has an address that does not fit the machine's role. */
  predicate KeptOutside(s: State, key: Key, range: Range)
    requires key in s.machines
  {
    && ClaimKey(key) in s.claims
    && var address := s.claims[ClaimKey(key)].spec.address;
       && address != NoAddress
       && !(address.Dotted? && InRoleRange(range, s.machines[key].IsControlPlane(), address.ip))
  }

  /** A run that stores such a claim for the cluster. */
  predicate Intrudes(s: State, e: Event, cluster: Key, range: Range) {
    && e.Reconciled? && MachinePool(s, e.key).Ok? && ClusterOf(s, e.key) == cluster
    && KeptOutside(s, e.key, range) && Accepts(e.verdicts, 0)
  }

  /** A claim of the cluster stays in its range unless the run brings in one from outside. */
  lemma SeparatedStep(s: State, key: Key, t: State, cluster: Key, pool: Pool, k: Key)
    requires FixedPool(s, cluster, pool) && Separated(s.claims, cluster, pool.range) && WellFormed(pool)
    requires MachinePool(s, key).Ok? && Within(s, key, MachinePool(s, key).value, t)
    requires !(ClusterOf(s, key) == cluster && KeptOutside(s, key, pool.range))
    requires Member(t.claims, k, cluster)
    ensures t.claims[k].spec.address.Dotted?
    ensures InRoleRange(pool.range, t.claims[k].spec.controlPlane, t.claims[k].spec.address.ip)
  {
    var ck := ClaimKey(key);
    if Stored(t.claims, k) == Stored(s.claims, k) {
      assert Member(s.claims, k, cluster);
    } else {
      assert k == ck && ClusterOf(s, key) == cluster;
      if !(ck in s.claims && s.claims[ck].spec.address != NoAddress) {
        FreshAddress(s, key, pool, t.claims[ck]);
      }
    }
  }

  lemma SeparatedWithin(s: State, key: Key, t: State, cluster: Key, pool: Pool)
    requires FixedPool(s, cluster, pool) && Separated(s.claims, cluster, pool.range) && WellFormed(pool)
    requires MachinePool(s, key).Ok? && Within(s, key, MachinePool(s, key).value, t)
    requires !(ClusterOf(s, key) == cluster && KeptOutside(s, key, pool.range))
    ensures Separated(t.claims, cluster, pool.range)
  {
    forall k | Member(t.claims, k, cluster)
      ensures t.claims[k].spec.address.Dotted?
      ensures InRoleRange(pool.range, t.claims[k].spec.controlPlane, t.claims[k].spec.address.ip)
    {
      SeparatedStep(s, key, t, cluster, pool, k);
    }
  }

  lemma NotInLine(s: State, key: Key, pool: Pool)
    requires MachinePool(s, key) == Ok(pool)
    requires Separated(s.claims, ClusterOf(s, key), pool.range) && KeptOutside(s, key, pool.range)
    ensures Stored(s.claims, ClaimKey(key)) != Some(SyncedClaim(s.claims, key, s.machines[key], pool.config))
  {
    assert s.claims[ClaimKey(key)] == SyncedClaim(s.claims, key, s.machines[key], pool.config) ==>
        Member(s.claims, ClaimKey(key), ClusterOf(s, key));
  }

  lemma BroughtIn(s: State, key: Key, pool: Pool, claims: map<Key, Claim>)
    requires key in s.machines && KeptOutside(s, key, pool.range)
    requires InLine(s.claims, key, s.machines[key], pool, claims)
    ensures !Separated(claims, ClusterOf(s, key), pool.range)
  {
    assert Member(claims, ClaimKey(key), ClusterOf(s, key));
  }

  /** With the pool fixed, a run breaks the separation of the ranges if and only if the
      machine's claim comes with an address outside the machine's role's range and the first
      write is accepted. */
  lemma SeparatedAfterRun(s: State, key: Key, verdicts: seq<bool>, cluster: Key, pool: Pool)
    requires WellFormed(pool) && FixedPool(s, cluster, pool) && Separated(s.claims, cluster, pool.range)
    ensures Separated(Next(s, key, verdicts).claims, cluster, pool.range)
       <==> !Intrudes(s, Reconciled(key, verdicts), cluster, pool.range)
  {
    RunWithin(s, key, verdicts);
    if MachinePool(s, key).Ok? {
      if ClusterOf(s, key) == cluster && KeptOutside(s, key, pool.range) {
        NotInLine(s, key, pool);
        FirstWrite(s, key, verdicts);
        if Accepts(verdicts, 0) {
          BroughtIn(s, key, pool, Next(s, key, verdicts).claims);
        }
      } else {
        SeparatedWithin(s, key, Next(s, key, verdicts), cluster, pool);
      }
    }
  }

  lemma PoolDependsOnly(s: State, t: State, cluster: Key)
    requires t.clusters == s.clusters && t.capiClusters == s.capiClusters && t.controlPlanes == s.controlPlanes
    ensures ClusterPool(t, cluster) == ClusterPool(s, cluster)
  {
    assert ControlPlaneReplicas(t, cluster) == ControlPlaneReplicas(s, cluster);
  }

  ghost predicate SeparatedUpTo(states: seq<State>, cluster: Key, range: Range, n: nat)
    requires n < |states|
  {
    forall i | 0 <= i <= n :: Separated(states[i].claims, cluster, range)
  }

  predicate IntrudesBefore(states: seq<State>, events: seq<Event>, cluster: Key, range: Range, n: nat)
    requires n <= |events| <= |states|
  {
    exists i :: 0 <= i < n && Intrudes(states[i], events[i], cluster, range)
  }

  /** In a run with a fixed pool every address of the cluster lies in its role's range in
      every state, if and only if no controller step brings in an address from outside. */
  lemma {:induction false} SeparatedInEveryRun(states: seq<State>, events: seq<Event>, cluster: Key, pool: Pool, n: nat)
    requires WellFormed(pool) && IsRun(states, events, RangeKeeping(cluster, pool))
    requires FixedPool(states[0], cluster, pool) && Separated(states[0].claims, cluster, pool.range)
    requires n < |states|
    ensures FixedPool(states[n], cluster, pool)
    ensures SeparatedUpTo(states, cluster, pool.range, n) <==> !IntrudesBefore(states, events, cluster, pool.range, n)
  {
    if n > 0 {
      SeparatedInEveryRun(states, events, cluster, pool, n - 1);
      RunStep(states, events, RangeKeeping(cluster, pool), n - 1);
      OneMoreSeparated(states, events, cluster, pool.range, n - 1);
      FixedPoolFollows(states[n - 1], events[n - 1], states[n], cluster, pool);
      if SeparatedUpTo(states, cluster, pool.range, n - 1) {
        SeparatedFollows(states[n - 1], events[n - 1], states[n], cluster, pool);
      }
    }
  }

  lemma OneMoreSeparated(states: seq<State>, events: seq<Event>, cluster: Key, range: Range, n: nat)
    requires |states| == |events| + 1 && n < |events|
    ensures SeparatedUpTo(states, cluster, range, n + 1)
       <==> SeparatedUpTo(states, cluster, range, n) && Separated(states[n + 1].claims, cluster, range)
    ensures SeparatedUpTo(states, cluster, range, n) ==> Separated(states[n].claims, cluster, range)
    ensures IntrudesBefore(states, events, cluster, range, n + 1)
       <==> IntrudesBefore(states, events, cluster, range, n) || Intrudes(states[n], events[n], cluster, range)
  {
  }

  lemma FixedPoolFollows(s: State, e: Event, t: State, cluster: Key, pool: Pool)
    requires Follows(s, e, t, RangeKeeping(cluster, pool)) && FixedPool(s, cluster, pool)
    ensures FixedPool(t, cluster, pool)
  {
    match e
    case Reconciled(key, verdicts) => RunKeepsPool(s, key, verdicts, cluster);
    case Environment =>
  }

  lemma SeparatedFollows(s: State, e: Event, t: State, cluster: Key, pool: Pool)
    requires Follows(s, e, t, RangeKeeping(cluster, pool)) && WellFormed(pool)
    requires FixedPool(s, cluster, pool) && Separated(s.claims, cluster, pool.range)
    ensures Separated(t.claims, cluster, pool.range) <==> !Intrudes(s, e, cluster, pool.range)
  {
    match e
    case Reconciled(key, verdicts) => SeparatedAfterRun(s, key, verdicts, cluster, pool);
    case Environment => SeparatedEnvironment(s, t, cluster, pool);
  }

  lemma SeparatedEnvironment(s: State, t: State, cluster: Key, pool: Pool)
    requires Separated(s.claims, cluster, pool.range) && KeepsRange(s, t, cluster, pool)
    ensures Separated(t.claims, cluster, pool.range)
  {
    forall k | Member(t.claims, k, cluster)
      ensures t.claims[k].spec.address.Dotted?
      ensures InRoleRange(pool.range, t.claims[k].spec.controlPlane, t.claims[k].spec.address.ip)
    {
      assert Member(s.claims, k, cluster);
    }
  }

  lemma RunKeepsPool(s: State, key: Key, verdicts: seq<bool>, cluster: Key)
    ensures ClusterPool(Next(s, key, verdicts), cluster) == ClusterPool(s, cluster)
  {
    RunWithin(s, key, verdicts);
    PoolDependsOnly(s, Next(s, key, verdicts), cluster);
  }

  // ----- machines that keep their cluster and role -----

  lemma NothingKeptOutside(s: State, key: Key, cluster: Key, pool: Pool)
    requires PoolInvariant(s, cluster, pool) && MachinePool(s, key).Ok?
    ensures !(ClusterOf(s, key) == cluster && KeptOutside(s, key, pool.range))
  {
    if ClusterOf(s, key) == cluster && ClaimKey(key) in s.claims && s.claims[ClaimKey(key)].spec.address != NoAddress {
      assert Member(s.claims, ClaimKey(key), cluster);
    }
  }

  lemma PoolStep(s: State, key: Key, verdicts: seq<bool>, cluster: Key, pool: Pool)
    requires PoolInvariant(s, cluster, pool) && WellFormed(pool)
    ensures PoolInvariant(Next(s, key, verdicts), cluster, pool)
  {
    var t := Next(s, key, verdicts);
    RunWithin(s, key, verdicts);
    RunKeepsPool(s, key, verdicts, cluster);
    KeepsClusterStep(s, key, verdicts);
    if MachinePool(s, key).Ok? {
      NothingKeptOutside(s, key, cluster, pool);
      SeparatedWithin(s, key, t, cluster, pool);
      KeepsRoleStep(s, key, t);
    }
  }

  lemma KeepsRoleStep(s: State, key: Key, t: State)
    requires KeepsRole(s)
    requires MachinePool(s, key).Ok? && Within(s, key, MachinePool(s, key).value, t)
    ensures KeepsRole(t)
  {
    forall k | k in t.machines && ClaimKey(k) in t.claims && t.claims[ClaimKey(k)].spec.address != NoAddress
      ensures t.claims[ClaimKey(k)].spec.controlPlane == t.machines[k].IsControlPlane()
    {
      OwnersStep(s, key, t, k);
    }
  }

  lemma OwnersStep(s: State, key: Key, t: State, k: Key)
    requires KeepsRole(s)
    requires MachinePool(s, key).Ok? && Within(s, key, MachinePool(s, key).value, t)
    requires k in t.machines && ClaimKey(k) in t.claims && t.claims[ClaimKey(k)].spec.address != NoAddress
    ensures t.claims[ClaimKey(k)].spec.controlPlane == t.machines[k].IsControlPlane()
  {
    assert k in s.machines;
    if ClaimKey(k) == ClaimKey(key) {
      ClaimKeyInjective(k, key);
    } else {
      assert Stored(t.claims, ClaimKey(k)) == Stored(s.claims, ClaimKey(k));
    }
  }

  lemma PoolEnvironmentStep(s: State, t: State, cluster: Key, pool: Pool)
    requires PoolInvariant(s, cluster, pool) && KeepsPool(s, t, cluster, pool)
    ensures PoolInvariant(t, cluster, pool)
  {
    SeparatedEnvironment(s, t, cluster, pool);
  }

  lemma PoolFollows(s: State, e: Event, t: State, cluster: Key, pool: Pool)
    requires Follows(s, e, t, PoolKeeping(cluster, pool))
    requires PoolInvariant(s, cluster, pool) && WellFormed(pool)
    ensures PoolInvariant(t, cluster, pool)
  {
    match e
    case Reconciled(key, verdicts) => PoolStep(s, key, verdicts, cluster, pool);
    case Environment => PoolEnvironmentStep(s, t, cluster, pool);
  }

  lemma {:induction false} PoolInEveryRun(states: seq<State>, events: seq<Event>, cluster: Key, pool: Pool, n: nat)
    requires WellFormed(pool) && IsRun(states, events, PoolKeeping(cluster, pool))
    requires PoolInvariant(states[0], cluster, pool)
    requires n < |states|
    ensures PoolInvariant(states[n], cluster, pool)
  {
    if n > 0 {
      PoolInEveryRun(states, events, cluster, pool, n - 1);
      PoolAfter(states, events, cluster, pool, n - 1);
    }
  }

  lemma PoolAfter(states: seq<State>, events: seq<Event>, cluster: Key, pool: Pool, i: nat)
    requires WellFormed(pool) && IsRun(states, events, PoolKeeping(cluster, pool))
    requires i < |events| && PoolInvariant(states[i], cluster, pool)
    ensures PoolInvariant(states[i + 1], cluster, pool)
  {
    RunStep(states, events, PoolKeeping(cluster, pool), i);
    PoolFollows(states[i], events[i], states[i + 1], cluster, pool);
  }

  /** With fixed configuration and roles, in every state of every run a control-plane address
      lies below the worker range, a worker address above the control-plane range, and
      neither is the network, gateway or broadcast address. */
  lemma RolesSeparatedInEveryRun(states: seq<State>, events: seq<Event>, cluster: Key, pool: Pool, n: nat, k: Key)
    requires WellFormed(pool) && IsRun(states, events, PoolKeeping(cluster, pool))
    requires PoolInvariant(states[0], cluster, pool)
    requires n < |states| && Member(states[n].claims, k, cluster)
    ensures var spec := states[n].claims[k].spec;
            && spec.address.Dotted?
            && var v := ToUint32(spec.address.ip);
               && pool.range.network + 2 <= v < pool.range.broadcast
               && (spec.controlPlane ==>
                     pool.range.controlPlaneStart <= v <= pool.range.controlPlaneEnd < pool.range.workerStart)
               && (!spec.controlPlane ==>
                     pool.range.controlPlaneEnd < pool.range.workerStart <= v <= pool.range.workerEnd)
               && pool.config.subnet.Contains(spec.address.ip)
  {
    PoolInEveryRun(states, events, cluster, pool, n);
    WellFormedRange(pool);
    var ip := states[n].claims[k].spec.address.ip;
    FromToUint32(ip);
    assert pool.config.subnet.Contains(FromUint32(ToUint32(ip)));
  }

  // ----- how far a role's addresses reach -----

  /** The addressed claims of the cluster in one role. */
  function RoleHolders(claims: map<Key, Claim>, cluster: Key, controlPlane: bool): set<Key> {
    set k | k in claims && Member(claims, k, cluster) && claims[k].spec.controlPlane == controlPlane
  }

  /** The address of a claim as a number, -1 when it has none. */
  function AddressValue(claims: map<Key, Claim>, k: Key): int {
    if k in claims && claims[k].spec.address.Dotted? then ToUint32(claims[k].spec.address.ip) else -1
  }

  predicate HeldInRole(claims: map<Key, Claim>, cluster: Key, controlPlane: bool, x: int) {
    Held(x, RoleHolders(claims, cluster, controlPlane), k => AddressValue(claims, k))
  }

  /** Every address of the role is among the first `mark` of its range. */
  ghost predicate Below(claims: map<Key, Claim>, cluster: Key, controlPlane: bool, range: Range, mark: int) {
    forall k | k in RoleHolders(claims, cluster, controlPlane) ::
      AddressValue(claims, k) < range.Start(controlPlane) + mark
  }

  /** Storing a fresh address in state `s`: everything below it in the role's range is held
      by claims of that role, before and after. */
  lemma LowerAddressesHeld(s: State, key: Key, t: State, cluster: Key, pool: Pool, x: int)
    requires PoolInvariant(s, cluster, pool) && WellFormed(pool)
    requires MachinePool(s, key) == Ok(pool) && ClusterOf(s, key) == cluster && Within(s, key, pool, t)
    requires var ck := ClaimKey(key);
             && Member(t.claims, ck, cluster)
             && (ck in s.claims ==> s.claims[ck].spec.address == NoAddress)
    requires var spec := t.claims[ClaimKey(key)].spec;
             pool.range.Start(spec.controlPlane) <= x < AddressValue(t.claims, ClaimKey(key))
    ensures HeldInRole(s.claims, cluster, t.claims[ClaimKey(key)].spec.controlPlane, x)
    ensures HeldInRole(t.claims, cluster, t.claims[ClaimKey(key)].spec.controlPlane, x)
  {
    var ck := ClaimKey(key);
    var cp := t.claims[ck].spec.controlPlane;
    FreshAddress(s, key, pool, t.claims[ck]);
    WellFormedRange(pool);
    var u: Uint32 := x;
    assert u in InUse(s.claims, ck, cluster.name);
    var k :| k in s.claims && Holds(s.claims, k, ck, cluster.name) && s.claims[k].spec.address.Dotted?
             && ToUint32(s.claims[k].spec.address.ip) == x;
    assert Member(s.claims, k, cluster);
    assert s.claims[k].spec.controlPlane == cp;
    assert Stored(t.claims, k) == Stored(s.claims, k);
    assert k in RoleHolders(s.claims, cluster, cp) && AddressValue(s.claims, k) == x;
    assert Member(t.claims, k, cluster);
    assert k in RoleHolders(t.claims, cluster, cp) && AddressValue(t.claims, k) == x;
  }

  /** After a fresh address is stored there are enough claims of the role to fill the range
      from its start up to that address. */
  lemma FreshAddressCounted(s: State, key: Key, t: State, cluster: Key, pool: Pool)
    requires PoolInvariant(s, cluster, pool) && WellFormed(pool)
    requires MachinePool(s, key) == Ok(pool) && ClusterOf(s, key) == cluster && Within(s, key, pool, t)
    requires var ck := ClaimKey(key);
             && Member(t.claims, ck, cluster)
             && (ck in s.claims ==> s.claims[ck].spec.address == NoAddress)
    ensures var cp := t.claims[ClaimKey(key)].spec.controlPlane;
            AddressValue(t.claims, ClaimKey(key))
            < pool.range.Start(cp) + |RoleHolders(t.claims, cluster, cp)|
  {
    var ck := ClaimKey(key);
    var cp := t.claims[ck].spec.controlPlane;
    var a := AddressValue(t.claims, ck);
    var value := k => AddressValue(t.claims, k);
    FreshAddress(s, key, pool, t.claims[ck]);
    forall x | pool.range.Start(cp) <= x < a + 1 ensures Held(x, RoleHolders(t.claims, cluster, cp), value) {
      if x < a {
        LowerAddressesHeld(s, key, t, cluster, pool, x);
        var k :| k in RoleHolders(t.claims, cluster, cp) && AddressValue(t.claims, k) == x;
        assert value(k) == x;
      } else {
        assert ck in RoleHolders(t.claims, cluster, cp) && value(ck) == x;
      }
    }
    Pigeonhole(pool.range.Start(cp), a + 1, RoleHolders(t.claims, cluster, cp), value);
  }

  lemma BelowStep(s: State, key: Key, verdicts: seq<bool>, cluster: Key, controlPlane: bool, pool: Pool, mark: int)
    requires PoolInvariant(s, cluster, pool) && WellFormed(pool)
    requires Below(s.claims, cluster, controlPlane, pool.range, mark)
    requires |RoleHolders(Next(s, key, verdicts).claims, cluster, controlPlane)| <= mark
    ensures Below(Next(s, key, verdicts).claims, cluster, controlPlane, pool.range, mark)
  {
    var t := Next(s, key, verdicts);
    RunWithin(s, key, verdicts);
    forall k | k in RoleHolders(t.claims, cluster, controlPlane)
      ensures AddressValue(t.claims, k) < pool.range.Start(controlPlane) + mark
    {
      if Stored(t.claims, k) == Stored(s.claims, k) {
        assert Member(s.claims, k, cluster);
        assert k in RoleHolders(s.claims, cluster, controlPlane);
      } else {
        OwnClaimBelow(s, key, t, cluster, controlPlane, pool, mark);
      }
    }
  }

  lemma OwnClaimBelow(s: State, key: Key, t: State, cluster: Key, controlPlane: bool, pool: Pool, mark: int)
    requires PoolInvariant(s, cluster, pool) && WellFormed(pool)
    requires Below(s.claims, cluster, controlPlane, pool.range, mark)
    requires MachinePool(s, key).Ok? && Within(s, key, MachinePool(s, key).value, t)
    requires |RoleHolders(t.claims, cluster, controlPlane)| <= mark
    requires ClaimKey(key) in RoleHolders(t.claims, cluster, controlPlane)
    requires Stored(t.claims, ClaimKey(key)) != Stored(s.claims, ClaimKey(key))
    ensures AddressValue(t.claims, ClaimKey(key)) < pool.range.Start(controlPlane) + mark
  {
    var ck := ClaimKey(key);
    assert ClusterOf(s, key) == cluster && MachinePool(s, key).value == pool;
    if ck in s.claims && s.claims[ck].spec.address != NoAddress {
      assert Member(s.claims, ck, cluster);
      assert ck in RoleHolders(s.claims, cluster, controlPlane);
    } else {
      FreshAddressCounted(s, key, t, cluster, pool);
    }
  }

  /** The role never has more than `peak` addressed claims at a time. */
  ghost predicate PeakAtMost(states: seq<State>, cluster: Key, controlPlane: bool, peak: int) {
    forall i | 0 <= i < |states| :: |RoleHolders(states[i].claims, cluster, controlPlane)| <= peak
  }

  lemma HoldersAtMost(states: seq<State>, cluster: Key, controlPlane: bool, peak: int, i: nat)
    requires PeakAtMost(states, cluster, controlPlane, peak) && i < |states|
    ensures |RoleHolders(states[i].claims, cluster, controlPlane)| <= peak
  {
  }

  /** High-water bound: if a role never has more than `peak` addressed claims at a time, no
      address beyond the first `peak` of its range is ever handed out, whatever the order in
      which claims come and go. */
  lemma {:induction false} HighWaterMark(states: seq<State>, events: seq<Event>, cluster: Key, controlPlane: bool,
                                         pool: Pool, peak: int, n: nat)
    requires WellFormed(pool) && IsRun(states, events, PoolKeeping(cluster, pool))
    requires PoolInvariant(states[0], cluster, pool)
    requires Below(states[0].claims, cluster, controlPlane, pool.range, peak)
    requires PeakAtMost(states, cluster, controlPlane, peak)
    requires n < |states|
    ensures PoolInvariant(states[n], cluster, pool) && Below(states[n].claims, cluster, controlPlane, pool.range, peak)
  {
    if n > 0 {
      HighWaterMark(states, events, cluster, controlPlane, pool, peak, n - 1);
      HighWaterStep(states, events, cluster, controlPlane, pool, peak, n - 1);
    }
  }

  lemma HighWaterStep(states: seq<State>, events: seq<Event>, cluster: Key, controlPlane: bool,
                      pool: Pool, peak: int, i: nat)
    requires WellFormed(pool) && IsRun(states, events, PoolKeeping(cluster, pool))
    requires i < |events| && PoolInvariant(states[i], cluster, pool)
    requires Below(states[i].claims, cluster, controlPlane, pool.range, peak)
    requires PeakAtMost(states, cluster, controlPlane, peak)
    ensures PoolInvariant(states[i + 1], cluster, pool)
    ensures Below(states[i + 1].claims, cluster, controlPlane, pool.range, peak)
  {
    RunStep(states, events, PoolKeeping(cluster, pool), i);
    HoldersAtMost(states, cluster, controlPlane, peak, i + 1);
    PoolFollows(states[i], events[i], states[i + 1], cluster, pool);
    BelowFollows(states[i], events[i], states[i + 1], cluster, controlPlane, pool, peak);
  }

  lemma BelowFollows(s: State, e: Event, t: State, cluster: Key, controlPlane: bool, pool: Pool, mark: int)
    requires Follows(s, e, t, PoolKeeping(cluster, pool))
    requires PoolInvariant(s, cluster, pool) && WellFormed(pool)
    requires Below(s.claims, cluster, controlPlane, pool.range, mark)
    requires |RoleHolders(t.claims, cluster, controlPlane)| <= mark
    ensures Below(t.claims, cluster, controlPlane, pool.range, mark)
  {
    match e
    case Reconciled(key, verdicts) => BelowStep(s, key, verdicts, cluster, controlPlane, pool, mark);
    case Environment =>
      forall k | k in RoleHolders(t.claims, cluster, controlPlane)
        ensures AddressValue(t.claims, k) < pool.range.Start(controlPlane) + mark
      {
        assert Member(s.claims, k, cluster);
        assert k in RoleHolders(s.claims, cluster, controlPlane);
      }
  }

  // ----- no gaps without removals -----

  /** The role holds exactly the first `count` addresses of its range. */
  ghost predicate Prefilled(claims: map<Key, Claim>, cluster: Key, controlPlane: bool, range: Range, count: nat) {
    forall x :: HeldInRole(claims, cluster, controlPlane, x)
           <==> range.Start(controlPlane) <= x < range.Start(controlPlane) + count
  }

  ghost predicate NoGaps(claims: map<Key, Claim>, cluster: Key, controlPlane: bool, range: Range) {
    exists count: nat :: Prefilled(claims, cluster, controlPlane, range, count)
  }

  /** Besides keeping the pool, the environment drops no addressed claim. */
  ghost predicate DropsNothing(s: State, t: State, cluster: Key, pool: Pool) {
    KeepsPool(s, t, cluster, pool) && forall k | Member(s.claims, k, cluster) :: Member(t.claims, k, cluster)
  }

  ghost function PoolGrowing(cluster: Key, pool: Pool): (State, State) -> bool {
    (s, t) => DropsNothing(s, t, cluster, pool)
  }

  lemma SameHolders(before: map<Key, Claim>, after: map<Key, Claim>, cluster: Key, controlPlane: bool, x: int)
    requires forall k ::
               k in RoleHolders(before, cluster, controlPlane) <==> k in RoleHolders(after, cluster, controlPlane)
    requires forall k | k in RoleHolders(before, cluster, controlPlane) ::
               AddressValue(before, k) == AddressValue(after, k)
    ensures HeldInRole(before, cluster, controlPlane, x) <==> HeldInRole(after, cluster, controlPlane, x)
  {
    var b, a := k => AddressValue(before, k), k => AddressValue(after, k);
    if HeldInRole(before, cluster, controlPlane, x) {
      var k :| k in RoleHolders(before, cluster, controlPlane) && AddressValue(before, k) == x;
      assert a(k) == x;
    }
    if HeldInRole(after, cluster, controlPlane, x) {
      var k :| k in RoleHolders(after, cluster, controlPlane) && AddressValue(after, k) == x;
      assert b(k) == x;
    }
  }

  lemma NoGapsSame(before: map<Key, Claim>, after: map<Key, Claim>, cluster: Key, controlPlane: bool, range: Range)
    requires NoGaps(before, cluster, controlPlane, range)
    requires forall k ::
               k in RoleHolders(before, cluster, controlPlane) <==> k in RoleHolders(after, cluster, controlPlane)
    requires forall k | k in RoleHolders(before, cluster, controlPlane) ::
               AddressValue(before, k) == AddressValue(after, k)
    ensures NoGaps(after, cluster, controlPlane, range)
  {
    var count: nat :| Prefilled(before, cluster, controlPlane, range, count);
    forall x ensures HeldInRole(after, cluster, controlPlane, x)
                <==> range.Start(controlPlane) <= x < range.Start(controlPlane) + count
    {
      SameHolders(before, after, cluster, controlPlane, x);
    }
    assert Prefilled(after, cluster, controlPlane, range, count);
  }

  /** A fresh address extends the filled part of its role's range by one. */
  lemma FreshAddressExtends(s: State, key: Key, t: State, cluster: Key, pool: Pool, count: nat)
    requires PoolInvariant(s, cluster, pool) && WellFormed(pool)
    requires MachinePool(s, key) == Ok(pool) && ClusterOf(s, key) == cluster && Within(s, key, pool, t)
    requires var ck := ClaimKey(key);
             && Member(t.claims, ck, cluster)
             && (ck in s.claims ==> s.claims[ck].spec.address == NoAddress)
    requires Prefilled(s.claims, cluster, t.claims[ClaimKey(key)].spec.controlPlane, pool.range, count)
    ensures AddressValue(t.claims, ClaimKey(key))
         == pool.range.Start(t.claims[ClaimKey(key)].spec.controlPlane) + count
  {
    var ck := ClaimKey(key);
    var cp := t.claims[ck].spec.controlPlane;
    var a, start := AddressValue(t.claims, ck), pool.range.Start(cp);
    FreshAddress(s, key, pool, t.claims[ck]);
    if a > start {
      LowerAddressesHeld(s, key, t, cluster, pool, a - 1);
    }
    UnusedNotHeld(s.claims, ck, cluster, cp, a);
  }

  lemma UnusedNotHeld(claims: map<Key, Claim>, own: Key, cluster: Key, controlPlane: bool, x: Uint32)
    requires own.ns == cluster.ns && x !in InUse(claims, own, cluster.name)
    requires own in claims ==> claims[own].spec.address == NoAddress
    ensures !HeldInRole(claims, cluster, controlPlane, x)
  {
    forall k | k in RoleHolders(claims, cluster, controlPlane) ensures AddressValue(claims, k) != x {
      assert k != own;
      assert Holds(claims, k, own, cluster.name);
      assert claims[k].spec.address.Dotted? ==> ToUint32(claims[k].spec.address.ip) in InUse(claims, own, cluster.name);
    }
  }

  /** One run leaves a role without gaps without gaps. */
  lemma NoGapsStep(s: State, key: Key, verdicts: seq<bool>, cluster: Key, controlPlane: bool, pool: Pool)
    requires PoolInvariant(s, cluster, pool) && WellFormed(pool)
    requires NoGaps(s.claims, cluster, controlPlane, pool.range)
    ensures NoGaps(Next(s, key, verdicts).claims, cluster, controlPlane, pool.range)
  {
    var t := Next(s, key, verdicts);
    var ck := ClaimKey(key);
    RunWithin(s, key, verdicts);
    if MachinePool(s, key).Ok? {
      OthersSame(s, key, t, cluster, controlPlane);
      if ck in RoleHolders(t.claims, cluster, controlPlane) && ck !in RoleHolders(s.claims, cluster, controlPlane) {
        NewHolder(s, key, t, cluster, controlPlane, pool);
      } else {
        OwnSame(s, key, t, cluster, controlPlane);
        NoGapsSame(s.claims, t.claims, cluster, controlPlane, pool.range);
      }
    }
  }

  lemma OthersSame(s: State, key: Key, t: State, cluster: Key, controlPlane: bool)
    requires MachinePool(s, key).Ok? && Within(s, key, MachinePool(s, key).value, t)
    ensures forall k | k != ClaimKey(key) ::
              && (k in RoleHolders(s.claims, cluster, controlPlane)
                  <==> k in RoleHolders(t.claims, cluster, controlPlane))
              && AddressValue(s.claims, k) == AddressValue(t.claims, k)
  {
    forall k | k != ClaimKey(key)
      ensures k in RoleHolders(s.claims, cluster, controlPlane) <==> k in RoleHolders(t.claims, cluster, controlPlane)
      ensures AddressValue(s.claims, k) == AddressValue(t.claims, k)
    {
      assert Stored(t.claims, k) == Stored(s.claims, k);
    }
  }

  lemma OwnSame(s: State, key: Key, t: State, cluster: Key, controlPlane: bool)
    requires KeepsCluster(s) && KeepsRole(s)
    requires MachinePool(s, key).Ok? && Within(s, key, MachinePool(s, key).value, t)
    requires ClaimKey(key) in RoleHolders(t.claims, cluster, controlPlane)
         ==> ClaimKey(key) in RoleHolders(s.claims, cluster, controlPlane)
    ensures var ck := ClaimKey(key);
            && (ck in RoleHolders(s.claims, cluster, controlPlane)
                <==> ck in RoleHolders(t.claims, cluster, controlPlane))
            && (ck in RoleHolders(s.claims, cluster, controlPlane) ==>
                  AddressValue(s.claims, ck) == AddressValue(t.claims, ck))
  {
  }

  lemma NewHolder(s: State, key: Key, t: State, cluster: Key, controlPlane: bool, pool: Pool)
    requires PoolInvariant(s, cluster, pool) && WellFormed(pool)
    requires NoGaps(s.claims, cluster, controlPlane, pool.range)
    requires MachinePool(s, key).Ok? && Within(s, key, MachinePool(s, key).value, t)
    requires ClaimKey(key) in RoleHolders(t.claims, cluster, controlPlane)
    requires ClaimKey(key) !in RoleHolders(s.claims, cluster, controlPlane)
    ensures NoGaps(t.claims, cluster, controlPlane, pool.range)
  {
    var ck := ClaimKey(key);
    var count: nat :| Prefilled(s.claims, cluster, controlPlane, pool.range, count);
    assert ck in s.claims ==> s.claims[ck].spec.address == NoAddress;
    FreshAddressExtends(s, key, t, cluster, pool, count);
    OthersSame(s, key, t, cluster, controlPlane);
    PrefilledGrows(s.claims, t.claims, cluster, controlPlane, pool.range, ck, count);
  }

  lemma PrefilledGrows(before: map<Key, Claim>, after: map<Key, Claim>, cluster: Key, controlPlane: bool, range: Range,
                       ck: Key, count: nat)
    requires Prefilled(before, cluster, controlPlane, range, count)
    requires ck in RoleHolders(after, cluster, controlPlane) && ck !in RoleHolders(before, cluster, controlPlane)
    requires AddressValue(after, ck) == range.Start(controlPlane) + count
    requires forall k | k != ck ::
              && (k in RoleHolders(before, cluster, controlPlane) <==> k in RoleHolders(after, cluster, controlPlane))
              && AddressValue(before, k) == AddressValue(after, k)
    ensures NoGaps(after, cluster, controlPlane, range)
  {
    forall x ensures HeldInRole(after, cluster, controlPlane, x)
                <==> HeldInRole(before, cluster, controlPlane, x) || x == AddressValue(after, ck)
    {
      OneMoreHolder(before, after, cluster, controlPlane, ck, x);
    }
    assert Prefilled(after, cluster, controlPlane, range, count + 1);
  }

  lemma OneMoreHolder(before: map<Key, Claim>, after: map<Key, Claim>, cluster: Key, controlPlane: bool, ck: Key,
                      x: int)
    requires ck in RoleHolders(after, cluster, controlPlane) && ck !in RoleHolders(before, cluster, controlPlane)
    requires forall k | k != ck ::
              && (k in RoleHolders(before, cluster, controlPlane) <==> k in RoleHolders(after, cluster, controlPlane))
              && AddressValue(before, k) == AddressValue(after, k)
    ensures HeldInRole(after, cluster, controlPlane, x)
       <==> HeldInRole(before, cluster, controlPlane, x) || x == AddressValue(after, ck)
  {
    var b, a := k => AddressValue(before, k), k => AddressValue(after, k);
    if HeldInRole(before, cluster, controlPlane, x) {
      var k :| k in RoleHolders(before, cluster, controlPlane) && AddressValue(before, k) == x;
      assert a(k) == x;
    }
    if HeldInRole(after, cluster, controlPlane, x) {
      var k :| k in RoleHolders(after, cluster, controlPlane) && AddressValue(after, k) == x;
      assert b(k) == x || k == ck;
    }
    if x == AddressValue(after, ck) {
      assert a(ck) == x;
    }
  }

  lemma NoGapsFollows(s: State, e: Event, t: State, cluster: Key, controlPlane: bool, pool: Pool)
    requires Follows(s, e, t, PoolGrowing(cluster, pool))
    requires PoolInvariant(s, cluster, pool) && WellFormed(pool)
    requires NoGaps(s.claims, cluster, controlPlane, pool.range)
    ensures PoolInvariant(t, cluster, pool) && NoGaps(t.claims, cluster, controlPlane, pool.range)
  {
    match e
    case Reconciled(key, verdicts) =>
      PoolStep(s, key, verdicts, cluster, pool);
      NoGapsStep(s, key, verdicts, cluster, controlPlane, pool);
    case Environment =>
      PoolEnvironmentStep(s, t, cluster, pool);
      forall k ensures Member(s.claims, k, cluster) <==> Member(t.claims, k, cluster) {
      }
      NoGapsSame(s.claims, t.claims, cluster, controlPlane, pool.range);
  }

  /** While no addressed claim is dropped, the live addresses of a role are always the first
      addresses of its range, without a gap. */
  lemma {:induction false} NoGapsInEveryRun(states: seq<State>, events: seq<Event>, cluster: Key, controlPlane: bool,
                                            pool: Pool, n: nat)
    requires WellFormed(pool) && IsRun(states, events, PoolGrowing(cluster, pool))
    requires PoolInvariant(states[0], cluster, pool) && NoGaps(states[0].claims, cluster, controlPlane, pool.range)
    requires n < |states|
    ensures PoolInvariant(states[n], cluster, pool) && NoGaps(states[n].claims, cluster, controlPlane, pool.range)
  {
    if n > 0 {
      NoGapsInEveryRun(states, events, cluster, controlPlane, pool, n - 1);
      RunStep(states, events, PoolGrowing(cluster, pool), n - 1);
      NoGapsFollows(states[n - 1], events[n - 1], states[n], cluster, controlPlane, pool);
    }
  }

  // ----- the surge reserve -----

  /** The other claims of the cluster that hold an address of the control-plane range. */
  function ReserveHolders(claims: map<Key, Claim>, own: Key, clusterName: string, range: Range): set<Key> {
    set k | k in claims && Holds(claims, k, own, clusterName) && claims[k].spec.address.Dotted?
            && InRoleRange(range, true, claims[k].spec.address.ip)
  }

  predicate ReserveHeld(claims: map<Key, Claim>, own: Key, clusterName: string, range: Range, x: int) {
    Held(x, ReserveHolders(claims, own, clusterName, range), k => AddressValue(claims, k))
  }

  /** Every claim that holds an address of the cluster holds an IPv4 address. */
  ghost predicate HoldersValid(claims: map<Key, Claim>, own: Key, clusterName: string) {
    forall k | Holds(claims, k, own, clusterName) :: claims[k].spec.address.Dotted?
  }

  /** With a range that keeps `reserved` control-plane addresses, an allocation runs out of
      control-plane addresses if and only if other claims hold all of them, worker claims or
      not, and then there are at least that many such claims. */
  lemma ReserveExhausted(claims: map<Key, Claim>, own: Key, clusterName: string, pool: Pool, reserved: int)
    requires FitsReserve(pool, reserved) && HoldersValid(claims, own, clusterName)
    ensures var start := pool.range.controlPlaneStart;
            Allocate(claims, own, clusterName, true, pool.range).Err?
            <==> forall x | start <= x < start + reserved :: ReserveHeld(claims, own, clusterName, pool.range, x)
    ensures Allocate(claims, own, clusterName, true, pool.range).Err? ==>
              |ReserveHolders(claims, own, clusterName, pool.range)| >= reserved
  {
    RangePartition(pool.config.subnet, reserved);
    NextAvailableIsLeast(true, InUse(claims, own, clusterName), pool.range);
    assert forall k | k in claims && Holds(claims, k, own, clusterName) :: claims[k].spec.address.Dotted?;
    var start := pool.range.controlPlaneStart;
    forall x: Uint32 | start <= x < start + reserved
      ensures x in InUse(claims, own, clusterName) <==> ReserveHeld(claims, own, clusterName, pool.range, x)
    {
      InUseMeansHeld(claims, own, clusterName, pool.range, x);
    }
    if Allocate(claims, own, clusterName, true, pool.range).Err? {
      forall x | start <= x < start + reserved ensures ReserveHeld(claims, own, clusterName, pool.range, x) {
        var u: Uint32 := x;
        assert u in InUse(claims, own, clusterName);
      }
      ReserveCounted(claims, own, clusterName, pool.range, start + reserved);
    }
  }

  lemma ReserveCounted(claims: map<Key, Claim>, own: Key, clusterName: string, range: Range, end: int)
    requires range.controlPlaneStart <= end
    requires forall x | range.controlPlaneStart <= x < end :: ReserveHeld(claims, own, clusterName, range, x)
    ensures |ReserveHolders(claims, own, clusterName, range)| >= end - range.controlPlaneStart
  {
    var holders, value := ReserveHolders(claims, own, clusterName, range), k => AddressValue(claims, k);
    forall x | range.controlPlaneStart <= x < end ensures Held(x, holders, value) {
      assert ReserveHeld(claims, own, clusterName, range, x);
      var k :| k in holders && AddressValue(claims, k) == x;
      assert value(k) == x;
    }
    Pigeonhole(range.controlPlaneStart, end, holders, value);
  }

  lemma InUseMeansHeld(claims: map<Key, Claim>, own: Key, clusterName: string, range: Range, x: Uint32)
    requires range.controlPlaneStart <= x <= range.controlPlaneEnd
    ensures x in InUse(claims, own, clusterName) <==> ReserveHeld(claims, own, clusterName, range, x)
  {
    var holders, value := ReserveHolders(claims, own, clusterName, range), k => AddressValue(claims, k);
    if x in InUse(claims, own, clusterName) {
      var k :| k in claims && Holds(claims, k, own, clusterName) && claims[k].spec.address.Dotted?
               && ToUint32(claims[k].spec.address.ip) == x;
      assert k in holders && value(k) == x;
    }
    if ReserveHeld(claims, own, clusterName, range, x) {
      var k :| k in holders && AddressValue(claims, k) == x;
      assert ToUint32(claims[k].spec.address.ip) in InUse(claims, own, clusterName);
    }
  }

  /** Surge: the pool is sized for one control-plane machine more than there are replicas, so
      while at most `replicas` other claims hold addresses of the control-plane range, a
      control-plane machine gets an address, however many workers there are. */
  lemma SurgeAlwaysFits(s: State, key: Key)
    requires MachinePool(s, key).Ok? && s.machines[key].IsControlPlane()
    requires var replicas, pool := ControlPlaneReplicas(s, ClusterOf(s, key)).value, MachinePool(s, key).value;
             && FitsReserve(pool, replicas + CONTROL_PLANE_RESERVE_SURGE)
             && |ReserveHolders(s.claims, ClaimKey(key), s.machines[key].clusterName, pool.range)| <= replicas
    requires HoldersValid(s.claims, ClaimKey(key), s.machines[key].clusterName)
    requires ClaimKey(key) in s.claims ==> !s.claims[ClaimKey(key)].spec.address.Invalid?
    ensures ClaimPlan(s.claims, key, s.machines[key], MachinePool(s, key).value).address.Ok?
    ensures !Plan(s, key).outcome.NoAllocation?
  {
    var m, pool, own := s.machines[key], MachinePool(s, key).value, ClaimKey(key);
    FirstVersionsOk(s.claims, key, m, pool);
    ReserveExhausted(s.claims, own, m.clusterName, pool,
                     ControlPlaneReplicas(s, ClusterOf(s, key)).value + CONTROL_PLANE_RESERVE_SURGE);
    AddressedRun(s, key);
  }

  /** Under the pool's invariant only control-plane claims hold addresses of the reserve. */
  lemma ReserveIsForControlPlanes(s: State, key: Key, cluster: Key, pool: Pool)
    requires PoolInvariant(s, cluster, pool) && WellFormed(pool)
    requires MachinePool(s, key).Ok? && ClusterOf(s, key) == cluster
    ensures HoldersValid(s.claims, ClaimKey(key), cluster.name)
    ensures ReserveHolders(s.claims, ClaimKey(key), cluster.name, pool.range)
         <= RoleHolders(s.claims, cluster, true) - {ClaimKey(key)}
    ensures ClaimKey(key) in s.claims ==> !s.claims[ClaimKey(key)].spec.address.Invalid?
  {
    var own := ClaimKey(key);
    WellFormedRange(pool);
    forall k | Holds(s.claims, k, own, cluster.name)
      ensures Member(s.claims, k, cluster) && s.claims[k].spec.address.Dotted?
    {
      assert Member(s.claims, k, cluster);
    }
    NothingKeptOutside(s, key, cluster, pool);
  }

  /** In every state of every run with a fixed pool: while at most `replicas` other
      control-plane claims are addressed, a run for a control-plane machine finds an address. */
  lemma SurgeInEveryRun(states: seq<State>, events: seq<Event>, cluster: Key, pool: Pool, n: nat, key: Key)
    requires WellFormed(pool) && IsRun(states, events, PoolKeeping(cluster, pool))
    requires PoolInvariant(states[0], cluster, pool) && n < |states|
    requires MachinePool(states[n], key).Ok? && ClusterOf(states[n], key) == cluster
    requires states[n].machines[key].IsControlPlane()
    requires var replicas := ControlPlaneReplicas(states[n], cluster).value;
             && FitsReserve(pool, replicas + CONTROL_PLANE_RESERVE_SURGE)
             && |RoleHolders(states[n].claims, cluster, true) - {ClaimKey(key)}| <= replicas
    ensures ClaimPlan(states[n].claims, key, states[n].machines[key], pool).address.Ok?
    ensures !Plan(states[n], key).outcome.NoAllocation?
  {
    var s := states[n];
    PoolInEveryRun(states, events, cluster, pool, n);
    ReserveIsForControlPlanes(s, key, cluster, pool);
    SubsetSize(ReserveHolders(s.claims, ClaimKey(key), cluster.name, pool.range),
               RoleHolders(s.claims, cluster, true) - {ClaimKey(key)});
    SurgeAlwaysFits(s, key);
  }

  lemma AddressedRun(s: State, key: Key)
    requires MachinePool(s, key).Ok?
    requires ClaimPlan(s.claims, key, s.machines[key], MachinePool(s, key).value).address.Ok?
    ensures !Plan(s, key).outcome.NoAllocation?
  {
  }

  /** The address a run works with, new or old, lies in the cluster's subnet. */
  lemma PlannedAddressInSubnet(s: State, key: Key, cluster: Key, pool: Pool)
    requires PoolInvariant(s, cluster, pool) && WellFormed(pool)
    requires MachinePool(s, key).Ok? && ClusterOf(s, key) == cluster
    ensures var address := ClaimPlan(s.claims, key, s.machines[key], pool).address;
            address.Ok? ==> pool.config.subnet.Contains(address.value)
  {
    var m, ck := s.machines[key], ClaimKey(key);
    var claimRun := ClaimPlan(s.claims, key, m, pool);
    FirstVersionsOk(s.claims, key, m, pool);
    if claimRun.address.Ok? {
      if ck in s.claims && s.claims[ck].spec.address != NoAddress {
        assert Member(s.claims, ck, cluster);
        RoleRangeInSubnet(pool, s.claims[ck].spec.controlPlane, claimRun.address.value);
      } else {
        AllocatedInRange(s.claims, ck, m.clusterName, m.IsControlPlane(), pool);
        RoleRangeInSubnet(pool, m.IsControlPlane(), claimRun.address.value);
      }
    }
  }

  lemma AllocatedInRange(claims: map<Key, Claim>, own: Key, clusterName: string, controlPlane: bool, pool: Pool)
    requires WellFormed(pool) && Allocate(claims, own, clusterName, controlPlane, pool.range).Ok?
    ensures InRoleRange(pool.range, controlPlane, Allocate(claims, own, clusterName, controlPlane, pool.range).value)
  {
    WellFormedRange(pool);
    NextAvailableIsLeast(controlPlane, InUse(claims, own, clusterName), pool.range);
  }

  lemma RoleRangeInSubnet(pool: Pool, controlPlane: bool, ip: Addr)
    requires WellFormed(pool) && InRoleRange(pool.range, controlPlane, ip)
    ensures pool.config.subnet.Contains(ip)
  {
    WellFormedRange(pool);
    FromToUint32(ip);
    assert pool.config.subnet.Contains(FromUint32(ToUint32(ip)));
  }
}
