/** A running control-plane machine without a claim, as a state in which a run goes all the
    way: claim, address, status, secret, deletion. */
module Example {
  import opened Outcomes
  import opened Ipv4
  import opened Allocator
  import opened LinkConfig
  import opened Bootstrap
  import opened ClusterState
  import opened MachineIP
  import opened Effects
  import opened Runs
  import opened Pools
  import opened Settling
  import opened Resume

  const MACHINE_KEY := Key("org", "a")
  const CLUSTER_KEY := Key("org", "c")
  const SECRET_KEY := Key("org", "s")
  const SUBNET := Prefix([10, 71, 22, 0], 24)
  const REPLICAS: Int32 := 3

  const MACHINE := Machine("uid", "c", Some("c"), Some(""), false, true, Some(Ref("TalosConfig", "t")), true)

  const START := State(
    map[MACHINE_KEY := MACHINE],
    map[CLUSTER_KEY := ClusterSetting(Subnet(SUBNET), Plain(""))],
    map[CLUSTER_KEY := Some(Ref("TalosControlPlane", "p"))],
    map[Key("org", "p") := REPLICAS],
    map[Key("org", "t") := Some("s")],
    map[],
    map[SECRET_KEY := map["value" := Bytes(0, [])]]
  )

  /** The pool of the example. */
  lemma ExamplePool() returns (pool: Pool)
    ensures MachinePool(START, MACHINE_KEY) == Ok(pool) && ClusterOf(START, MACHINE_KEY) == CLUSTER_KEY
    ensures FitsReserve(pool, REPLICAS + CONTROL_PLANE_RESERVE_SURGE)
  {
    var config := NodeConfig(SUBNET.Masked(), DEFAULT_INTERFACE);
    ExampleRange(config.subnet);
    pool := Pool(config, NewRange(config.subnet, REPLICAS + CONTROL_PLANE_RESERVE_SURGE).value);
    ExampleLookups(pool);
  }

  lemma ExampleRange(subnet: Prefix)
    requires subnet.bits == 24
    ensures REPLICAS + CONTROL_PLANE_RESERVE_SURGE + 4 <= Pow2(subnet.HostBits())
    ensures NewRange(subnet, REPLICAS + CONTROL_PLANE_RESERVE_SURGE).Ok?
  {
    assert Pow2(8) == 256;
    RangePartition(subnet, REPLICAS + CONTROL_PLANE_RESERVE_SURGE);
  }

  lemma ExampleLookups(pool: Pool)
    requires pool.config == NodeConfig(SUBNET.Masked(), DEFAULT_INTERFACE)
    requires NewRange(pool.config.subnet, REPLICAS + CONTROL_PLANE_RESERVE_SURGE) == Ok(pool.range)
    ensures MachinePool(START, MACHINE_KEY) == Ok(pool) && ClusterOf(START, MACHINE_KEY) == CLUSTER_KEY
  {
    ExampleReplicas();
    assert ExternalNodeConfig(START.clusters[CLUSTER_KEY]) == Ok(Some(pool.config));
    assert ClusterPool(START, CLUSTER_KEY) == Ok(pool);
  }

  lemma ExampleReplicas()
    ensures ControlPlaneReplicas(START, CLUSTER_KEY) == Some(REPLICAS)
  {
  }

  /** Its claim gets the first control-plane address. */
  lemma ExampleAddress(pool: Pool)
    requires FitsReserve(pool, REPLICAS + CONTROL_PLANE_RESERVE_SURGE)
    ensures ClaimPlan(map[], MACHINE_KEY, MACHINE, pool).address == Ok(FromUint32(pool.range.controlPlaneStart))
  {
    var ck := ClaimKey(MACHINE_KEY);
    RangePartition(pool.config.subnet, REPLICAS + CONTROL_PLANE_RESERVE_SURGE);
    assert InUse(map[], ck, "c") == {};
    assert LeastFree(pool.range.controlPlaneStart, pool.range.controlPlaneEnd, {})
        == Some(pool.range.controlPlaneStart);
    assert Allocate(map[], ck, "c", true, pool.range) == Ok(FromUint32(pool.range.controlPlaneStart));
  }

  /** An empty byte stream gains one document. */
  lemma EmptyStreamGains(interfaceName: Text, desired: Prefix)
    ensures var data := UpsertData(Bytes(0, []), interfaceName, Cidr(desired));
            data.Ok? && data.value != Bytes(0, [])
  {
    assert Decode(Bytes(0, [])) == Ok([]);
    assert Marshal([]) == [];
    assert Addresses(map[]) == Ok([]);
    var patches := Upsert([], interfaceName, Cidr(desired)).value;
    assert |patches| == 1;
    assert |Encode(Docs(patches)).sections| == 1;
  }

  /** A run of the example means to delete its machine. */
  lemma ExampleRolls()
    ensures Plan(START, MACHINE_KEY).outcome == Rolled
  {
    var pool := ExamplePool();
    var ip := FromUint32(pool.range.controlPlaneStart);
    ExampleAddress(pool);
    ExampleSecret(pool.config, ip);
    PlanOutcome(START, MACHINE_KEY, MACHINE, pool, ip);
  }

  lemma ExampleSecret(config: NodeConfig, ip: Addr)
    ensures SecretPlan(START, MACHINE_KEY, MACHINE, config, ip).outcome == Rolled
  {
    EmptyStreamGains(config.interfaceName, Prefix(ip, config.subnet.bits));
    assert BootstrapSecret(START, "org", MACHINE) == Ok(SECRET_KEY);
  }

  /** The conditions that the theorems about pools ask for are met by the example. */
  lemma ExampleInvariant() returns (pool: Pool)
    ensures WellFormed(pool) && PoolInvariant(START, CLUSTER_KEY, pool)
  {
    pool := ExamplePool();
    assert WellFormed(pool);
  }

  // ----- a claim that brings its address along -----

  /** The claim of a machine `b` of the cluster. */
  const OTHER_KEY := Key("org", "b")

  function HeldClaim(clusterName: string, machineName: string, ip: Addr): Claim {
    Claim(ClaimSpec(clusterName, machineName, DEFAULT_INTERFACE, Cidr(SUBNET), true, Dotted(ip)), ["uid"], 1,
          ClaimStatus(Ready, AddressAllocated(ip), 1))
  }

  /** The machine has come back under its old name in another cluster, where its old claim's
      address is in use. */
  function Moved(ip: Addr): State {
    START.(claims := map[ClaimKey(MACHINE_KEY) := HeldClaim("old", "a", ip),
                         ClaimKey(OTHER_KEY) := HeldClaim("c", "b", ip)])
  }

  lemma OtherClaim()
    ensures ClaimKey(OTHER_KEY) != ClaimKey(MACHINE_KEY)
    ensures ClaimKey(OTHER_KEY).name != ClaimKey(MACHINE_KEY).name
  {
    if ClaimKey(OTHER_KEY) == ClaimKey(MACHINE_KEY) {
      ClaimKeyInjective(OTHER_KEY, MACHINE_KEY);
    }
  }

  lemma MovedClashes(ip: Addr)
    ensures KeptClash(Moved(ip), MACHINE_KEY)
  {
    var pool := ExamplePool();
    PoolDependsOn(START, Moved(ip), MACHINE_KEY);
    OtherClaim();
    assert HoldsSame(Moved(ip).claims, ClaimKey(OTHER_KEY), ClaimKey(MACHINE_KEY), "c");
  }

  lemma MovedUnique(ip: Addr)
    ensures Unique(Moved(ip).claims)
  {
    OtherClaim();
  }

  /** Before the run no two claims of a cluster share an address. If its first write is
      accepted two do afterwards, and if all its claim writes are, the machine's claim is
      nevertheless Ready. */
  lemma MovedDuplicates(ip: Addr, verdicts: seq<bool>)
    requires Accepts(verdicts, 0)
    ensures var s, ck := Moved(ip), ClaimKey(MACHINE_KEY);
            && Unique(s.claims) && !Unique(Next(s, MACHINE_KEY, verdicts).claims)
            && MachinePool(s, MACHINE_KEY).Ok?
            && var claimRun := ClaimPlan(s.claims, MACHINE_KEY, MACHINE, MachinePool(s, MACHINE_KEY).value);
               AcceptsFirst(verdicts, |claimRun.attempts|) ==>
                 ReadyWith(Next(s, MACHINE_KEY, verdicts).claims, ck, ip)
  {
    var s := Moved(ip);
    MovedUnique(ip);
    MovedClashes(ip);
    UniqueAfterRun(s, MACHINE_KEY, verdicts);
    if AcceptsFirst(verdicts, |ClaimPlan(s.claims, MACHINE_KEY, MACHINE, MachinePool(s, MACHINE_KEY).value).attempts|) {
      ClashEndsReady(s, MACHINE_KEY, verdicts);
    }
  }

  /** The same without the other claim. */
  function Returned(ip: Addr): State {
    START.(claims := map[ClaimKey(MACHINE_KEY) := HeldClaim("old", "a", ip)])
  }

  lemma ReturnedState(ip: Addr) returns (pool: Pool)
    ensures WellFormed(pool) && MachinePool(Returned(ip), MACHINE_KEY) == Ok(pool)
    ensures ClusterPool(Returned(ip), CLUSTER_KEY) == Ok(pool) && ClusterOf(Returned(ip), MACHINE_KEY) == CLUSTER_KEY
  {
    pool := ExamplePool();
    PoolDependsOn(START, Returned(ip), MACHINE_KEY);
    assert WellFormed(pool);
  }

  lemma ReturnedFits(ip: Addr, range: Range)
    ensures Separated(Returned(ip).claims, CLUSTER_KEY, range)
    ensures KeptOutside(Returned(ip), MACHINE_KEY, range) <==> !InRoleRange(range, true, ip)
  {
  }

  /** Every address the claim may come with is taken over, in the range or not. */
  lemma ReturnedIntrudes(ip: Addr, verdicts: seq<bool>) returns (pool: Pool)
    requires Accepts(verdicts, 0)
    ensures WellFormed(pool) && MachinePool(Returned(ip), MACHINE_KEY) == Ok(pool)
    ensures Separated(Returned(ip).claims, CLUSTER_KEY, pool.range)
    ensures Separated(Next(Returned(ip), MACHINE_KEY, verdicts).claims, CLUSTER_KEY, pool.range)
       <==> InRoleRange(pool.range, true, ip)
  {
    pool := ReturnedState(ip);
    ReturnedFits(ip, pool.range);
    SeparatedAfterRun(Returned(ip), MACHINE_KEY, verdicts, CLUSTER_KEY, pool);
  }
}
