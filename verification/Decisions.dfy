/** What a run decides, told by the objects it reads: whether the machine is dealt with at all,
    with which pool, what becomes of its bootstrap data, and whether the machine is deleted. */
module Decisions {
  import opened Outcomes
  import opened Ipv4
  import opened Allocator
  import opened LinkConfig
  import opened Bootstrap
  import opened ClusterState
  import opened MachineIP
  import opened Effects
  import opened Runs
  import opened Settling

  // ----- the pool -----

  /** The machine names a cluster of its namespace, and a subnet is set there. */
  predicate HasSubnet(s: State, key: Key, setting: SubnetSetting) {
    && key in s.machines && s.machines[key].clusterName != ""
    && var cluster := Key(key.ns, s.machines[key].clusterName);
       cluster in s.clusters && s.clusters[cluster].subnet == setting && setting != NoSubnet
  }

  /** The machine's cluster has a Talos control plane in its namespace with `n` replicas. */
  predicate HasReplicas(s: State, key: Key, n: int) {
    && key in s.machines
    && var cluster := Key(key.ns, s.machines[key].clusterName);
       && cluster in s.capiClusters && s.capiClusters[cluster].Some?
       && var ref := s.capiClusters[cluster].value;
          && ref.kind == "TalosControlPlane"
          && Key(key.ns, ref.name) in s.controlPlanes && s.controlPlanes[Key(key.ns, ref.name)] == n
  }

  /** The size check: `r` control planes, network, gateway, broadcast and a worker fit, or the
      compared values wrap. */
  predicate Fits(prefix: Prefix, r: int) {
    prefix.bits < 32
    && (r + 4 <= Pow2(prefix.HostBits()) || ToUint32(prefix.Masked().addr) + 2 + r >= 0x1_0000_0000)
  }

  /** The block of `size` addresses from `network` on with room for `r` control planes. */
  predicate SplitsAt(range: Range, network: int, size: int, r: int) {
    && range.network == network && range.broadcast == network + size - 1
    && range.controlPlaneStart == network + 2 && range.controlPlaneEnd == network + 1 + r
    && range.workerStart == network + 2 + r && range.workerEnd == network + size - 2
  }

  lemma RangeSpec(prefix: Prefix, r: int)
    requires 1 <= r <= 0x8000_0000
    ensures NewRange(prefix, r).Ok? <==> Fits(prefix, r)
    ensures prefix.bits < 32 && r + 4 <= Pow2(prefix.HostBits()) ==>
              SplitsAt(NewRange(prefix, r).value, ToUint32(prefix.Masked().addr), Pow2(prefix.HostBits()), r)
  {
    RangeAccepted(prefix, r);
    if prefix.bits < 32 && r + 4 <= Pow2(prefix.HostBits()) {
      RangePartition(prefix, r);
    }
  }

  /** With a subnet and n >= 1 replicas the machine has a pool iff the size check accepts n + 1
      control planes: the masked subnet, the configured interface or `eth1`, and, if everything
      fits, n + 1 addresses for control planes from the third one on and all others but the
      last for workers. */
  lemma PoolSpec(s: State, key: Key, prefix: Prefix, n: int)
    requires HasSubnet(s, key, Subnet(prefix)) && HasReplicas(s, key, n) && n >= 1
    ensures var configured := s.clusters[Key(key.ns, s.machines[key].clusterName)].interfaceName;
            var subnet := prefix.Masked();
            match MachinePool(s, key)
            case Ok(pool) =>
              && !s.machines[key].deleting && Fits(subnet, n + 1)
              && pool.config.subnet == subnet
              && pool.config.interfaceName == (if configured == Plain("") then Plain("eth1") else configured)
              && (n + 5 <= Pow2(32 - prefix.bits) ==>
                    SplitsAt(pool.range, ToUint32(subnet.addr), Pow2(32 - prefix.bits), n + 1))
            case Err(e) => if Fits(subnet, n + 1) then e == Ignored && s.machines[key].deleting else e == Misconfigured
  {
    var cluster, subnet := Key(key.ns, s.machines[key].clusterName), prefix.Masked();
    MaskedTwice(prefix, prefix.addr);
    RangeSpec(subnet, n + 1);
    PoolOf(s, key, prefix, n);
  }

  lemma PoolOf(s: State, key: Key, prefix: Prefix, n: int)
    requires HasSubnet(s, key, Subnet(prefix)) && HasReplicas(s, key, n) && n >= 1
    ensures var configured := s.clusters[Key(key.ns, s.machines[key].clusterName)].interfaceName;
            var range := NewRange(prefix.Masked(), n + 1);
            MachinePool(s, key)
            == if range.Err? then Err(Misconfigured)
               else if s.machines[key].deleting then Err(Ignored)
               else Ok(Pool(NodeConfig(prefix.Masked(), if configured == Plain("") then Plain("eth1") else configured),
                           range.value))
  {
    assert ControlPlaneReplicas(s, Key(key.ns, s.machines[key].clusterName)) == Some(n);
  }

  /** Without them, what a run comes to: it does nothing, and why. */
  lemma NoPoolSpec(s: State, key: Key)
    ensures (forall setting :: !HasSubnet(s, key, setting)) ==> Plan(s, key) == Run([], Ignored)
    ensures HasSubnet(s, key, Malformed) || HasSubnet(s, key, NotIPv4) ==> Plan(s, key) == Run([], Misconfigured)
    ensures forall prefix | HasSubnet(s, key, Subnet(prefix)) && (forall n | HasReplicas(s, key, n) :: n < 1) ::
              Plan(s, key) == Run([], WaitForReplicas)
    ensures MachinePool(s, key).Err? ==> Plan(s, key) == Run([], MachinePool(s, key).error)
  {
    if key in s.machines {
      var cluster := Key(key.ns, s.machines[key].clusterName);
      if s.machines[key].clusterName != "" && cluster in s.clusters {
        assert s.clusters[cluster].subnet != NoSubnet ==> HasSubnet(s, key, s.clusters[cluster].subnet);
        NoReplicasSpec(s, key);
      }
    }
  }

  lemma NoReplicasSpec(s: State, key: Key)
    requires key in s.machines
    ensures var r := ControlPlaneReplicas(s, Key(key.ns, s.machines[key].clusterName));
            match r
            case Some(n) => n >= 1 && HasReplicas(s, key, n)
            case None => forall n | HasReplicas(s, key, n) :: n < 1
  {
  }

  /** The machines with a pool are exactly those that `PoolSpec` gives one. */
  lemma PoolFound(s: State, key: Key) returns (prefix: Prefix, n: int)
    requires MachinePool(s, key).Ok?
    ensures HasSubnet(s, key, Subnet(prefix)) && HasReplicas(s, key, n) && n >= 1
  {
    var cluster := Key(key.ns, s.machines[key].clusterName);
    NoReplicasSpec(s, key);
    prefix := s.clusters[cluster].subnet.prefix;
    n := ControlPlaneReplicas(s, cluster).value;
  }

  // ----- the bootstrap data -----

  /** The machine's configuration is a Talos one whose object says `secret` about the secret. */
  predicate Configures(s: State, key: Key, secret: Option<string>) {
    && key in s.machines && s.machines[key].configRef.Some?
    && var ref := s.machines[key].configRef.value;
       && ref.kind == "TalosConfig"
       && Key(key.ns, ref.name) in s.talosConfigs && s.talosConfigs[Key(key.ns, ref.name)] == secret
  }

  /** The machine's bootstrap data is `data`, in the secret `sk`. */
  predicate HasData(s: State, key: Key, sk: Key, data: Bytes) {
    && sk.ns == key.ns && Configures(s, key, Some(sk.name))
    && sk in s.secrets && "value" in s.secrets[sk] && s.secrets[sk]["value"] == data
  }

  lemma SecretFound(s: State, key: Key)
    requires key in s.machines
    ensures match BootstrapSecret(s, key.ns, s.machines[key])
            case Ok(sk) => sk in s.secrets && "value" in s.secrets[sk] && HasData(s, key, sk, s.secrets[sk]["value"])
            case Err(WaitForBootstrapData) => Configures(s, key, None)
            case Err(e) =>
              && e == NoBootstrapData && !Configures(s, key, None)
              && forall sk, data :: !HasData(s, key, sk, data)
  {
  }

  /** Once the address is known: the run waits for the secret's name if only that is missing,
      and stops if there is no data. */
  lemma NoDataSpec(s: State, key: Key, pool: Pool, ip: Addr)
    requires MachinePool(s, key) == Ok(pool)
    requires ClaimPlan(s.claims, key, s.machines[key], pool).address == Ok(ip)
    ensures Plan(s, key).outcome == WaitForBootstrapData <==> Configures(s, key, None)
    ensures Plan(s, key).outcome == NoBootstrapData
       <==> !Configures(s, key, None) && forall sk, data :: !HasData(s, key, sk, data)
  {
    SecretFound(s, key);
    PlanOutcome(s, key, s.machines[key], pool, ip);
    SecretDecides(s, key, s.machines[key], pool.config, ip);
  }

  lemma SecretDecides(s: State, key: Key, m: Machine, config: NodeConfig, ip: Addr)
    ensures var outcome := SecretPlan(s, key, m, config, ip).outcome;
            match BootstrapSecret(s, key.ns, m)
            case Err(e) => outcome == e
            case Ok(sk) =>
              sk in s.secrets && "value" in s.secrets[sk] ==>
                match UpsertData(s.secrets[sk]["value"], config.interfaceName, Cidr(Prefix(ip, config.subnet.bits)))
                case Err(e) => outcome == BootstrapRejected(e)
                case Ok(updated) =>
                  outcome.ReachedSecret() && (outcome == Settled <==> updated == s.secrets[sk]["value"])
  {
  }

  /** With data, the run stops if it cannot be updated, does nothing if it is up to date, and
      otherwise has it written. */
  lemma DataSpec(s: State, key: Key, pool: Pool, ip: Addr, sk: Key, data: Bytes)
    requires MachinePool(s, key) == Ok(pool)
    requires ClaimPlan(s.claims, key, s.machines[key], pool).address == Ok(ip)
    requires HasData(s, key, sk, data)
    ensures var outcome := Plan(s, key).outcome;
            match UpsertData(data, pool.config.interfaceName, Cidr(Prefix(ip, pool.config.subnet.bits)))
            case Err(e) => outcome == BootstrapRejected(e)
            case Ok(updated) => outcome.ReachedSecret() && (outcome == Settled <==> updated == data)
  {
    PlanOutcome(s, key, s.machines[key], pool, ip);
    SecretDecides(s, key, s.machines[key], pool.config, ip);
    assert BootstrapSecret(s, key.ns, s.machines[key]) == Ok(sk);
  }

  /** Such a write changes the value of that one secret and nothing else of any secret. */
  lemma DataWritten(s: State, key: Key, verdicts: seq<bool>, pool: Pool, ip: Addr, sk: Key, data: Bytes)
    requires MachinePool(s, key) == Ok(pool) && Completes(s, key, verdicts)
    requires ClaimPlan(s.claims, key, s.machines[key], pool).address == Ok(ip)
    requires HasData(s, key, sk, data)
    requires UpsertData(data, pool.config.interfaceName, Cidr(Prefix(ip, pool.config.subnet.bits))).Ok?
    ensures Next(s, key, verdicts).secrets
         == s.secrets[sk := s.secrets[sk]["value" :=
              UpsertData(data, pool.config.interfaceName, Cidr(Prefix(ip, pool.config.subnet.bits))).value]]
  {
    DataSpec(s, key, pool, ip, sk, data);
    SuccessfulRun(s, key, verdicts);
    assert BootstrapSecret(s, key.ns, s.machines[key]) == Ok(sk);
  }

  // ----- when to run again -----

  /** A plan never counts on a refusal. */
  lemma PlansNoFailure(s: State, key: Key)
    ensures Plan(s, key).outcome != ApiFailure && Plan(s, key).outcome != NoAllocation(WriteRefused)
  {
    if MachinePool(s, key).Ok? {
      var m, pool := s.machines[key], MachinePool(s, key).value;
      AllocationErrors(s.claims, key, m, pool);
      var address := ClaimPlan(s.claims, key, m, pool).address;
      if address.Ok? {
        PlanOutcome(s, key, m, pool, address.value);
        SecretOutcomes(s, key, m, pool.config, address.value);
      }
    } else {
      PoolErrors(s, key);
    }
  }

  lemma PoolErrors(s: State, key: Key)
    requires MachinePool(s, key).Err?
    ensures MachinePool(s, key).error in {Ignored, Misconfigured, WaitForReplicas}
  {
  }

  lemma SecretOutcomes(s: State, key: Key, m: Machine, config: NodeConfig, ip: Addr)
    ensures var outcome := SecretPlan(s, key, m, config, ip).outcome;
            outcome != ApiFailure && !outcome.NoAllocation?
  {
  }

  /** Fifteen seconds while replicas or a free address are missing, five while the secret has no
      name, ten after bootstrap data of a running machine has changed, otherwise not at all. */
  lemma RequeueSpec(s: State, key: Key)
    ensures var outcome, seconds := Plan(s, key).outcome, Plan(s, key).outcome.RequeueAfter();
            && seconds in {0, 5, 10, 15}
            && (seconds == 15 <==>
                  outcome == WaitForReplicas || outcome == NoAllocation(NoControlPlaneIPs)
                  || outcome == NoAllocation(NoWorkerIPs))
            && (seconds == 5 <==> outcome == WaitForBootstrapData)
            && (seconds == 10 <==> outcome == RollBlocked || outcome == Rolled)
  {
    PlansNoFailure(s, key);
  }

  lemma AllocationErrors(claims: map<Key, Claim>, key: Key, m: Machine, pool: Pool)
    ensures ClaimPlan(claims, key, m, pool).address != Err(WriteRefused)
  {
  }

  // ----- the roll -----

  /** Another machine of the namespace that carries the machine's cluster as its label, has the
      machine's role, and is being deleted. */
  predicate Rolling(s: State, key: Key, k: Key)
    requires key in s.machines
  {
    && k in s.machines && k.ns == key.ns && k.name != key.name && s.machines[k].deleting
    && s.machines[k].clusterLabel == Some(s.machines[key].clusterName)
    && (s.machines[k].controlPlaneLabel.Some? <==> s.machines[key].controlPlaneLabel.Some?)
  }

  lemma RollingExactly(s: State, key: Key)
    requires key in s.machines
    ensures var m := s.machines[key];
            DeletingInRole(s.machines, key.ns, m.clusterName, m.IsControlPlane(), key.name)
            <==> exists k :: Rolling(s, key, k)
  {
    var m := s.machines[key];
    forall k ensures Rolling(s, key, k)
                <==> k in s.machines
                     && BlocksRoll(k, s.machines[k], key.ns, m.clusterName, m.IsControlPlane(), key.name)
    {
    }
  }

  /** For every machine of either role whose bootstrap data changes: it is left alone if it has
      no node, held back if it has one and its role is rolling, and rolled otherwise. */
  lemma RollOutcome(s: State, key: Key)
    requires Plan(s, key).outcome.ReachedSecret() && Plan(s, key).outcome != Settled
    ensures key in s.machines && !s.machines[key].deleting
    ensures Plan(s, key).outcome == SecretWritten <==> !s.machines[key].hasNode
    ensures Plan(s, key).outcome == RollBlocked <==> s.machines[key].hasNode && exists k :: Rolling(s, key, k)
    ensures Plan(s, key).outcome == Rolled <==> s.machines[key].hasNode && !exists k :: Rolling(s, key, k)
  {
    PlanParts(s, key);
    RollingExactly(s, key);
  }

  lemma SecretsChange(s: State, key: Key, verdicts: seq<bool>)
    requires Completes(s, key, verdicts) && Next(s, key, verdicts).secrets != s.secrets
    ensures Plan(s, key).outcome.ReachedSecret() && Plan(s, key).outcome != Settled
  {
    if MachinePool(s, key).Ok? {
      var m, pool := s.machines[key], MachinePool(s, key).value;
      var claimRun := ClaimPlan(s.claims, key, m, pool);
      ClaimAttemptsOk(s.claims, key, m, pool);
      if Plan(s, key).attempts == claimRun.attempts {
        ClaimsOnly(s, claimRun.attempts, verdicts, 0);
      } else {
        PlanOutcome(s, key, m, pool, claimRun.address.value);
        SecretWrites(s, key, m, pool.config, claimRun.address.value);
      }
    }
  }

  lemma SecretWrites(s: State, key: Key, m: Machine, config: NodeConfig, ip: Addr)
    requires SecretPlan(s, key, m, config, ip).attempts != []
    ensures SecretPlan(s, key, m, config, ip).outcome.ReachedSecret()
    ensures SecretPlan(s, key, m, config, ip).outcome != Settled
  {
  }

  /** After a run that was refused nothing and changed a secret, the machine is gone or being
      deleted if and only if it has a node and no other machine of its namespace, label and
      role was being deleted; it is gone at once only if nothing finalizes it. Otherwise no
      machine has changed. */
  lemma RollSpec(s: State, key: Key, verdicts: seq<bool>)
    requires Completes(s, key, verdicts) && Next(s, key, verdicts).secrets != s.secrets
    ensures key in s.machines && !s.machines[key].deleting
    ensures var t, m := Next(s, key, verdicts), s.machines[key];
            if m.hasNode && !(exists k :: Rolling(s, key, k))
            then t.machines == if m.finalizers then s.machines[key := m.(deleting := true)] else s.machines - {key}
            else t.machines == s.machines
  {
    SecretsChange(s, key, verdicts);
    RollOutcome(s, key);
    SuccessfulRun(s, key, verdicts);
  }

  // ----- machines that do not matter -----

  /** No machine at all, or one that cannot hold the roll of `m` back. */
  predicate Bystander(machine: Option<Machine>, k: Key, ns: string, m: Machine) {
    machine.Some? ==>
      || k.ns != ns
      || machine.value.clusterLabel != Some(m.clusterName)
      || machine.value.controlPlaneLabel.Some? != m.controlPlaneLabel.Some?
      || !machine.value.deleting
  }

  /** A run stays as it is whatever happens to machines of another namespace, another cluster
      label or the other role, and to machines that are not being deleted. */
  lemma BystandersDoNotMatter(s: State, machines: map<Key, Machine>, key: Key)
    requires key in s.machines
    requires forall k :: MachineAt(machines, k) == MachineAt(s.machines, k)
                         || (&& k != key
                             && Bystander(MachineAt(machines, k), k, key.ns, s.machines[key])
                             && Bystander(MachineAt(s.machines, k), k, key.ns, s.machines[key]))
    ensures Plan(s.(machines := machines), key) == Plan(s, key)
  {
    var t := s.(machines := machines);
    var m := s.machines[key];
    assert MachineAt(machines, key) == MachineAt(s.machines, key);
    forall k
      ensures k in machines && BlocksRoll(k, machines[k], key.ns, m.clusterName, m.IsControlPlane(), key.name)
         <==> k in s.machines && BlocksRoll(k, s.machines[k], key.ns, m.clusterName, m.IsControlPlane(), key.name)
    {
      assert MachineAt(machines, k) == MachineAt(s.machines, k) || k != key;
    }
    PlanDependsOn(s, t, key);
  }
}
