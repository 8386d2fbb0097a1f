/** What one run of the controller may do to the state, whatever the API server refuses. */
module Effects {
  import opened Outcomes
  import opened Ipv4
  import opened Allocator
  import opened LinkConfig
  import opened Bootstrap
  import opened ClusterState
  import opened MachineIP

  /** The state after a run whose writes get the given verdicts. */
  function Next(s: State, key: Key, verdicts: seq<bool>): State {
    Execute(s, Plan(s, key).attempts, verdicts, 0).state
  }

  /** A claim the controller may store for a machine when it starts from `claims`: in line
      with the machine, holding the address it held before or a freshly allocated one, and
      carrying a status that fits. */
  predicate VersionOk(claims: map<Key, Claim>, key: Key, m: Machine, pool: Pool, c: Claim) {
    var ck := ClaimKey(key);
    var synced := SyncedClaim(claims, key, m, pool.config);
    && c.spec.(address := NoAddress) == synced.spec.(address := NoAddress)
    && (c.spec.address == synced.spec.address
        || (&& synced.spec.address == NoAddress && c.spec.address.Dotted?
            && Allocate(claims, ck, m.clusterName, m.IsControlPlane(), pool.range) == Ok(c.spec.address.ip)))
    && (c.status == synced.status
        || (c.status.phase == Pending && synced.spec.address == NoAddress)
        || (c.status.phase == Failed && !c.spec.address.Dotted?)
        || (c.status.phase == Ready && c.spec.address.Dotted?))
  }

  predicate ClaimWriteOk(claims: map<Key, Claim>, key: Key, m: Machine, pool: Pool, w: Write) {
    w.WriteClaim? && w.key == ClaimKey(key) && VersionOk(claims, key, m, pool, w.claim)
  }

  predicate ClaimAttemptOk(claims: map<Key, Claim>, key: Key, m: Machine, pool: Pool, a: Attempt) {
    && ClaimWriteOk(claims, key, m, pool, a.write)
    && (a.fallback.Some? ==> ClaimWriteOk(claims, key, m, pool, a.fallback.value))
  }

  /** `secrets` are those of `s` with the machine's bootstrap data updated for the address. */
  ghost predicate BootstrapUpdated(s: State, key: Key, m: Machine, config: NodeConfig, ip: Addr,
                                   secrets: map<Key, map<string, Bytes>>)
  {
    && BootstrapSecret(s, key.ns, m).Ok?
    && var sk := BootstrapSecret(s, key.ns, m).value;
       && sk in s.secrets && "value" in s.secrets[sk]
       && var updated := UpsertData(s.secrets[sk]["value"], config.interfaceName, Wanted(config, ip));
          && updated.Ok? && secrets == WithValue(s.secrets, sk, updated.value)
  }

  /** The text of the address with the subnet's length. */
  function Wanted(config: NodeConfig, ip: Addr): Text {
    Cidr(Prefix(ip, config.subnet.bits))
  }

  /** An attempt on a secret writes the machine's own bootstrap data, updated for the address. */
  ghost predicate SecretAttemptOk(s: State, key: Key, m: Machine, config: NodeConfig, ip: Addr, a: Attempt) {
    && (a.fallback.Some? ==> a.fallback.value.WriteClaim?)
    && match a.write
       case WriteSecret(sk, data) =>
         && BootstrapSecret(s, key.ns, m) == Ok(sk)
         && sk in s.secrets && "value" in s.secrets[sk]
         && UpsertData(s.secrets[sk]["value"], config.interfaceName, Wanted(config, ip)) == Ok(data)
       case _ => true
  }

  predicate AttemptOk(s: State, key: Key, pool: Pool, a: Attempt)
    requires key in s.machines
  {
    match a.write
    case WriteClaim(_, _) => ClaimAttemptOk(s.claims, key, s.machines[key], pool, a)
    case WriteSecret(_, _) => a.fallback == None
    case DeleteMachine(k) => k == key && a.fallback == None && Plan(s, key).outcome == Rolled
  }

  lemma FirstVersionsOk(claims: map<Key, Claim>, key: Key, m: Machine, pool: Pool)
    ensures var synced := SyncedClaim(claims, key, m, pool.config);
            && VersionOk(claims, key, m, pool, synced)
            && VersionOk(claims, key, m, pool, Requested(synced))
            && Requested(synced).spec == synced.spec
            && synced.spec.clusterName == m.clusterName && synced.spec.controlPlane == m.IsControlPlane()
  {
  }

  lemma LastAttemptsOk(claims: map<Key, Claim>, key: Key, m: Machine, pool: Pool, requested: Claim)
    requires requested == Requested(SyncedClaim(claims, key, m, pool.config))
    ensures forall a | a in AddressPlan(claims, ClaimKey(key), requested, pool.range).attempts ::
              ClaimAttemptOk(claims, key, m, pool, a)
  {
    var ck := ClaimKey(key);
    FirstVersionsOk(claims, key, m, pool);
    match AddressFor(claims, ck, requested, pool.range)
    case Err(e) =>
      assert VersionOk(claims, key, m, pool, WithStatus(requested, Failed, AllocationFailed(e)));
    case Ok(ip) =>
      var placed := Placed(requested, ip);
      assert VersionOk(claims, key, m, pool, placed);
      assert VersionOk(claims, key, m, pool, WithStatus(placed, Ready, AddressAllocated(ip)));
      if requested.spec.address == NoAddress {
        assert VersionOk(claims, key, m, pool, WithStatus(requested, Failed, AllocationFailed(WriteRefused)));
      }
  }

  lemma ClaimAttemptsOk(claims: map<Key, Claim>, key: Key, m: Machine, pool: Pool)
    ensures forall a | a in ClaimPlan(claims, key, m, pool).attempts :: ClaimAttemptOk(claims, key, m, pool, a)
  {
    FirstVersionsOk(claims, key, m, pool);
    LastAttemptsOk(claims, key, m, pool, Requested(SyncedClaim(claims, key, m, pool.config)));
  }

  lemma AttemptsOk(s: State, key: Key)
    requires MachinePool(s, key).Ok?
    ensures forall a | a in Plan(s, key).attempts :: AttemptOk(s, key, MachinePool(s, key).value, a)
  {
    var m, pool := s.machines[key], MachinePool(s, key).value;
    var claimRun := ClaimPlan(s.claims, key, m, pool);
    ClaimAttemptsOk(s.claims, key, m, pool);
    if claimRun.address.Ok? {
      SecretAttempts(s, key, m, pool.config, claimRun.address.value);
    }
  }

  lemma SecretAttempts(s: State, key: Key, m: Machine, config: NodeConfig, ip: Addr)
    ensures var plan := SecretPlan(s, key, m, config, ip);
            forall a | a in plan.attempts ::
              && a.fallback == None && !a.write.WriteClaim?
              && (a.write.DeleteMachine? ==> a.write.key == key && plan.outcome == Rolled)
  {
  }

  lemma SecretAttemptsOk(s: State, key: Key, m: Machine, config: NodeConfig, ip: Addr)
    ensures forall a | a in SecretPlan(s, key, m, config, ip).attempts :: SecretAttemptOk(s, key, m, config, ip, a)
  {
  }

  /** `t` differs from `s`, apart from secrets, only by what a run for `key` in state `s` may
      write. */
  ghost predicate Within(s: State, key: Key, pool: Pool, t: State)
    requires key in s.machines
  {
    var ck := ClaimKey(key);
    && t.clusters == s.clusters && t.capiClusters == s.capiClusters
    && t.controlPlanes == s.controlPlanes && t.talosConfigs == s.talosConfigs
    && (forall k | k != ck :: Stored(t.claims, k) == Stored(s.claims, k))
    && (Stored(t.claims, ck) == Stored(s.claims, ck)
        || (ck in t.claims && VersionOk(s.claims, key, s.machines[key], pool, t.claims[ck])))
    && (t.machines == s.machines
        || (t.machines == Deleted(s.machines, key) && Plan(s, key).outcome == Rolled))
  }

  /** Secrets differ at most in the machine's own bootstrap data, which has been updated for
      the address of the run. */
  ghost predicate SecretsWithin(s: State, key: Key, pool: Pool, secrets: map<Key, map<string, Bytes>>)
    requires key in s.machines
  {
    || secrets == s.secrets
    || (var address := ClaimPlan(s.claims, key, s.machines[key], pool).address;
        address.Ok? && BootstrapUpdated(s, key, s.machines[key], pool.config, address.value, secrets))
  }

  lemma WithinApply(s: State, key: Key, pool: Pool, t: State, w: Write)
    requires key in s.machines && Within(s, key, pool, t)
    requires match w
             case WriteClaim(_, _) => ClaimWriteOk(s.claims, key, s.machines[key], pool, w)
             case WriteSecret(_, _) => true
             case DeleteMachine(k) => k == key && Plan(s, key).outcome == Rolled
    ensures Within(s, key, pool, Apply(t, w))
  {
    var u := Apply(t, w);
    forall k | k != ClaimKey(key) ensures Stored(u.claims, k) == Stored(s.claims, k) {
      assert Stored(t.claims, k) == Stored(s.claims, k);
    }
  }

  lemma {:induction false} WithinExecute(s: State, key: Key, pool: Pool, t: State, attempts: seq<Attempt>,
                                         verdicts: seq<bool>, calls: nat)
    requires key in s.machines && Within(s, key, pool, t)
    requires forall a | a in attempts :: AttemptOk(s, key, pool, a)
    ensures Within(s, key, pool, Execute(t, attempts, verdicts, calls).state)
    decreases |attempts|
  {
    if attempts != [] {
      assert attempts[0] in attempts;
      if Accepts(verdicts, calls) {
        WithinApply(s, key, pool, t, attempts[0].write);
        WithinExecute(s, key, pool, Apply(t, attempts[0].write), attempts[1..], verdicts, calls + 1);
      } else if attempts[0].fallback.Some? && Accepts(verdicts, calls + 1) {
        WithinApply(s, key, pool, t, attempts[0].fallback.value);
      }
    }
  }

  /** Writing a value twice is writing it once. */
  lemma WithValueTwice(secrets: map<Key, map<string, Bytes>>, sk: Key, data: Bytes)
    ensures WithValue(WithValue(secrets, sk, data), sk, data) == WithValue(secrets, sk, data)
  {
    if sk in secrets {
      assert secrets[sk]["value" := data]["value" := data] == secrets[sk]["value" := data];
    }
  }

  lemma SecretsApply(s: State, key: Key, m: Machine, config: NodeConfig, ip: Addr, t: State, a: Attempt)
    requires t.secrets == s.secrets || BootstrapUpdated(s, key, m, config, ip, t.secrets)
    requires SecretAttemptOk(s, key, m, config, ip, a)
    ensures var secrets := Apply(t, a.write).secrets;
            secrets == s.secrets || BootstrapUpdated(s, key, m, config, ip, secrets)
  {
    if a.write.WriteSecret? {
      WithValueTwice(s.secrets, a.write.key, a.write.data);
    }
  }

  /** Attempts on secrets either have not been made or have updated the bootstrap data. */
  lemma {:induction false} SecretsExecute(s: State, key: Key, m: Machine, config: NodeConfig, ip: Addr, t: State,
                                          attempts: seq<Attempt>, verdicts: seq<bool>, calls: nat)
    requires t.secrets == s.secrets || BootstrapUpdated(s, key, m, config, ip, t.secrets)
    requires forall a | a in attempts :: SecretAttemptOk(s, key, m, config, ip, a)
    ensures var secrets := Execute(t, attempts, verdicts, calls).state.secrets;
            secrets == s.secrets || BootstrapUpdated(s, key, m, config, ip, secrets)
    decreases |attempts|
  {
    if attempts != [] {
      assert attempts[0] in attempts;
      if Accepts(verdicts, calls) {
        SecretsApply(s, key, m, config, ip, t, attempts[0]);
        SecretsExecute(s, key, m, config, ip, Apply(t, attempts[0].write), attempts[1..], verdicts, calls + 1);
      }
    }
  }

  lemma {:induction false} ClaimsOnly(t: State, attempts: seq<Attempt>, verdicts: seq<bool>, calls: nat)
    requires forall a | a in attempts :: a.write.WriteClaim? && (a.fallback.Some? ==> a.fallback.value.WriteClaim?)
    ensures Execute(t, attempts, verdicts, calls).state.secrets == t.secrets
    decreases |attempts|
  {
    if attempts != [] {
      assert attempts[0] in attempts;
      if Accepts(verdicts, calls) {
        ClaimsOnly(Apply(t, attempts[0].write), attempts[1..], verdicts, calls + 1);
      }
    }
  }

  lemma RunSecrets(s: State, key: Key, verdicts: seq<bool>)
    requires MachinePool(s, key).Ok?
    ensures SecretsWithin(s, key, MachinePool(s, key).value, Next(s, key, verdicts).secrets)
  {
    var m, pool := s.machines[key], MachinePool(s, key).value;
    var claimRun := ClaimPlan(s.claims, key, m, pool);
    ClaimAttemptsOk(s.claims, key, m, pool);
    if claimRun.address.Ok? {
      var ip := claimRun.address.value;
      SecretAttemptsOk(s, key, m, pool.config, ip);
      SecretsExecute(s, key, m, pool.config, ip, s, Plan(s, key).attempts, verdicts, 0);
    } else {
      ClaimsOnly(s, Plan(s, key).attempts, verdicts, 0);
    }
  }

  lemma RunWithin(s: State, key: Key, verdicts: seq<bool>)
    ensures var t := Next(s, key, verdicts);
            if MachinePool(s, key).Ok? then Within(s, key, MachinePool(s, key).value, t) else t == s
  {
    if MachinePool(s, key).Ok? {
      AttemptsOk(s, key);
      WithinExecute(s, key, MachinePool(s, key).value, s, Plan(s, key).attempts, verdicts, 0);
    }
  }

  /** The machine's own claim is stored in a version the controller may store. */
  predicate InLine(claims: map<Key, Claim>, key: Key, m: Machine, pool: Pool, later: map<Key, Claim>) {
    ClaimKey(key) in later && VersionOk(claims, key, m, pool, later[ClaimKey(key)])
  }

  lemma InLineApply(claims: map<Key, Claim>, key: Key, m: Machine, pool: Pool, t: State, w: Write)
    requires InLine(claims, key, m, pool, t.claims)
    requires w.WriteClaim? ==> ClaimWriteOk(claims, key, m, pool, w)
    ensures InLine(claims, key, m, pool, Apply(t, w).claims)
  {
    var later := Apply(t, w).claims;
    if w.WriteClaim? {
      assert later[ClaimKey(key)] == w.claim;
    } else {
      assert later == t.claims;
    }
  }

  /** Once the claim has been brought in line it stays so. */
  lemma {:induction false} InLineStays(s: State, key: Key, pool: Pool, t: State, attempts: seq<Attempt>,
                                       verdicts: seq<bool>, calls: nat)
    requires key in s.machines && InLine(s.claims, key, s.machines[key], pool, t.claims)
    requires forall a | a in attempts :: AttemptOk(s, key, pool, a)
    ensures InLine(s.claims, key, s.machines[key], pool, Execute(t, attempts, verdicts, calls).state.claims)
    decreases |attempts|
  {
    if attempts != [] {
      assert attempts[0] in attempts;
      if Accepts(verdicts, calls) {
        InLineApply(s.claims, key, s.machines[key], pool, t, attempts[0].write);
        InLineStays(s, key, pool, Apply(t, attempts[0].write), attempts[1..], verdicts, calls + 1);
      } else if attempts[0].fallback.Some? {
        InLineApply(s.claims, key, s.machines[key], pool, t, attempts[0].fallback.value);
      }
    }
  }

  /** A claim that is not in line is brought in line by the first write, on which everything
      else depends. */
  lemma FirstWrite(s: State, key: Key, verdicts: seq<bool>)
    requires MachinePool(s, key).Ok?
    requires var synced := SyncedClaim(s.claims, key, s.machines[key], MachinePool(s, key).value.config);
             Stored(s.claims, ClaimKey(key)) != Some(synced)
    ensures var t := Next(s, key, verdicts);
            if Accepts(verdicts, 0)
            then InLine(s.claims, key, s.machines[key], MachinePool(s, key).value, t.claims)
            else t == s
  {
    var m, pool, ck := s.machines[key], MachinePool(s, key).value, ClaimKey(key);
    var synced := SyncedClaim(s.claims, key, m, pool.config);
    var attempts := Plan(s, key).attempts;
    assert ClaimPlan(s.claims, key, m, pool).attempts[0] == Attempt(WriteClaim(ck, synced), None);
    assert attempts[0] == Attempt(WriteClaim(ck, synced), None);
    if Accepts(verdicts, 0) {
      AttemptsOk(s, key);
      FirstVersionsOk(s.claims, key, m, pool);
      InLineStays(s, key, pool, Apply(s, attempts[0].write), attempts[1..], verdicts, 1);
    }
  }

  /** A run writes nothing unless the machine has a pool, and then stays within the bounds. */
  lemma RunEffect(s: State, key: Key, verdicts: seq<bool>)
    ensures var t := Next(s, key, verdicts);
            if MachinePool(s, key).Ok?
            then
              && Within(s, key, MachinePool(s, key).value, t)
              && SecretsWithin(s, key, MachinePool(s, key).value, t.secrets)
            else t == s
  {
    RunWithin(s, key, verdicts);
    if MachinePool(s, key).Ok? {
      RunSecrets(s, key, verdicts);
    }
  }
}
