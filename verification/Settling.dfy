/** What holds after a run that was not refused anything: it has nothing left to do, and the
    bootstrap data shows the address. */
module Settling {
  import opened Outcomes
  import opened Ipv4
  import opened LinkConfig
  import opened Bootstrap
  import opened ClusterState
  import opened MachineIP
  import opened Effects
  import opened Runs
  import opened Pools

  /** The run is refused nothing. */
  predicate Completes(s: State, key: Key, verdicts: seq<bool>) {
    Execute(s, Plan(s, key).attempts, verdicts, 0).ok
  }

  /** The attempts with every write accepted. */
  function Applied(s: State, attempts: seq<Attempt>): State
    decreases |attempts|
  {
    if attempts == [] then s else Applied(Apply(s, attempts[0].write), attempts[1..])
  }

  lemma {:induction false} AcceptedMeansApplied(s: State, attempts: seq<Attempt>, verdicts: seq<bool>, calls: nat)
    requires Execute(s, attempts, verdicts, calls).ok
    ensures Execute(s, attempts, verdicts, calls).state == Applied(s, attempts)
    decreases |attempts|
  {
    if attempts != [] {
      AcceptedMeansApplied(Apply(s, attempts[0].write), attempts[1..], verdicts, calls + 1);
    }
  }

  lemma {:induction false} AppliedConcat(s: State, a: seq<Attempt>, b: seq<Attempt>)
    ensures Applied(s, a + b) == Applied(Applied(s, a), b)
    decreases |a|
  {
    if a == [] {
      assert a + b == b;
    } else {
      assert (a + b)[1..] == a[1..] + b;
      AppliedConcat(Apply(s, a[0].write), a[1..], b);
    }
  }

  lemma AppliedOne(s: State, a: Attempt)
    ensures Applied(s, [a]) == Apply(s, a.write)
  {
    assert [a][1..] == [];
  }

  function WithClaim(s: State, ck: Key, c: Claim): State {
    s.(claims := s.claims[ck := c])
  }

  lemma PutEffect(s: State, ck: Key, before: Option<Claim>, c: Claim)
    requires Stored(s.claims, ck) == before
    ensures Applied(s, Put(ck, before, c)) == WithClaim(s, ck, c)
  {
    if before == Some(c) {
      assert s.claims[ck := c] == s.claims;
    } else {
      AppliedOne(s, Attempt(WriteClaim(ck, c), None));
    }
  }

  /** The claim a successful run ends with. */
  function FinalClaim(claims: map<Key, Claim>, key: Key, m: Machine, pool: Pool, ip: Addr): Claim {
    WithStatus(Placed(Requested(SyncedClaim(claims, key, m, pool.config)), ip), Ready, AddressAllocated(ip))
  }

  lemma AddressPhaseEffect(s: State, claims: map<Key, Claim>, ck: Key, requested: Claim, range: Range, ip: Addr)
    requires AddressPlan(claims, ck, requested, range).address == Ok(ip)
    requires Stored(s.claims, ck) == Some(requested)
    ensures Applied(s, AddressPlan(claims, ck, requested, range).attempts)
         == WithClaim(s, ck, WithStatus(Placed(requested, ip), Ready, AddressAllocated(ip)))
  {
    var placed := Placed(requested, ip);
    var final := WithStatus(placed, Ready, AddressAllocated(ip));
    var c := PutAddress(ck, requested, ip);
    var s1 := WithClaim(s, ck, placed);
    if requested.spec.address == NoAddress {
      AppliedOne(s, c[0]);
    } else {
      assert s.claims[ck := placed] == s.claims;
    }
    assert Applied(s, c) == s1;
    AppliedConcat(s, c, Put(ck, Some(placed), final));
    PutEffect(s1, ck, Some(placed), final);
    assert WithClaim(s1, ck, final) == WithClaim(s, ck, final);
  }

  lemma TwoPuts(s: State, ck: Key, synced: Claim, requested: Claim, last: seq<Attempt>, final: Claim)
    requires Applied(WithClaim(s, ck, requested), last) == WithClaim(WithClaim(s, ck, requested), ck, final)
    ensures Applied(s, Put(ck, Stored(s.claims, ck), synced) + (Put(ck, Some(synced), requested) + last))
         == WithClaim(s, ck, final)
  {
    var s1, s2 := WithClaim(s, ck, synced), WithClaim(s, ck, requested);
    PutEffect(s, ck, Stored(s.claims, ck), synced);
    PutEffect(s1, ck, Some(synced), requested);
    assert WithClaim(s1, ck, requested) == s2;
    assert WithClaim(s2, ck, final) == WithClaim(s, ck, final);
    AppliedConcat(s, Put(ck, Stored(s.claims, ck), synced), Put(ck, Some(synced), requested) + last);
    AppliedConcat(s1, Put(ck, Some(synced), requested), last);
  }

  lemma ClaimPhaseEffect(s: State, key: Key, m: Machine, pool: Pool, ip: Addr)
    requires ClaimPlan(s.claims, key, m, pool).address == Ok(ip)
    ensures Applied(s, ClaimPlan(s.claims, key, m, pool).attempts)
         == WithClaim(s, ClaimKey(key), FinalClaim(s.claims, key, m, pool, ip))
  {
    var ck := ClaimKey(key);
    var synced := SyncedClaim(s.claims, key, m, pool.config);
    var requested := Requested(synced);
    AddressPhaseEffect(WithClaim(s, ck, requested), s.claims, ck, requested, pool.range, ip);
    TwoPuts(s, ck, synced, requested, AddressPlan(s.claims, ck, requested, pool.range).attempts,
            FinalClaim(s.claims, key, m, pool, ip));
  }

  lemma {:induction false} ClaimsKept(t: State, attempts: seq<Attempt>, verdicts: seq<bool>, calls: nat)
    requires forall a | a in attempts :: !a.write.WriteClaim? && a.fallback == None
    ensures Execute(t, attempts, verdicts, calls).state.claims == t.claims
    decreases |attempts|
  {
    if attempts != [] {
      assert attempts[0] in attempts;
      if Accepts(verdicts, calls) {
        ClaimsKept(Apply(t, attempts[0].write), attempts[1..], verdicts, calls + 1);
      }
    }
  }

  /** The claims a run ends with when its claim writes are accepted, whatever becomes of the
      secret and the deletion. */
  lemma ClaimPhaseDone(s: State, key: Key, pool: Pool, ip: Addr, verdicts: seq<bool>)
    requires MachinePool(s, key) == Ok(pool)
    requires ClaimPlan(s.claims, key, s.machines[key], pool).address == Ok(ip)
    requires AcceptsFirst(verdicts, |ClaimPlan(s.claims, key, s.machines[key], pool).attempts|)
    ensures Next(s, key, verdicts).claims
         == s.claims[ClaimKey(key) := FinalClaim(s.claims, key, s.machines[key], pool, ip)]
  {
    var m := s.machines[key];
    var a, b := ClaimPlan(s.claims, key, m, pool).attempts, SecretPlan(s, key, m, pool.config, ip).attempts;
    OkMeansAccepted(s, a, verdicts, 0);
    AcceptedMeansApplied(s, a, verdicts, 0);
    ClaimPhaseEffect(s, key, m, pool, ip);
    ExecuteConcat(s, a, b, verdicts, 0);
    SecretAttempts(s, key, m, pool.config, ip);
    ClaimsKept(Execute(s, a, verdicts, 0).state, b, verdicts, Execute(s, a, verdicts, 0).calls);
  }

  /** A claim that keeps an address which another claim of its cluster holds is reported as
      Ready all the same. */
  lemma ClashEndsReady(s: State, key: Key, verdicts: seq<bool>)
    requires KeptClash(s, key)
    requires AcceptsFirst(verdicts, |ClaimPlan(s.claims, key, s.machines[key], MachinePool(s, key).value).attempts|)
    ensures var claims, ck := Next(s, key, verdicts).claims, ClaimKey(key);
            && s.claims[ck].spec.address.Dotted? && ReadyWith(claims, ck, s.claims[ck].spec.address.ip)
            && exists k :: HoldsSame(claims, k, ck, s.machines[key].clusterName)
  {
    var m, pool, ck := s.machines[key], MachinePool(s, key).value, ClaimKey(key);
    var k :| HoldsSame(s.claims, k, ck, m.clusterName);
    var ip := s.claims[ck].spec.address.ip;
    assert ClaimPlan(s.claims, key, m, pool).address == Ok(ip);
    ClaimPhaseDone(s, key, pool, ip, verdicts);
    FinalAddress(s.claims, key, m, pool, ip);
    assert HoldsSame(Next(s, key, verdicts).claims, k, ck, m.clusterName);
  }

  /** A claim that a successful run ended with needs no further write. */
  lemma FinalClaimSettled(claims: map<Key, Claim>, later: map<Key, Claim>, key: Key, m: Machine, pool: Pool, ip: Addr)
    requires ClaimPlan(claims, key, m, pool).address == Ok(ip)
    requires Stored(later, ClaimKey(key)) == Some(FinalClaim(claims, key, m, pool, ip))
    ensures ClaimPlan(later, key, m, pool) == ClaimRun([], Ok(ip))
  {
    var final := FinalClaim(claims, key, m, pool, ip);
    assert final.spec.address == Dotted(ip);
    assert SyncedClaim(later, key, m, pool.config) == final;
  }

  function ValueAt(secrets: map<Key, map<string, Bytes>>, sk: Key): Option<Bytes> {
    if sk in secrets && "value" in secrets[sk] then Some(secrets[sk]["value"]) else None
  }

  /** The machine's bootstrap data is found in the same secret and is the same. */
  predicate SameBootstrap(t: State, u: State, ns: string, m: Machine) {
    && BootstrapSecret(u, ns, m) == BootstrapSecret(t, ns, m)
    && (BootstrapSecret(t, ns, m).Ok? ==>
          ValueAt(u.secrets, BootstrapSecret(t, ns, m).value) == ValueAt(t.secrets, BootstrapSecret(t, ns, m).value))
  }

  /** The machine, its claim, its cluster's pool and its bootstrap data are as they were; all
      other machines, claims, clusters, configurations and secrets may be anything. */
  predicate SameInputs(t: State, u: State, key: Key) {
    && MachineAt(u.machines, key) == MachineAt(t.machines, key)
    && Stored(u.claims, ClaimKey(key)) == Stored(t.claims, ClaimKey(key))
    && (key in t.machines ==>
          && ClusterPool(u, ClusterOf(t, key)) == ClusterPool(t, ClusterOf(t, key))
          && SameBootstrap(t, u, key.ns, t.machines[key]))
  }

  lemma PlanParts(s: State, key: Key)
    requires Plan(s, key).outcome.ReachedSecret()
    ensures MachinePool(s, key).Ok?
    ensures var m, pool := s.machines[key], MachinePool(s, key).value;
            var claimRun := ClaimPlan(s.claims, key, m, pool);
            && claimRun.address.Ok?
            && var secretRun := SecretPlan(s, key, m, pool.config, claimRun.address.value);
               && Plan(s, key) == Run(claimRun.attempts + secretRun.attempts, secretRun.outcome)
  {
  }

  lemma PlanOutcome(t: State, key: Key, m: Machine, pool: Pool, ip: Addr)
    requires MachinePool(t, key) == Ok(pool) && key in t.machines && t.machines[key] == m
    requires ClaimPlan(t.claims, key, m, pool).address == Ok(ip)
    ensures Plan(t, key).outcome == SecretPlan(t, key, m, pool.config, ip).outcome
    ensures Plan(t, key).attempts
         == ClaimPlan(t.claims, key, m, pool).attempts + SecretPlan(t, key, m, pool.config, ip).attempts
  {
  }

  function MachinesAfter(machines: map<Key, Machine>, key: Key, outcome: Outcome): map<Key, Machine> {
    if outcome == Rolled then Deleted(machines, key) else machines
  }

  /** The effect of the secret phase. */
  lemma SecretPhaseEffect(s: State, key: Key, m: Machine, config: NodeConfig, ip: Addr)
    requires SecretPlan(s, key, m, config, ip).outcome.ReachedSecret()
    ensures var plan := SecretPlan(s, key, m, config, ip);
            var t := Applied(s, plan.attempts);
            && BootstrapUpdated(s, key, m, config, ip, t.secrets)
            && t == s.(secrets := t.secrets, machines := MachinesAfter(s.machines, key, plan.outcome))
  {
    var sk := BootstrapSecret(s, key.ns, m).value;
    var plan := SecretPlan(s, key, m, config, ip);
    var updated := UpsertData(s.secrets[sk]["value"], config.interfaceName, Wanted(config, ip)).value;
    var w := Attempt(WriteSecret(sk, updated), None);
    if plan.outcome == Settled {
      assert s.secrets[sk]["value" := updated] == s.secrets[sk];
      assert WithValue(s.secrets, sk, updated) == s.secrets;
    } else {
      AppliedOne(s, w);
      if plan.outcome == Rolled {
        AppliedConcat(s, [w], [Attempt(DeleteMachine(key), None)]);
        AppliedOne(Apply(s, w.write), Attempt(DeleteMachine(key), None));
        assert plan.attempts == [w] + [Attempt(DeleteMachine(key), None)];
      }
    }
  }

  /** The state a run that reached the secret ends in when nothing is refused. */
  lemma SuccessfulRun(s: State, key: Key, verdicts: seq<bool>)
    requires Plan(s, key).outcome.ReachedSecret()
    requires Completes(s, key, verdicts)
    ensures MachinePool(s, key).Ok?
    ensures var m, pool := s.machines[key], MachinePool(s, key).value;
            var t := Next(s, key, verdicts);
            && ClaimPlan(s.claims, key, m, pool).address.Ok?
            && var ip := ClaimPlan(s.claims, key, m, pool).address.value;
               && BootstrapUpdated(s, key, m, pool.config, ip, t.secrets)
               && t == s.(claims := s.claims[ClaimKey(key) := FinalClaim(s.claims, key, m, pool, ip)],
                          secrets := t.secrets,
                          machines := MachinesAfter(s.machines, key, Plan(s, key).outcome))
  {
    PlanParts(s, key);
    AcceptedMeansApplied(s, Plan(s, key).attempts, verdicts, 0);
    var m, pool := s.machines[key], MachinePool(s, key).value;
    BothPhases(s, key, m, pool, ClaimPlan(s.claims, key, m, pool).address.value);
  }

  lemma BothPhases(s: State, key: Key, m: Machine, pool: Pool, ip: Addr)
    requires ClaimPlan(s.claims, key, m, pool).address == Ok(ip)
    requires SecretPlan(s, key, m, pool.config, ip).outcome.ReachedSecret()
    ensures var secretRun := SecretPlan(s, key, m, pool.config, ip);
            var t := Applied(s, ClaimPlan(s.claims, key, m, pool).attempts + secretRun.attempts);
            && BootstrapUpdated(s, key, m, pool.config, ip, t.secrets)
            && t == s.(claims := s.claims[ClaimKey(key) := FinalClaim(s.claims, key, m, pool, ip)],
                       secrets := t.secrets, machines := MachinesAfter(s.machines, key, secretRun.outcome))
  {
    var mid := WithClaim(s, ClaimKey(key), FinalClaim(s.claims, key, m, pool, ip));
    ClaimThenSecret(s, key, m, pool, ip, mid);
    SecretPhaseFrom(s, mid, key, m, pool.config, ip);
  }

  lemma SecretPhaseFrom(s: State, mid: State, key: Key, m: Machine, config: NodeConfig, ip: Addr)
    requires mid == s.(claims := mid.claims)
    requires SecretPlan(s, key, m, config, ip).outcome.ReachedSecret()
    ensures var plan := SecretPlan(s, key, m, config, ip);
            var t := Applied(mid, SecretPlan(mid, key, m, config, ip).attempts);
            && BootstrapUpdated(s, key, m, config, ip, t.secrets)
            && t == mid.(secrets := t.secrets, machines := MachinesAfter(s.machines, key, plan.outcome))
  {
    SecretDependsOn(s, mid, key, m, config, ip);
    SecretPhaseEffect(mid, key, m, config, ip);
    assert BootstrapSecret(mid, key.ns, m) == BootstrapSecret(s, key.ns, m);
  }

  lemma ClaimThenSecret(s: State, key: Key, m: Machine, pool: Pool, ip: Addr, mid: State)
    requires ClaimPlan(s.claims, key, m, pool).address == Ok(ip)
    requires mid == WithClaim(s, ClaimKey(key), FinalClaim(s.claims, key, m, pool, ip))
    ensures Applied(s, ClaimPlan(s.claims, key, m, pool).attempts + SecretPlan(s, key, m, pool.config, ip).attempts)
         == Applied(mid, SecretPlan(mid, key, m, pool.config, ip).attempts)
  {
    SecretDependsOn(s, mid, key, m, pool.config, ip);
    AppliedConcat(s, ClaimPlan(s.claims, key, m, pool).attempts, SecretPlan(s, key, m, pool.config, ip).attempts);
    ClaimPhaseEffect(s, key, m, pool, ip);
  }

  /** After a run that reached the secret and was refused nothing, a further run for the
      machine attempts no write at all, as long as its own inputs stay: no claim, status or
      secret is written and no machine is deleted. */
  lemma Settles(s: State, key: Key, verdicts: seq<bool>, u: State)
    requires Plan(s, key).outcome.ReachedSecret()
    requires Completes(s, key, verdicts)
    requires SameInputs(Next(s, key, verdicts), u, key)
    ensures Plan(u, key).attempts == []
    ensures Plan(u, key).outcome == if Plan(s, key).outcome == Rolled then Ignored else Settled
  {
    SuccessfulRun(s, key, verdicts);
    var t := Next(s, key, verdicts);
    var m, pool := s.machines[key], MachinePool(s, key).value;
    var ip := ClaimPlan(s.claims, key, m, pool).address.value;
    assert MachineAt(u.machines, key) == MachineAt(t.machines, key);
    RunKeepsPool(s, key, verdicts, ClusterOf(s, key));
    if Plan(s, key).outcome != Rolled {
      assert key in t.machines && t.machines[key] == m && key in u.machines && u.machines[key] == m;
      assert MachinePool(u, key) == Ok(pool);
      FinalClaimSettled(s.claims, u.claims, key, m, pool, ip);
      SecretSettled(s, t, u, key, m, pool.config, ip);
    } else if key in u.machines {
      assert u.machines[key] == m.(deleting := true);
      assert MachinePool(u, key) == Err(Ignored);
    }
  }

  lemma SecretSettled(s: State, t: State, u: State, key: Key, m: Machine, config: NodeConfig, ip: Addr)
    requires t.talosConfigs == s.talosConfigs
    requires BootstrapUpdated(s, key, m, config, ip, t.secrets)
    requires SameBootstrap(t, u, key.ns, m)
    ensures SecretPlan(u, key, m, config, ip) == Run([], Settled)
  {
    var sk := BootstrapSecret(s, key.ns, m).value;
    var out := UpsertData(s.secrets[sk]["value"], config.interfaceName, Wanted(config, ip)).value;
    UpsertDataIdempotent(s.secrets[sk]["value"], config.interfaceName, Wanted(config, ip));
    assert BootstrapSecret(t, key.ns, m) == Ok(sk) && ValueAt(t.secrets, sk) == Some(out);
    assert BootstrapSecret(u, key.ns, m) == Ok(sk) && ValueAt(u.secrets, sk) == Some(out);
  }

  lemma NothingToDo(u: State, key: Key)
    requires Plan(u, key).attempts == []
    ensures forall more: seq<bool> :: Next(u, key, more) == u
  {
  }

  // ----- settled for good -----

  /** Another machine whose bootstrap data is in the same secret. */
  predicate SharesSecret(s: State, key: Key, other: Key) {
    && key in s.machines && other in s.machines && other != key
    && var secret := BootstrapSecret(s, key.ns, s.machines[key]);
       secret.Ok? && BootstrapSecret(s, other.ns, s.machines[other]) == secret
  }

  /** The environment leaves the machine's inputs alone, and a run for another machine does
      not use its bootstrap secret. */
  predicate LeavesInputs(s: State, e: Event, t: State, key: Key) {
    match e
    case Environment => SameInputs(s, t, key)
    case Reconciled(other, _) => !SharesSecret(s, key, other)
  }

  lemma OtherSecretKept(t: State, other: Key, pool: Pool, u: State, ns: string, m: Machine)
    requires other in t.machines && SecretsWithin(t, other, pool, u.secrets) && u.talosConfigs == t.talosConfigs
    requires var secret := BootstrapSecret(t, ns, m);
             secret.Ok? ==> BootstrapSecret(t, other.ns, t.machines[other]) != secret
    ensures SameBootstrap(t, u, ns, m)
  {
  }

  lemma OtherClaimKept(t: State, other: Key, pool: Pool, u: State, key: Key)
    requires other != key && other in t.machines && Within(t, other, pool, u)
    ensures MachineAt(u.machines, key) == MachineAt(t.machines, key)
    ensures Stored(u.claims, ClaimKey(key)) == Stored(t.claims, ClaimKey(key))
  {
    if ClaimKey(other) == ClaimKey(key) {
      ClaimKeyInjective(other, key);
    }
  }

  /** A run for another machine leaves the machine's inputs alone. */
  lemma OtherRunKeepsInputs(t: State, other: Key, verdicts: seq<bool>, key: Key)
    requires other != key && !SharesSecret(t, key, other)
    ensures SameInputs(t, Next(t, other, verdicts), key)
  {
    var u := Next(t, other, verdicts);
    RunEffect(t, other, verdicts);
    if MachinePool(t, other).Ok? {
      var pool := MachinePool(t, other).value;
      OtherClaimKept(t, other, pool, u, key);
      if key in t.machines {
        PoolDependsOnly(t, u, ClusterOf(t, key));
        OtherSecretKept(t, other, pool, u, key.ns, t.machines[key]);
      }
    }
  }

  lemma SameInputsTrans(s: State, t: State, u: State, key: Key)
    requires SameInputs(s, t, key) && SameInputs(t, u, key)
    ensures SameInputs(s, u, key)
  {
    assert MachineAt(s.machines, key) == MachineAt(t.machines, key);
  }

  /** The `m`-th event is a run for the machine that reached the secret and was refused
      nothing. */
  ghost predicate SucceedsAt(states: seq<State>, events: seq<Event>, key: Key, m: nat) {
    && m < |events| < |states| && events[m].Reconciled? && events[m].key == key
    && Plan(states[m], key).outcome.ReachedSecret() && Completes(states[m], key, events[m].verdicts)
  }

  /** As long as the machine's inputs are those of `t`, its runs attempt nothing. */
  ghost predicate SettledIn(t: State, key: Key) {
    forall u | SameInputs(t, u, key) :: Plan(u, key).attempts == []
  }

  lemma InputsFollow(start: State, s: State, e: Event, t: State, allowed: (State, State) -> bool, key: Key)
    requires SettledIn(start, key) && SameInputs(start, s, key)
    requires Follows(s, e, t, allowed) && LeavesInputs(s, e, t, key)
    ensures SameInputs(start, t, key)
  {
    match e
    case Reconciled(other, verdicts) =>
      if other == key {
        NothingToDo(s, key);
      } else {
        OtherRunKeepsInputs(s, other, verdicts, key);
        SameInputsTrans(start, s, t, key);
      }
    case Environment => SameInputsTrans(start, s, t, key);
  }

  /** Between the states `m` and `n` nothing but runs for the machine touches its inputs. */
  ghost predicate InputsLeft(states: seq<State>, events: seq<Event>, key: Key, m: nat, n: nat)
    requires n <= |events| < |states|
  {
    forall i | m <= i < n :: LeavesInputs(states[i], events[i], states[i + 1], key)
  }

  lemma {:induction false} InputsStay(states: seq<State>, events: seq<Event>, allowed: (State, State) -> bool,
                                      key: Key, m: nat, n: nat)
    requires IsRun(states, events, allowed) && m <= n < |states|
    requires SettledIn(states[m], key) && InputsLeft(states, events, key, m, n)
    ensures SameInputs(states[m], states[n], key)
    decreases n
  {
    if m < n {
      InputsStay(states, events, allowed, key, m, n - 1);
      RunStep(states, events, allowed, n - 1);
      InputsFollow(states[m], states[n - 1], events[n - 1], states[n], allowed, key);
    }
  }

  /** In any run, after a run for the machine that reached the secret and was refused
      nothing: while the environment leaves the machine's own inputs alone and no other
      machine shares its bootstrap secret, no later run for it attempts a write or a
      deletion, in whatever state the other machines are. */
  lemma SettledForGood(states: seq<State>, events: seq<Event>, allowed: (State, State) -> bool,
                       key: Key, m: nat, n: nat)
    requires IsRun(states, events, allowed) && m < n < |states|
    requires SucceedsAt(states, events, key, m) && InputsLeft(states, events, key, m + 1, n)
    ensures SameInputs(states[m + 1], states[n], key)
    ensures Plan(states[n], key).attempts == []
    ensures Plan(states[n], key).outcome == if Plan(states[m], key).outcome == Rolled then Ignored else Settled
  {
    RunStep(states, events, allowed, m);
    SuccessSettles(states[m], key, events[m].verdicts);
    InputsStay(states, events, allowed, key, m + 1, n);
    Settles(states[m], key, events[m].verdicts, states[n]);
  }

  lemma SuccessSettles(s: State, key: Key, verdicts: seq<bool>)
    requires Plan(s, key).outcome.ReachedSecret() && Completes(s, key, verdicts)
    ensures SettledIn(Next(s, key, verdicts), key)
  {
    forall u | SameInputs(Next(s, key, verdicts), u, key) ensures Plan(u, key).attempts == [] {
      Settles(s, key, verdicts, u);
    }
  }

  /** A roll that was blocked is not made up for: the run asks to be run again, but once the
      blocking machine is gone, and whatever else other machines do, later runs leave the
      machine alone. */
  lemma BlockedRollIsDropped(states: seq<State>, events: seq<Event>, allowed: (State, State) -> bool,
                             key: Key, m: nat, n: nat)
    requires IsRun(states, events, allowed) && m < n < |states|
    requires SucceedsAt(states, events, key, m) && InputsLeft(states, events, key, m + 1, n)
    requires Plan(states[m], key).outcome == RollBlocked
    ensures Plan(states[m], key).outcome.RequeueAfter() == 10
    ensures Plan(states[n], key) == Run([], Settled)
    ensures key in states[n].machines && states[n].machines[key].hasNode && !states[n].machines[key].deleting
  {
    SettledForGood(states, events, allowed, key, m, n);
    RunStep(states, events, allowed, m);
    BlockedMachineStays(states[m], key, events[m].verdicts);
    assert MachineAt(states[n].machines, key) == MachineAt(states[m + 1].machines, key);
  }

  lemma BlockedMachineStays(s: State, key: Key, verdicts: seq<bool>)
    requires Plan(s, key).outcome == RollBlocked
    requires Completes(s, key, verdicts)
    ensures var machines := Next(s, key, verdicts).machines;
            key in machines && machines[key].hasNode && !machines[key].deleting
  {
    PlanParts(s, key);
    SuccessfulRun(s, key, verdicts);
  }

  // ----- what the bootstrap data shows -----

  /** The first LinkConfig of the interface names `desired` and no other prefix of its
      length inside `subnet`. */
  ghost predicate Shows(data: Bytes, interfaceName: Text, desired: Prefix, subnet: Prefix) {
    && Decode(data).Ok?
    && var docs := Decode(data).value;
       var i := FirstTarget(Marshal(docs), interfaceName);
       && i < |docs|
       && Addresses(docs[i]).Ok?
       && var addresses := Addresses(docs[i]).value;
          && Names(addresses, desired)
          && forall e | e in addresses && EntryPrefix(e).Some? ::
               EntryPrefix(e).value.bits == desired.bits && subnet.Contains(EntryPrefix(e).value.addr)
               ==> EntryPrefix(e).value == desired
  }

  lemma UpsertShows(data: Bytes, interfaceName: Text, desired: Prefix, subnet: Prefix)
    requires UpsertData(data, interfaceName, Cidr(desired)).Ok?
    requires subnet == desired.Masked()
    ensures Shows(UpsertData(data, interfaceName, Cidr(desired)).value, interfaceName, desired, subnet)
  {
    var docs := Decode(data).value;
    UpsertDataDocs(data, interfaceName, Cidr(desired));
    UpsertIsLocal(Marshal(docs), interfaceName, Cidr(desired));
    var i := FirstTarget(Marshal(docs), interfaceName);
    var before := if i < |docs| then docs[i] else map[];
    SpliceSpec(before, interfaceName, desired);
    NextAddressesSpec(Addresses(before).value, desired);
  }

  /** When the address lies in the cluster's subnet, a successful run leaves bootstrap data
      that shows it and none of the machine's earlier addresses from that subnet. */
  lemma SecretShowsAddress(s: State, key: Key, verdicts: seq<bool>)
    requires Plan(s, key).outcome.ReachedSecret()
    requires Completes(s, key, verdicts)
    requires MachinePool(s, key).Ok?
    requires var address := ClaimPlan(s.claims, key, s.machines[key], MachinePool(s, key).value).address;
             address.Ok? && MachinePool(s, key).value.config.subnet.Contains(address.value)
    ensures var config := MachinePool(s, key).value.config;
            var ip := ClaimPlan(s.claims, key, s.machines[key], MachinePool(s, key).value).address.value;
            var sk := BootstrapSecret(s, key.ns, s.machines[key]);
            && sk.Ok? && sk.value in Next(s, key, verdicts).secrets
            && "value" in Next(s, key, verdicts).secrets[sk.value]
            && Shows(Next(s, key, verdicts).secrets[sk.value]["value"], config.interfaceName,
                     Prefix(ip, config.subnet.bits), config.subnet)
  {
    SuccessfulRun(s, key, verdicts);
    var pool := MachinePool(s, key).value;
    var ip := ClaimPlan(s.claims, key, s.machines[key], pool).address.value;
    var sk := BootstrapSecret(s, key.ns, s.machines[key]).value;
    ConfigMasked(s, ClusterOf(s, key));
    MaskOfMember(pool.config.subnet, ip);
    UpsertShows(s.secrets[sk]["value"], pool.config.interfaceName, Prefix(ip, pool.config.subnet.bits),
                pool.config.subnet);
  }

  /** In every state that respects the pool's invariant, a successful run leaves bootstrap data
      with the machine's address and none of its earlier addresses from the cluster's subnet. */
  lemma PoolAddressShown(s: State, key: Key, verdicts: seq<bool>, pool: Pool)
    requires Plan(s, key).outcome.ReachedSecret()
    requires Completes(s, key, verdicts)
    requires key in s.machines && PoolInvariant(s, ClusterOf(s, key), pool) && WellFormed(pool)
    ensures var t := Next(s, key, verdicts);
            && ClaimKey(key) in t.claims && t.claims[ClaimKey(key)].spec.address.Dotted?
            && var sk := BootstrapSecret(s, key.ns, s.machines[key]);
               && sk.Ok? && sk.value in t.secrets && "value" in t.secrets[sk.value]
               && Shows(t.secrets[sk.value]["value"], pool.config.interfaceName,
                        Prefix(t.claims[ClaimKey(key)].spec.address.ip, pool.config.subnet.bits), pool.config.subnet)
  {
    PlanParts(s, key);
    assert MachinePool(s, key) == Ok(pool);
    PlannedAddressInSubnet(s, key, ClusterOf(s, key), pool);
    SecretShowsAddress(s, key, verdicts);
    SuccessfulRun(s, key, verdicts);
    FinalAddress(s.claims, key, s.machines[key], pool, ClaimPlan(s.claims, key, s.machines[key], pool).address.value);
  }

  /** A document shows at most one address of the subnet. */
  lemma OneShown(data: Bytes, interfaceName: Text, a: Prefix, b: Prefix, subnet: Prefix)
    requires Shows(data, interfaceName, a, subnet) && Shows(data, interfaceName, b, subnet)
    requires a.bits == b.bits && subnet.Contains(a.addr)
    ensures a == b
  {
  }

  lemma SettledShows(u: State, key: Key, pool: Pool, ip: Addr, sk: Key)
    requires MachinePool(u, key) == Ok(pool) && Plan(u, key).outcome == Settled
    requires ClaimPlan(u.claims, key, u.machines[key], pool).address == Ok(ip) && pool.config.subnet.Contains(ip)
    requires BootstrapSecret(u, key.ns, u.machines[key]) == Ok(sk)
    ensures sk in u.secrets && "value" in u.secrets[sk]
    ensures Shows(u.secrets[sk]["value"], pool.config.interfaceName, Prefix(ip, pool.config.subnet.bits),
                  pool.config.subnet)
  {
    PlanParts(u, key);
    ConfigMasked(u, ClusterOf(u, key));
    MaskOfMember(pool.config.subnet, ip);
    UpsertShows(u.secrets[sk]["value"], pool.config.interfaceName, Prefix(ip, pool.config.subnet.bits),
                pool.config.subnet);
  }

  /** Two machines of a cluster whose bootstrap data is in one secret never come to rest: in no
      state do the runs of both find it up to date. */
  lemma SharedSecretNeverSettles(u: State, key: Key, other: Key, pool: Pool)
    requires SharesSecret(u, key, other)
    requires MachinePool(u, key) == Ok(pool) && MachinePool(u, other) == Ok(pool)
    requires var a, b := ClaimPlan(u.claims, key, u.machines[key], pool).address,
                         ClaimPlan(u.claims, other, u.machines[other], pool).address;
             && a.Ok? && b.Ok? && a != b
             && pool.config.subnet.Contains(a.value) && pool.config.subnet.Contains(b.value)
    ensures Plan(u, key).outcome != Settled || Plan(u, other).outcome != Settled
  {
    if Plan(u, key).outcome == Settled && Plan(u, other).outcome == Settled {
      var sk := BootstrapSecret(u, key.ns, u.machines[key]).value;
      var a := ClaimPlan(u.claims, key, u.machines[key], pool).address.value;
      var b := ClaimPlan(u.claims, other, u.machines[other], pool).address.value;
      SettledShows(u, key, pool, a, sk);
      SettledShows(u, other, pool, b, sk);
      OneShown(u.secrets[sk]["value"], pool.config.interfaceName, Prefix(a, pool.config.subnet.bits),
               Prefix(b, pool.config.subnet.bits), pool.config.subnet);
      assert false;
    }
  }

  lemma FinalAddress(claims: map<Key, Claim>, key: Key, m: Machine, pool: Pool, ip: Addr)
    requires ClaimPlan(claims, key, m, pool).address == Ok(ip)
    ensures FinalClaim(claims, key, m, pool, ip).spec.address == Dotted(ip)
  {
  }

  lemma ConfigMasked(s: State, cluster: Key)
    requires ClusterPool(s, cluster).Ok?
    ensures var subnet := ClusterPool(s, cluster).value.config.subnet;
            subnet.Masked() == subnet
  {
    match s.clusters[cluster].subnet
    case Subnet(prefix) => MaskedTwice(prefix, prefix.addr);
    case _ =>
  }
}
