/** Runs that the API server cuts short, and what the next run makes of them. */
module Resume {
  import opened Outcomes
  import opened Ipv4
  import opened Allocator
  import opened Bootstrap
  import opened ClusterState
  import opened MachineIP
  import opened Effects
  import opened Runs
  import opened Settling

  /** A claim on its way from its synced to its final version: in line with the machine, with
      or without its address, in any status. */
  predicate OnTheWay(synced: Claim, ip: Addr, c: Claim) {
    && c.owners == synced.owners
    && (|| (c.spec == synced.spec && c.generation == synced.generation)
        || (&& synced.spec.address == NoAddress
            && c.spec == synced.spec.(address := Dotted(ip)) && c.generation == synced.generation + 1))
  }

  predicate WriteOnTheWay(ck: Key, synced: Claim, ip: Addr, w: Write) {
    w.WriteClaim? && w.key == ck && OnTheWay(synced, ip, w.claim)
  }

  /** An attempt that may come before the deletion of the machine. */
  predicate StepOnTheWay(ck: Key, synced: Claim, ip: Addr, sk: Key, data: Bytes, a: Attempt) {
    || (&& WriteOnTheWay(ck, synced, ip, a.write)
        && (a.fallback.Some? ==> WriteOnTheWay(ck, synced, ip, a.fallback.value)))
    || a == Attempt(WriteSecret(sk, data), None)
  }

  /** `t` is `s` with some of the writes of a run for `key` made. */
  ghost predicate Between(s: State, ck: Key, synced: Claim, ip: Addr, sk: Key, data: Bytes, t: State) {
    && t == s.(claims := t.claims, secrets := t.secrets)
    && (forall k | k != ck :: Stored(t.claims, k) == Stored(s.claims, k))
    && (Stored(t.claims, ck) == Stored(s.claims, ck) || (ck in t.claims && OnTheWay(synced, ip, t.claims[ck])))
    && (t.secrets == s.secrets || t.secrets == WithValue(s.secrets, sk, data))
  }

  lemma BetweenApply(s: State, ck: Key, synced: Claim, ip: Addr, sk: Key, data: Bytes, t: State, w: Write)
    requires Between(s, ck, synced, ip, sk, data, t)
    requires WriteOnTheWay(ck, synced, ip, w) || w == WriteSecret(sk, data)
    ensures Between(s, ck, synced, ip, sk, data, Apply(t, w))
  {
    var u := Apply(t, w);
    forall k | k != ck ensures Stored(u.claims, k) == Stored(s.claims, k) {
      assert Stored(t.claims, k) == Stored(s.claims, k);
    }
    if w.WriteSecret? && sk in s.secrets {
      assert s.secrets[sk]["value" := data]["value" := data] == s.secrets[sk]["value" := data];
      assert WithValue(WithValue(s.secrets, sk, data), sk, data) == WithValue(s.secrets, sk, data);
    }
  }

  lemma {:induction false} BetweenExecute(s: State, ck: Key, synced: Claim, ip: Addr, sk: Key, data: Bytes, t: State,
                                          attempts: seq<Attempt>, verdicts: seq<bool>, calls: nat)
    requires Between(s, ck, synced, ip, sk, data, t)
    requires forall a | a in attempts :: StepOnTheWay(ck, synced, ip, sk, data, a)
    ensures Between(s, ck, synced, ip, sk, data, Execute(t, attempts, verdicts, calls).state)
    decreases |attempts|
  {
    if attempts != [] {
      assert attempts[0] in attempts;
      if Accepts(verdicts, calls) {
        BetweenApply(s, ck, synced, ip, sk, data, t, attempts[0].write);
        BetweenExecute(s, ck, synced, ip, sk, data, Apply(t, attempts[0].write), attempts[1..], verdicts, calls + 1);
      } else if attempts[0].fallback.Some? && Accepts(verdicts, calls + 1) {
        BetweenApply(s, ck, synced, ip, sk, data, t, attempts[0].fallback.value);
      }
    }
  }

  lemma ClaimStepsOnTheWay(claims: map<Key, Claim>, key: Key, m: Machine, pool: Pool, ip: Addr, sk: Key, data: Bytes)
    requires ClaimPlan(claims, key, m, pool).address == Ok(ip)
    ensures forall a | a in ClaimPlan(claims, key, m, pool).attempts ::
              StepOnTheWay(ClaimKey(key), SyncedClaim(claims, key, m, pool.config), ip, sk, data, a)
  {
    var ck := ClaimKey(key);
    var synced := SyncedClaim(claims, key, m, pool.config);
    var requested := Requested(synced);
    var placed := Placed(requested, ip);
    assert OnTheWay(synced, ip, synced) && OnTheWay(synced, ip, requested) && OnTheWay(synced, ip, placed);
    assert OnTheWay(synced, ip, WithStatus(placed, Ready, AddressAllocated(ip)));
    assert OnTheWay(synced, ip, WithStatus(requested, Failed, AllocationFailed(WriteRefused)));
  }

  /** Whatever stage a claim was left in, the next run takes it to the same address and the
      same final version. */
  lemma SameFinalClaim(claims: map<Key, Claim>, later: map<Key, Claim>, key: Key, m: Machine, pool: Pool, ip: Addr)
    requires ClaimPlan(claims, key, m, pool).address == Ok(ip)
    requires var ck := ClaimKey(key);
             && (forall k | k != ck :: Stored(later, k) == Stored(claims, k))
             && (Stored(later, ck) == Stored(claims, ck)
                 || (ck in later && OnTheWay(SyncedClaim(claims, key, m, pool.config), ip, later[ck])))
    ensures ClaimPlan(later, key, m, pool).address == Ok(ip)
    ensures FinalClaim(later, key, m, pool, ip) == FinalClaim(claims, key, m, pool, ip)
  {
    var ck := ClaimKey(key);
    var synced, again := SyncedClaim(claims, key, m, pool.config), SyncedClaim(later, key, m, pool.config);
    assert again.owners == synced.owners;
    assert (again.spec == synced.spec && again.generation == synced.generation)
        || (&& synced.spec.address == NoAddress
            && again.spec == synced.spec.(address := Dotted(ip)) && again.generation == synced.generation + 1);
    AddressSame(claims, later, ck, Requested(synced), Requested(again), pool.range, ip);
  }

  lemma AddressSame(claims: map<Key, Claim>, later: map<Key, Claim>, ck: Key, c: Claim, d: Claim, range: Range,
                    ip: Addr)
    requires forall k | k != ck :: Stored(claims, k) == Stored(later, k)
    requires AddressFor(claims, ck, c, range) == Ok(ip)
    requires d.spec == c.spec || d.spec.address == Dotted(ip)
    ensures AddressFor(later, ck, d, range) == Ok(ip)
  {
    AddressPlanFrame(claims, later, ck, c, range);
    assert AddressPlan(later, ck, c, range).address == AddressFor(later, ck, c, range);
    assert AddressPlan(claims, ck, c, range).address == AddressFor(claims, ck, c, range);
  }

  /** A run that was refused something got no further than the deletion. */
  lemma RefusedBeforeDeletion(s: State, a: seq<Attempt>, last: Attempt, verdicts: seq<bool>)
    requires last.fallback == None
    requires !Execute(s, a + [last], verdicts, 0).ok
    ensures Execute(s, a + [last], verdicts, 0).state == Execute(s, a, verdicts, 0).state
  {
    ExecuteConcat(s, a, [last], verdicts, 0);
    assert [last][1..] == [];
  }

  /** The attempts of a run without the closing deletion. */
  lemma WithoutDeletion(s: State, key: Key, m: Machine, pool: Pool, ip: Addr) returns (a: seq<Attempt>)
    requires ClaimPlan(s.claims, key, m, pool).address == Ok(ip)
    requires SecretPlan(s, key, m, pool.config, ip).outcome.ReachedSecret()
    ensures BootstrapSecret(s, key.ns, m).Ok?
    ensures var sk := BootstrapSecret(s, key.ns, m).value;
            && sk in s.secrets && "value" in s.secrets[sk]
            && var data := UpsertData(s.secrets[sk]["value"], pool.config.interfaceName, Wanted(pool.config, ip));
               && data.Ok?
               && forall x | x in a ::
                    StepOnTheWay(ClaimKey(key), SyncedClaim(s.claims, key, m, pool.config), ip, sk, data.value, x)
    ensures var all := ClaimPlan(s.claims, key, m, pool).attempts + SecretPlan(s, key, m, pool.config, ip).attempts;
            all == a || all == a + [Attempt(DeleteMachine(key), None)]
  {
    var sk := BootstrapSecret(s, key.ns, m).value;
    var data := UpsertData(s.secrets[sk]["value"], pool.config.interfaceName, Wanted(pool.config, ip)).value;
    var claimAttempts, plan := ClaimPlan(s.claims, key, m, pool).attempts, SecretPlan(s, key, m, pool.config, ip);
    ClaimStepsOnTheWay(s.claims, key, m, pool, ip, sk, data);
    a := claimAttempts + if plan.outcome == Settled then [] else [Attempt(WriteSecret(sk, data), None)];
  }

  /** Where a refused run leaves the state. */
  lemma RefusedRun(s: State, key: Key, verdicts: seq<bool>)
    requires Plan(s, key).outcome.ReachedSecret()
    requires !Completes(s, key, verdicts)
    ensures MachinePool(s, key).Ok?
    ensures var m, pool := s.machines[key], MachinePool(s, key).value;
            && ClaimPlan(s.claims, key, m, pool).address.Ok?
            && var ip := ClaimPlan(s.claims, key, m, pool).address.value;
               && BootstrapSecret(s, key.ns, m).Ok?
               && var sk := BootstrapSecret(s, key.ns, m).value;
                  && sk in s.secrets && "value" in s.secrets[sk]
                  && var data := UpsertData(s.secrets[sk]["value"], pool.config.interfaceName, Wanted(pool.config, ip));
                     && data.Ok?
                     && Between(s, ClaimKey(key), SyncedClaim(s.claims, key, m, pool.config), ip, sk, data.value,
                                Next(s, key, verdicts))
  {
    PlanParts(s, key);
    var m, pool := s.machines[key], MachinePool(s, key).value;
    var ip := ClaimPlan(s.claims, key, m, pool).address.value;
    var a := WithoutDeletion(s, key, m, pool, ip);
    var sk := BootstrapSecret(s, key.ns, m).value;
    var data := UpsertData(s.secrets[sk]["value"], pool.config.interfaceName, Wanted(pool.config, ip)).value;
    var synced := SyncedClaim(s.claims, key, m, pool.config);
    if Plan(s, key).attempts != a {
      RefusedBeforeDeletion(s, a, Attempt(DeleteMachine(key), None), verdicts);
    }
    assert Between(s, ClaimKey(key), synced, ip, sk, data, s);
    BetweenExecute(s, ClaimKey(key), synced, ip, sk, data, s, a, verdicts, 0);
  }

  /** The plan that follows a refused run reaches the secret again, for the same address. */
  lemma RefusedRunReplans(s: State, key: Key, verdicts: seq<bool>)
    requires Plan(s, key).outcome.ReachedSecret()
    requires !Completes(s, key, verdicts)
    ensures var t := Next(s, key, verdicts);
            && Plan(t, key).outcome.ReachedSecret()
            && MachinePool(s, key).Ok? && MachinePool(t, key) == MachinePool(s, key)
            && t.machines == s.machines
            && var m, pool := s.machines[key], MachinePool(s, key).value;
               && ClaimPlan(s.claims, key, m, pool).address.Ok?
               && var ip := ClaimPlan(s.claims, key, m, pool).address.value;
                  && ClaimPlan(t.claims, key, m, pool).address == Ok(ip)
                  && FinalClaim(t.claims, key, m, pool, ip) == FinalClaim(s.claims, key, m, pool, ip)
  {
    RefusedRun(s, key, verdicts);
    var t := Next(s, key, verdicts);
    var m, pool := s.machines[key], MachinePool(s, key).value;
    var ip := ClaimPlan(s.claims, key, m, pool).address.value;
    PoolDependsOn(s, t, key);
    SameFinalClaim(s.claims, t.claims, key, m, pool, ip);
    SecretAgain(s, t, key, m, pool.config, ip);
    PlanReaches(t, key, m, pool, ip);
  }

  lemma PlanReaches(t: State, key: Key, m: Machine, pool: Pool, ip: Addr)
    requires MachinePool(t, key) == Ok(pool) && key in t.machines && t.machines[key] == m
    requires ClaimPlan(t.claims, key, m, pool).address == Ok(ip)
    requires SecretPlan(t, key, m, pool.config, ip).outcome.ReachedSecret()
    ensures Plan(t, key).outcome.ReachedSecret()
  {
  }

  /** Updated or not, the bootstrap data is brought to the same bytes. */
  lemma SecretAgain(s: State, t: State, key: Key, m: Machine, config: NodeConfig, ip: Addr)
    requires BootstrapSecret(s, key.ns, m).Ok? && t.talosConfigs == s.talosConfigs
    requires var sk := BootstrapSecret(s, key.ns, m).value;
             && sk in s.secrets && "value" in s.secrets[sk]
             && var data := UpsertData(s.secrets[sk]["value"], config.interfaceName, Wanted(config, ip));
                data.Ok? && (t.secrets == s.secrets || t.secrets == WithValue(s.secrets, sk, data.value))
    ensures SecretPlan(t, key, m, config, ip).outcome.ReachedSecret()
    ensures forall secrets | BootstrapUpdated(t, key, m, config, ip, secrets) ::
              BootstrapUpdated(s, key, m, config, ip, secrets)
  {
    var sk := BootstrapSecret(s, key.ns, m).value;
    var address := Wanted(config, ip);
    var data := UpsertData(s.secrets[sk]["value"], config.interfaceName, address).value;
    UpsertDataIdempotent(s.secrets[sk]["value"], config.interfaceName, address);
    assert t.secrets[sk]["value"] == s.secrets[sk]["value"] || t.secrets[sk]["value"] == data;
    assert BootstrapSecret(t, key.ns, m) == Ok(sk);
    assert s.secrets[sk]["value" := data]["value" := data] == s.secrets[sk]["value" := data];
    assert WithValue(WithValue(s.secrets, sk, data), sk, data) == WithValue(s.secrets, sk, data);
  }

  lemma SameUpdate(s: State, key: Key, m: Machine, config: NodeConfig, ip: Addr,
                   a: map<Key, map<string, Bytes>>, b: map<Key, map<string, Bytes>>)
    requires BootstrapUpdated(s, key, m, config, ip, a) && BootstrapUpdated(s, key, m, config, ip, b)
    ensures a == b
  {
  }

  lemma SameClaims(a: map<Key, Claim>, b: map<Key, Claim>, ck: Key, c: Claim)
    requires forall k | k != ck :: Stored(a, k) == Stored(b, k)
    ensures a[ck := c] == b[ck := c]
  {
    var x, y := a[ck := c], b[ck := c];
    forall k ensures Stored(x, k) == Stored(y, k) {
      assert k != ck ==> Stored(a, k) == Stored(b, k);
    }
    SameMaps(x, y);
  }

  lemma SameMaps(x: map<Key, Claim>, y: map<Key, Claim>)
    requires forall k :: Stored(x, k) == Stored(y, k)
    ensures x == y
  {
    assert forall k | k in x :: Stored(x, k) == Stored(y, k);
    assert forall k | k in y :: Stored(x, k) == Stored(y, k);
  }

  /** A run is cut short: one later run that is refused nothing brings claims and secrets to
      exactly the state that a single run without refusals would have reached. */
  lemma RetryCompletes(s: State, key: Key, verdicts: seq<bool>, again: seq<bool>, straight: seq<bool>)
    requires Plan(s, key).outcome.ReachedSecret()
    requires Completes(s, key, straight)
    requires !Completes(s, key, verdicts)
    requires var t := Next(s, key, verdicts);
             Completes(t, key, again)
    ensures var done, retried := Next(s, key, straight), Next(Next(s, key, verdicts), key, again);
            retried.claims == done.claims && retried.secrets == done.secrets
  {
    var t := Next(s, key, verdicts);
    SuccessfulRun(s, key, straight);
    var m, pool := s.machines[key], MachinePool(s, key).value;
    var ip := ClaimPlan(s.claims, key, m, pool).address.value;
    RefusedRun(s, key, verdicts);
    RefusedRunReplans(s, key, verdicts);
    SuccessfulRun(t, key, again);
    SecretAgain(s, t, key, m, pool.config, ip);
    SameUpdate(s, key, m, pool.config, ip, Next(t, key, again).secrets, Next(s, key, straight).secrets);
    SameClaims(s.claims, t.claims, ClaimKey(key), FinalClaim(s.claims, key, m, pool, ip));
  }

  /** The states of a machine's runs in a row, with the verdicts of each. */
  function AfterRuns(s: State, key: Key, runs: seq<seq<bool>>): State
    decreases |runs|
  {
    if runs == [] then s else AfterRuns(Next(s, key, runs[0]), key, runs[1..])
  }

  /** However many runs are cut short, and wherever: the first run that is refused nothing
      brings claims and secrets to exactly the state that a single run without refusals would
      have reached from the start. */
  lemma {:induction false} RetriesComplete(s: State, key: Key, runs: seq<seq<bool>>, again: seq<bool>,
                                           straight: seq<bool>)
    requires Plan(s, key).outcome.ReachedSecret()
    requires Completes(s, key, straight) && Completes(AfterRuns(s, key, runs), key, again)
    ensures SameClaimsAndSecrets(Next(AfterRuns(s, key, runs), key, again), Next(s, key, straight))
    decreases |runs|
  {
    if runs == [] {
      SameResult(s, key, again, straight);
    } else if Completes(s, key, runs[0]) {
      SameResult(s, key, runs[0], straight);
      SettledAfter(s, key, runs[0], runs[1..], again);
    } else {
      var accepted := RefusedThenStraight(s, key, runs[0], straight);
      RetriesComplete(Next(s, key, runs[0]), key, runs[1..], again, accepted);
    }
  }

  predicate SameClaimsAndSecrets(s: State, t: State) {
    s.claims == t.claims && s.secrets == t.secrets
  }

  lemma RefusedThenStraight(s: State, key: Key, verdicts: seq<bool>, straight: seq<bool>) returns (accepted: seq<bool>)
    requires Plan(s, key).outcome.ReachedSecret()
    requires Completes(s, key, straight) && !Completes(s, key, verdicts)
    ensures var t := Next(s, key, verdicts);
            && Plan(t, key).outcome.ReachedSecret() && Completes(t, key, accepted)
            && SameClaimsAndSecrets(Next(t, key, accepted), Next(s, key, straight))
  {
    var t := Next(s, key, verdicts);
    RefusedRunReplans(s, key, verdicts);
    accepted := AllAccepted(t, key);
    RetryCompletes(s, key, verdicts, accepted, straight);
  }

  lemma AllAccepted(s: State, key: Key) returns (verdicts: seq<bool>)
    ensures Completes(s, key, verdicts)
  {
    verdicts := seq(|Plan(s, key).attempts|, _ => true);
    OkMeansAccepted(s, Plan(s, key).attempts, verdicts, 0);
  }

  lemma SettledAfter(s: State, key: Key, verdicts: seq<bool>, runs: seq<seq<bool>>, again: seq<bool>)
    requires Plan(s, key).outcome.ReachedSecret() && Completes(s, key, verdicts)
    ensures var t := Next(s, key, verdicts);
            Next(AfterRuns(t, key, runs), key, again) == t
  {
    var t := Next(s, key, verdicts);
    Settles(s, key, verdicts, t);
    StaysSettled(t, key, runs);
    NothingToDo(t, key);
  }

  /** Two runs that are refused nothing have the same result. */
  lemma SameResult(s: State, key: Key, a: seq<bool>, b: seq<bool>)
    requires Completes(s, key, a) && Execute(s, Plan(s, key).attempts, b, 0).ok
    ensures Next(s, key, a) == Next(s, key, b)
  {
    AcceptedMeansApplied(s, Plan(s, key).attempts, a, 0);
    AcceptedMeansApplied(s, Plan(s, key).attempts, b, 0);
  }

  lemma {:induction false} StaysSettled(t: State, key: Key, runs: seq<seq<bool>>)
    requires Plan(t, key).attempts == []
    ensures AfterRuns(t, key, runs) == t
    decreases |runs|
  {
    if runs != [] {
      NothingToDo(t, key);
      StaysSettled(t, key, runs[1..]);
    }
  }

  // ----- the deletion is not made up for -----

  /** Claim writes followed by one write of a secret. */
  lemma UpToSecret(s: State, a: seq<Attempt>, last: Attempt, verdicts: seq<bool>)
    requires forall x | x in a :: x.write.WriteClaim? && (x.fallback.Some? ==> x.fallback.value.WriteClaim?)
    requires last.fallback == None
    ensures Execute(s, a + [last], verdicts, 0).ok <==> AcceptsFirst(verdicts, |a| + 1)
    ensures !AcceptsFirst(verdicts, |a| + 1) ==> Execute(s, a + [last], verdicts, 0).state.secrets == s.secrets
  {
    OkMeansAccepted(s, a + [last], verdicts, 0);
    ExecuteConcat(s, a, [last], verdicts, 0);
    ClaimsOnly(s, a, verdicts, 0);
    assert [last][1..] == [];
  }

  /** The attempts of a run that would end in a deletion. */
  lemma RollParts(s: State, key: Key) returns (m: Machine, pool: Pool, ip: Addr, sk: Key, data: Bytes)
    requires Plan(s, key).outcome == Rolled
    ensures MachinePool(s, key) == Ok(pool) && m == s.machines[key]
    ensures ClaimPlan(s.claims, key, m, pool).address == Ok(ip)
    ensures BootstrapSecret(s, key.ns, m) == Ok(sk) && sk in s.secrets && "value" in s.secrets[sk]
    ensures UpsertData(s.secrets[sk]["value"], pool.config.interfaceName, Wanted(pool.config, ip)) == Ok(data)
    ensures data != s.secrets[sk]["value"]
    ensures SecretPlan(s, key, m, pool.config, ip).outcome == Rolled
    ensures Plan(s, key).attempts == ClaimPlan(s.claims, key, m, pool).attempts
                                     + [Attempt(WriteSecret(sk, data), None)] + [Attempt(DeleteMachine(key), None)]
  {
    PlanParts(s, key);
    m, pool := s.machines[key], MachinePool(s, key).value;
    ip := ClaimPlan(s.claims, key, m, pool).address.value;
    sk := BootstrapSecret(s, key.ns, m).value;
    data := UpsertData(s.secrets[sk]["value"], pool.config.interfaceName, Wanted(pool.config, ip)).value;
  }

  /** A run that meant to delete its machine and was refused something. If only the deletion
      was refused, it is not tried again: the next run finds nothing to do and the machine
      stays. If the secret was not written, the next run means to delete the machine again. */
  lemma RefusedDeletionIsDropped(s: State, key: Key, verdicts: seq<bool>)
    requires Plan(s, key).outcome == Rolled
    requires !Completes(s, key, verdicts)
    ensures var t := Next(s, key, verdicts);
            && t.machines == s.machines && key in t.machines && !t.machines[key].deleting
            && if AcceptsFirst(verdicts, |Plan(s, key).attempts| - 1)
               then Plan(t, key) == Run([], Settled) && t.secrets != s.secrets
               else Plan(t, key).outcome == Rolled && t.secrets == s.secrets
  {
    var m, pool, ip, sk, data := RollParts(s, key);
    var a, w := ClaimPlan(s.claims, key, m, pool).attempts, Attempt(WriteSecret(sk, data), None);
    RefusedBeforeDeletion(s, a + [w], Attempt(DeleteMachine(key), None), verdicts);
    ClaimAttemptsOk(s.claims, key, m, pool);
    UpToSecret(s, a, w, verdicts);
    RefusedRun(s, key, verdicts);
    if AcceptsFirst(verdicts, |a| + 1) {
      AcceptedMeansApplied(s, a + [w], verdicts, 0);
      SecretWrittenSettles(s, key, m, pool, ip, sk, data, Next(s, key, verdicts));
    } else {
      RefusedRunReplans(s, key, verdicts);
      SecretPlanFrame(s, Next(s, key, verdicts), key, m, pool.config, ip);
      PlanOutcome(Next(s, key, verdicts), key, m, pool, ip);
    }
  }

  /** Claim and secret written, deletion refused: nothing is left to do. */
  lemma SecretWrittenSettles(s: State, key: Key, m: Machine, pool: Pool, ip: Addr, sk: Key, data: Bytes, t: State)
    requires MachinePool(s, key) == Ok(pool) && m == s.machines[key]
    requires ClaimPlan(s.claims, key, m, pool).address == Ok(ip)
    requires BootstrapSecret(s, key.ns, m) == Ok(sk) && sk in s.secrets && "value" in s.secrets[sk]
    requires UpsertData(s.secrets[sk]["value"], pool.config.interfaceName, Wanted(pool.config, ip)) == Ok(data)
    requires data != s.secrets[sk]["value"]
    requires t == Applied(s, ClaimPlan(s.claims, key, m, pool).attempts + [Attempt(WriteSecret(sk, data), None)])
    ensures Plan(t, key) == Run([], Settled) && t.secrets != s.secrets
  {
    var mid := WithClaim(s, ClaimKey(key), FinalClaim(s.claims, key, m, pool, ip));
    AppliedConcat(s, ClaimPlan(s.claims, key, m, pool).attempts, [Attempt(WriteSecret(sk, data), None)]);
    ClaimPhaseEffect(s, key, m, pool, ip);
    AppliedOne(mid, Attempt(WriteSecret(sk, data), None));
    assert t == mid.(secrets := WithValue(s.secrets, sk, data));
    assert t.secrets[sk]["value"] == data;
    PoolDependsOn(s, t, key);
    FinalClaimSettled(s.claims, t.claims, key, m, pool, ip);
    SecretSettled(s, t, t, key, m, pool.config, ip);
    PlanOutcome(t, key, m, pool, ip);
  }

  /** Rolling a running machine whose bootstrap data just changed is a matter of that one run:
      in every later state the machine is untouched if and only if another machine of its role
      was being deleted then, and no later run makes up for it. */
  lemma RollsNowOrNever(states: seq<State>, events: seq<Event>, allowed: (State, State) -> bool,
                        key: Key, m: nat, n: nat)
    requires IsRun(states, events, allowed) && m < n < |states|
    requires SucceedsAt(states, events, key, m) && InputsLeft(states, events, key, m + 1, n)
    requires Plan(states[m], key).outcome == Rolled || Plan(states[m], key).outcome == RollBlocked
    ensures key in states[m].machines
    ensures var machine := states[m].machines[key];
            (key in states[n].machines && !states[n].machines[key].deleting)
            <==> DeletingInRole(states[m].machines, key.ns, machine.clusterName, machine.IsControlPlane(), key.name)
    ensures Plan(states[n], key).attempts == []
  {
    SettledForGood(states, events, allowed, key, m, n);
    RunStep(states, events, allowed, m);
    RollDecided(states[m], key, events[m].verdicts);
    assert MachineAt(states[n].machines, key) == MachineAt(states[m + 1].machines, key);
  }

  lemma RollDecided(s: State, key: Key, verdicts: seq<bool>)
    requires Plan(s, key).outcome == Rolled || Plan(s, key).outcome == RollBlocked
    requires Completes(s, key, verdicts)
    ensures key in s.machines
    ensures var m, t := s.machines[key], Next(s, key, verdicts);
            (key in t.machines && !t.machines[key].deleting)
            <==> DeletingInRole(s.machines, key.ns, m.clusterName, m.IsControlPlane(), key.name)
  {
    SuccessfulRun(s, key, verdicts);
    PlanParts(s, key);
  }

  /** The other machines decide only whether the deletion takes place. */
  lemma OthersDecideOnlyTheRoll(s: State, key: Key, machines: map<Key, Machine>)
    requires Plan(s, key).outcome == Rolled || Plan(s, key).outcome == RollBlocked
    requires MachineAt(machines, key) == MachineAt(s.machines, key)
    ensures key in s.machines
    ensures var m, other := s.machines[key], Plan(s.(machines := machines), key);
            if DeletingInRole(machines, key.ns, m.clusterName, m.IsControlPlane(), key.name)
            then other.outcome == RollBlocked && other.attempts <= Plan(s, key).attempts
            else other.outcome == Rolled && Plan(s, key).attempts <= other.attempts
  {
    var t := s.(machines := machines);
    var m := s.machines[key];
    PlanParts(s, key);
    assert key in machines && machines[key] == m;
    PoolDependsOn(s, t, key);
    var pool := MachinePool(s, key).value;
    var ip := ClaimPlan(s.claims, key, m, pool).address.value;
    PlanOutcome(t, key, m, pool, ip);
    RollOrBlock(s, t, key, m, pool.config, ip);
  }

  lemma RollOrBlock(s: State, t: State, key: Key, m: Machine, config: NodeConfig, ip: Addr)
    requires t.secrets == s.secrets && t.talosConfigs == s.talosConfigs
    requires var outcome := SecretPlan(s, key, m, config, ip).outcome;
             outcome == Rolled || outcome == RollBlocked
    ensures var before, after := SecretPlan(s, key, m, config, ip), SecretPlan(t, key, m, config, ip);
            if DeletingInRole(t.machines, key.ns, m.clusterName, m.IsControlPlane(), key.name)
            then after.outcome == RollBlocked && after.attempts <= before.attempts
            else after.outcome == Rolled && before.attempts <= after.attempts
  {
  }
}
