/** What the machine's claim looks like after a run, in every stage a run can leave it in. */
module Claims {
  import opened Outcomes
  import opened Ipv4
  import opened Allocator
  import opened LinkConfig
  import opened ClusterState
  import opened MachineIP
  import opened Effects
  import opened Settling

  /** The specification of a claim that is in line with machine and cluster. */
  function InLineSpec(key: Key, m: Machine, pool: Pool, address: AddressField): ClaimSpec {
    ClaimSpec(m.clusterName, key.name, pool.config.interfaceName, Cidr(pool.config.subnet),
              m.controlPlaneLabel.Some?, address)
  }

  /** `c` follows the stored claim: it is in line, owned by the machine, with the other owners
      only if the machine was one of them before, and its generation counts one for bringing
      the specification in line, if it was not, and `more` for storing an address. */
  predicate FollowsClaim(before: Option<Claim>, key: Key, m: Machine, pool: Pool, address: AddressField, more: nat,
                         c: Claim)
  {
    && c.spec == InLineSpec(key, m, pool, address)
    && match before
       case None => c.owners == [m.uid] && c.generation == 1 + more
       case Some(b) =>
         && c.owners == (if m.uid in b.owners then b.owners else [m.uid])
         && c.generation == b.generation + more
                            + (if b.spec == InLineSpec(key, m, pool, b.spec.address) then 0 else 1)
  }

  function StoredAddress(before: Option<Claim>): AddressField {
    if before.Some? then before.value.spec.address else NoAddress
  }

  lemma SyncedFollows(claims: map<Key, Claim>, key: Key, m: Machine, pool: Pool)
    ensures var before := Stored(claims, ClaimKey(key));
            var synced := SyncedClaim(claims, key, m, pool.config);
            && FollowsClaim(before, key, m, pool, StoredAddress(before), 0, synced)
            && synced.status == (if before.Some? then before.value.status else ClaimStatus(NoPhase, NoMessage, 0))
  {
  }

  /** What a claim says after a run that found an address: it follows the stored claim, keeps
      an address it had, and is Ready for its own generation. */
  lemma FinalClaimSpec(claims: map<Key, Claim>, key: Key, m: Machine, pool: Pool, ip: Addr)
    requires ClaimPlan(claims, key, m, pool).address == Ok(ip)
    ensures var before := Stored(claims, ClaimKey(key));
            var c := FinalClaim(claims, key, m, pool, ip);
            && (StoredAddress(before) != NoAddress ==> StoredAddress(before) == Dotted(ip))
            && FollowsClaim(before, key, m, pool, Dotted(ip), if StoredAddress(before) == NoAddress then 1 else 0, c)
            && c.status == ClaimStatus(Ready, AddressAllocated(ip), c.generation)
  {
    SyncedFollows(claims, key, m, pool);
  }

  // ----- runs that find no address -----

  function FailedClaim(claims: map<Key, Claim>, key: Key, m: Machine, pool: Pool, e: AllocationError): Claim {
    WithStatus(Requested(SyncedClaim(claims, key, m, pool.config)), Failed, AllocationFailed(e))
  }

  lemma FailedPhaseEffect(s: State, key: Key, m: Machine, pool: Pool, e: AllocationError)
    requires ClaimPlan(s.claims, key, m, pool).address == Err(e)
    ensures Applied(s, ClaimPlan(s.claims, key, m, pool).attempts)
         == WithClaim(s, ClaimKey(key), FailedClaim(s.claims, key, m, pool, e))
  {
    var ck := ClaimKey(key);
    var synced := SyncedClaim(s.claims, key, m, pool.config);
    var requested, failed := Requested(synced), FailedClaim(s.claims, key, m, pool, e);
    PutEffect(WithClaim(s, ck, requested), ck, Some(requested), failed);
    TwoPuts(s, ck, synced, requested, Put(ck, Some(requested), failed), failed);
  }

  lemma NoAllocationParts(s: State, key: Key)
    requires Plan(s, key).outcome.NoAllocation?
    ensures MachinePool(s, key).Ok?
    ensures var claimRun := ClaimPlan(s.claims, key, s.machines[key], MachinePool(s, key).value);
            Plan(s, key).attempts == claimRun.attempts && claimRun.address == Err(Plan(s, key).outcome.error)
  {
  }

  /** A run that finds no address and is refused nothing changes its own claim and nothing
      else: the claim is brought in line, keeps what it had for an address, and says Failed
      and why, for its own generation. */
  lemma NoAddressRun(s: State, key: Key, verdicts: seq<bool>)
    requires Plan(s, key).outcome.NoAllocation? && Completes(s, key, verdicts)
    ensures MachinePool(s, key).Ok?
    ensures var t, own := Next(s, key, verdicts), Key(key.ns, key.name + "-external-node-ip");
            && own in t.claims && t == s.(claims := s.claims[own := t.claims[own]])
            && var before, c := Stored(s.claims, own), t.claims[own];
               && FollowsClaim(before, key, s.machines[key], MachinePool(s, key).value, StoredAddress(before), 0, c)
               && c.status == ClaimStatus(Failed, AllocationFailed(Plan(s, key).outcome.error), c.generation)
  {
    NoAllocationParts(s, key);
    var m, pool, e := s.machines[key], MachinePool(s, key).value, Plan(s, key).outcome.error;
    AcceptedMeansApplied(s, Plan(s, key).attempts, verdicts, 0);
    FailedPhaseEffect(s, key, m, pool, e);
    SyncedFollows(s.claims, key, m, pool);
  }

  // ----- runs whose address is refused -----

  /** The claim writes before the address is stored. */
  function FirstPuts(claims: map<Key, Claim>, key: Key, m: Machine, pool: Pool): seq<Attempt> {
    var synced := SyncedClaim(claims, key, m, pool.config);
    Put(ClaimKey(key), Stored(claims, ClaimKey(key)), synced) + Put(ClaimKey(key), Some(synced), Requested(synced))
  }

  lemma AddressWrites(claims: map<Key, Claim>, key: Key, m: Machine, pool: Pool, ip: Addr)
    requires ClaimPlan(claims, key, m, pool).address == Ok(ip)
    requires SyncedClaim(claims, key, m, pool.config).spec.address == NoAddress
    ensures ClaimPlan(claims, key, m, pool).attempts
            == FirstPuts(claims, key, m, pool) + [AddressAttempt(claims, key, m, pool, ip)]
               + [Attempt(WriteClaim(ClaimKey(key), FinalClaim(claims, key, m, pool, ip)), None)]
  {
  }

  lemma FirstPutsEffect(s: State, key: Key, m: Machine, pool: Pool)
    ensures Applied(s, FirstPuts(s.claims, key, m, pool))
         == WithClaim(s, ClaimKey(key), Requested(SyncedClaim(s.claims, key, m, pool.config)))
  {
    var ck := ClaimKey(key);
    var synced := SyncedClaim(s.claims, key, m, pool.config);
    var requested := Requested(synced);
    AppliedConcat(s, Put(ck, Stored(s.claims, ck), synced), Put(ck, Some(synced), requested));
    PutEffect(s, ck, Stored(s.claims, ck), synced);
    PutEffect(WithClaim(s, ck, synced), ck, Some(synced), requested);
    assert WithClaim(WithClaim(s, ck, synced), ck, requested) == WithClaim(s, ck, requested);
  }

  /** A refusal after `a` ends the run, with the fallback at most. */
  lemma RefusedAfter(s: State, a: seq<Attempt>, b: Attempt, rest: seq<Attempt>, verdicts: seq<bool>)
    requires AcceptsFirst(verdicts, |a|) && !Accepts(verdicts, |a|) && b.fallback.Some?
    ensures Execute(s, a + [b] + rest, verdicts, 0).state
         == if Accepts(verdicts, |a| + 1) then Apply(Applied(s, a), b.fallback.value) else Applied(s, a)
  {
    OkMeansAccepted(s, a, verdicts, 0);
    AcceptedMeansApplied(s, a, verdicts, 0);
    CallsCounted(s, a, verdicts, 0);
    ExecuteConcat(s, a, [b] + rest, verdicts, 0);
    assert a + [b] + rest == a + ([b] + rest);
  }

  lemma {:induction false} CallsCounted(s: State, a: seq<Attempt>, verdicts: seq<bool>, calls: nat)
    requires Execute(s, a, verdicts, calls).ok
    ensures Execute(s, a, verdicts, calls).calls == calls + |a|
    decreases |a|
  {
    if a != [] {
      CallsCounted(Apply(s, a[0].write), a[1..], verdicts, calls + 1);
    }
  }

  /** The address was found but its write, the last but one of the claim's writes, is refused:
      the claim stays without it, and says Failed if that can be written, else Pending. */
  lemma RefusedAddress(s: State, key: Key, verdicts: seq<bool>, pool: Pool)
    requires MachinePool(s, key) == Ok(pool)
    requires ClaimPlan(s.claims, key, s.machines[key], pool).address.Ok?
    requires StoredAddress(Stored(s.claims, ClaimKey(key))) == NoAddress
    ensures |ClaimPlan(s.claims, key, s.machines[key], pool).attempts| >= 2
    ensures var n := |ClaimPlan(s.claims, key, s.machines[key], pool).attempts| - 2;
            var t, own := Next(s, key, verdicts), Key(key.ns, key.name + "-external-node-ip");
            AcceptsFirst(verdicts, n) && !Accepts(verdicts, n) ==>
              && own in t.claims && t == s.(claims := s.claims[own := t.claims[own]])
              && var c := t.claims[own];
                 && FollowsClaim(Stored(s.claims, own), key, s.machines[key], pool, NoAddress, 0, c)
                 && c.status == if Accepts(verdicts, n + 1)
                                then ClaimStatus(Failed, AllocationFailed(WriteRefused), c.generation)
                                else ClaimStatus(Pending, AllocatingAddress, c.generation)
  {
    var m := s.machines[key];
    RefusedNext(s, key, verdicts, pool, ClaimPlan(s.claims, key, m, pool).address.value);
    PendingClaim(s.claims, key, m, pool);
  }

  lemma RefusedNext(s: State, key: Key, verdicts: seq<bool>, pool: Pool, ip: Addr)
    requires MachinePool(s, key) == Ok(pool)
    requires ClaimPlan(s.claims, key, s.machines[key], pool).address == Ok(ip)
    requires StoredAddress(Stored(s.claims, ClaimKey(key))) == NoAddress
    ensures |ClaimPlan(s.claims, key, s.machines[key], pool).attempts| >= 2
    ensures var n := |ClaimPlan(s.claims, key, s.machines[key], pool).attempts| - 2;
            var requested := Requested(SyncedClaim(s.claims, key, s.machines[key], pool.config));
            AcceptsFirst(verdicts, n) && !Accepts(verdicts, n) ==>
              Next(s, key, verdicts)
              == WithClaim(s, ClaimKey(key),
                           if Accepts(verdicts, n + 1)
                           then WithStatus(requested, Failed, AllocationFailed(WriteRefused)) else requested)
  {
    var m, ck := s.machines[key], ClaimKey(key);
    var rest := PlanAroundAddress(s, key, pool, ip);
    var a, b := FirstPuts(s.claims, key, m, pool), AddressAttempt(s.claims, key, m, pool, ip);
    if AcceptsFirst(verdicts, |a|) && !Accepts(verdicts, |a|) {
      FirstPutsEffect(s, key, m, pool);
      RefusedState(s, ck, a, Requested(SyncedClaim(s.claims, key, m, pool.config)), b, rest, verdicts);
    }
  }

  lemma RefusedState(s: State, ck: Key, a: seq<Attempt>, requested: Claim, b: Attempt, rest: seq<Attempt>,
                     verdicts: seq<bool>)
    requires AcceptsFirst(verdicts, |a|) && !Accepts(verdicts, |a|)
    requires Applied(s, a) == WithClaim(s, ck, requested)
    requires b.fallback == Some(WriteClaim(ck, WithStatus(requested, Failed, AllocationFailed(WriteRefused))))
    ensures Execute(s, a + [b] + rest, verdicts, 0).state
         == WithClaim(s, ck, if Accepts(verdicts, |a| + 1)
                             then WithStatus(requested, Failed, AllocationFailed(WriteRefused)) else requested)
  {
    RefusedAfter(s, a, b, rest, verdicts);
  }

  function AddressAttempt(claims: map<Key, Claim>, key: Key, m: Machine, pool: Pool, ip: Addr): Attempt {
    var requested := Requested(SyncedClaim(claims, key, m, pool.config));
    Attempt(WriteClaim(ClaimKey(key), WithAddress(requested, ip)),
            Some(WriteClaim(ClaimKey(key), WithStatus(requested, Failed, AllocationFailed(WriteRefused)))))
  }

  lemma PendingClaim(claims: map<Key, Claim>, key: Key, m: Machine, pool: Pool)
    requires StoredAddress(Stored(claims, ClaimKey(key))) == NoAddress
    ensures var before, c := Stored(claims, ClaimKey(key)), Requested(SyncedClaim(claims, key, m, pool.config));
            && FollowsClaim(before, key, m, pool, NoAddress, 0, c)
            && c.status == ClaimStatus(Pending, AllocatingAddress, c.generation)
  {
    SyncedFollows(claims, key, m, pool);
  }

  lemma StaysWithout(claims: map<Key, Claim>, key: Key, m: Machine, pool: Pool)
    requires StoredAddress(Stored(claims, ClaimKey(key))) == NoAddress
    ensures SyncedClaim(claims, key, m, pool.config).spec.address == NoAddress
  {
  }

  lemma PlanAroundAddress(s: State, key: Key, pool: Pool, ip: Addr) returns (rest: seq<Attempt>)
    requires MachinePool(s, key) == Ok(pool)
    requires ClaimPlan(s.claims, key, s.machines[key], pool).address == Ok(ip)
    requires StoredAddress(Stored(s.claims, ClaimKey(key))) == NoAddress
    ensures var m := s.machines[key];
            var a := FirstPuts(s.claims, key, m, pool);
            && Plan(s, key).attempts == a + [AddressAttempt(s.claims, key, m, pool, ip)] + rest
            && |ClaimPlan(s.claims, key, m, pool).attempts| == |a| + 2
  {
    var m := s.machines[key];
    StaysWithout(s.claims, key, m, pool);
    AddressWrites(s.claims, key, m, pool, ip);
    PlanOutcome(s, key, m, pool, ip);
    var last := Attempt(WriteClaim(ClaimKey(key), FinalClaim(s.claims, key, m, pool, ip)), None);
    rest := [last] + SecretPlan(s, key, m, pool.config, ip).attempts;
    Regroup(FirstPuts(s.claims, key, m, pool), AddressAttempt(s.claims, key, m, pool, ip), last,
            SecretPlan(s, key, m, pool.config, ip).attempts);
  }

  lemma Regroup(a: seq<Attempt>, b: Attempt, c: Attempt, d: seq<Attempt>)
    ensures a + [b] + [c] + d == a + [b] + ([c] + d)
    ensures |a + [b] + [c]| == |a| + 2
  {
  }

  // ----- the stages of a new claim -----

  /** The claim of a machine that had none, after a run whose address is found, by the number
      of writes that are accepted before the first refusal: nothing, a claim without status,
      Pending (or Failed, if the refused write is the address and that can be recorded), an
      address without the new status, Ready. */
  lemma StagesOfNewClaim(s: State, key: Key, verdicts: seq<bool>, pool: Pool, ip: Addr)
    requires MachinePool(s, key) == Ok(pool) && ClaimKey(key) !in s.claims
    requires ClaimPlan(s.claims, key, s.machines[key], pool).address == Ok(ip)
    ensures var m := s.machines[key];
            var none, found := InLineSpec(key, m, pool, NoAddress), InLineSpec(key, m, pool, Dotted(ip));
            var pending := ClaimStatus(Pending, AllocatingAddress, 1);
            var ready := ClaimStatus(Ready, AddressAllocated(ip), 2);
            var failed := ClaimStatus(Failed, AllocationFailed(WriteRefused), 1);
            Stored(Next(s, key, verdicts).claims, ClaimKey(key))
            == if !Accepts(verdicts, 0) then None
               else if !Accepts(verdicts, 1) then Some(Claim(none, [m.uid], 1, ClaimStatus(NoPhase, NoMessage, 0)))
               else if !Accepts(verdicts, 2) then
                 Some(Claim(none, [m.uid], 1, if Accepts(verdicts, 3) then failed else pending))
               else Some(Claim(found, [m.uid], 2, if Accepts(verdicts, 3) then ready else pending))
  {
    var m, ck := s.machines[key], ClaimKey(key);
    var none, found := InLineSpec(key, m, pool, NoAddress), InLineSpec(key, m, pool, Dotted(ip));
    var pending, ready := ClaimStatus(Pending, AllocatingAddress, 1), ClaimStatus(Ready, AddressAllocated(ip), 2);
    var failed := ClaimStatus(Failed, AllocationFailed(WriteRefused), 1);
    NewClaimWrites(s.claims, key, m, pool, ip);
    var a, b := ClaimPlan(s.claims, key, m, pool).attempts, SecretPlan(s, key, m, pool.config, ip).attempts;
    SecretAttempts(s, key, m, pool.config, ip);
    ClaimsAfter(s, a, b, verdicts);
    FourWrites(s, ck, Claim(none, [m.uid], 1, ClaimStatus(NoPhase, NoMessage, 0)), Claim(none, [m.uid], 1, pending),
               Claim(found, [m.uid], 2, pending), Claim(none, [m.uid], 1, failed), Claim(found, [m.uid], 2, ready),
               verdicts);
  }

  lemma NewClaimWrites(claims: map<Key, Claim>, key: Key, m: Machine, pool: Pool, ip: Addr)
    requires ClaimKey(key) !in claims && ClaimPlan(claims, key, m, pool).address == Ok(ip)
    ensures var none, found := InLineSpec(key, m, pool, NoAddress), InLineSpec(key, m, pool, Dotted(ip));
            var pending := ClaimStatus(Pending, AllocatingAddress, 1);
            ClaimPlan(claims, key, m, pool).attempts
            == FourAttempts(ClaimKey(key), Claim(none, [m.uid], 1, ClaimStatus(NoPhase, NoMessage, 0)),
                            Claim(none, [m.uid], 1, pending), Claim(found, [m.uid], 2, pending),
                            Claim(none, [m.uid], 1, ClaimStatus(Failed, AllocationFailed(WriteRefused), 1)),
                            Claim(found, [m.uid], 2, ClaimStatus(Ready, AddressAllocated(ip), 2)))
  {
  }

  function FourAttempts(ck: Key, c0: Claim, c1: Claim, c2: Claim, failed: Claim, c3: Claim): seq<Attempt> {
    [Attempt(WriteClaim(ck, c0), None), Attempt(WriteClaim(ck, c1), None),
     Attempt(WriteClaim(ck, c2), Some(WriteClaim(ck, failed))), Attempt(WriteClaim(ck, c3), None)]
  }

  /** What follows the claim's writes leaves the claims alone. */
  lemma ClaimsAfter(s: State, a: seq<Attempt>, b: seq<Attempt>, verdicts: seq<bool>)
    requires forall x | x in b :: !x.write.WriteClaim? && x.fallback == None
    ensures Execute(s, a + b, verdicts, 0).state.claims == Execute(s, a, verdicts, 0).state.claims
  {
    ExecuteConcat(s, a, b, verdicts, 0);
    var first := Execute(s, a, verdicts, 0);
    ClaimsKept(first.state, b, verdicts, first.calls);
  }

  lemma FourWrites(s: State, ck: Key, c0: Claim, c1: Claim, c2: Claim, failed: Claim, c3: Claim, verdicts: seq<bool>)
    requires ck !in s.claims
    ensures Stored(Execute(s, FourAttempts(ck, c0, c1, c2, failed, c3), verdicts, 0).state.claims, ck)
         == if !Accepts(verdicts, 0) then None
            else if !Accepts(verdicts, 1) then Some(c0)
            else if !Accepts(verdicts, 2) then Some(if Accepts(verdicts, 3) then failed else c1)
            else Some(if Accepts(verdicts, 3) then c3 else c2)
  {
    var all := FourAttempts(ck, c0, c1, c2, failed, c3);
    if Accepts(verdicts, 0) {
      var s1 := Apply(s, WriteClaim(ck, c0));
      assert Execute(s, all, verdicts, 0) == Execute(s1, all[1..], verdicts, 1);
      if Accepts(verdicts, 1) {
        var s2 := Apply(s1, WriteClaim(ck, c1));
        assert all[1..][1..] == all[2..];
        assert Execute(s1, all[1..], verdicts, 1) == Execute(s2, all[2..], verdicts, 2);
        TwoWrites(s2, ck, c2, failed, c3, verdicts);
        assert all[2..] == [Attempt(WriteClaim(ck, c2), Some(WriteClaim(ck, failed))),
                            Attempt(WriteClaim(ck, c3), None)];
      }
    }
  }

  lemma TwoWrites(s: State, ck: Key, c2: Claim, failed: Claim, c3: Claim, verdicts: seq<bool>)
    ensures var both := [Attempt(WriteClaim(ck, c2), Some(WriteClaim(ck, failed))), Attempt(WriteClaim(ck, c3), None)];
            var last := Stored(Execute(s, both, verdicts, 2).state.claims, ck);
            if !Accepts(verdicts, 2) then last == if Accepts(verdicts, 3) then Some(failed) else Stored(s.claims, ck)
            else last == Some(if Accepts(verdicts, 3) then c3 else c2)
  {
    var both := [Attempt(WriteClaim(ck, c2), Some(WriteClaim(ck, failed))), Attempt(WriteClaim(ck, c3), None)];
    assert both[1..] == [Attempt(WriteClaim(ck, c3), None)] && both[1..][1..] == [];
    if Accepts(verdicts, 2) {
      var t := Apply(s, WriteClaim(ck, c2));
      assert Execute(s, both, verdicts, 2) == Execute(t, both[1..], verdicts, 3);
      if Accepts(verdicts, 3) {
        assert Execute(t, both[1..], verdicts, 3) == Execute(Apply(t, WriteClaim(ck, c3)), both[1..][1..], verdicts, 4);
      }
    }
  }
}
