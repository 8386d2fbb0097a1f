/** One run of the machine IP controller: first as the list of writes it makes, then as the
    methods that make them one by one against an API server that may start to refuse. */
module MachineIP {
  import opened Outcomes
  import opened Ipv4
  import opened Allocator
  import opened LinkConfig
  import opened Bootstrap
  import opened Sets
  import opened ClusterState

  /** The claim writes of a run, in order, and the address the claim ends with. */
  datatype ClaimRun = ClaimRun(attempts: seq<Attempt>, address: Result<Addr, AllocationError>)

  datatype Run = Run(attempts: seq<Attempt>, outcome: Outcome)

  /** A claim is written only if it differs from the version before. */
  function Put(ck: Key, before: Option<Claim>, claim: Claim): seq<Attempt> {
    if before == Some(claim) then [] else [Attempt(WriteClaim(ck, claim), None)]
  }

  function Stored(claims: map<Key, Claim>, ck: Key): Option<Claim> {
    if ck in claims then Some(claims[ck]) else None
  }

  /** A claim without an address waits for one. */
  function Requested(claim: Claim): Claim {
    if claim.spec.address == NoAddress then WithStatus(claim, Pending, AllocatingAddress) else claim
  }

  /** The address is stored in a claim that has none. If the API server refuses, the
      refusal itself is recorded as the reason for the failure. */
  function PutAddress(ck: Key, claim: Claim, ip: Addr): seq<Attempt> {
    if claim.spec.address != NoAddress then [] else
    [Attempt(WriteClaim(ck, WithAddress(claim, ip)),
             Some(WriteClaim(ck, WithStatus(claim, Failed, AllocationFailed(WriteRefused)))))]
  }

  function Placed(claim: Claim, ip: Addr): Claim {
    if claim.spec.address == NoAddress then WithAddress(claim, ip) else claim
  }

  /** From a claim that is in line and, if need be, waiting, to its address and final status. */
  function AddressPlan(claims: map<Key, Claim>, ck: Key, requested: Claim, range: Range): ClaimRun {
    match AddressFor(claims, ck, requested, range)
    case Err(e) => ClaimRun(Put(ck, Some(requested), WithStatus(requested, Failed, AllocationFailed(e))), Err(e))
    case Ok(ip) =>
      var placed := Placed(requested, ip);
      ClaimRun(PutAddress(ck, requested, ip)
               + Put(ck, Some(placed), WithStatus(placed, Ready, AddressAllocated(ip))), Ok(ip))
  }

  function ClaimPlan(claims: map<Key, Claim>, key: Key, m: Machine, pool: Pool): ClaimRun {
    var ck := ClaimKey(key);
    var synced := SyncedClaim(claims, key, m, pool.config);
    var requested := Requested(synced);
    var last := AddressPlan(claims, ck, requested, pool.range);
    ClaimRun(Put(ck, Stored(claims, ck), synced) + (Put(ck, Some(synced), requested) + last.attempts), last.address)
  }

  /** The secret that holds a machine's bootstrap data, once it is known to exist. */
  function BootstrapSecret(s: State, ns: string, m: Machine): Result<Key, Outcome> {
    if m.configRef.None? || m.configRef.value.kind != "TalosConfig" then Err(NoBootstrapData) else
    var ck := Key(ns, m.configRef.value.name);
    if ck !in s.talosConfigs then Err(NoBootstrapData)
    else if s.talosConfigs[ck].None? then Err(WaitForBootstrapData) else
    var sk := Key(ns, s.talosConfigs[ck].value);
    if sk !in s.secrets || "value" !in s.secrets[sk] then Err(NoBootstrapData) else Ok(sk)
  }

  /** The part of a run after the address is known. */
  function SecretPlan(s: State, key: Key, m: Machine, config: NodeConfig, ip: Addr): Run {
    match BootstrapSecret(s, key.ns, m)
    case Err(e) => Run([], e)
    case Ok(sk) =>
      if sk !in s.secrets || "value" !in s.secrets[sk] then Run([], NoBootstrapData) else
      var data := s.secrets[sk]["value"];
      match UpsertData(data, config.interfaceName, Cidr(Prefix(ip, config.subnet.bits)))
      case Err(e) => Run([], BootstrapRejected(e))
      case Ok(updated) =>
        if updated == data then Run([], Settled)
        else if !m.hasNode then Run([Attempt(WriteSecret(sk, updated), None)], SecretWritten)
        else if DeletingInRole(s.machines, key.ns, m.clusterName, m.IsControlPlane(), key.name)
        then Run([Attempt(WriteSecret(sk, updated), None)], RollBlocked)
        else Run([Attempt(WriteSecret(sk, updated), None), Attempt(DeleteMachine(key), None)], Rolled)
  }

  /** A whole run for one machine. */
  function Plan(s: State, key: Key): Run {
    match MachinePool(s, key)
    case Err(e) => Run([], e)
    case Ok(pool) =>
      var m := s.machines[key];
      var claimRun := ClaimPlan(s.claims, key, m, pool);
      match claimRun.address
      case Err(e) => Run(claimRun.attempts, NoAllocation(e))
      case Ok(ip) =>
        var secretRun := SecretPlan(s, key, m, pool.config, ip);
        Run(claimRun.attempts + secretRun.attempts, secretRun.outcome)
  }

  lemma PoolRange(s: State, cluster: Key)
    requires ClusterPool(s, cluster).Ok?
    ensures ClusterPool(s, cluster).value.range.workerEnd < MAX_UINT32
  {
    var config := ExternalNodeConfig(s.clusters[cluster]).value.value;
    RangeEnds(config.subnet, ControlPlaneReplicas(s, cluster).value + CONTROL_PLANE_RESERVE_SURGE);
  }

  /** Fewer than 2^32 claims cannot use up every address. */
  lemma SomeValueFree(claims: map<Key, Claim>, own: Key, clusterName: string)
    requires |claims| < TWO_TO_32
    ensures exists x: Uint32 :: x !in InUse(claims, own, clusterName)
  {
    var inUse := InUse(claims, own, clusterName);
    assert |claims.Keys| == |claims|;
    if forall x: Uint32 :: x in inUse {
      var value := (k: Key) =>
        if k in claims && claims[k].spec.address.Dotted? then ToUint32(claims[k].spec.address.ip) else -1;
      forall x | 0 <= x < TWO_TO_32 ensures Held(x, claims.Keys, value) {
        var u: Uint32 := x;
        assert u in inUse;
        var k :| k in claims && Holds(claims, k, own, clusterName) && claims[k].spec.address.Dotted?
                 && ToUint32(claims[k].spec.address.ip) == x;
        assert value(k) == x;
      }
      Pigeonhole(0, TWO_TO_32, claims.Keys, value);
      assert false;
    }
  }

  /** The address search does not look at the claim it searches for. */
  lemma AddressPlanFrame(before: map<Key, Claim>, after: map<Key, Claim>, ck: Key, claim: Claim, range: Range)
    requires forall k | k != ck :: Stored(before, k) == Stored(after, k)
    ensures AddressPlan(after, ck, claim, range) == AddressPlan(before, ck, claim, range)
  {
    var cluster := claim.spec.clusterName;
    forall k ensures Holds(after, k, ck, cluster) <==> Holds(before, k, ck, cluster) {
      assert k != ck ==> Stored(before, k) == Stored(after, k);
    }
    forall k | Holds(before, k, ck, cluster) ensures after[k] == before[k] {
      assert Stored(before, k) == Stored(after, k);
    }
    assert InUse(after, ck, cluster) == InUse(before, ck, cluster);
  }

  lemma SecretPlanFrame(before: State, after: State, key: Key, m: Machine, config: NodeConfig, ip: Addr)
    requires after.machines == before.machines
    requires after.talosConfigs == before.talosConfigs && after.secrets == before.secrets
    ensures SecretPlan(after, key, m, config, ip) == SecretPlan(before, key, m, config, ip)
  {
  }

  class Controller {
    var machines: map<Key, Machine>
    var clusters: map<Key, ClusterSetting>
    var capiClusters: map<Key, Option<Ref>>
    var controlPlanes: map<Key, Int32>
    var talosConfigs: map<Key, Option<string>>
    var claims: map<Key, Claim>
    var secrets: map<Key, map<string, Bytes>>
    /** The API server's verdicts on the writes of a run, and how many writes were asked for. */
    var verdicts: seq<bool>
    var calls: nat

    function Snapshot(): State
      reads this
    {
      State(machines, clusters, capiClusters, controlPlanes, talosConfigs, claims, secrets)
    }

    /** The attempts made since state `before`, when `start` writes had been asked for, led
        to the present state; `ok` tells whether none was refused. */
    ghost predicate Did(before: State, start: nat, attempts: seq<Attempt>, ok: bool)
      reads this
    {
      Execute(before, attempts, verdicts, start) == Execution(Snapshot(), calls, ok)
    }

    constructor (s: State, verdicts: seq<bool>)
      ensures Snapshot() == s && this.verdicts == verdicts && calls == 0
    {
      machines, clusters, capiClusters, controlPlanes := s.machines, s.clusters, s.capiClusters, s.controlPlanes;
      talosConfigs, claims, secrets := s.talosConfigs, s.claims, s.secrets;
      this.verdicts, calls := verdicts, 0;
    }

    // ----- the API server -----

    method Admit() returns (ok: bool)
      modifies this`calls
      ensures ok == Accepts(verdicts, old(calls)) && calls == old(calls) + 1
    {
      ok := calls < |verdicts| && verdicts[calls];
      calls := calls + 1;
    }

    method PutClaim(ck: Key, claim: Claim) returns (ok: bool)
      modifies this`claims, this`calls
      ensures ok == Accepts(verdicts, old(calls)) && calls == old(calls) + 1
      ensures Snapshot() == if ok then Apply(old(Snapshot()), WriteClaim(ck, claim)) else old(Snapshot())
    {
      ok := Admit();
      if ok {
        claims := claims[ck := claim];
      }
    }

    method PatchSecret(sk: Key, data: Bytes) returns (ok: bool)
      requires sk in secrets
      modifies this`secrets, this`calls
      ensures ok == Accepts(verdicts, old(calls)) && calls == old(calls) + 1
      ensures Snapshot() == if ok then Apply(old(Snapshot()), WriteSecret(sk, data)) else old(Snapshot())
    {
      ok := Admit();
      if ok {
        secrets := secrets[sk := secrets[sk]["value" := data]];
      }
    }

    method Delete(key: Key) returns (ok: bool)
      modifies this`machines, this`calls
      ensures ok == Accepts(verdicts, old(calls)) && calls == old(calls) + 1
      ensures Snapshot() == if ok then Apply(old(Snapshot()), DeleteMachine(key)) else old(Snapshot())
    {
      ok := Admit();
      if ok && key in machines {
        if machines[key].finalizers {
          machines := machines[key := machines[key].(deleting := true)];
        } else {
          machines := machines - {key};
        }
      }
    }

    /** The keys of the claims of a namespace, in some order. */
    method ListClaims(ns: string) returns (items: seq<Key>)
      ensures forall k :: k in items <==> k in claims && k.ns == ns
    {
      items := [];
      var rest := claims.Keys;
      while rest != {}
        invariant rest <= claims.Keys
        invariant forall k :: k in items <==> k in claims && k !in rest && k.ns == ns
        decreases rest
      {
        var k :| k in rest;
        rest := rest - {k};
        if k.ns == ns {
          items := items + [k];
        }
      }
    }

    method ListMachines(ns: string, clusterName: string) returns (items: seq<Key>)
      ensures forall k :: k in items <==> k in machines && k.ns == ns && machines[k].clusterLabel == Some(clusterName)
    {
      items := [];
      var rest := machines.Keys;
      while rest != {}
        invariant rest <= machines.Keys
        invariant forall k :: k in items <==>
                    k in machines && k !in rest && k.ns == ns && machines[k].clusterLabel == Some(clusterName)
        decreases rest
      {
        var k :| k in rest;
        rest := rest - {k};
        if k.ns == ns && machines[k].clusterLabel == Some(clusterName) {
          items := items + [k];
        }
      }
    }

    // ----- the controller -----

    method HasDeletingMachineInRole(ns: string, clusterName: string, controlPlane: bool, exceptName: string)
      returns (found: bool)
      ensures found == DeletingInRole(machines, ns, clusterName, controlPlane, exceptName)
    {
      var items := ListMachines(ns, clusterName);
      for i := 0 to |items|
        invariant forall j :: 0 <= j < i ==>
                    !BlocksRoll(items[j], machines[items[j]], ns, clusterName, controlPlane, exceptName)
      {
        assert items[i] in items;
        var m := machines[items[i]];
        if items[i].name == exceptName {
          continue;
        }
        if !m.deleting {
          continue;
        }
        if m.IsControlPlane() == controlPlane {
          assert BlocksRoll(items[i], m, ns, clusterName, controlPlane, exceptName);
          return true;
        }
      }
      return false;
    }

    method AllocateClaimAddress(own: Key, clusterName: string, controlPlane: bool, range: Range)
      returns (r: Result<Addr, AllocationError>)
      requires range.workerEnd < MAX_UINT32 && |claims| < TWO_TO_32
      ensures r == Allocate(claims, own, clusterName, controlPlane, range)
    {
      var items := ListClaims(own.ns);
      var inUse: set<Uint32> := {};
      for i := 0 to |items|
        invariant forall j :: 0 <= j < i && Holds(claims, items[j], own, clusterName) ==>
                    claims[items[j]].spec.address.Dotted? && ToUint32(claims[items[j]].spec.address.ip) in inUse
        invariant forall x :: x in inUse ==> x in InUse(claims, own, clusterName)
      {
        assert items[i] in items;
        var claim := claims[items[i]];
        if items[i].name == own.name {
          continue;
        }
        if claim.spec.clusterName != clusterName || claim.spec.address == NoAddress {
          continue;
        }
        assert Holds(claims, items[i], own, clusterName);
        if claim.spec.address.Invalid? {
          return Err(InvalidClaimAddress);
        }
        inUse := inUse + {ToUint32(claim.spec.address.ip)};
      }
      assert inUse == InUse(claims, own, clusterName);
      SomeValueFree(claims, own, clusterName);
      r := NextAvailableIP(controlPlane, inUse, range);
    }

    /** Appends a phase to what was done since state `before`. */
    lemma DidMore(before: State, start: nat, a: seq<Attempt>, mid: State, midCalls: nat, b: seq<Attempt>, ok: bool)
      requires Execute(before, a, verdicts, start) == Execution(mid, midCalls, true)
      requires Did(mid, midCalls, b, ok)
      ensures Did(before, start, a + b, ok)
    {
      ExecuteConcat(before, a, b, verdicts, start);
    }

    /** A refusal ends the run, so what would have followed does not matter. */
    lemma DidLess(before: State, start: nat, a: seq<Attempt>, b: seq<Attempt>)
      requires Did(before, start, a, false)
      ensures Did(before, start, a + b, false)
    {
      ExecuteConcat(before, a, b, verdicts, start);
    }

    /** Brings each field in line that differs, leaving the address alone. */
    method UpdateSpec(spec: ClaimSpec, machineName: string, m: Machine, config: NodeConfig)
      returns (updated: ClaimSpec, changed: bool)
      ensures updated == ClaimSpec(m.clusterName, machineName, config.interfaceName, Cidr(config.subnet),
                                   m.IsControlPlane(), spec.address)
      ensures changed <==> updated != spec
    {
      updated, changed := spec, false;
      if updated.clusterName != m.clusterName {
        updated := updated.(clusterName := m.clusterName);
        changed := true;
      }
      if updated.machineName != machineName {
        updated := updated.(machineName := machineName);
        changed := true;
      }
      if updated.interfaceName != config.interfaceName {
        updated := updated.(interfaceName := config.interfaceName);
        changed := true;
      }
      if updated.subnet != Cidr(config.subnet) {
        updated := updated.(subnet := Cidr(config.subnet));
        changed := true;
      }
      if updated.controlPlane != m.IsControlPlane() {
        updated := updated.(controlPlane := m.IsControlPlane());
        changed := true;
      }
    }

    method EnsureDockyardsIPAMClaim(key: Key, m: Machine, config: NodeConfig) returns (claim: Claim, ok: bool)
      modifies this`claims, this`calls
      ensures claim == SyncedClaim(old(claims), key, m, config)
      ensures Did(old(Snapshot()), old(calls), Put(ClaimKey(key), Stored(old(claims), ClaimKey(key)), claim), ok)
      ensures claims == old(claims) || claims == old(claims)[ClaimKey(key) := claim]
    {
      var ck := ClaimKey(key);
      if ck !in claims {
        var spec := ClaimSpec(m.clusterName, key.name, config.interfaceName, Cidr(config.subnet), m.IsControlPlane(),
                              NoAddress);
        claim := Claim(spec, [m.uid], 1, NEW_STATUS);
        ok := PutClaim(ck, claim);
        return;
      }

      claim := claims[ck];
      var spec, changed := UpdateSpec(claim.spec, key.name, m, config);
      claim := claim.(spec := spec);
      // The API server raises the generation when it stores a changed specification.
      if changed {
        claim := claim.(generation := claim.generation + 1);
      }
      if m.uid !in claim.owners {
        claim := claim.(owners := [m.uid]);
        changed := true;
      }
      assert claim == SyncedClaim(claims, key, m, config);
      ok := true;
      if changed {
        ok := PutClaim(ck, claim);
      }
    }

    method SetClaimStatus(ck: Key, claim: Claim, phase: Phase, message: Message) returns (updated: Claim, ok: bool)
      modifies this`claims, this`calls
      ensures updated == WithStatus(claim, phase, message)
      ensures Did(old(Snapshot()), old(calls), Put(ck, Some(claim), updated), ok)
      ensures claims == old(claims) || claims == old(claims)[ck := updated]
    {
      if && claim.status.phase == phase
         && claim.status.message == message
         && claim.status.observedGeneration == claim.generation {
        return claim, true;
      }
      updated := claim.(status := claim.status.(phase := phase));
      updated := updated.(status := updated.status.(message := message));
      updated := updated.(status := updated.status.(observedGeneration := claim.generation));
      ok := PutClaim(ck, updated);
    }

    /** `stored` is false when the address was found but could not be written. */
    method EnsureClaimAddress(ck: Key, claim: Claim, range: Range)
      returns (updated: Claim, r: Result<Addr, AllocationError>, stored: bool)
      requires range.workerEnd < MAX_UINT32 && |claims| < TWO_TO_32
      modifies this`claims, this`calls
      ensures r == AddressFor(old(claims), ck, claim, range)
      ensures match r
              case Err(_) => updated == claim && stored && Snapshot() == old(Snapshot()) && calls == old(calls)
              case Ok(ip) =>
                if claim.spec.address != NoAddress then
                  updated == claim && stored && Snapshot() == old(Snapshot()) && calls == old(calls)
                else
                  && updated == WithAddress(claim, ip)
                  && stored == Accepts(verdicts, old(calls)) && calls == old(calls) + 1
                  && Snapshot() == if stored then Apply(old(Snapshot()), WriteClaim(ck, updated)) else old(Snapshot())
    {
      updated, stored := claim, true;
      match claim.spec.address {
        case Invalid(_) =>
          r := Err(InvalidClaimAddress);
        case Dotted(ip) =>
          r := Ok(ip);
        case NoAddress =>
          r := AllocateClaimAddress(ck, claim.spec.clusterName, claim.spec.controlPlane, range);
          if r.Ok? {
            updated := WithAddress(claim, r.value);
            stored := PutClaim(ck, updated);
          }
      }
    }

    /** Finds and stores the address of a claim and records the result. `ApiFailure` means
        that a write was refused and the run is over. */
    method StoreAddress(ck: Key, claim: Claim, range: Range) returns (r: Result<Addr, Outcome>)
      requires range.workerEnd < MAX_UINT32 && |claims| < TWO_TO_32
      modifies this`claims, this`calls
      ensures var last := AddressPlan(old(claims), ck, claim, range);
              && Did(old(Snapshot()), old(calls), last.attempts, r != Err(ApiFailure))
              && (r != Err(ApiFailure) ==>
                    r == match last.address case Ok(ip) => Ok(ip) case Err(e) => Err(NoAllocation(e)))
    {
      ghost var before, start := Snapshot(), calls;
      var placed, ip, stored := EnsureClaimAddress(ck, claim, range);
      if ip.Err? {
        var _, ok := SetClaimStatus(ck, claim, Failed, AllocationFailed(ip.error));
        return Err(if ok then NoAllocation(ip.error) else ApiFailure);
      }
      ghost var a := PutAddress(ck, claim, ip.value);
      ghost var b := Put(ck, Some(placed), WithStatus(placed, Ready, AddressAllocated(ip.value)));
      if !stored {
        // The status patch carries only the status, so the stored claim keeps its empty address.
        var _ := PutClaim(ck, WithStatus(claim, Failed, AllocationFailed(WriteRefused)));
        assert Did(before, start, a, false);
        DidLess(before, start, a, b);
        return Err(ApiFailure);
      }
      ghost var mid, midCalls := Snapshot(), calls;
      assert Execute(before, a, verdicts, start) == Execution(mid, midCalls, true);
      var _, ok := SetClaimStatus(ck, placed, Ready, AddressAllocated(ip.value));
      DidMore(before, start, a, mid, midCalls, b, ok);
      return if ok then Ok(ip.value) else Err(ApiFailure);
    }

    /** The claim phase of a run: bring the claim in line, find its address, record the result. */
    method ReconcileClaim(key: Key, m: Machine, pool: Pool) returns (r: Result<Addr, Outcome>)
      requires pool.range.workerEnd < MAX_UINT32 && |claims| < MAX_UINT32
      modifies this`claims, this`calls
      ensures var claimRun := ClaimPlan(old(claims), key, m, pool);
              && Did(old(Snapshot()), old(calls), claimRun.attempts, r != Err(ApiFailure))
              && (r != Err(ApiFailure) ==>
                    r == match claimRun.address case Ok(ip) => Ok(ip) case Err(e) => Err(NoAllocation(e)))
    {
      ghost var before, start := Snapshot(), calls;
      var ck := ClaimKey(key);
      ghost var wasStored := Stored(claims, ck);

      var synced, ok := EnsureDockyardsIPAMClaim(key, m, pool.config);
      ghost var requested := Requested(synced);
      ghost var a, b := Put(ck, wasStored, synced), Put(ck, Some(synced), requested);
      ghost var c := AddressPlan(before.claims, ck, requested, pool.range).attempts;
      if !ok {
        DidLess(before, start, a, b + c);
        return Err(ApiFailure);
      }

      ghost var mid, midCalls := Snapshot(), calls;
      var claim := synced;
      if claim.spec.address == NoAddress {
        claim, ok := SetClaimStatus(ck, claim, Pending, AllocatingAddress);
      }
      assert Did(mid, midCalls, b, ok);
      if !ok {
        DidLess(mid, midCalls, b, c);
        DidMore(before, start, a, mid, midCalls, b + c, false);
        return Err(ApiFailure);
      }

      ghost var late, lateCalls := Snapshot(), calls;
      AddressPlanFrame(before.claims, claims, ck, claim, pool.range);
      r := StoreAddress(ck, claim, pool.range);
      DidMore(mid, midCalls, b, late, lateCalls, c, r != Err(ApiFailure));
      DidMore(before, start, a, mid, midCalls, b + c, r != Err(ApiFailure));
    }

    /** Asks for the deletion of the machine unless its role is rolling already. */
    method ReconcileLatePatchMachine(key: Key, m: Machine) returns (blocked: bool, ok: bool)
      modifies this`machines, this`calls
      ensures blocked == DeletingInRole(old(machines), key.ns, m.clusterName, m.IsControlPlane(), key.name)
      ensures Did(old(Snapshot()), old(calls), if blocked then [] else [Attempt(DeleteMachine(key), None)], ok)
    {
      blocked := HasDeletingMachineInRole(key.ns, m.clusterName, m.IsControlPlane(), key.name);
      if blocked {
        return true, true;
      }
      ok := Delete(key);
    }

    /** The secret phase of a run. */
    method ReconcileSecret(key: Key, m: Machine, config: NodeConfig, ip: Addr) returns (outcome: Outcome)
      modifies this`machines, this`secrets, this`calls
      ensures var plan := SecretPlan(old(Snapshot()), key, m, config, ip);
              && Did(old(Snapshot()), old(calls), plan.attempts, outcome != ApiFailure)
              && (outcome != ApiFailure ==> outcome == plan.outcome)
    {
      if m.configRef.None? || m.configRef.value.kind != "TalosConfig" {
        return NoBootstrapData;
      }
      var ck := Key(key.ns, m.configRef.value.name);
      if ck !in talosConfigs {
        return NoBootstrapData;
      }
      if talosConfigs[ck].None? {
        return WaitForBootstrapData;
      }
      var sk := Key(key.ns, talosConfigs[ck].value);
      if sk !in secrets || "value" !in secrets[sk] {
        return NoBootstrapData;
      }

      var data := secrets[sk]["value"];
      var desired := Cidr(Prefix(ip, config.subnet.bits));
      var updated, changed := UpsertLinkConfigInBootstrapData(data, config.interfaceName, desired);
      if updated.Err? {
        return BootstrapRejected(updated.error);
      }
      if !changed {
        return Settled;
      }

      ghost var before, start := Snapshot(), calls;
      ghost var a := [Attempt(WriteSecret(sk, updated.value), None)];
      var ok := PatchSecret(sk, updated.value);
      assert Did(before, start, a, ok);
      if !m.hasNode {
        return if ok then SecretWritten else ApiFailure;
      }
      ghost var d := [Attempt(DeleteMachine(key), None)];
      assert a + d == [Attempt(WriteSecret(sk, updated.value), None), Attempt(DeleteMachine(key), None)];
      if !ok {
        DidLess(before, start, a, d);
        return ApiFailure;
      }
      ghost var mid, midCalls := Snapshot(), calls;
      var blocked, deleted := ReconcileLatePatchMachine(key, m);
      if !blocked {
        DidMore(before, start, a, mid, midCalls, d, deleted);
      }
      return if !deleted then ApiFailure else if blocked then RollBlocked else Rolled;
    }

    /** The checks before a run acts. */
    method ReadPool(key: Key) returns (r: Result<Pool, Outcome>)
      ensures r == MachinePool(Snapshot(), key)
      ensures r.Ok? ==> key in machines && r.value.range.workerEnd < MAX_UINT32
      ensures r != Err(ApiFailure)
    {
      if key !in machines || machines[key].clusterName == "" {
        return Err(Ignored);
      }
      var m := machines[key];
      var cluster := Key(key.ns, m.clusterName);
      if cluster !in clusters {
        return Err(Ignored);
      }
      var maybeConfig := ExternalNodeConfig(clusters[cluster]);
      if maybeConfig.Err? {
        return Err(Misconfigured);
      }
      if maybeConfig.value.None? {
        return Err(Ignored);
      }
      var config := maybeConfig.value.value;
      var replicas := ControlPlaneReplicas(Snapshot(), cluster);
      if replicas.None? {
        return Err(WaitForReplicas);
      }
      var range := NewRange(config.subnet, replicas.value + CONTROL_PLANE_RESERVE_SURGE);
      if range.Err? {
        return Err(Misconfigured);
      }
      if m.deleting {
        return Err(Ignored);
      }
      PoolRange(Snapshot(), cluster);
      return Ok(Pool(config, range.value));
    }

    /** A whole run. It makes exactly the planned attempts, up to the first refusal. */
    method Reconcile(key: Key) returns (outcome: Outcome)
      requires |claims| < MAX_UINT32
      modifies this`claims, this`secrets, this`machines, this`calls
      ensures var plan := Plan(old(Snapshot()), key);
              && Did(old(Snapshot()), old(calls), plan.attempts, outcome != ApiFailure)
              && (outcome != ApiFailure ==> outcome == plan.outcome)
    {
      var pool := ReadPool(key);
      if pool.Err? {
        return pool.error;
      }
      ghost var before, start := Snapshot(), calls;
      var m := machines[key];
      ghost var claimRun := ClaimPlan(claims, key, m, pool.value);
      var ip := ReconcileClaim(key, m, pool.value);
      if ip.Err? {
        if claimRun.address.Ok? {
          DidLess(before, start, claimRun.attempts,
                  SecretPlan(before, key, m, pool.value.config, claimRun.address.value).attempts);
        }
        return ip.error;
      }

      ghost var mid, midCalls := Snapshot(), calls;
      SecretPlanFrame(before, mid, key, m, pool.value.config, ip.value);
      outcome := ReconcileSecret(key, m, pool.value.config, ip.value);
      DidMore(before, start, claimRun.attempts, mid, midCalls,
              SecretPlan(before, key, m, pool.value.config, ip.value).attempts, outcome != ApiFailure);
    }
  }
}
