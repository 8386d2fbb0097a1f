/** Safety over whole runs: controller steps interleaved with steps of an environment. */
module Runs {
  import opened Outcomes
  import opened Ipv4
  import opened Allocator
  import opened ClusterState
  import opened MachineIP
  import opened Effects

  /** A controller run for one machine with the API server's verdicts on its writes, or a
      step of the environment. */
  datatype Event = Reconciled(key: Key, verdicts: seq<bool>) | Environment

  ghost predicate Follows(s: State, e: Event, t: State, allowed: (State, State) -> bool) {
    match e
    case Reconciled(key, verdicts) => t == Next(s, key, verdicts)
    case Environment => allowed(s, t)
  }

  /** `states` are the successive states of a run in which the environment keeps to `allowed`. */
  ghost predicate IsRun(states: seq<State>, events: seq<Event>, allowed: (State, State) -> bool) {
    |states| == |events| + 1 && forall i | 0 <= i < |events| :: StepAt(states, events, allowed, i)
  }

  ghost predicate StepAt(states: seq<State>, events: seq<Event>, allowed: (State, State) -> bool, i: nat)
    requires i < |events| < |states|
  {
    Follows(states[i], events[i], states[i + 1], allowed)
  }

  lemma RunStep(states: seq<State>, events: seq<Event>, allowed: (State, State) -> bool, i: nat)
    requires IsRun(states, events, allowed) && i < |events|
    ensures Follows(states[i], events[i], states[i + 1], allowed)
  {
    assert StepAt(states, events, allowed, i);
  }

  // ----- addresses are unique -----

  predicate SamePool(claims: map<Key, Claim>, a: Key, b: Key)
    requires a in claims && b in claims
  {
    a.ns == b.ns && claims[a].spec.clusterName == claims[b].spec.clusterName
  }

  /** No two claims of one namespace and cluster hold the same address. */
  ghost predicate Unique(claims: map<Key, Claim>) {
    forall a, b | a in claims && b in claims && a != b && SamePool(claims, a, b)
               && claims[a].spec.address.Dotted? && claims[b].spec.address.Dotted? ::
      claims[a].spec.address != claims[b].spec.address
  }

  /** The environment may do anything to machines, clusters, control planes, configurations
      and secrets, may drop claims and may add or edit claims, as long as it gives no claim
      an address and moves no addressed claim to another cluster. */
  ghost predicate AssignsNothing(s: State, t: State) {
    forall k | k in t.claims && t.claims[k].spec.address != NoAddress ::
      && k in s.claims
      && t.claims[k].spec.address == s.claims[k].spec.address
      && t.claims[k].spec.clusterName == s.claims[k].spec.clusterName
  }

  /** The machine's claim has an address that another claim of the machine's cluster holds. */
  ghost predicate KeptClash(s: State, key: Key) {
    && MachinePool(s, key).Ok? && ClaimKey(key) in s.claims
    && exists k :: HoldsSame(s.claims, k, ClaimKey(key), s.machines[key].clusterName)
  }

  predicate HoldsSame(claims: map<Key, Claim>, k: Key, own: Key, clusterName: string)
    requires own in claims
  {
    && Holds(claims, k, own, clusterName)
    && claims[k].spec.address.Dotted? && claims[k].spec.address == claims[own].spec.address
  }

  /** A freshly allocated address differs from every address held in the pool. */
  lemma AllocatedIsFresh(claims: map<Key, Claim>, own: Key, clusterName: string, controlPlane: bool, range: Range,
                         k: Key)
    requires Allocate(claims, own, clusterName, controlPlane, range).Ok?
    requires Holds(claims, k, own, clusterName)
    ensures claims[k].spec.address.Dotted?
    ensures claims[k].spec.address.ip != Allocate(claims, own, clusterName, controlPlane, range).value
  {
    NextAvailableIsFree(controlPlane, InUse(claims, own, clusterName), range);
    assert ToUint32(claims[k].spec.address.ip) in InUse(claims, own, clusterName);
  }

  /** Unless it brings a clash along, the stored version of the machine's own claim collides
      with no other claim. */
  lemma VersionUnique(s: State, key: Key, pool: Pool, c: Claim, k: Key)
    requires MachinePool(s, key) == Ok(pool) && !KeptClash(s, key)
    requires VersionOk(s.claims, key, s.machines[key], pool, c)
    requires k in s.claims && k != ClaimKey(key) && k.ns == key.ns && c.spec.address.Dotted?
    requires s.claims[k].spec.clusterName == c.spec.clusterName
    ensures s.claims[k].spec.address != c.spec.address
  {
    var m := s.machines[key];
    var ck := ClaimKey(key);
    var synced := SyncedClaim(s.claims, key, m, pool.config);
    assert c.spec.clusterName == m.clusterName;
    if c.spec.address == synced.spec.address {
      assert ck in s.claims && !HoldsSame(s.claims, k, ck, m.clusterName);
    } else if s.claims[k].spec.address != NoAddress {
      assert Holds(s.claims, k, ck, m.clusterName);
      AllocatedIsFresh(s.claims, ck, m.clusterName, m.IsControlPlane(), pool.range, k);
    }
  }

  lemma UniquePair(s: State, key: Key, pool: Pool, t: State, a: Key, b: Key)
    requires MachinePool(s, key) == Ok(pool) && !KeptClash(s, key)
    requires Unique(s.claims) && Within(s, key, pool, t)
    requires a in t.claims && b in t.claims && a != b && SamePool(t.claims, a, b)
    requires t.claims[a].spec.address.Dotted? && t.claims[b].spec.address.Dotted?
    ensures t.claims[a].spec.address != t.claims[b].spec.address
  {
    var ck := ClaimKey(key);
    assert a != ck ==> Stored(t.claims, a) == Stored(s.claims, a);
    assert b != ck ==> Stored(t.claims, b) == Stored(s.claims, b);
    if Stored(t.claims, ck) == Stored(s.claims, ck) {
      assert SamePool(s.claims, a, b);
    } else if a == ck {
      VersionUnique(s, key, pool, t.claims[a], b);
    } else if b == ck {
      VersionUnique(s, key, pool, t.claims[b], a);
    } else {
      assert SamePool(s.claims, a, b);
    }
  }

  /** An address that is found rather than kept never clashes: without a kept clash a run
      leaves addresses unique. */
  lemma UniqueStep(s: State, key: Key, verdicts: seq<bool>)
    requires Unique(s.claims) && !KeptClash(s, key)
    ensures Unique(Next(s, key, verdicts).claims)
  {
    var t := Next(s, key, verdicts);
    RunWithin(s, key, verdicts);
    if MachinePool(s, key).Ok? {
      forall a, b | a in t.claims && b in t.claims && a != b && SamePool(t.claims, a, b)
                 && t.claims[a].spec.address.Dotted? && t.claims[b].spec.address.Dotted?
        ensures t.claims[a].spec.address != t.claims[b].spec.address
      {
        UniquePair(s, key, MachinePool(s, key).value, t, a, b);
      }
    }
  }

  /** A kept clash is a duplicate as soon as the claim has been brought in line. */
  lemma ClashDuplicates(s: State, key: Key, t: State)
    requires KeptClash(s, key)
    requires InLine(s.claims, key, s.machines[key], MachinePool(s, key).value, t.claims)
    requires forall k | k != ClaimKey(key) :: Stored(t.claims, k) == Stored(s.claims, k)
    ensures !Unique(t.claims)
  {
    var ck, m := ClaimKey(key), s.machines[key];
    var k :| HoldsSame(s.claims, k, ck, m.clusterName);
    assert Stored(t.claims, k) == Stored(s.claims, k);
    assert SamePool(t.claims, k, ck);
  }

  /** The write of a run, if accepted, that turns a kept clash into a duplicate. */
  ghost predicate Duplicates(s: State, e: Event) {
    e.Reconciled? && KeptClash(s, e.key) && Accepts(e.verdicts, 0)
  }

  /** A run makes an address ambiguous if and only if it keeps one that another claim of the
      machine's cluster holds and its first write is accepted. */
  lemma UniqueAfterRun(s: State, key: Key, verdicts: seq<bool>)
    requires Unique(s.claims)
    ensures Unique(Next(s, key, verdicts).claims) <==> !Duplicates(s, Reconciled(key, verdicts))
  {
    if KeptClash(s, key) {
      var ck, m, pool := ClaimKey(key), s.machines[key], MachinePool(s, key).value;
      var k :| HoldsSame(s.claims, k, ck, m.clusterName);
      assert !SamePool(s.claims, k, ck);
      FirstWrite(s, key, verdicts);
      RunWithin(s, key, verdicts);
      if Accepts(verdicts, 0) {
        ClashDuplicates(s, key, Next(s, key, verdicts));
      }
    } else {
      UniqueStep(s, key, verdicts);
    }
  }

  lemma UniqueFollows(s: State, e: Event, t: State)
    requires Follows(s, e, t, AssignsNothing) && Unique(s.claims)
    ensures Unique(t.claims) <==> !Duplicates(s, e)
  {
    match e
    case Reconciled(key, verdicts) => UniqueAfterRun(s, key, verdicts);
    case Environment =>
      forall a, b | a in t.claims && b in t.claims && a != b && SamePool(t.claims, a, b)
                 && t.claims[a].spec.address.Dotted? && t.claims[b].spec.address.Dotted?
        ensures t.claims[a].spec.address != t.claims[b].spec.address
      {
        assert SamePool(s.claims, a, b);
      }
  }

  ghost predicate UniqueUpTo(states: seq<State>, n: nat)
    requires n < |states|
  {
    forall i | 0 <= i <= n :: Unique(states[i].claims)
  }

  ghost predicate DuplicatesBefore(states: seq<State>, events: seq<Event>, n: nat)
    requires n <= |events| <= |states|
  {
    exists i :: 0 <= i < n && Duplicates(states[i], events[i])
  }

  /** In a run distinct claims of one namespace and cluster hold distinct addresses in every
      state, however replicas and subnets change and whatever fails, if and only if no
      controller step stores a claim whose kept address another claim of its cluster holds. */
  lemma {:induction false} UniqueInEveryRun(states: seq<State>, events: seq<Event>, n: nat)
    requires IsRun(states, events, AssignsNothing) && Unique(states[0].claims)
    requires n < |states|
    ensures UniqueUpTo(states, n) <==> !DuplicatesBefore(states, events, n)
  {
    if n > 0 {
      UniqueInEveryRun(states, events, n - 1);
      RunStep(states, events, AssignsNothing, n - 1);
      OneMoreStep(states, events, n - 1);
      if UniqueUpTo(states, n - 1) {
        UniqueFollows(states[n - 1], events[n - 1], states[n]);
      }
    }
  }

  lemma OneMoreStep(states: seq<State>, events: seq<Event>, n: nat)
    requires |states| == |events| + 1 && n < |events|
    ensures UniqueUpTo(states, n + 1) <==> UniqueUpTo(states, n) && Unique(states[n + 1].claims)
    ensures UniqueUpTo(states, n) ==> Unique(states[n].claims)
    ensures DuplicatesBefore(states, events, n + 1)
       <==> DuplicatesBefore(states, events, n) || Duplicates(states[n], events[n])
  {
  }

  // ----- machines that keep their cluster -----

  /** A machine and its addressed claim name the same cluster. */
  ghost predicate KeepsCluster(s: State) {
    forall k | k in s.machines && s.machines[k].clusterName != "" && ClaimKey(k) in s.claims
            && s.claims[ClaimKey(k)].spec.address != NoAddress ::
      s.claims[ClaimKey(k)].spec.clusterName == s.machines[k].clusterName
  }

  lemma NoClashInCluster(s: State, key: Key)
    requires Unique(s.claims) && KeepsCluster(s)
    ensures !KeptClash(s, key)
  {
    if KeptClash(s, key) {
      var k :| HoldsSame(s.claims, k, ClaimKey(key), s.machines[key].clusterName);
      assert SamePool(s.claims, k, ClaimKey(key));
      assert false;
    }
  }

  lemma KeepsClusterStep(s: State, key: Key, verdicts: seq<bool>)
    requires KeepsCluster(s)
    ensures KeepsCluster(Next(s, key, verdicts))
  {
    var t := Next(s, key, verdicts);
    RunWithin(s, key, verdicts);
    if MachinePool(s, key).Ok? {
      forall k | k in t.machines && t.machines[k].clusterName != "" && ClaimKey(k) in t.claims
              && t.claims[ClaimKey(k)].spec.address != NoAddress
        ensures t.claims[ClaimKey(k)].spec.clusterName == t.machines[k].clusterName
      {
        ClusterOfVersion(s, key, MachinePool(s, key).value, t, k);
      }
    }
  }

  lemma ClusterOfVersion(s: State, key: Key, pool: Pool, t: State, k: Key)
    requires KeepsCluster(s) && MachinePool(s, key) == Ok(pool) && Within(s, key, pool, t)
    requires k in t.machines && t.machines[k].clusterName != "" && ClaimKey(k) in t.claims
    requires t.claims[ClaimKey(k)].spec.address != NoAddress
    ensures t.claims[ClaimKey(k)].spec.clusterName == t.machines[k].clusterName
  {
    assert k in s.machines && s.machines[k].clusterName == t.machines[k].clusterName;
    if ClaimKey(k) == ClaimKey(key) {
      ClaimKeyInjective(k, key);
    } else {
      assert Stored(t.claims, ClaimKey(k)) == Stored(s.claims, ClaimKey(k));
    }
  }

  /** The environment assigns nothing and gives no machine another cluster than its
      addressed claim. */
  ghost predicate KeepsClusters(s: State, t: State) {
    AssignsNothing(s, t) && KeepsCluster(t)
  }

  /** While machines keep the cluster of their addressed claims, addresses stay unique. */
  lemma {:induction false} UniqueInFixedClusters(states: seq<State>, events: seq<Event>, n: nat)
    requires IsRun(states, events, KeepsClusters)
    requires Unique(states[0].claims) && KeepsCluster(states[0])
    requires n < |states|
    ensures Unique(states[n].claims) && KeepsCluster(states[n])
  {
    if n > 0 {
      UniqueInFixedClusters(states, events, n - 1);
      RunStep(states, events, KeepsClusters, n - 1);
      var s, e := states[n - 1], events[n - 1];
      UniqueFollows(s, e, states[n]);
      match e
      case Reconciled(key, verdicts) =>
        NoClashInCluster(s, key);
        KeepsClusterStep(s, key, verdicts);
      case Environment =>
    }
  }

  // ----- addresses and results stick -----

  /** No run changes the address of a claim that has one, or removes a claim. */
  lemma AddressSticks(s: State, key: Key, verdicts: seq<bool>, k: Key)
    requires k in s.claims
    ensures var t := Next(s, key, verdicts);
            && k in t.claims
            && (s.claims[k].spec.address != NoAddress ==> t.claims[k].spec.address == s.claims[k].spec.address)
  {
    RunWithin(s, key, verdicts);
    assert k != ClaimKey(key) ==> Stored(Next(s, key, verdicts).claims, k) == Stored(s.claims, k);
  }

  ghost predicate ReadyHasAddress(claims: map<Key, Claim>) {
    forall k | k in claims && claims[k].status.phase == Ready :: claims[k].spec.address.Dotted?
  }

  /** The environment leaves claims alone, except that it may drop them or add new ones
      without a status. */
  ghost predicate EditsNoClaim(s: State, t: State) {
    forall k | k in t.claims :: (k in s.claims && t.claims[k] == s.claims[k]) || t.claims[k].status == NEW_STATUS
  }

  lemma VersionReady(claims: map<Key, Claim>, key: Key, m: Machine, pool: Pool, c: Claim)
    requires VersionOk(claims, key, m, pool, c) && c.status.phase == Ready
    requires ClaimKey(key) in claims && claims[ClaimKey(key)].status.phase == Ready ==>
               claims[ClaimKey(key)].spec.address.Dotted?
    ensures c.spec.address.Dotted?
  {
  }

  lemma ReadyStep(s: State, key: Key, verdicts: seq<bool>)
    requires ReadyHasAddress(s.claims)
    ensures ReadyHasAddress(Next(s, key, verdicts).claims)
  {
    var t, ck := Next(s, key, verdicts), ClaimKey(key);
    RunWithin(s, key, verdicts);
    forall k | k in t.claims && t.claims[k].status.phase == Ready ensures t.claims[k].spec.address.Dotted? {
      if Stored(t.claims, k) != Stored(s.claims, k) {
        assert k == ck;
        VersionReady(s.claims, key, s.machines[key], MachinePool(s, key).value, t.claims[ck]);
      }
    }
  }

  lemma {:induction false} ReadyInEveryRun(states: seq<State>, events: seq<Event>, n: nat)
    requires IsRun(states, events, EditsNoClaim)
    requires ReadyHasAddress(states[0].claims)
    requires n < |states|
    ensures ReadyHasAddress(states[n].claims)
  {
    if n > 0 {
      ReadyInEveryRun(states, events, n - 1);
      RunStep(states, events, EditsNoClaim, n - 1);
      ReadyFollows(states[n - 1], events[n - 1], states[n]);
    }
  }

  lemma ReadyFollows(s: State, e: Event, t: State)
    requires Follows(s, e, t, EditsNoClaim) && ReadyHasAddress(s.claims)
    ensures ReadyHasAddress(t.claims)
  {
    match e
    case Reconciled(key, verdicts) => ReadyStep(s, key, verdicts);
    case Environment =>
  }

  predicate ReadyWith(claims: map<Key, Claim>, k: Key, ip: Addr) {
    k in claims && claims[k].status.phase == Ready && claims[k].spec.address == Dotted(ip)
  }

  /** If this is a step of the environment, it does not take the claim's phase or address away. */
  predicate Spares(s: State, e: Event, t: State, k: Key, ip: Addr) {
    e == Environment && ReadyWith(s.claims, k, ip) ==> ReadyWith(t.claims, k, ip)
  }

  lemma ReadyStaysStep(s: State, key: Key, verdicts: seq<bool>, k: Key, ip: Addr)
    requires ReadyWith(s.claims, k, ip)
    ensures ReadyWith(Next(s, key, verdicts).claims, k, ip)
  {
    var t := Next(s, key, verdicts);
    RunWithin(s, key, verdicts);
    assert k != ClaimKey(key) ==> Stored(t.claims, k) == Stored(s.claims, k);
  }

  lemma ReadyStaysFollows(s: State, e: Event, t: State, allowed: (State, State) -> bool, k: Key, ip: Addr)
    requires Follows(s, e, t, allowed) && Spares(s, e, t, k, ip) && ReadyWith(s.claims, k, ip)
    ensures ReadyWith(t.claims, k, ip)
  {
    match e
    case Reconciled(key, verdicts) => ReadyStaysStep(s, key, verdicts, k, ip);
    case Environment =>
  }

  /** No controller run, of its own machine or another, ever takes a Ready claim's phase or
      address away: in any run it keeps both until the environment itself changes them. */
  lemma {:induction false} ReadyStays(states: seq<State>, events: seq<Event>, allowed: (State, State) -> bool,
                                      k: Key, ip: Addr, m: nat, n: nat)
    requires IsRun(states, events, allowed) && m <= n < |states|
    requires ReadyWith(states[m].claims, k, ip)
    requires forall i | m <= i < n :: Spares(states[i], events[i], states[i + 1], k, ip)
    ensures ReadyWith(states[n].claims, k, ip)
  {
    if m < n {
      ReadyStays(states, events, allowed, k, ip, m, n - 1);
      RunStep(states, events, allowed, n - 1);
      ReadyStaysFollows(states[n - 1], events[n - 1], states[n], allowed, k, ip);
    }
  }

  // ----- one roll at a time -----

  /** Two machines of one cluster and role. */
  predicate SameRole(machines: map<Key, Machine>, a: Key, b: Key)
    requires a in machines && b in machines
  {
    && a.ns == b.ns
    && machines[a].clusterName == machines[b].clusterName
    && machines[a].IsControlPlane() == machines[b].IsControlPlane()
  }

  ghost predicate OneRoll(machines: map<Key, Machine>) {
    forall a, b | a in machines && b in machines && a != b && machines[a].deleting && machines[b].deleting ::
      !SameRole(machines, a, b)
  }

  /** The cluster label of a machine names the cluster of its specification. */
  ghost predicate Labelled(machines: map<Key, Machine>) {
    forall k | k in machines && machines[k].clusterName != "" ::
      machines[k].clusterLabel == Some(machines[k].clusterName)
  }

  /** The environment starts no deletion and keeps labels and specifications in agreement;
      a machine that is being deleted keeps its cluster and role until it is gone. */
  ghost predicate StartsNoRoll(s: State, t: State) {
    && Labelled(t.machines)
    && forall k | k in t.machines && t.machines[k].deleting ::
         && k in s.machines && s.machines[k].deleting
         && t.machines[k].clusterName == s.machines[k].clusterName
         && t.machines[k].IsControlPlane() == s.machines[k].IsControlPlane()
  }

  lemma OneRollStep(s: State, key: Key, verdicts: seq<bool>)
    requires OneRoll(s.machines) && Labelled(s.machines)
    ensures var t := Next(s, key, verdicts);
            OneRoll(t.machines) && Labelled(t.machines)
  {
    var t := Next(s, key, verdicts);
    RunWithin(s, key, verdicts);
    if t.machines != s.machines {
      RolledMeansFree(s, key);
      OneMoreDeletion(s.machines, key);
    }
  }

  lemma OneMoreDeletion(machines: map<Key, Machine>, key: Key)
    requires OneRoll(machines) && Labelled(machines)
    requires key in machines && machines[key].clusterName != ""
    requires var m := machines[key];
             !DeletingInRole(machines, key.ns, m.clusterName, m.IsControlPlane(), key.name)
    ensures OneRoll(Deleted(machines, key)) && Labelled(Deleted(machines, key))
  {
    var m, after := machines[key], Deleted(machines, key);
    forall a, b | a in after && b in after && a != b && after[a].deleting && after[b].deleting
      ensures !SameRole(after, a, b)
    {
      var other := if a == key then b else a;
      if a == key || b == key {
        assert !BlocksRoll(other, machines[other], key.ns, m.clusterName, m.IsControlPlane(), key.name);
      } else {
        assert !SameRole(machines, a, b);
      }
    }
  }

  /** A run deletes its machine only when no other machine of the role is being deleted. */
  lemma RolledMeansFree(s: State, key: Key)
    requires Plan(s, key).outcome == Rolled
    ensures key in s.machines && s.machines[key].clusterName != "" && !s.machines[key].deleting
    ensures var m := s.machines[key];
            !DeletingInRole(s.machines, key.ns, m.clusterName, m.IsControlPlane(), key.name)
  {
  }

  /** At most one machine of a cluster and role is being deleted, in every state of every run. */
  lemma {:induction false} OneRollInEveryRun(states: seq<State>, events: seq<Event>, n: nat)
    requires IsRun(states, events, StartsNoRoll)
    requires OneRoll(states[0].machines) && Labelled(states[0].machines)
    requires n < |states|
    ensures OneRoll(states[n].machines) && Labelled(states[n].machines)
  {
    if n > 0 {
      OneRollInEveryRun(states, events, n - 1);
      RunStep(states, events, StartsNoRoll, n - 1);
      OneRollFollows(states[n - 1], events[n - 1], states[n]);
    }
  }

  lemma OneRollFollows(s: State, e: Event, t: State)
    requires Follows(s, e, t, StartsNoRoll)
    requires OneRoll(s.machines) && Labelled(s.machines)
    ensures OneRoll(t.machines) && Labelled(t.machines)
  {
    match e
    case Reconciled(key, verdicts) => OneRollStep(s, key, verdicts);
    case Environment =>
      forall a, b | a in t.machines && b in t.machines && a != b && t.machines[a].deleting && t.machines[b].deleting
        ensures !SameRole(t.machines, a, b)
      {
        assert !SameRole(s.machines, a, b);
      }
  }

  function MachineAt(machines: map<Key, Machine>, k: Key): Option<Machine> {
    if k in machines then Some(machines[k]) else None
  }

  /** A run reads its own machine, the cluster's objects, the claims, the bootstrap data and,
      of the other machines, only whether one of its role is being deleted. */
  lemma PlanDependsOn(s: State, t: State, key: Key)
    requires t == s.(machines := t.machines)
    requires key in s.machines && key in t.machines && s.machines[key] == t.machines[key]
    requires var m := s.machines[key];
             DeletingInRole(t.machines, key.ns, m.clusterName, m.IsControlPlane(), key.name)
             == DeletingInRole(s.machines, key.ns, m.clusterName, m.IsControlPlane(), key.name)
    ensures Plan(t, key) == Plan(s, key)
  {
    PoolDependsOn(s, t, key);
    if MachinePool(s, key).Ok? {
      var pool := MachinePool(s, key).value;
      var claimRun := ClaimPlan(s.claims, key, s.machines[key], pool);
      if claimRun.address.Ok? {
        SecretDependsOn(s, t, key, s.machines[key], pool.config, claimRun.address.value);
      }
    }
  }

  lemma PoolDependsOn(s: State, t: State, key: Key)
    requires t.clusters == s.clusters && t.capiClusters == s.capiClusters && t.controlPlanes == s.controlPlanes
    requires key in s.machines && key in t.machines && s.machines[key] == t.machines[key]
    ensures MachinePool(t, key) == MachinePool(s, key)
  {
    assert ControlPlaneReplicas(t, ClusterOf(s, key)) == ControlPlaneReplicas(s, ClusterOf(s, key));
  }

  lemma SecretDependsOn(s: State, t: State, key: Key, m: Machine, config: NodeConfig, ip: Addr)
    requires t.secrets == s.secrets && t.talosConfigs == s.talosConfigs
    requires DeletingInRole(t.machines, key.ns, m.clusterName, m.IsControlPlane(), key.name)
          == DeletingInRole(s.machines, key.ns, m.clusterName, m.IsControlPlane(), key.name)
    ensures SecretPlan(t, key, m, config, ip) == SecretPlan(s, key, m, config, ip)
  {
  }
}
