/** The objects the machine IP controller reads and writes, and the single writes it makes. */
module ClusterState {
  import opened Outcomes
  import opened Ipv4
  import opened Allocator
  import opened LinkConfig
  import opened Bootstrap

  datatype Key = Key(ns: string, name: string)

  datatype Ref = Ref(kind: string, name: string)

  type Int32 = n: int | -0x8000_0000 <= n < 0x8000_0000

  /** `clusterLabel` and `controlPlaneLabel` are the two labels the controller looks at. */
  datatype Machine = Machine(
    uid: string,
    clusterName: string,
    clusterLabel: Option<string>,
    controlPlaneLabel: Option<string>,
    deleting: bool,
    finalizers: bool,
    configRef: Option<Ref>,
    hasNode: bool
  ) {
    predicate IsControlPlane() {
      controlPlaneLabel.Some?
    }
  }

  datatype SubnetSetting = NoSubnet | Malformed | NotIPv4 | Subnet(prefix: Prefix)

  datatype ClusterSetting = ClusterSetting(subnet: SubnetSetting, interfaceName: Text)

  datatype NodeConfig = NodeConfig(subnet: Prefix, interfaceName: Text)

  datatype AddressField = NoAddress | Dotted(ip: Addr) | Invalid(text: string)

  datatype ClaimSpec = ClaimSpec(
    clusterName: string,
    machineName: string,
    interfaceName: Text,
    subnet: Text,
    controlPlane: bool,
    address: AddressField
  )

  datatype Phase = NoPhase | Pending | Ready | Failed

  datatype Message =
    | NoMessage
    | AllocatingAddress
    | AddressAllocated(ip: Addr)
    | AllocationFailed(error: AllocationError)

  /** A status reason is fixed by the message, so only the message is kept. */
  datatype ClaimStatus = ClaimStatus(phase: Phase, message: Message, observedGeneration: nat)

  datatype Claim = Claim(spec: ClaimSpec, owners: seq<string>, generation: nat, status: ClaimStatus)

  datatype State = State(
    machines: map<Key, Machine>,
    clusters: map<Key, ClusterSetting>,
    capiClusters: map<Key, Option<Ref>>,
    controlPlanes: map<Key, Int32>,
    talosConfigs: map<Key, Option<string>>,
    claims: map<Key, Claim>,
    secrets: map<Key, map<string, Bytes>>
  )

  datatype Write =
    | WriteClaim(key: Key, claim: Claim)
    | WriteSecret(key: Key, data: Bytes)
    | DeleteMachine(key: Key)

  const CLAIM_NAME_SUFFIX := "-external-node-ip"

  function ClaimKey(machine: Key): Key {
    machine.(name := machine.name + CLAIM_NAME_SUFFIX)
  }

  lemma ClaimKeyInjective(a: Key, b: Key)
    requires ClaimKey(a) == ClaimKey(b)
    ensures a == b
  {
    assert (a.name + CLAIM_NAME_SUFFIX)[..|a.name|] == a.name;
    assert (b.name + CLAIM_NAME_SUFFIX)[..|b.name|] == b.name;
  }

  /** Deleting an object with finalizers only marks it; the mark stays until the finalizers
      are gone. */
  function Deleted(machines: map<Key, Machine>, key: Key): map<Key, Machine> {
    if key !in machines then machines
    else if machines[key].finalizers then machines[key := machines[key].(deleting := true)]
    else machines - {key}
  }

  function WithValue(secrets: map<Key, map<string, Bytes>>, key: Key, data: Bytes): map<Key, map<string, Bytes>> {
    if key in secrets then secrets[key := secrets[key]["value" := data]] else secrets
  }

  function Apply(s: State, write: Write): State {
    match write
    case WriteClaim(key, claim) => s.(claims := s.claims[key := claim])
    case WriteSecret(key, data) => s.(secrets := WithValue(s.secrets, key, data))
    case DeleteMachine(key) => s.(machines := Deleted(s.machines, key))
  }

  /** One write the controller asks for, and the write it asks for next if that is refused.
      Any other refusal ends the run. */
  datatype Attempt = Attempt(write: Write, fallback: Option<Write>)

  /** Where a list of attempts leads: the state, the number of writes asked for so far, and
      whether none was refused. */
  datatype Execution = Execution(state: State, calls: nat, ok: bool)

  /** The verdict of the API server on the `n`-th write of a run. */
  predicate Accepts(verdicts: seq<bool>, n: nat) {
    n < |verdicts| && verdicts[n]
  }

  function Execute(s: State, attempts: seq<Attempt>, verdicts: seq<bool>, calls: nat): Execution
    decreases |attempts|
  {
    if attempts == [] then Execution(s, calls, true)
    else if Accepts(verdicts, calls) then Execute(Apply(s, attempts[0].write), attempts[1..], verdicts, calls + 1)
    else match attempts[0].fallback
         case None => Execution(s, calls + 1, false)
         case Some(w) => Execution(if Accepts(verdicts, calls + 1) then Apply(s, w) else s, calls + 2, false)
  }

  /** The first `n` writes of a run are accepted. */
  predicate AcceptsFirst(verdicts: seq<bool>, n: nat) {
    forall i | 0 <= i < n :: Accepts(verdicts, i)
  }

  lemma {:induction false} OkMeansAccepted(s: State, attempts: seq<Attempt>, verdicts: seq<bool>, calls: nat)
    ensures Execute(s, attempts, verdicts, calls).ok
       <==> forall i | calls <= i < calls + |attempts| :: Accepts(verdicts, i)
    decreases |attempts|
  {
    if attempts != [] && Accepts(verdicts, calls) {
      OkMeansAccepted(Apply(s, attempts[0].write), attempts[1..], verdicts, calls + 1);
    }
  }

  lemma {:induction false} ExecuteConcat(s: State, a: seq<Attempt>, b: seq<Attempt>, verdicts: seq<bool>, calls: nat)
    ensures var first := Execute(s, a, verdicts, calls);
            Execute(s, a + b, verdicts, calls)
            == if first.ok then Execute(first.state, b, verdicts, first.calls) else first
    decreases |a|
  {
    if a == [] {
      assert a + b == b;
    } else {
      assert (a + b)[1..] == a[1..] + b;
      if Accepts(verdicts, calls) {
        ExecuteConcat(Apply(s, a[0].write), a[1..], b, verdicts, calls + 1);
      }
    }
  }

  /** A run that ends after its first `n` writes, because a read fails, leaves the state that
      refusing the writes from there on leaves. */
  lemma {:induction false} StopIsRefusal(s: State, attempts: seq<Attempt>, n: nat, verdicts: seq<bool>, calls: nat)
    requires n <= |attempts| && calls + n <= |verdicts|
    requires Execute(s, attempts[..n], verdicts, calls).ok
    ensures Execute(s, attempts, verdicts[..calls + n], calls).state
         == Execute(s, attempts[..n], verdicts, calls).state
    decreases n
  {
    if n > 0 {
      assert attempts[..n][1..] == attempts[1..][..n - 1];
      StopIsRefusal(Apply(s, attempts[0].write), attempts[1..], n - 1, verdicts, calls + 1);
    }
  }

  // ----- what the controller reads before it acts -----

  datatype Outcome =
    | Ignored
    | Misconfigured
    | WaitForReplicas
    | NoAllocation(error: AllocationError)
    | NoBootstrapData
    | WaitForBootstrapData
    | BootstrapRejected(reason: BootstrapError)
    | Settled
    | SecretWritten
    | RollBlocked
    | Rolled
    | ApiFailure
  {
    /** Seconds until the controller asks to run again, 0 when it does not ask. */
    function RequeueAfter(): nat {
      match this
      case WaitForReplicas => 15
      case NoAllocation(e) => if e == InvalidClaimAddress then 0 else 15
      case WaitForBootstrapData => 5
      case RollBlocked => 10
      case Rolled => 10
      case _ => 0
    }

    /** The run compared the bootstrap secret with the desired address and succeeded. */
    predicate ReachedSecret() {
      Settled? || SecretWritten? || RollBlocked? || Rolled?
    }
  }

  const CONTROL_PLANE_RESERVE_SURGE := 1
  const DEFAULT_INTERFACE := Plain("eth1")

  /** The external node configuration, `Ok(None)` when no subnet is set. */
  function ExternalNodeConfig(cluster: ClusterSetting): Result<Option<NodeConfig>, Outcome> {
    match cluster.subnet
    case NoSubnet => Ok(None)
    case Malformed => Err(Misconfigured)
    case NotIPv4 => Err(Misconfigured)
    case Subnet(prefix) =>
      Ok(Some(NodeConfig(prefix.Masked(),
                         if cluster.interfaceName == Plain("") then DEFAULT_INTERFACE else cluster.interfaceName)))
  }

  /** The replica count of the referenced Talos control plane, when it can be determined. */
  function ControlPlaneReplicas(s: State, cluster: Key): Option<int> {
    if cluster !in s.capiClusters || s.capiClusters[cluster].None? then None else
    var ref := s.capiClusters[cluster].value;
    var key := Key(cluster.ns, ref.name);
    if ref.kind != "TalosControlPlane" || key !in s.controlPlanes || s.controlPlanes[key] < 1 then None
    else Some(s.controlPlanes[key])
  }

  datatype Pool = Pool(config: NodeConfig, range: Range)

  /** The configuration and address range of a cluster, or why there is none. */
  function ClusterPool(s: State, cluster: Key): Result<Pool, Outcome> {
    if cluster !in s.clusters then Err(Ignored) else
    match ExternalNodeConfig(s.clusters[cluster])
    case Err(e) => Err(e)
    case Ok(None) => Err(Ignored)
    case Ok(Some(config)) =>
      match ControlPlaneReplicas(s, cluster)
      case None => Err(WaitForReplicas)
      case Some(replicas) =>
        match NewRange(config.subnet, replicas + CONTROL_PLANE_RESERVE_SURGE)
        case Err(_) => Err(Misconfigured)
        case Ok(range) => Ok(Pool(config, range))
  }

  function ClusterOf(s: State, key: Key): Key
    requires key in s.machines
  {
    Key(key.ns, s.machines[key].clusterName)
  }

  function MachinePool(s: State, key: Key): Result<Pool, Outcome> {
    if key !in s.machines || s.machines[key].clusterName == "" then Err(Ignored) else
    match ClusterPool(s, ClusterOf(s, key))
    case Err(e) => Err(e)
    case Ok(pool) => if s.machines[key].deleting then Err(Ignored) else Ok(pool)
  }

  /** Some other machine of the cluster and role is being deleted. */
  predicate DeletingInRole(machines: map<Key, Machine>, ns: string, clusterName: string, controlPlane: bool,
                           except: string)
  {
    exists k :: k in machines && BlocksRoll(k, machines[k], ns, clusterName, controlPlane, except)
  }

  predicate BlocksRoll(k: Key, m: Machine, ns: string, clusterName: string, controlPlane: bool, except: string) {
    && k.ns == ns && m.clusterLabel == Some(clusterName)
    && k.name != except && m.deleting && m.IsControlPlane() == controlPlane
  }

  // ----- claims -----

  const NEW_STATUS := ClaimStatus(NoPhase, NoMessage, 0)

  /** The claim of a machine after its fields have been brought in line. A change of the
      specification raises the generation, a change of the owners does not. */
  function SyncedClaim(claims: map<Key, Claim>, key: Key, m: Machine, config: NodeConfig): Claim {
    var ck := ClaimKey(key);
    if ck !in claims then
      Claim(ClaimSpec(m.clusterName, key.name, config.interfaceName, Cidr(config.subnet), m.IsControlPlane(),
                      NoAddress),
            [m.uid], 1, NEW_STATUS)
    else
      var prior := claims[ck];
      var spec := ClaimSpec(m.clusterName, key.name, config.interfaceName, Cidr(config.subnet), m.IsControlPlane(),
                            prior.spec.address);
      Claim(spec, if m.uid in prior.owners then prior.owners else [m.uid],
            if spec == prior.spec then prior.generation else prior.generation + 1, prior.status)
  }

  function WithStatus(claim: Claim, phase: Phase, message: Message): Claim {
    claim.(status := ClaimStatus(phase, message, claim.generation))
  }

  function WithAddress(claim: Claim, ip: Addr): Claim {
    claim.(spec := claim.spec.(address := Dotted(ip)), generation := claim.generation + 1)
  }

  /** Another claim of the same namespace and cluster that holds some address. */
  predicate Holds(claims: map<Key, Claim>, k: Key, own: Key, clusterName: string) {
    && k in claims && k.ns == own.ns && k.name != own.name
    && claims[k].spec.clusterName == clusterName && claims[k].spec.address != NoAddress
  }

  function InUse(claims: map<Key, Claim>, own: Key, clusterName: string): set<Uint32> {
    set k | k in claims && Holds(claims, k, own, clusterName) && claims[k].spec.address.Dotted?
      :: ToUint32(claims[k].spec.address.ip)
  }

  function Allocate(claims: map<Key, Claim>, own: Key, clusterName: string, controlPlane: bool, range: Range)
    : Result<Addr, AllocationError>
  {
    if exists k :: k in claims && Holds(claims, k, own, clusterName) && claims[k].spec.address.Invalid?
    then Err(InvalidClaimAddress)
    else NextAvailable(controlPlane, InUse(claims, own, clusterName), range)
  }

  /** The address of a claim: the one it holds already, or a free one. */
  function AddressFor(claims: map<Key, Claim>, own: Key, claim: Claim, range: Range): Result<Addr, AllocationError> {
    match claim.spec.address
    case Dotted(ip) => Ok(ip)
    case Invalid(_) => Err(InvalidClaimAddress)
    case NoAddress => Allocate(claims, own, claim.spec.clusterName, claim.spec.controlPlane, range)
  }
}
