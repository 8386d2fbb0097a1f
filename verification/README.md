# Verification of the dockyards-kubevirt controllers

A Dafny model of four pieces of dockyards-kubevirt, with proofs.

**Machine IP controller** (`controllers/dockyardsmachineip_controller.go`). For each cluster
API machine a run finds or creates an IPAM claim, computes the partition of the cluster's IPv4
subnet into gateway, control-plane and worker addresses, gives the claim the least free address
of its role, records a status, splices the address into the machine's Talos bootstrap data and
may delete ("roll") a machine that is running already.

- `Ipv4.dfy`: addresses, prefixes and the partition, in `uint32` arithmetic with wrap-around.
- `Allocator.dfy`: the search for the least free address, including a counter that wraps.
- `LinkConfig.dfy`, `Bootstrap.dfy`: YAML documents as finite maps, the splice of an address into
  a LinkConfig document, the upsert among patches and among the documents of a byte stream.
- `ClusterState.dfy`, `MachineIP.dfy`: the objects read and written, the plan of one run as a list
  of write attempts, and the controller's methods, which make those attempts one by one against
  an API server that may accept or refuse each of them.
- `Effects.dfy`, `Runs.dfy`, `Pools.dfy`: what one run may change, and safety over runs in which
  controller steps interleave with an environment.
- `Allocation.dfy`, `Claims.dfy`, `Decisions.dfy`: what one run does, told by the objects before and
  after it alone: which address is found, what the claim says in every stage a run can leave it
  in, which pool is used, what becomes of the bootstrap data, and when the machine is deleted.
- `Settling.dfy`, `Resume.dfy`: after a run that was refused nothing no later run for the machine
  has anything to do; runs that were cut short are completed by the next one that is not, except
  for the deletion of the machine.
- `Example.dfy`: a concrete state in which a run goes all the way to the deletion, so the conditions
  of those theorems can be met, and states in which an address is kept that should not be.

**Workload controller** (`Workload.dfy`): the loop that corrects one load balancer address per run
or publishes all services and routes. **Allow cache** (`AllowCache.dfy`): the cached access
decisions and their refresh. **Annotation lists** (`NodePools.dfy`, on `Strings.dfy`): the
normaliser of comma-separated lists. `Outcomes.dfy` and `Sets.dfy` hold shared helpers.

## How the model works

- Reads are current and runs are serial. The real client reads through a cache.
- An environment step is an arbitrary change of the whole state. Each theorem names the
  predicate the environment must respect (for example `AssignsNothing`: no address is set from
  outside and an addressed claim is not moved to another cluster).
- Every write of a run may be refused. A refusal ends the run, except that a refused address
  patch is followed by an attempt to record the status `Failed`. Theorems about single runs and
  whole runs hold for every list of verdicts.
- A string that is the text of an IPv4 prefix is `Cidr`, any other string is `Plain`. An IPv4
  address or prefix has one accepted text, so comparing texts and comparing parsed values agree.
  A claim address is missing, an IPv4 address, or a text that is not one.
- A byte stream is its sections plus a layout number that tells apart streams with equal
  content; a patch likewise.
- `Reconcile` requires fewer than 2^32 - 1 claims: a search in a range that ends at
  255.255.255.255 ends only because some address is free.

## Where the code differs from what one might expect

- The size check of the partition compares wrapped values. `RangeAccepted` gives the exact
  condition, `WrappedRangeExamples` two subnets that slip through, `RangeInSubnet` shows that such a
  range has worker addresses outside its subnet, and `WrappedSearchLeavesRange` that a
  range ending at 2^32 - 1 is never reported as exhausted.
- An address already on a claim is used as it is, without a check of range or duplicates, also when
  the machine has changed its cluster or role. `UniqueAfterRun` and `SeparatedAfterRun` give the exact
  conditions, which the caller can check before the run, under which a run leaves addresses
  unique and in their ranges; `UniqueInEveryRun` and `SeparatedInEveryRun` the same for whole runs.
  `MovedDuplicates` and `ReturnedIntrudes` are states that break them, and `ClashEndsReady` shows that
  such a claim is reported as Ready.
- A roll that is blocked asks for another run after ten seconds, but that run finds the secret
  up to date and stops before the roll. `RollsNowOrNever` gives the exact condition under which the
  machine is deleted and `BlockedRollIsDropped` shows that a blocked roll is never made up for.
- A deletion the API server refuses is not tried again either. `RefusedDeletionIsDropped` says
  which refusals have this effect: the next run means to delete the machine again if and only if
  the secret was not written.
- Machines that share a bootstrap secret never come to rest (`SharedSecretNeverSettles`);
  `SettledForGood` therefore asks that no other machine uses the secret.
- The allow cache has one list for all calls without a console stream, whoever asks.
  `AnswerIsOwn` says exactly when an asker gets its own answer; `SharedKeyExample` is a run in which
  it does not.

## Model

| member | source | states |
|---|---|---|
| Ipv4.ShiftedBytes | controllers/dockyardsmachineip_controller.go:666-670 | the integer of an address is the sum of its four shifted bytes |
| Ipv4.FromToUint32 | controllers/dockyardsmachineip_controller.go:666-681 | converting an address to an integer and back gives the address |
| Ipv4.ToFromUint32 | controllers/dockyardsmachineip_controller.go:666-681 | converting any `uint32` to an address and back gives the integer |
| Ipv4.PrefixMembers | controllers/dockyardsmachineip_controller.go:628-644 | a prefix contains exactly the 2^h addresses from its masked network on, and the block ends at or below 2^32 |
| Ipv4.MaskOfMember | controllers/dockyardsmachineip_controller.go:840 | an address masks to a prefix's network if and only if the prefix contains it |
| Ipv4.RangeAccepted | controllers/dockyardsmachineip_controller.go:623-654 | for every prefix and reserve up to 2^31: accepted iff there are host bits and r + 4 <= 2^h or network + 2 + r >= 2^32, and which error otherwise |
| Ipv4.RangePartition | controllers/dockyardsmachineip_controller.go:644-663 | if r + 4 <= 2^h nothing wraps: network, gateway, r control-plane addresses, 2^h - 3 - r >= 1 workers and broadcast follow each other and are exactly the subnet |
| Ipv4.RangeInSubnet | controllers/dockyardsmachineip_controller.go:649-654 | an accepted range keeps all worker addresses in its subnet iff r + 4 <= 2^h |
| Ipv4.RangeEnds | controllers/dockyardsmachineip_controller.go:648-650 | the worker range ends below broadcast; the control-plane range ends at 2^32 - 1 iff network + 2 + r = 2^32 |
| Ipv4.WrappedRangeExamples | controllers/dockyardsmachineip_controller.go:652 | 255.255.255.254/31 with reserve 1 and 255.255.255.252/30 with reserve 2 are accepted, with these ranges |
| Allocator.SearchFree | controllers/dockyardsmachineip_controller.go:509-515 | the `uint32` counting loop, wrap included, ends and finds the first free value in counting order |
| Allocator.NextAvailableIP | controllers/dockyardsmachineip_controller.go:507-529 | the search per role returns what the specification function describes |
| Allocator.NextAvailableIsLeast | controllers/dockyardsmachineip_controller.go:507-529 | the result is the minimum of the role's range minus the used values; it fails iff that difference is empty |
| Allocator.NextAvailableIsFree | controllers/dockyardsmachineip_controller.go:507-529 | for every range, wrapped or not, a returned address is not in use |
| Allocator.WrappedSearchLeavesRange | controllers/dockyardsmachineip_controller.go:509-517 | with an end of 2^32 - 1 and a full range the search returns an address below the range instead of failing |
| LinkConfig.Document.SetLinkConfigAddress | controllers/dockyardsmachineip_controller.go:816-927 | the in-place update equals the splice function; on an error the document is untouched; `changed` holds iff the document differs |
| LinkConfig.KeepCurrent | controllers/dockyardsmachineip_controller.go:842-882 | the entry loop keeps exactly the entries that are not stale and reports whether the address was met and whether any was dropped |
| LinkConfig.KeepSelects | controllers/dockyardsmachineip_controller.go:845-882 | the kept entries are those at the increasing positions of entries that are not stale |
| LinkConfig.NextAddressesSpec | controllers/dockyardsmachineip_controller.go:840-887 | the new list names the address, has no other prefix of its length in its subnet, loses no other entry and gains only the address |
| LinkConfig.NextAddressesSame | controllers/dockyardsmachineip_controller.go:839-887 | the list is unchanged iff the address is there and nothing is stale |
| LinkConfig.SpliceSpec | controllers/dockyardsmachineip_controller.go:816-927 | the spliced document is the LinkConfig of the interface, keeps an explicit `up` and every unrelated key |
| LinkConfig.SpliceEntries | controllers/dockyardsmachineip_controller.go:836-887 | entry by entry: an old entry stays, in its place, iff it names no prefix, the desired one, one of another length or one outside the desired address's block of 2^h addresses; if none names the desired one, it is appended |
| LinkConfig.SpliceFields | controllers/dockyardsmachineip_controller.go:889-924 | the remaining fields, literally |
| LinkConfig.SpliceRefused | controllers/dockyardsmachineip_controller.go:816-834 | exactly when a splice is refused |
| LinkConfig.SpliceIdempotent | controllers/dockyardsmachineip_controller.go:816-927 | splicing twice equals splicing once |
| Bootstrap.UpsertLinkConfigPatch | controllers/dockyardsmachineip_controller.go:683-734 | the loop equals the upsert function; `changed` holds iff the list differs |
| Bootstrap.UpsertIsLocal | controllers/dockyardsmachineip_controller.go:683-734 | only the first LinkConfig of the name, or one new last patch, is touched, and it holds the spliced document |
| Bootstrap.UpsertSpec | controllers/dockyardsmachineip_controller.go:683-734 | only the first document with kind LinkConfig and the interface's name changes, into its splice; if there is none a splice of an empty document is appended; it fails iff that splice does |
| Bootstrap.UpsertIdempotent | controllers/dockyardsmachineip_controller.go:683-734 | a second upsert changes nothing |
| Bootstrap.DecodeYAMLDocuments | controllers/dockyardsmachineip_controller.go:769-792 | the reading loop drops empty sections and fails on the first section that is not a mapping |
| Bootstrap.DecodeSpec | controllers/dockyardsmachineip_controller.go:769-792 | reading fails iff a section is broken and gives the mappings that have a key, in order |
| Bootstrap.EncodeYAMLDocuments | controllers/dockyardsmachineip_controller.go:794-814 | the writing loop succeeds iff every patch parses and then writes the documents in order |
| Bootstrap.DecodeEncode | controllers/dockyardsmachineip_controller.go:769-814 | reading written documents gives them back |
| Bootstrap.UpsertLinkConfigInBootstrapData | controllers/dockyardsmachineip_controller.go:736-767 | the wrapper equals its specification; `changed` holds iff the bytes differ |
| Bootstrap.UpsertDataDocs | controllers/dockyardsmachineip_controller.go:736-767 | the documents read back are the upserted documents, and the bytes are the input bytes iff no document changed |
| Bootstrap.UpdateSpec | controllers/dockyardsmachineip_controller.go:736-767 | bytes read before and after an update differ exactly in the first LinkConfig of the interface, which is spliced, or in a new last document |
| Bootstrap.UpsertDataIdempotent | controllers/dockyardsmachineip_controller.go:736-767 | updating updated data returns the very same bytes |
| ClusterState.ClaimKeyInjective | controllers/dockyardsmachineip_controller.go:581-583 | different machines have different claims |
| ClusterState.StopIsRefusal | controllers/dockyardsmachineip_controller.go:155-180 | a run that a failing read ends after some of its writes leaves a state that refusals leave as well |
| MachineIP.Controller.EnsureDockyardsIPAMClaim | controllers/dockyardsmachineip_controller.go:333-413 | creates the claim or brings it in line, keeps the address, writes only on a difference |
| MachineIP.Controller.UpdateSpec | controllers/dockyardsmachineip_controller.go:374-399 | the field-by-field update reaches the wanted specification, keeps the address, and `changed` holds iff something differed |
| MachineIP.Controller.EnsureClaimAddress | controllers/dockyardsmachineip_controller.go:415-442 | returns the stored address or stores a fresh one |
| MachineIP.Controller.SetClaimStatus | controllers/dockyardsmachineip_controller.go:444-466 | writes the status iff phase, message or observed generation differ |
| MachineIP.Controller.AllocateClaimAddress | controllers/dockyardsmachineip_controller.go:468-505 | for every listing order, collects exactly the addresses of the other claims of namespace and cluster and searches around them |
| MachineIP.Controller.HasDeletingMachineInRole | controllers/dockyardsmachineip_controller.go:222-251 | true iff another machine of namespace, cluster label and role is being deleted |
| MachineIP.Controller.ReconcileLatePatchMachine | controllers/dockyardsmachineip_controller.go:209-220 | asks for the deletion iff the role is not rolling |
| MachineIP.Controller.StoreAddress | controllers/dockyardsmachineip_controller.go:131-153 | address phase, including the `Failed` status after an allocation error or a refused patch |
| MachineIP.Controller.ReconcileClaim | controllers/dockyardsmachineip_controller.go:120-153 | the claim phase makes exactly the planned attempts up to the first refusal |
| MachineIP.Controller.ReconcileSecret | controllers/dockyardsmachineip_controller.go:155-206 | the secret phase makes exactly the planned attempts up to the first refusal |
| MachineIP.Controller.Reconcile | controllers/dockyardsmachineip_controller.go:72-207 | a whole run makes exactly the planned attempts up to the first refusal and reports the planned outcome |
| Decisions.PoolSpec | controllers/dockyardsmachineip_controller.go:84-118 | with a subnet and n >= 1 replicas a run has a pool iff the size check accepts and the machine is not being deleted: the masked subnet, the configured interface or eth1, and n + 1 control-plane addresses from the third one on |
| Decisions.PoolFound | controllers/dockyardsmachineip_controller.go:76-118 | a run has a pool only with a named cluster that has an IPv4 subnet and a Talos control plane with at least one replica |
| Decisions.NoPoolSpec | controllers/dockyardsmachineip_controller.go:76-118 | without them a run does nothing: it ignores the machine, reports the setting, or waits for the replicas |
| Decisions.NoDataSpec | controllers/dockyardsmachineip_controller.go:155-180 | exactly when a run waits for the secret's name and when it stops for lack of bootstrap data |
| Decisions.DataSpec | controllers/dockyardsmachineip_controller.go:181-191 | with data, the run is refused iff the update is, and has nothing to write iff the data is up to date |
| Decisions.DataWritten | controllers/dockyardsmachineip_controller.go:181-196 | an undisturbed run sets the value of that one secret to the updated data and changes no other |
| Decisions.RollOutcome | controllers/dockyardsmachineip_controller.go:198-219 | for both roles, changed data rolls a machine iff it has a node and no other machine of namespace, cluster label and role is being deleted |
| Decisions.RollSpec | controllers/dockyardsmachineip_controller.go:198-251 | after an undisturbed run that changed a secret, the machine is gone or being deleted exactly then, and no machine has changed otherwise |
| Decisions.RequeueSpec | controllers/dockyardsmachineip_controller.go:100-206 | when a run asks to be run again and after how many seconds |
| MachineIP.SomeValueFree | controllers/dockyardsmachineip_controller.go:482-504 | fewer than 2^32 claims leave an address free, so the search always ends |
| Effects.RunEffect | controllers/dockyardsmachineip_controller.go:72-207 | whatever is refused, a run touches no claim but its own and stores only versions that fit the machine, changes no secret but the value of its own bootstrap secret and that only to the value updated for its address, and deletes no machine but its own |
| Effects.FirstWrite | controllers/dockyardsmachineip_controller.go:120-124 | a claim that is not in line is brought in line by the first write; if that is refused the run changes nothing |
| Runs.AllocatedIsFresh | controllers/dockyardsmachineip_controller.go:482-504 | an allocated address differs from every address held in namespace and cluster |
| Runs.UniqueAfterRun | controllers/dockyardsmachineip_controller.go:415-427 | for every verdict list, a run from unique addresses leaves them unique iff it does not both keep an address that another claim of the machine's cluster holds and have its first write accepted |
| Runs.UniqueInEveryRun | controllers/dockyardsmachineip_controller.go:415-442 | while the environment sets no address, distinct claims of a namespace and cluster hold distinct addresses in every state iff no controller step did that; replicas and subnets change at will |
| Runs.UniqueInFixedClusters | controllers/dockyardsmachineip_controller.go:415-442 | addresses are unique in every state if machines keep the cluster of their addressed claims |
| Runs.AddressSticks | controllers/dockyardsmachineip_controller.go:415-427 | no run changes the address of an addressed claim or removes a claim |
| Runs.ReadyInEveryRun | controllers/dockyardsmachineip_controller.go:125-153 | in every run a Ready claim holds an IPv4 address |
| Runs.ReadyStays | controllers/dockyardsmachineip_controller.go:125-153 | in any run at all, no controller step takes phase or address from a Ready claim: it keeps both until the environment changes one of them |
| Runs.OneRollInEveryRun | controllers/dockyardsmachineip_controller.go:198-251 | if the environment starts no deletion and labels match, at most one machine per cluster and role is being deleted, in every state of every run |
| Decisions.BystandersDoNotMatter | controllers/dockyardsmachineip_controller.go:222-251 | machines of another namespace, another cluster label or the other role, and machines not being deleted, have no influence on a run |
| Pools.SeparatedAfterRun | controllers/dockyardsmachineip_controller.go:415-435 | with a fixed pool, a run leaves every address in its role's range iff the machine's claim does not come with an address outside the machine's role's range or the first write is refused |
| Pools.SeparatedInEveryRun | controllers/dockyardsmachineip_controller.go:415-435 | the same for whole runs: ranges are respected in every state iff no controller step brings in an address from outside |
| Pools.RolesSeparatedInEveryRun | controllers/dockyardsmachineip_controller.go:429-435 | with fixed pool, clusters and roles, every address lies in its role's range and in the subnet and is not network, gateway or broadcast, in every state of every run |
| Pools.HighWaterMark | controllers/dockyardsmachineip_controller.go:482-529 | if a role never has more than `peak` addressed claims at once, no address past the first `peak` of its range is ever held |
| Pools.NoGapsInEveryRun | controllers/dockyardsmachineip_controller.go:482-529 | while no addressed claim is dropped, a role's addresses are the first ones of its range without gaps |
| Pools.ReserveExhausted | controllers/dockyardsmachineip_controller.go:482-517 | control-plane addresses run out iff other claims hold every single one of the reserve, and then at least `reserved` claims do |
| Pools.SurgeAlwaysFits | controllers/dockyardsmachineip_controller.go:109-143 | with at most `replicas` other claims in the control-plane range a control-plane machine always gets an address, however many workers there are |
| Pools.SurgeInEveryRun | controllers/dockyardsmachineip_controller.go:109-143 | in every state of every run with a fixed pool, at most `replicas` other addressed control-plane claims suffice for that |
| Allocation.AllocateSpec | controllers/dockyardsmachineip_controller.go:468-529 | for either role: refused iff another claim of the cluster has an invalid address or other claims have every address of the role's range, each with its error; else the least address of the range that none of them has |
| Allocation.FirstAddress | controllers/dockyardsmachineip_controller.go:415-442 | whatever is refused, an address a run gives is that least one, of the machine's role and cluster |
| Allocation.RoleFits | controllers/dockyardsmachineip_controller.go:468-529 | under the pool invariant, a machine finds an address while fewer other claims of its role are addressed than its range has addresses |
| Allocation.WorkersFitInEveryRun | controllers/dockyardsmachineip_controller.go:520-529 | in every state of every run with a fixed pool, a worker finds an address while fewer than 2^h - 3 - r other worker claims are addressed |
| Pools.PlannedAddressInSubnet | controllers/dockyardsmachineip_controller.go:429-442 | the address a run works with lies in the configured subnet |
| Settling.ClaimPhaseDone | controllers/dockyardsmachineip_controller.go:120-153 | the claims a run ends with once its claim writes are accepted, whatever becomes of secret and deletion |
| Settling.ClashEndsReady | controllers/dockyardsmachineip_controller.go:415-427 | a claim that keeps an address held by another claim of its cluster ends Ready |
| Settling.SuccessfulRun | controllers/dockyardsmachineip_controller.go:120-206 | the exact final state of a run that reached the secret and was refused nothing |
| Settling.Settles | controllers/dockyardsmachineip_controller.go:120-206 | after such a run the next run for the machine attempts no write in any state with the same machine, claim, pool and bootstrap data; everything else may differ |
| Settling.OtherRunKeepsInputs | controllers/dockyardsmachineip_controller.go:120-206 | a run for another machine that uses another bootstrap secret leaves all of these alone |
| Settling.SettledForGood | controllers/dockyardsmachineip_controller.go:120-206 | in any run, after a run that was refused nothing, no later run for the machine attempts a write or a deletion, in every state, while other machines run and the environment leaves the machine's own inputs alone |
| Settling.BlockedRollIsDropped | controllers/dockyardsmachineip_controller.go:187-203 | in any such run a blocked roll is never made up for, also after the blocking machine is gone |
| Settling.SharedSecretNeverSettles | controllers/dockyardsmachineip_controller.go:181-196 | two machines of a cluster with one bootstrap secret and different addresses are never both up to date |
| Settling.UpsertShows | controllers/dockyardsmachineip_controller.go:736-767 | updated data shows the address and no other prefix of its length in its subnet |
| Settling.SecretShowsAddress | controllers/dockyardsmachineip_controller.go:181-196 | if the address is in the cluster's subnet, the stored data shows it and none of the machine's earlier addresses |
| Settling.PoolAddressShown | controllers/dockyardsmachineip_controller.go:131-196 | in every state that respects the pool invariant, the stored data shows the claim's address and no stale one |
| Resume.RetriesComplete | controllers/dockyardsmachineip_controller.go:120-206 | any number of runs cut short anywhere and then one undisturbed run give the claims and secrets of a single undisturbed run |
| Resume.RefusedDeletionIsDropped | controllers/dockyardsmachineip_controller.go:187-203 | after a refused run that meant to delete its machine the next run means to do so again iff one of the writes up to the secret was refused; if only the deletion was, it has nothing left to do |
| Resume.RollsNowOrNever | controllers/dockyardsmachineip_controller.go:187-220 | in every later state of any such run the machine is deleted or being deleted iff no other machine of its role was being deleted in that very run |
| Resume.OthersDecideOnlyTheRoll | controllers/dockyardsmachineip_controller.go:209-251 | the other machines, whatever they are, decide only whether the closing deletion is attempted: claim and secret are written alike, and the machine is deleted iff none of its role is being deleted |
| Claims.FinalClaimSpec | controllers/dockyardsmachineip_controller.go:333-466 | after a run that found an address the claim is in line with the machine, keeps other owners iff the machine was an owner before, keeps an old address, counts its generation exactly and is Ready for it |
| Claims.NoAddressRun | controllers/dockyardsmachineip_controller.go:131-143 | an undisturbed run that finds no address changes only its own claim, which is brought in line, keeps its address field and is Failed with the reason for its generation |
| Claims.RefusedAddress | controllers/dockyardsmachineip_controller.go:131-143 | if the address is found but its write refused, the claim stays without it and is Failed iff the next write is accepted, else Pending; nothing else changes |
| Claims.StagesOfNewClaim | controllers/dockyardsmachineip_controller.go:120-153 | the claim of a machine that had none, for every verdict list: absent, without status, Pending or Failed, addressed, Ready |
| Example.ExampleRolls | controllers/dockyardsmachineip_controller.go:72-207 | a concrete state from which a run means to go all the way to the deletion of its machine |
| Example.ExampleInvariant | controllers/dockyardsmachineip_controller.go:86-109 | that state meets the conditions of the theorems about pools |
| Example.MovedDuplicates | controllers/dockyardsmachineip_controller.go:415-427 | a machine that came back under its old name in another cluster: after its run two claims of the cluster hold one address and the machine's is Ready |
| Example.ReturnedIntrudes | controllers/dockyardsmachineip_controller.go:415-427 | such a machine's claim keeps any address whatever, in the range of its role or not |
| Workload.Controller.CreateOrPatchObjects | controllers/dockyardsworkload_controller.go:208-353 | service, HTTP route and TLS route get the wanted fields and keep the others |
| Workload.Controller.Reconcile | controllers/dockyardsworkload_controller.go:182-357 | the loop publishes the services before the first wrong one, corrects that one and stops |
| Workload.StepProgress | controllers/dockyardsworkload_controller.go:182-206 | a run lowers the number of wrong services by exactly one or publishes all |
| Workload.StepSpec | controllers/dockyardsworkload_controller.go:182-357 | one run, literally: the load balancer services before the first with a wrong address are exposed, that one gets the gateway's address alone, no other service, no object of another name and no unmanaged field changes |
| Workload.PublishedExposed | controllers/dockyardsworkload_controller.go:208-353 | a published service forwards each port to the node port on the workers, and its routes lead the zones' wildcard hosts to ports 80 and 443 |
| Workload.PublishAll | controllers/dockyardsworkload_controller.go:208-355 | with distinct names every load balancer service ends with its three objects as wanted |
| Workload.Converges | controllers/dockyardsworkload_controller.go:182-357 | with k wrong services one is corrected per run, everything is as wanted after k + 1 runs, later runs change nothing, and nothing but the ingress of a remote service ever changes, in whatever order each run lists the services |
| AllowCache.AllowList.Lookup | internal/api/v1/v1.go:89-97 | the cached answer, or the slow answer, which is then cached |
| AllowCache.AllowList.Refresh | internal/api/v1/v1.go:220-233 | in every iteration order: all entries take the present answer, one event with the new value per changed entry |
| AllowCache.SubjectAllowCache.GetAllowList | internal/api/v1/v1.go:100-119 | finds or creates the list of a stream |
| AllowCache.SubjectAllowCache.IsAllowedVM | internal/api/v1/v1.go:86-98 | one question to the cache |
| AllowCache.SubjectAllowCache.Tick | internal/api/v1/v1.go:219-234 | a tick refreshes one list and leaves the others alone |
| AllowCache.SubjectAllowCache.Close | internal/api/v1/v1.go:159-163 | the end of a watcher drops its list and no other |
| AllowCache.AllowedSlowSpec | internal/api/v1/v1.go:123-149 | a subject is allowed exactly the resources with one slash that it has a grant for |
| AllowCache.QueuesIffStreaming | internal/api/v1/v1.go:105-117 | in every state of every run a list has an event queue iff the cache streams |
| AllowCache.ListBelongsToOpener | internal/api/v1/v1.go:100-163 | in every state of every run the lists are those of the keys in use, each for the subject that used it first |
| AllowCache.OneEventPerChange | internal/api/v1/v1.go:219-234 | a tick of a streaming list appends one `true` per resource that became allowed, one `false` per resource no longer allowed, and nothing else |
| AllowCache.CacheAgrees | internal/api/v1/v1.go:86-236 | in every state of every run each cached answer is the slow answer of its latest check, for the subject of that check |
| AllowCache.AnswerIsOwn | internal/api/v1/v1.go:86-98 | the answer to any question is the asker's own slow answer iff nothing is cached or the slow answer of the last check, for the subject of that check, is the same |
| AllowCache.SharedKeyExample | internal/api/v1/v1.go:472-478 | two subjects without a stream: the second, without a grant, gets the first one's `true` |
| AllowCache.SoleUserAgrees | internal/api/v1/v1.go:86-236 | for a key used by one subject, such as a console stream, that subject's own slow answer at insertion or at the latest tick |
| AllowCache.EventsAlternate | internal/api/v1/v1.go:225-231 | for a stream about one resource successive events differ and the last is the cached value |
| NodePools.ParseCommaSeparatedUnique | controllers/dockyardsnodepool_controller.go:1255-1275 | the loop with its `seen` set equals the parse function |
| NodePools.ParseNormal | controllers/dockyardsnodepool_controller.go:1255-1275 | the names are trimmed, non-empty, comma-free and distinct |
| NodePools.ParseMembers | controllers/dockyardsnodepool_controller.go:1255-1275 | the names are exactly the trimmed fields between the commas, apart from blank ones |
| NodePools.NamesFound | controllers/dockyardsnodepool_controller.go:1255-1275 | every piece between commas that is not blank is found, wherever it stands |
| Strings.TrimSpec | controllers/dockyardsnodepool_controller.go:1261 | trimming takes white space and nothing else from the two ends and leaves none there |
| NodePools.FirstOccurrenceOrder | controllers/dockyardsnodepool_controller.go:1266-1271 | names come in the order of their first occurrences |
| NodePools.ParseJoin | controllers/dockyardsnodepool_controller.go:1255-1275 | a list comes back from its comma-join iff it is in normal form |
| NodePools.ParseConcat | controllers/dockyardsnodepool_controller.go:1255-1275 | parsing a + "," + b gives parse(a) and then what parse(b) adds |

## Left out

- IPv6: a desired IPv6 address is treated as a text that is not a prefix; the controller only ever asks for IPv4.
- The branches of the partition for a prefix that is not IPv4 or longer than 32 bits: the controller has rejected such a setting before.
- Numbers inside `addresses`: the model rejects such a document; the library's deep copy refuses integers by aborting the run and accepts floating point numbers.
- MachineIP.Controller.SetClaimStatus: one message stands for every invalid address, whichever claim it is on, so a run in which the text alone changes writes nothing in the model.
- MachineIP.Controller.Reconcile: has no failing reads; they end a run as refusals of its next writes do (`StopIsRefusal`), and a failing listing of claims is recorded as Failed like a refused address, with another text.
- Refused writes in the workload controller: a run there is modelled as undisturbed.
- Addresses that users write into claims while the system runs: theorems over whole runs exclude such steps; what a run makes of such an address is covered by the conditions above.
- Collisions between clusters that share a subnet: allocation is per cluster.
- Finding the gateway address and the owner cluster of a workload, and watching remote services: lookups without state.
- Errors of the slow access check, which count as a refusal, and blocking on a full event channel.
- YAML text, address text parsing, caches, watches and patch encoding: libraries.
- The Talos patch types, machine templates and the other reconcilers: field copying and single-branch checks.
