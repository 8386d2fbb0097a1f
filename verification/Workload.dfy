/** The loop of the workload controller over the remote services of one workload: correct one
    load balancer address and stop, or publish a service, an HTTP route and a TLS route. */
module Workload {

  datatype Ingress = Ingress(ip: string, hostname: string)

  datatype RemotePort = RemotePort(name: string, port: int, nodePort: int)

  datatype RemoteService = RemoteService(
    name: string,
    loadBalancer: bool,
    ports: seq<RemotePort>,
    ingress: seq<Ingress>
  )

  datatype ServicePort = ServicePort(name: string, port: int, targetPort: int)

  /** `rest` stands for the fields the controller does not set; they outlive an update. */
  datatype Service = Service(owner: string, ports: seq<ServicePort>, cluster: string, role: string, rest: nat)

  datatype Route = Route(owner: string, hostnames: seq<string>, backend: string, port: int, parent: string, rest: nat)

  /** What a run reads besides the services: the workload, its cluster, the gateway. */
  datatype Inputs = Inputs(
    workload: string,
    uid: string,
    cluster: string,
    gatewayIP: string,
    parent: string,
    dnsZones: seq<string>
  )

  datatype State = State(
    remote: seq<RemoteService>,
    services: map<string, Service>,
    httpRoutes: map<string, Route>,
    tlsRoutes: map<string, Route>
  )

  const HTTP_PORT := 80
  const HTTPS_PORT := 443

  predicate Wrong(r: RemoteService, gatewayIP: string) {
    r.loadBalancer && (|r.ingress| != 1 || r.ingress[0].ip != gatewayIP)
  }

  function Corrected(r: RemoteService, gatewayIP: string): RemoteService {
    r.(ingress := [Ingress(gatewayIP, "")])
  }

  function LocalName(x: Inputs, r: RemoteService): string {
    x.workload + "-" + r.name
  }

  function Hostname(zone: string): string {
    "*." + if zone != "" && zone[|zone| - 1] == '.' then zone[..|zone| - 1] else zone
  }

  function Hostnames(zones: seq<string>): seq<string> {
    seq(|zones|, i requires 0 <= i < |zones| => Hostname(zones[i]))
  }

  function Ports(ports: seq<RemotePort>): seq<ServicePort> {
    seq(|ports|, i requires 0 <= i < |ports| => ServicePort(ports[i].name, ports[i].port, ports[i].nodePort))
  }

  function WantedService(x: Inputs, r: RemoteService, rest: nat): Service {
    Service(x.uid, Ports(r.ports), x.cluster, "worker", rest)
  }

  function WantedRoute(x: Inputs, r: RemoteService, port: int, rest: nat): Route {
    Route(x.uid, Hostnames(x.dnsZones), LocalName(x, r), port, x.parent, rest)
  }

  function RestOfService(services: map<string, Service>, name: string): nat {
    if name in services then services[name].rest else 0
  }

  function RestOfRoute(routes: map<string, Route>, name: string): nat {
    if name in routes then routes[name].rest else 0
  }

  /** Creates or patches the three objects of one service. */
  function PublishOne(s: State, x: Inputs, r: RemoteService): State {
    var name := LocalName(x, r);
    s.(services := s.services[name := WantedService(x, r, RestOfService(s.services, name))],
       httpRoutes := s.httpRoutes[name := WantedRoute(x, r, HTTP_PORT, RestOfRoute(s.httpRoutes, name))],
       tlsRoutes := s.tlsRoutes[name := WantedRoute(x, r, HTTPS_PORT, RestOfRoute(s.tlsRoutes, name))])
  }

  function Publish(s: State, x: Inputs, remote: seq<RemoteService>): State {
    if remote == [] then s else
    var before := Publish(s, x, remote[..|remote| - 1]);
    var r := remote[|remote| - 1];
    if r.loadBalancer then PublishOne(before, x, r) else before
  }

  /** The position of the first service with a wrong address, `|remote|` when there is none. */
  function FirstWrong(remote: seq<RemoteService>, gatewayIP: string): (i: nat)
    ensures i <= |remote|
    ensures forall j :: 0 <= j < i ==> !Wrong(remote[j], gatewayIP)
    ensures i < |remote| ==> Wrong(remote[i], gatewayIP)
  {
    if remote == [] || Wrong(remote[0], gatewayIP) then 0 else 1 + FirstWrong(remote[1..], gatewayIP)
  }

  function WrongCount(remote: seq<RemoteService>, gatewayIP: string): nat {
    if remote == [] then 0
    else (if Wrong(remote[0], gatewayIP) then 1 else 0) + WrongCount(remote[1..], gatewayIP)
  }

  /** One run: publish the services before the first wrong one, then correct that one. */
  function Step(s: State, x: Inputs): State {
    var i := FirstWrong(s.remote, x.gatewayIP);
    var t := Publish(s, x, s.remote[..i]);
    if i < |s.remote| then t.(remote := s.remote[i := Corrected(s.remote[i], x.gatewayIP)]) else t
  }

  lemma FirstWrongUnique(remote: seq<RemoteService>, gatewayIP: string, i: nat)
    requires i <= |remote|
    requires forall j :: 0 <= j < i ==> !Wrong(remote[j], gatewayIP)
    requires i < |remote| ==> Wrong(remote[i], gatewayIP)
    ensures FirstWrong(remote, gatewayIP) == i
  {
  }

  class Controller {
    var remote: seq<RemoteService>
    var services: map<string, Service>
    var httpRoutes: map<string, Route>
    var tlsRoutes: map<string, Route>

    function Snapshot(): State
      reads this
    {
      State(remote, services, httpRoutes, tlsRoutes)
    }

    constructor (s: State)
      ensures Snapshot() == s
    {
      remote, services, httpRoutes, tlsRoutes := s.remote, s.services, s.httpRoutes, s.tlsRoutes;
    }

    method CreateOrPatchObjects(x: Inputs, r: RemoteService)
      modifies this`services, this`httpRoutes, this`tlsRoutes
      ensures Snapshot() == PublishOne(old(Snapshot()), x, r)
    {
      var serviceName := x.workload + "-" + r.name;

      var servicePorts: seq<ServicePort> := [];
      for i := 0 to |r.ports|
        invariant servicePorts == Ports(r.ports[..i])
      {
        servicePorts := servicePorts + [ServicePort(r.ports[i].name, r.ports[i].port, r.ports[i].nodePort)];
      }
      assert r.ports[..|r.ports|] == r.ports;
      var service := if serviceName in services then services[serviceName] else Service("", [], "", "", 0);
      services := services[serviceName :=
        service.(owner := x.uid, ports := servicePorts, cluster := x.cluster, role := "worker")];

      var hostnames: seq<string> := [];
      for i := 0 to |x.dnsZones|
        invariant hostnames == Hostnames(x.dnsZones[..i])
      {
        hostnames := hostnames + [Hostname(x.dnsZones[i])];
      }
      assert x.dnsZones[..|x.dnsZones|] == x.dnsZones;
      var empty := Route("", [], "", 0, "", 0);
      var http := if serviceName in httpRoutes then httpRoutes[serviceName] else empty;
      httpRoutes := httpRoutes[serviceName :=
        http.(owner := x.uid, hostnames := hostnames, backend := serviceName, port := HTTP_PORT, parent := x.parent)];
      var tls := if serviceName in tlsRoutes then tlsRoutes[serviceName] else empty;
      tlsRoutes := tlsRoutes[serviceName :=
        tls.(owner := x.uid, hostnames := hostnames, backend := serviceName, port := HTTPS_PORT, parent := x.parent)];
    }

    method Reconcile(x: Inputs)
      modifies this
      ensures Snapshot() == Step(old(Snapshot()), x)
    {
      ghost var before := Snapshot();
      for i := 0 to |remote|
        invariant remote == before.remote
        invariant forall j :: 0 <= j < i ==> !Wrong(remote[j], x.gatewayIP)
        invariant Snapshot() == Publish(before, x, remote[..i])
      {
        var remoteService := remote[i];
        assert remote[..i + 1][..i] == remote[..i];
        if !remoteService.loadBalancer {
          continue;
        }
        if |remoteService.ingress| != 1 || remoteService.ingress[0].ip != x.gatewayIP {
          FirstWrongUnique(remote, x.gatewayIP, i);
          remote := remote[i := remoteService.(ingress := [Ingress(x.gatewayIP, "")])];
          return;
        }
        CreateOrPatchObjects(x, remoteService);
      }
      FirstWrongUnique(remote, x.gatewayIP, |remote|);
      assert remote[..|remote|] == remote;
    }
  }

  // ----- progress of one run -----

  lemma {:induction false} PublishKeepsRemote(s: State, x: Inputs, remote: seq<RemoteService>)
    ensures Publish(s, x, remote).remote == s.remote
  {
    if remote != [] {
      PublishKeepsRemote(s, x, remote[..|remote| - 1]);
    }
  }

  lemma {:induction false} CountAtFirst(remote: seq<RemoteService>, gatewayIP: string)
    ensures var i := FirstWrong(remote, gatewayIP);
            && (i == |remote| <==> WrongCount(remote, gatewayIP) == 0)
            && (i < |remote| ==>
                  WrongCount(remote[i := Corrected(remote[i], gatewayIP)], gatewayIP)
                  == WrongCount(remote, gatewayIP) - 1)
  {
    if remote != [] {
      if Wrong(remote[0], gatewayIP) {
        assert remote[0 := Corrected(remote[0], gatewayIP)][1..] == remote[1..];
      } else {
        var j := FirstWrong(remote[1..], gatewayIP);
        CountAtFirst(remote[1..], gatewayIP);
        if j < |remote[1..]| {
          var fixed := remote[j + 1 := Corrected(remote[j + 1], gatewayIP)];
          assert fixed[1..] == remote[1..][j := Corrected(remote[1..][j], gatewayIP)];
        }
      }
    }
  }

  /** A run either lowers the number of wrong services by exactly one, or, when none is
      wrong, publishes every load balancer service and leaves the remote services alone. */
  lemma StepProgress(s: State, x: Inputs)
    ensures var t := Step(s, x);
            if WrongCount(s.remote, x.gatewayIP) > 0
            then WrongCount(t.remote, x.gatewayIP) == WrongCount(s.remote, x.gatewayIP) - 1
            else t == Publish(s, x, s.remote) && t.remote == s.remote
  {
    CountAtFirst(s.remote, x.gatewayIP);
    PublishKeepsRemote(s, x, s.remote);
    assert s.remote[..|s.remote|] == s.remote;
  }

  /** The three objects of a service are as wanted. */
  predicate Published(s: State, x: Inputs, r: RemoteService) {
    var name := LocalName(x, r);
    && name in s.services && s.services[name] == WantedService(x, r, s.services[name].rest)
    && name in s.httpRoutes && s.httpRoutes[name] == WantedRoute(x, r, HTTP_PORT, s.httpRoutes[name].rest)
    && name in s.tlsRoutes && s.tlsRoutes[name] == WantedRoute(x, r, HTTPS_PORT, s.tlsRoutes[name].rest)
  }

  ghost predicate DistinctNames(remote: seq<RemoteService>) {
    forall i, j :: 0 <= i < j < |remote| ==> remote[i].name != remote[j].name
  }

  lemma LocalNameInjective(x: Inputs, a: RemoteService, b: RemoteService)
    requires LocalName(x, a) == LocalName(x, b)
    ensures a.name == b.name
  {
    var prefix := x.workload + "-";
    assert LocalName(x, a)[|prefix|..] == a.name;
    assert LocalName(x, b)[|prefix|..] == b.name;
  }

  lemma {:induction false} PublishAll(s: State, x: Inputs, remote: seq<RemoteService>)
    requires DistinctNames(remote)
    ensures forall i :: 0 <= i < |remote| && remote[i].loadBalancer ==> Published(Publish(s, x, remote), x, remote[i])
  {
    if remote != [] {
      var n := |remote| - 1;
      PublishAll(s, x, remote[..n]);
      var before := Publish(s, x, remote[..n]);
      forall i | 0 <= i < |remote| && remote[i].loadBalancer
        ensures Published(Publish(s, x, remote), x, remote[i])
      {
        if i < n {
          assert Published(before, x, remote[..n][i]);
          if remote[n].loadBalancer && LocalName(x, remote[i]) == LocalName(x, remote[n]) {
            LocalNameInjective(x, remote[i], remote[n]);
            assert false;
          }
        }
      }
    }
  }

  /** Publishing what is published already changes nothing. */
  lemma {:induction false} PublishSettled(s: State, x: Inputs, remote: seq<RemoteService>)
    requires forall i :: 0 <= i < |remote| && remote[i].loadBalancer ==> Published(s, x, remote[i])
    ensures Publish(s, x, remote) == s
  {
    if remote != [] {
      var n := |remote| - 1;
      PublishSettled(s, x, remote[..n]);
      if remote[n].loadBalancer {
        PublishOneSettled(s, x, remote[n]);
      }
    }
  }

  lemma PublishOneSettled(s: State, x: Inputs, r: RemoteService)
    requires Published(s, x, r)
    ensures PublishOne(s, x, r) == s
  {
    var name := LocalName(x, r);
    assert s.services[name := s.services[name]] == s.services;
    assert s.httpRoutes[name := s.httpRoutes[name]] == s.httpRoutes;
    assert s.tlsRoutes[name := s.tlsRoutes[name]] == s.tlsRoutes;
  }

  // ----- one run, object by object -----

  /** The host name for a zone, whose trailing dot, if it has one, is dropped. */
  predicate WildcardOf(hostname: string, zone: string) {
    if zone != "" && zone[|zone| - 1] == '.' then hostname + "." == "*." + zone else hostname == "*." + zone
  }

  predicate RouteFor(x: Inputs, route: Route, name: string, port: int) {
    && route.owner == x.uid && route.parent == x.parent && route.backend == name && route.port == port
    && |route.hostnames| == |x.dnsZones|
    && forall i | 0 <= i < |x.dnsZones| :: WildcardOf(route.hostnames[i], x.dnsZones[i])
  }

  /** The service `<workload>-<name>` forwards each port to the node port of the remote service
      on the workers, and two routes of the same name lead the zones' hosts to its ports 80
      and 443. */
  predicate Exposed(s: State, x: Inputs, r: RemoteService) {
    var name := x.workload + "-" + r.name;
    && name in s.services && name in s.httpRoutes && name in s.tlsRoutes
    && ForwardsTo(x, s.services[name], r)
    && RouteFor(x, s.httpRoutes[name], name, 80) && RouteFor(x, s.tlsRoutes[name], name, 443)
  }

  predicate ForwardsTo(x: Inputs, service: Service, r: RemoteService) {
    && service.owner == x.uid && service.cluster == x.cluster && service.role == "worker"
    && |service.ports| == |r.ports|
    && forall i | 0 <= i < |r.ports| ::
         && service.ports[i].name == r.ports[i].name && service.ports[i].port == r.ports[i].port
         && service.ports[i].targetPort == r.ports[i].nodePort
  }

  lemma PublishedExposed(s: State, x: Inputs, r: RemoteService)
    requires Published(s, x, r)
    ensures Exposed(s, x, r)
  {
    forall i | 0 <= i < |x.dnsZones| ensures WildcardOf(Hostnames(x.dnsZones)[i], x.dnsZones[i]) {
      var zone := x.dnsZones[i];
      if zone != "" && zone[|zone| - 1] == '.' {
        assert zone[..|zone| - 1] + "." == zone;
      }
    }
  }

  /** The objects called `name` are those of `s`. */
  predicate SameObjects(s: State, t: State, name: string) {
    && ServiceAt(s, name) == ServiceAt(t, name)
    && RouteAt(s.httpRoutes, name) == RouteAt(t.httpRoutes, name)
    && RouteAt(s.tlsRoutes, name) == RouteAt(t.tlsRoutes, name)
  }

  function ServiceAt(s: State, name: string): seq<Service> {
    if name in s.services then [s.services[name]] else []
  }

  function RouteAt(routes: map<string, Route>, name: string): seq<Route> {
    if name in routes then [routes[name]] else []
  }

  /** The objects called `name` are still there, and what the controller does not set is as it
      was, 0 for an object that is new. */
  predicate SameRest(s: State, t: State, name: string) {
    && (name in s.services ==> name in t.services) && (name in s.httpRoutes ==> name in t.httpRoutes)
    && (name in s.tlsRoutes ==> name in t.tlsRoutes)
    && RestOfService(s.services, name) == RestOfService(t.services, name)
    && RestOfRoute(s.httpRoutes, name) == RestOfRoute(t.httpRoutes, name)
    && RestOfRoute(s.tlsRoutes, name) == RestOfRoute(t.tlsRoutes, name)
  }

  lemma {:induction false} PublishFrame(s: State, x: Inputs, remote: seq<RemoteService>, name: string)
    ensures SameRest(s, Publish(s, x, remote), name)
    ensures (forall r | r in remote && r.loadBalancer :: x.workload + "-" + r.name != name) ==>
              SameObjects(s, Publish(s, x, remote), name)
  {
    if remote != [] {
      var n := |remote| - 1;
      PublishFrame(s, x, remote[..n], name);
      assert remote[n] in remote && forall r | r in remote[..n] :: r in remote;
    }
  }

  /** The address of a load balancer service is as wanted, or the service is none. */
  predicate Right(r: RemoteService, gatewayIP: string) {
    r.loadBalancer ==> |r.ingress| == 1 && r.ingress[0].ip == gatewayIP
  }

  /** One run over services of distinct names: the load balancer services before the first that
      is not right are exposed; that one gets the gateway's address, and no other service
      changes; no object of any other name changes, and of those nothing else. */
  lemma StepSpec(s: State, x: Inputs) returns (i: nat)
    requires DistinctNames(s.remote)
    ensures i <= |s.remote| && (forall j | 0 <= j < i :: Right(s.remote[j], x.gatewayIP))
    ensures i < |s.remote| ==> !Right(s.remote[i], x.gatewayIP)
    ensures var t := Step(s, x);
            && |t.remote| == |s.remote|
            && (forall j | 0 <= j < |s.remote| && j != i :: t.remote[j] == s.remote[j])
            && (i < |s.remote| ==> t.remote[i] == s.remote[i].(ingress := [Ingress(x.gatewayIP, "")]))
            && (forall j | 0 <= j < i && s.remote[j].loadBalancer :: Exposed(t, x, s.remote[j]))
            && (forall name :: SameRest(s, t, name))
            && (forall name | (forall j | 0 <= j < i && s.remote[j].loadBalancer ::
                                 x.workload + "-" + s.remote[j].name != name) :: SameObjects(s, t, name))
  {
    i := FirstWrong(s.remote, x.gatewayIP);
    var before, published := s.remote[..i], Publish(s, x, s.remote[..i]);
    PublishKeepsRemote(s, x, before);
    PublishAll(s, x, before);
    forall j | 0 <= j < i && s.remote[j].loadBalancer ensures Exposed(Step(s, x), x, s.remote[j]) {
      assert Published(published, x, before[j]);
      PublishedExposed(published, x, s.remote[j]);
    }
    forall name ensures SameRest(s, Step(s, x), name) {
      PublishFrame(s, x, before, name);
    }
    forall name | (forall j | 0 <= j < i && s.remote[j].loadBalancer :: x.workload + "-" + s.remote[j].name != name)
      ensures SameObjects(s, Step(s, x), name)
    {
      PublishFrame(s, x, before, name);
    }
  }

  // ----- runs -----

  /** The same services, each once, in whatever order. */
  ghost predicate Relisted(a: seq<RemoteService>, b: seq<RemoteService>) {
    DistinctNames(a) && DistinctNames(b) && forall r :: r in a <==> r in b
  }

  ghost predicate Follows(s: State, listing: seq<RemoteService>, t: State, x: Inputs) {
    Relisted(s.remote, listing) && t == Step(s.(remote := listing), x)
  }

  /** Successive runs of the controller, each of which lists the remote services afresh, in an
      order of its own. */
  ghost predicate IsRun(states: seq<State>, listings: seq<seq<RemoteService>>, x: Inputs) {
    && |states| == |listings| + 1 && DistinctNames(states[0].remote)
    && forall i :: 0 <= i < |listings| ==> Follows(states[i], listings[i], states[i + 1], x)
  }

  function WrongSet(remote: seq<RemoteService>, gatewayIP: string): set<RemoteService> {
    set r | r in remote && Wrong(r, gatewayIP)
  }

  lemma {:induction false} WrongCountIsSize(remote: seq<RemoteService>, gatewayIP: string)
    requires DistinctNames(remote)
    ensures WrongCount(remote, gatewayIP) == |WrongSet(remote, gatewayIP)|
  {
    if remote != [] {
      WrongCountIsSize(remote[1..], gatewayIP);
      FirstApart(remote, gatewayIP);
    }
  }

  lemma FirstApart(remote: seq<RemoteService>, gatewayIP: string)
    requires remote != [] && DistinctNames(remote)
    ensures var rest := WrongSet(remote[1..], gatewayIP);
            && remote[0] !in rest
            && WrongSet(remote, gatewayIP) == (if Wrong(remote[0], gatewayIP) then {remote[0]} else {}) + rest
  {
    assert remote == [remote[0]] + remote[1..];
    forall j | 0 <= j < |remote[1..]| ensures remote[1..][j] != remote[0] {
      assert remote[1..][j] == remote[j + 1];
    }
  }

  lemma RelistedCount(a: seq<RemoteService>, b: seq<RemoteService>, gatewayIP: string)
    requires Relisted(a, b)
    ensures WrongCount(a, gatewayIP) == WrongCount(b, gatewayIP)
  {
    WrongCountIsSize(a, gatewayIP);
    WrongCountIsSize(b, gatewayIP);
    assert WrongSet(a, gatewayIP) == WrongSet(b, gatewayIP);
  }

  function Bare(r: RemoteService): RemoteService {
    r.(ingress := [])
  }

  /** The services apart from their ingress. */
  function BareSet(remote: seq<RemoteService>): set<RemoteService> {
    set r | r in remote :: Bare(r)
  }

  lemma OneCorrected(a: seq<RemoteService>, i: nat, gatewayIP: string)
    requires i < |a| && DistinctNames(a)
    ensures var b := a[i := Corrected(a[i], gatewayIP)];
            DistinctNames(b) && BareSet(b) == BareSet(a)
  {
    var b := a[i := Corrected(a[i], gatewayIP)];
    BareAt(a, b);
    BareAt(b, a);
  }

  lemma BareAt(a: seq<RemoteService>, b: seq<RemoteService>)
    requires |a| == |b| && forall j :: 0 <= j < |a| ==> Bare(a[j]) == Bare(b[j])
    ensures BareSet(a) <= BareSet(b)
  {
    forall r | r in a ensures Bare(r) in BareSet(b) {
      var j :| 0 <= j < |a| && a[j] == r;
      assert b[j] in b;
    }
  }

  /** A run changes nothing of a remote service but its ingress. */
  lemma ServicesFollow(s: State, listing: seq<RemoteService>, t: State, x: Inputs)
    requires Follows(s, listing, t, x)
    ensures DistinctNames(t.remote) && BareSet(t.remote) == BareSet(s.remote)
  {
    var i := FirstWrong(listing, x.gatewayIP);
    PublishKeepsRemote(s.(remote := listing), x, listing[..i]);
    if i < |listing| {
      OneCorrected(listing, i, x.gatewayIP);
    }
    assert BareSet(listing) == BareSet(s.remote);
  }

  // ----- convergence -----

  /** Every load balancer service has the gateway's address alone and its three objects. */
  ghost predicate AllDone(s: State, x: Inputs) {
    forall r | r in s.remote && r.loadBalancer ::
      && |r.ingress| == 1 && r.ingress[0].ip == x.gatewayIP
      && Published(s, x, r) && Exposed(s, x, r)
  }

  lemma LastStep(s: State, x: Inputs)
    requires WrongCount(s.remote, x.gatewayIP) == 0 && DistinctNames(s.remote)
    ensures AllDone(Step(s, x), x) && Step(s, x).remote == s.remote
  {
    StepProgress(s, x);
    PublishAll(s, x, s.remote);
    CountAtFirst(s.remote, x.gatewayIP);
  }

  /** Once everything is as wanted a run changes nothing, whatever the order of the list. */
  lemma StaysDone(s: State, listing: seq<RemoteService>, t: State, x: Inputs)
    requires AllDone(s, x) && WrongCount(s.remote, x.gatewayIP) == 0
    requires Follows(s, listing, t, x)
    ensures t == s.(remote := listing) && AllDone(t, x)
  {
    var relisted := s.(remote := listing);
    RelistedCount(s.remote, listing, x.gatewayIP);
    StepProgress(relisted, x);
    forall i | 0 <= i < |listing| && listing[i].loadBalancer ensures Published(relisted, x, listing[i]) {
      assert listing[i] in s.remote;
      assert Published(s, x, listing[i]);
    }
    PublishSettled(relisted, x, listing);
  }

  /** Where a run of the system should be after `n` runs of the controller, with `k` wrong
      addresses at first. */
  ghost predicate OnCourse(states: seq<State>, x: Inputs, n: nat)
    requires n < |states|
  {
    var k := WrongCount(states[0].remote, x.gatewayIP);
    && DistinctNames(states[n].remote) && BareSet(states[n].remote) == BareSet(states[0].remote)
    && if n <= k then WrongCount(states[n].remote, x.gatewayIP) == k - n
       else
         && WrongCount(states[n].remote, x.gatewayIP) == 0 && AllDone(states[n], x)
         && Relisted(states[k + 1].remote, states[n].remote)
         && states[n] == states[k + 1].(remote := states[n].remote)
  }

  /** The services lose one wrong address a run and nothing else of them ever changes; after
      k + 1 runs everything is as wanted, and from then on it stays the same, in whatever
      orders the services are listed. */
  lemma {:induction false} Converges(states: seq<State>, listings: seq<seq<RemoteService>>, x: Inputs, n: nat)
    requires IsRun(states, listings, x) && n < |states|
    ensures OnCourse(states, x, n)
  {
    if n > 0 {
      Converges(states, listings, x, n - 1);
      assert Follows(states[n - 1], listings[n - 1], states[n], x);
      ServicesFollow(states[n - 1], listings[n - 1], states[n], x);
      CourseStep(states, listings[n - 1], x, n - 1);
    }
  }

  lemma CourseStep(states: seq<State>, listing: seq<RemoteService>, x: Inputs, n: nat)
    requires n + 1 < |states| && OnCourse(states, x, n) && Follows(states[n], listing, states[n + 1], x)
    requires DistinctNames(states[n + 1].remote) && BareSet(states[n + 1].remote) == BareSet(states[n].remote)
    ensures OnCourse(states, x, n + 1)
  {
    var k := WrongCount(states[0].remote, x.gatewayIP);
    var s := states[n].(remote := listing);
    RelistedCount(states[n].remote, listing, x.gatewayIP);
    StepProgress(s, x);
    if n == k {
      LastStep(s, x);
    } else if n > k {
      StaysDone(states[n], listing, states[n + 1], x);
    }
  }
}
