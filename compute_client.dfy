/** The GCP compute client (gcp/compute/client.go): one-line wrappers around the
    compute API, the `selfLink → name` maps of regions and zones, and `wait`, which
    hands a delete's long-running operation to an operation waiter. */
module ComputeClient {
  import opened Errors

  /** The compute API service and the logger the client holds (opaque handles). */
  datatype Service = Service(id: nat)
  datatype Logger = Logger(id: nat)

  datatype Client = Client(project: string, logger: Logger, service: Service)

  /** The sub-service of the compute API a call goes to (the client's fields). */
  datatype Resource =
    | Addresses | BackendServices | Disks | GlobalHealthChecks | HttpHealthChecks
    | HttpsHealthChecks | Instances | InstanceGroups | Firewalls | ForwardingRules
    | GlobalForwardingRules | Subnetworks | Networks | TargetHttpProxies
    | TargetHttpsProxies | TargetPools | UrlMaps | Regions | Zones

  /** A built API call, `c.<resource>.List(args...)` or `c.<resource>.Delete(args...)`,
      before its `Do()`. */
  datatype Call = List(resource: Resource, args: seq<string>) | Delete(resource: Resource, args: seq<string>)

  /** The part of a listed resource the client reads. */
  datatype Item = Item(selfLink: string, name: string)
  datatype ItemList = ItemList(items: seq<Item>)

  datatype Operation = Operation(name: string)

  /** The waiter `wait` constructs for an accepted operation. */
  datatype OperationWaiter = OperationWaiter(op: Operation, service: Service, project: string, logger: Logger)

  /** The collaborators, as oracles: `Do()` of a list call, `Do()` of a delete call,
      and `Wait()` of a waiter. */
  datatype Api = Api(
    list: Call -> Result<ItemList>,
    run: Call -> Result<Operation>,
    wait: OperationWaiter -> Outcome)

  /** r is what waiting on the call yields: the request's own error when `Do()`
      fails, and otherwise the waiter's verdict on the returned operation. */
  predicate AwaitedOutcome(c: Client, call: Call, api: Api, r: Outcome) {
    && (api.run(call).Failure? ==> r == Fail(api.run(call).msg))
    && (api.run(call).Ok? ==>
          r == api.wait(OperationWaiter(api.run(call).value, c.service, c.project, c.logger)))
  }

  /** `wait`: issue the request; return its error unchanged, or hand the operation,
      with the client's service, project and logger, to a waiter. */
  function Wait(c: Client, request: Call, api: Api): (r: Outcome)
    ensures AwaitedOutcome(c, request, api, r)
  {
    match api.run(request)
    case Failure(e) => Fail(e)
    case Ok(op) => api.wait(OperationWaiter(op, c.service, c.project, c.logger))
  }

  /** When the request fails no waiter is consulted: any other waiter gives the same result. */
  lemma WaitSkipsWaiterOnRequestError(c: Client, request: Call, api: Api, other: OperationWaiter -> Outcome)
    requires api.run(request).Failure?
    ensures Wait(c, request, api) == Wait(c, request, api.(wait := other)) == Fail(api.run(request).msg)
  {
  }

  /** `DeleteSubnetwork(subnetwork, region)` takes the name first but issues the call
      with the region before the name, like every other regional delete. */
  lemma DeleteSubnetworkSwapsArguments(c: Client, subnetwork: string, region: string, api: Api)
    ensures DeleteSubnetwork(c, subnetwork, region, api) == Wait(c, Delete(Subnetworks, [c.project, region, subnetwork]), api)
    ensures DeleteSubnetwork(c, subnetwork, region, api) == DeleteRegional(c, Subnetworks, region, subnetwork, api)
    ensures DeleteAddress(c, region, subnetwork, api) == DeleteRegional(c, Addresses, region, subnetwork, api)
  {
  }

  /** The shape shared by the regional deletes: project, region, name. */
  function DeleteRegional(c: Client, resource: Resource, region: string, name: string, api: Api): Outcome {
    Wait(c, Delete(resource, [c.project, region, name]), api)
  }

  function ListAddresses(c: Client, region: string, api: Api): Result<ItemList>
  {
    api.list(List(Addresses, [c.project, region]))
  }

  function DeleteAddress(c: Client, region: string, address: string, api: Api): (r: Outcome)
    ensures AwaitedOutcome(c, Delete(Addresses, [c.project, region, address]), api, r)
  {
    Wait(c, Delete(Addresses, [c.project, region, address]), api)
  }

  function ListBackendServices(c: Client, api: Api): Result<ItemList>
  {
    api.list(List(BackendServices, [c.project]))
  }

  function DeleteBackendService(c: Client, backendService: string, api: Api): (r: Outcome)
    ensures AwaitedOutcome(c, Delete(BackendServices, [c.project, backendService]), api, r)
  {
    Wait(c, Delete(BackendServices, [c.project, backendService]), api)
  }

  function ListDisks(c: Client, zone: string, api: Api): Result<ItemList>
  {
    api.list(List(Disks, [c.project, zone]))
  }

  function DeleteDisk(c: Client, zone: string, disk: string, api: Api): (r: Outcome)
    ensures AwaitedOutcome(c, Delete(Disks, [c.project, zone, disk]), api, r)
  {
    Wait(c, Delete(Disks, [c.project, zone, disk]), api)
  }

  function ListInstances(c: Client, zone: string, api: Api): Result<ItemList>
  {
    api.list(List(Instances, [c.project, zone]))
  }

  function DeleteInstance(c: Client, zone: string, instance: string, api: Api): (r: Outcome)
    ensures AwaitedOutcome(c, Delete(Instances, [c.project, zone, instance]), api, r)
  {
    Wait(c, Delete(Instances, [c.project, zone, instance]), api)
  }

  function ListInstanceGroups(c: Client, zone: string, api: Api): Result<ItemList>
  {
    api.list(List(InstanceGroups, [c.project, zone]))
  }

  function DeleteInstanceGroup(c: Client, zone: string, instanceGroup: string, api: Api): (r: Outcome)
    ensures AwaitedOutcome(c, Delete(InstanceGroups, [c.project, zone, instanceGroup]), api, r)
  {
    Wait(c, Delete(InstanceGroups, [c.project, zone, instanceGroup]), api)
  }

  function ListGlobalHealthChecks(c: Client, api: Api): Result<ItemList>
  {
    api.list(List(GlobalHealthChecks, [c.project]))
  }

  function DeleteGlobalHealthCheck(c: Client, globalHealthCheck: string, api: Api): (r: Outcome)
    ensures AwaitedOutcome(c, Delete(GlobalHealthChecks, [c.project, globalHealthCheck]), api, r)
  {
    Wait(c, Delete(GlobalHealthChecks, [c.project, globalHealthCheck]), api)
  }

  function ListHttpHealthChecks(c: Client, api: Api): Result<ItemList>
  {
    api.list(List(HttpHealthChecks, [c.project]))
  }

  function DeleteHttpHealthCheck(c: Client, httpHealthCheck: string, api: Api): (r: Outcome)
    ensures AwaitedOutcome(c, Delete(HttpHealthChecks, [c.project, httpHealthCheck]), api, r)
  {
    Wait(c, Delete(HttpHealthChecks, [c.project, httpHealthCheck]), api)
  }

  function ListHttpsHealthChecks(c: Client, api: Api): Result<ItemList>
  {
    api.list(List(HttpsHealthChecks, [c.project]))
  }

  function DeleteHttpsHealthCheck(c: Client, httpsHealthCheck: string, api: Api): (r: Outcome)
    ensures AwaitedOutcome(c, Delete(HttpsHealthChecks, [c.project, httpsHealthCheck]), api, r)
  {
    Wait(c, Delete(HttpsHealthChecks, [c.project, httpsHealthCheck]), api)
  }

  function ListFirewalls(c: Client, api: Api): Result<ItemList>
  {
    api.list(List(Firewalls, [c.project]))
  }

  function DeleteFirewall(c: Client, firewall: string, api: Api): (r: Outcome)
    ensures AwaitedOutcome(c, Delete(Firewalls, [c.project, firewall]), api, r)
  {
    Wait(c, Delete(Firewalls, [c.project, firewall]), api)
  }

  function ListGlobalForwardingRules(c: Client, api: Api): Result<ItemList>
  {
    api.list(List(GlobalForwardingRules, [c.project]))
  }

  function DeleteGlobalForwardingRule(c: Client, globalForwardingRule: string, api: Api): (r: Outcome)
    ensures AwaitedOutcome(c, Delete(GlobalForwardingRules, [c.project, globalForwardingRule]), api, r)
  {
    Wait(c, Delete(GlobalForwardingRules, [c.project, globalForwardingRule]), api)
  }

  function ListForwardingRules(c: Client, region: string, api: Api): Result<ItemList>
  {
    api.list(List(ForwardingRules, [c.project, region]))
  }

  function DeleteForwardingRule(c: Client, region: string, forwardingRule: string, api: Api): (r: Outcome)
    ensures AwaitedOutcome(c, Delete(ForwardingRules, [c.project, region, forwardingRule]), api, r)
  {
    Wait(c, Delete(ForwardingRules, [c.project, region, forwardingRule]), api)
  }

  function ListNetworks(c: Client, api: Api): Result<ItemList>
  {
    api.list(List(Networks, [c.project]))
  }

  function DeleteNetwork(c: Client, network: string, api: Api): (r: Outcome)
    ensures AwaitedOutcome(c, Delete(Networks, [c.project, network]), api, r)
  {
    Wait(c, Delete(Networks, [c.project, network]), api)
  }

  function ListSubnetworks(c: Client, region: string, api: Api): Result<ItemList>
  {
    api.list(List(Subnetworks, [c.project, region]))
  }

  function DeleteSubnetwork(c: Client, subnetwork: string, region: string, api: Api): (r: Outcome)
    ensures AwaitedOutcome(c, Delete(Subnetworks, [c.project, region, subnetwork]), api, r)
  {
    Wait(c, Delete(Subnetworks, [c.project, region, subnetwork]), api)
  }

  function ListTargetHttpProxies(c: Client, api: Api): Result<ItemList>
  {
    api.list(List(TargetHttpProxies, [c.project]))
  }

  function DeleteTargetHttpProxy(c: Client, targetHttpProxy: string, api: Api): (r: Outcome)
    ensures AwaitedOutcome(c, Delete(TargetHttpProxies, [c.project, targetHttpProxy]), api, r)
  {
    Wait(c, Delete(TargetHttpProxies, [c.project, targetHttpProxy]), api)
  }

  function ListTargetHttpsProxies(c: Client, api: Api): Result<ItemList>
  {
    api.list(List(TargetHttpsProxies, [c.project]))
  }

  function DeleteTargetHttpsProxy(c: Client, targetHttpsProxy: string, api: Api): (r: Outcome)
    ensures AwaitedOutcome(c, Delete(TargetHttpsProxies, [c.project, targetHttpsProxy]), api, r)
  {
    Wait(c, Delete(TargetHttpsProxies, [c.project, targetHttpsProxy]), api)
  }

  function ListTargetPools(c: Client, region: string, api: Api): Result<ItemList>
  {
    api.list(List(TargetPools, [c.project, region]))
  }

  function DeleteTargetPool(c: Client, region: string, targetPool: string, api: Api): (r: Outcome)
    ensures AwaitedOutcome(c, Delete(TargetPools, [c.project, region, targetPool]), api, r)
  {
    Wait(c, Delete(TargetPools, [c.project, region, targetPool]), api)
  }

  function ListUrlMaps(c: Client, api: Api): Result<ItemList>
  {
    api.list(List(UrlMaps, [c.project]))
  }

  function DeleteUrlMap(c: Client, urlMap: string, api: Api): (r: Outcome)
    ensures AwaitedOutcome(c, Delete(UrlMaps, [c.project, urlMap]), api, r)
  {
    Wait(c, Delete(UrlMaps, [c.project, urlMap]), api)
  }

  // Where the wrappers send their calls. Each wrapper passes one call through, so
  // its routing is stated as confinement: two APIs that answer alike on a part of
  // the compute API give a wrapper the same result when that part holds its call.

  /** `a` and `b` answer alike every call on `resource` whose arguments start with
      `scope`, and every waiter for an operation of `project`. */
  ghost predicate AgreeWithin(a: Api, b: Api, resource: Resource, scope: seq<string>, project: string) {
    && (forall call: Call {:trigger a.list(call)} | call.resource == resource && scope <= call.args :: a.list(call) == b.list(call))
    && (forall call: Call {:trigger a.run(call)} | call.resource == resource && scope <= call.args :: a.run(call) == b.run(call))
    && (forall w: OperationWaiter {:trigger a.wait(w)} | w.project == project :: a.wait(w) == b.wait(w))
  }

  /** Waiting on a delete call where `a` and `b` agree gives the same outcome. */
  lemma DeleteWithin(c: Client, a: Api, b: Api, resource: Resource, args: seq<string>)
    requires AgreeWithin(a, b, resource, args, c.project)
    ensures Wait(c, Delete(resource, args), a) == Wait(c, Delete(resource, args), b)
  {
    var call := Delete(resource, args);
    assert call.resource == resource && args <= call.args;
    assert a.run(call) == b.run(call);
    if a.run(call).Ok? {
      var w := OperationWaiter(a.run(call).value, c.service, c.project, c.logger);
      assert a.wait(w) == b.wait(w);
    }
  }

  /** Every global list reads only its collection in the client's project. */
  lemma GlobalListsStayInProject(c: Client, a: Api, b: Api)
    ensures AgreeWithin(a, b, BackendServices, [c.project], c.project) ==> ListBackendServices(c, a) == ListBackendServices(c, b)
    ensures AgreeWithin(a, b, GlobalHealthChecks, [c.project], c.project) ==> ListGlobalHealthChecks(c, a) == ListGlobalHealthChecks(c, b)
    ensures AgreeWithin(a, b, HttpHealthChecks, [c.project], c.project) ==> ListHttpHealthChecks(c, a) == ListHttpHealthChecks(c, b)
    ensures AgreeWithin(a, b, HttpsHealthChecks, [c.project], c.project) ==> ListHttpsHealthChecks(c, a) == ListHttpsHealthChecks(c, b)
    ensures AgreeWithin(a, b, Firewalls, [c.project], c.project) ==> ListFirewalls(c, a) == ListFirewalls(c, b)
    ensures AgreeWithin(a, b, GlobalForwardingRules, [c.project], c.project) ==> ListGlobalForwardingRules(c, a) == ListGlobalForwardingRules(c, b)
    ensures AgreeWithin(a, b, Networks, [c.project], c.project) ==> ListNetworks(c, a) == ListNetworks(c, b)
    ensures AgreeWithin(a, b, TargetHttpProxies, [c.project], c.project) ==> ListTargetHttpProxies(c, a) == ListTargetHttpProxies(c, b)
    ensures AgreeWithin(a, b, TargetHttpsProxies, [c.project], c.project) ==> ListTargetHttpsProxies(c, a) == ListTargetHttpsProxies(c, b)
    ensures AgreeWithin(a, b, UrlMaps, [c.project], c.project) ==> ListUrlMaps(c, a) == ListUrlMaps(c, b)
  {
  }

  /** Every delete of a global backend service, health check or firewall reads only
      the named item of its collection in the client's project, and the waiters of
      that project. */
  lemma GlobalDeletesStayOnTheItem(c: Client, name: string, a: Api, b: Api)
    ensures AgreeWithin(a, b, BackendServices, [c.project, name], c.project) ==> DeleteBackendService(c, name, a) == DeleteBackendService(c, name, b)
    ensures AgreeWithin(a, b, GlobalHealthChecks, [c.project, name], c.project) ==> DeleteGlobalHealthCheck(c, name, a) == DeleteGlobalHealthCheck(c, name, b)
    ensures AgreeWithin(a, b, HttpHealthChecks, [c.project, name], c.project) ==> DeleteHttpHealthCheck(c, name, a) == DeleteHttpHealthCheck(c, name, b)
    ensures AgreeWithin(a, b, HttpsHealthChecks, [c.project, name], c.project) ==> DeleteHttpsHealthCheck(c, name, a) == DeleteHttpsHealthCheck(c, name, b)
    ensures AgreeWithin(a, b, Firewalls, [c.project, name], c.project) ==> DeleteFirewall(c, name, a) == DeleteFirewall(c, name, b)
  {
    if AgreeWithin(a, b, BackendServices, [c.project, name], c.project) {
      DeleteWithin(c, a, b, BackendServices, [c.project, name]);
    }
    if AgreeWithin(a, b, GlobalHealthChecks, [c.project, name], c.project) {
      DeleteWithin(c, a, b, GlobalHealthChecks, [c.project, name]);
    }
    if AgreeWithin(a, b, HttpHealthChecks, [c.project, name], c.project) {
      DeleteWithin(c, a, b, HttpHealthChecks, [c.project, name]);
    }
    if AgreeWithin(a, b, HttpsHealthChecks, [c.project, name], c.project) {
      DeleteWithin(c, a, b, HttpsHealthChecks, [c.project, name]);
    }
    if AgreeWithin(a, b, Firewalls, [c.project, name], c.project) {
      DeleteWithin(c, a, b, Firewalls, [c.project, name]);
    }
  }
  /** Every delete of a global forwarding rule, network, proxy or URL map reads only
      the named item of its collection in the client's project, and the waiters of
      that project. */
  lemma GlobalNetworkDeletesStayOnTheItem(c: Client, name: string, a: Api, b: Api)
    ensures AgreeWithin(a, b, GlobalForwardingRules, [c.project, name], c.project) ==> DeleteGlobalForwardingRule(c, name, a) == DeleteGlobalForwardingRule(c, name, b)
    ensures AgreeWithin(a, b, Networks, [c.project, name], c.project) ==> DeleteNetwork(c, name, a) == DeleteNetwork(c, name, b)
    ensures AgreeWithin(a, b, TargetHttpProxies, [c.project, name], c.project) ==> DeleteTargetHttpProxy(c, name, a) == DeleteTargetHttpProxy(c, name, b)
    ensures AgreeWithin(a, b, TargetHttpsProxies, [c.project, name], c.project) ==> DeleteTargetHttpsProxy(c, name, a) == DeleteTargetHttpsProxy(c, name, b)
    ensures AgreeWithin(a, b, UrlMaps, [c.project, name], c.project) ==> DeleteUrlMap(c, name, a) == DeleteUrlMap(c, name, b)
  {
    if AgreeWithin(a, b, GlobalForwardingRules, [c.project, name], c.project) {
      DeleteWithin(c, a, b, GlobalForwardingRules, [c.project, name]);
    }
    if AgreeWithin(a, b, Networks, [c.project, name], c.project) {
      DeleteWithin(c, a, b, Networks, [c.project, name]);
    }
    if AgreeWithin(a, b, TargetHttpProxies, [c.project, name], c.project) {
      DeleteWithin(c, a, b, TargetHttpProxies, [c.project, name]);
    }
    if AgreeWithin(a, b, TargetHttpsProxies, [c.project, name], c.project) {
      DeleteWithin(c, a, b, TargetHttpsProxies, [c.project, name]);
    }
    if AgreeWithin(a, b, UrlMaps, [c.project, name], c.project) {
      DeleteWithin(c, a, b, UrlMaps, [c.project, name]);
    }
  }


  /** Every regional list reads only its collection in the given region of the client's project. */
  lemma RegionalListsStayInRegion(c: Client, region: string, a: Api, b: Api)
    ensures AgreeWithin(a, b, Addresses, [c.project, region], c.project) ==> ListAddresses(c, region, a) == ListAddresses(c, region, b)
    ensures AgreeWithin(a, b, ForwardingRules, [c.project, region], c.project) ==> ListForwardingRules(c, region, a) == ListForwardingRules(c, region, b)
    ensures AgreeWithin(a, b, Subnetworks, [c.project, region], c.project) ==> ListSubnetworks(c, region, a) == ListSubnetworks(c, region, b)
    ensures AgreeWithin(a, b, TargetPools, [c.project, region], c.project) ==> ListTargetPools(c, region, a) == ListTargetPools(c, region, b)
  {
  }

  /** Every regional delete reads only the named item in the given region (for
      subnetworks too, whose wrapper takes the name before the region). */
  lemma RegionalDeletesStayOnTheItem(c: Client, region: string, name: string, a: Api, b: Api)
    ensures AgreeWithin(a, b, Addresses, [c.project, region, name], c.project) ==> DeleteAddress(c, region, name, a) == DeleteAddress(c, region, name, b)
    ensures AgreeWithin(a, b, ForwardingRules, [c.project, region, name], c.project) ==> DeleteForwardingRule(c, region, name, a) == DeleteForwardingRule(c, region, name, b)
    ensures AgreeWithin(a, b, Subnetworks, [c.project, region, name], c.project) ==> DeleteSubnetwork(c, name, region, a) == DeleteSubnetwork(c, name, region, b)
    ensures AgreeWithin(a, b, TargetPools, [c.project, region, name], c.project) ==> DeleteTargetPool(c, region, name, a) == DeleteTargetPool(c, region, name, b)
  {
    if AgreeWithin(a, b, Addresses, [c.project, region, name], c.project) {
      DeleteWithin(c, a, b, Addresses, [c.project, region, name]);
    }
    if AgreeWithin(a, b, ForwardingRules, [c.project, region, name], c.project) {
      DeleteWithin(c, a, b, ForwardingRules, [c.project, region, name]);
    }
    if AgreeWithin(a, b, Subnetworks, [c.project, region, name], c.project) {
      DeleteWithin(c, a, b, Subnetworks, [c.project, region, name]);
    }
    if AgreeWithin(a, b, TargetPools, [c.project, region, name], c.project) {
      DeleteWithin(c, a, b, TargetPools, [c.project, region, name]);
    }
  }

  /** Every zonal list reads only its collection in the given zone of the client's project. */
  lemma ZonalListsStayInZone(c: Client, zone: string, a: Api, b: Api)
    ensures AgreeWithin(a, b, Disks, [c.project, zone], c.project) ==> ListDisks(c, zone, a) == ListDisks(c, zone, b)
    ensures AgreeWithin(a, b, Instances, [c.project, zone], c.project) ==> ListInstances(c, zone, a) == ListInstances(c, zone, b)
    ensures AgreeWithin(a, b, InstanceGroups, [c.project, zone], c.project) ==> ListInstanceGroups(c, zone, a) == ListInstanceGroups(c, zone, b)
  {
  }

  /** Every zonal delete reads only the named item in the given zone. */
  lemma ZonalDeletesStayOnTheItem(c: Client, zone: string, name: string, a: Api, b: Api)
    ensures AgreeWithin(a, b, Disks, [c.project, zone, name], c.project) ==> DeleteDisk(c, zone, name, a) == DeleteDisk(c, zone, name, b)
    ensures AgreeWithin(a, b, Instances, [c.project, zone, name], c.project) ==> DeleteInstance(c, zone, name, a) == DeleteInstance(c, zone, name, b)
    ensures AgreeWithin(a, b, InstanceGroups, [c.project, zone, name], c.project) ==> DeleteInstanceGroup(c, zone, name, a) == DeleteInstanceGroup(c, zone, name, b)
  {
    if AgreeWithin(a, b, Disks, [c.project, zone, name], c.project) {
      DeleteWithin(c, a, b, Disks, [c.project, zone, name]);
    }
    if AgreeWithin(a, b, Instances, [c.project, zone, name], c.project) {
      DeleteWithin(c, a, b, Instances, [c.project, zone, name]);
    }
    if AgreeWithin(a, b, InstanceGroups, [c.project, zone, name], c.project) {
      DeleteWithin(c, a, b, InstanceGroups, [c.project, zone, name]);
    }
  }

  /** The map a listing loop builds by writing `m[selfLink] = name` item after item. */
  function BySelfLink(items: seq<Item>): map<string, string> {
    if |items| == 0 then map[]
    else BySelfLink(items[..|items| - 1])[items[|items| - 1].selfLink := items[|items| - 1].name]
  }

  /** The self links of the items. */
  function SelfLinks(items: seq<Item>): set<string> {
    set i | 0 <= i < |items| :: items[i].selfLink
  }

  /** The keys of the map are exactly the items' self links. */
  lemma {:induction false} BySelfLinkKeys(items: seq<Item>)
    ensures BySelfLink(items).Keys == SelfLinks(items)
  {
    if |items| > 0 {
      var init := items[..|items| - 1];
      BySelfLinkKeys(init);
      assert SelfLinks(items) == SelfLinks(init) + {items[|items| - 1].selfLink} by {
        forall l | l in SelfLinks(items) ensures l in SelfLinks(init) + {items[|items| - 1].selfLink} {
          var i :| 0 <= i < |items| && items[i].selfLink == l;
          if i < |items| - 1 {
            assert init[i] == items[i];
          }
        }
        forall l | l in SelfLinks(init) ensures l in SelfLinks(items) {
          var i :| 0 <= i < |init| && init[i].selfLink == l;
          assert items[i] == init[i];
        }
      }
    }
  }

  /** Each self link maps to the name of the last item carrying it. */
  lemma {:induction false} BySelfLinkLastWins(items: seq<Item>, k: nat)
    requires k < |items|
    requires forall j | k < j < |items| :: items[j].selfLink != items[k].selfLink
    ensures items[k].selfLink in BySelfLink(items)
    ensures BySelfLink(items)[items[k].selfLink] == items[k].name
  {
    var init := items[..|items| - 1];
    if k < |items| - 1 {
      assert init[k] == items[k];
      BySelfLinkLastWins(init, k);
    }
  }

  /** `ListRegions`: list the project's regions; on failure return an empty map and
      the error, otherwise map every region's self link to its name. */
  method ListRegions(c: Client, api: Api) returns (regions: map<string, string>, err: Outcome)
    ensures api.list(List(Regions, [c.project])).Failure? ==>
              regions == map[] && err == Fail(api.list(List(Regions, [c.project])).msg)
    ensures api.list(List(Regions, [c.project])).Ok? ==>
              err == Pass && regions == BySelfLink(api.list(List(Regions, [c.project])).value.items)
    ensures api.list(List(Regions, [c.project])).Ok? ==>
              regions.Keys == SelfLinks(api.list(List(Regions, [c.project])).value.items)
  {
    regions := map[];
    var list := api.list(List(Regions, [c.project]));
    if list.Failure? {
      return regions, Fail(list.msg);
    }
    var items := list.value.items;
    var i := 0;
    while i < |items|
      invariant 0 <= i <= |items|
      invariant regions == BySelfLink(items[..i])
    {
      assert items[..i + 1][..i] == items[..i];
      regions := regions[items[i].selfLink := items[i].name];
      i := i + 1;
    }
    assert items[..|items|] == items;
    BySelfLinkKeys(items);
    err := Pass;
  }

  /** `ListZones`: the same as `ListRegions`, over the project's zones. */
  method ListZones(c: Client, api: Api) returns (zones: map<string, string>, err: Outcome)
    ensures api.list(List(Zones, [c.project])).Failure? ==>
              zones == map[] && err == Fail(api.list(List(Zones, [c.project])).msg)
    ensures api.list(List(Zones, [c.project])).Ok? ==>
              err == Pass && zones == BySelfLink(api.list(List(Zones, [c.project])).value.items)
    ensures api.list(List(Zones, [c.project])).Ok? ==>
              zones.Keys == SelfLinks(api.list(List(Zones, [c.project])).value.items)
  {
    zones := map[];
    var list := api.list(List(Zones, [c.project]));
    if list.Failure? {
      return zones, Fail(list.msg);
    }
    var items := list.value.items;
    var i := 0;
    while i < |items|
      invariant 0 <= i <= |items|
      invariant zones == BySelfLink(items[..i])
    {
      assert items[..i + 1][..i] == items[..i];
      zones := zones[items[i].selfLink := items[i].name];
      i := i + 1;
    }
    assert items[..|items|] == items;
    BySelfLinkKeys(items);
    err := Pass;
  }
}
