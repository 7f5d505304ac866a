/** The GCP Cloud SQL client (gcp/sql/client.go): listing and deleting instances,
    and `wait`, which wraps a request failure and otherwise waits on the operation. */
module SqlClient {
  import opened Errors

  /** Opaque handles: the SQL admin service, its instances sub-service, the logger. */
  datatype InstancesService = InstancesService(id: nat)
  datatype Service = Service(id: nat, instances: InstancesService)
  datatype Logger = Logger(id: nat)

  datatype Client = Client(project: string, logger: Logger, service: Service, instances: InstancesService)

  /** A built API call on an instances service, before its `Do()`. */
  datatype Call =
    | ListInstancesCall(via: InstancesService, project: string)
    | DeleteInstanceCall(via: InstancesService, project: string, instance: string)

  datatype Instance = Instance(name: string)
  datatype InstancesListResponse = InstancesListResponse(items: seq<Instance>)
  datatype Operation = Operation(name: string)

  /** What `NewOperationWaiter(op, service, project, logger)` builds. */
  datatype OperationWaiter = OperationWaiter(op: Operation, service: Service, project: string, logger: Logger)

  /** The collaborators, as oracles: `Do()` of a list call, `Do()` of an
      operation-returning call, and `Wait()` of a waiter. */
  datatype Api = Api(
    list: Call -> Result<InstancesListResponse>,
    run: Call -> Result<Operation>,
    wait: OperationWaiter -> Outcome)

  /** The prefix `wait` puts before a request's error. */
  const DoRequestPrefix: string := "Do request: "

  /** `NewClient`: keeps project, logger and service, and reaches instances through the service. */
  function NewClient(project: string, service: Service, logger: Logger): (c: Client)
    ensures c.project == project && c.logger == logger && c.service == service
    ensures c.instances == service.instances
  {
    Client(project, logger, service, service.instances)
  }

  /** `ListInstances`: the response of listing the project's instances. */
  function ListInstances(c: Client, api: Api): Result<InstancesListResponse>
  {
    api.list(ListInstancesCall(c.instances, c.project))
  }

  /** `DeleteInstance`: issues the delete and returns only its error; the returned
      operation is dropped and never waited on. */
  function DeleteInstance(c: Client, instance: string, api: Api): (r: Outcome)
    ensures api.run(DeleteInstanceCall(c.instances, c.project, instance)).Failure? ==>
              r == Fail(api.run(DeleteInstanceCall(c.instances, c.project, instance)).msg)
    ensures api.run(DeleteInstanceCall(c.instances, c.project, instance)).Ok? ==> r == Pass
  {
    match api.run(DeleteInstanceCall(c.instances, c.project, instance))
    case Failure(e) => Fail(e)
    case Ok(_) => Pass
  }

  /** `wait`: a failed request becomes "Do request: " and its message; otherwise the
      result is the verdict of a waiter for the operation, the service, the project
      and the logger. */
  function Wait(c: Client, request: Call, api: Api): (r: Outcome)
    ensures api.run(request).Failure? ==> r == Fail(DoRequestPrefix + api.run(request).msg)
    ensures api.run(request).Ok? ==>
              r == api.wait(OperationWaiter(api.run(request).value, c.service, c.project, c.logger))
  {
    match api.run(request)
    case Failure(e) => Fail(DoRequestPrefix + e)
    case Ok(op) =>
      var waiter := OperationWaiter(op, c.service, c.project, c.logger);
      api.wait(waiter)
  }

  /** On a request failure no waiter is consulted: any other waiter gives the same result. */
  lemma WaitSkipsWaiterOnRequestError(c: Client, request: Call, api: Api, other: OperationWaiter -> Outcome)
    requires api.run(request).Failure?
    ensures Wait(c, request, api) == Wait(c, request, api.(wait := other))
  {
  }

  /** The wrapped message keeps the original after the prefix, so distinct request
      errors stay distinct. */
  lemma WaitErrorKeepsMessage(c: Client, request: Call, api: Api)
    requires api.run(request).Failure?
    ensures Wait(c, request, api).Fail?
    ensures DoRequestPrefix <= Wait(c, request, api).msg
    ensures Wait(c, request, api).msg[|DoRequestPrefix|..] == api.run(request).msg
  {
  }

  /** `DeleteInstance` never consults a waiter, so an operation that would fail still
      reports success, where `wait` on the same call would report the failure. */
  lemma DeleteInstanceDoesNotWait(c: Client, instance: string, api: Api, other: OperationWaiter -> Outcome)
    ensures DeleteInstance(c, instance, api) == DeleteInstance(c, instance, api.(wait := other))
    ensures var call := DeleteInstanceCall(c.instances, c.project, instance);
            api.run(call).Ok? && api.wait(OperationWaiter(api.run(call).value, c.service, c.project, c.logger)).Fail? ==>
              DeleteInstance(c, instance, api) == Pass && Wait(c, call, api).Fail?
  {
  }

  /** The client's calls stay within its instances sub-service and its project: two
      APIs that answer alike there give the same listing, and two that answer alike on
      the deletion of one instance give the same result for deleting it. */
  lemma CallsStayWithinClient(c: Client, instance: string, a: Api, b: Api)
    ensures (forall call: Call | call.via == c.instances && call.project == c.project :: a.list(call) == b.list(call))
            ==> ListInstances(c, a) == ListInstances(c, b)
    ensures (forall call: Call | call.DeleteInstanceCall? && call.via == c.instances && call.project == c.project && call.instance == instance ::
               a.run(call) == b.run(call))
            ==> DeleteInstance(c, instance, a) == DeleteInstance(c, instance, b)
  {
  }

  /** A client made by `NewClient` sends its calls to the service's instances sub-service. */
  lemma NewClientRoutesToServiceInstances(project: string, service: Service, logger: Logger, instance: string, api: Api)
    ensures var c := NewClient(project, service, logger);
            && ListInstances(c, api) == api.list(ListInstancesCall(service.instances, project))
            && (api.run(DeleteInstanceCall(service.instances, project, instance)).Ok? ==>
                  DeleteInstance(c, instance, api) == Pass)
            && (api.run(DeleteInstanceCall(service.instances, project, instance)).Failure? ==>
                  DeleteInstance(c, instance, api) == Fail(api.run(DeleteInstanceCall(service.instances, project, instance)).msg))
  {
  }
}
