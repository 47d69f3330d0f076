/**
 * Status updates: the request bodies built from an execution record and
 * the status table, and the PUT (one execution) or POST (several) that
 * sends them through the gateway.
 */
module Updates {

  import opened Wrappers
  import opened Errors
  import opened Signing
  import opened Payloads
  import opened Http
  import opened Executions
  import Statuses

  /** `ZapiCalls.PUT_EXECUTION` */
  function PutExecution(version: string): string
  {
    version + "/execution"
  }

  /** `ZapiCalls.POST_EXECUTIONS` */
  function PostExecutions(version: string): string
  {
    version + "/executions"
  }

  /** `PUT_EXECUTION + "/" + execution["execution"]["id"]`: the id can be read back off the path. */
  function ExecutionPath(version: string, e: Execution): (path: string)
    ensures |path| > |PutExecution(version)|
    ensures path[..|PutExecution(version)| + 1] == PutExecution(version) + "/"
    ensures path[|PutExecution(version)| + 1..] == e.execution.id
  {
    PutExecution(version) + "/" + e.execution.id
  }

  /**
   * The body of `update_execution_status`: the status code of `status` and
   * the four ids copied from the nested execution object. An unknown status
   * name fails before anything is sent.
   */
  function ExecutionStatusBody(e: Execution, status: string): (r: Result<Payload, Failure>)
    ensures r.Err? <==> Statuses.Code(status).None?
    ensures r.Err? ==> r.error == UnknownStatus(status)
    ensures r.Ok? ==> r.value.StatusUpdate? && Statuses.NameOf(r.value.statusId) == Some(status)
    ensures r.Ok? ==> && r.value.issueId == e.execution.issueId
                      && r.value.projectId == e.execution.projectId
                      && r.value.cycleId == e.execution.cycleId
                      && r.value.versionId == e.execution.versionId
  {
    match Statuses.Code(status)
    case None => Err(UnknownStatus(status))
    case Some(code) =>
      Statuses.CodeNameOf(status, code);
      Ok(StatusUpdate(code, e.execution.issueId, e.execution.projectId, e.execution.cycleId, e.execution.versionId))
  }

  /** `[eid["execution"]["id"] for eid in executions]` */
  function ExecutionIds(executions: seq<Execution>): (ids: seq<string>)
    ensures |ids| == |executions|
    ensures forall i :: 0 <= i < |executions| ==> ids[i] == executions[i].execution.id
    decreases |executions|
  {
    if |executions| == 0 then [] else [executions[0].execution.id] + ExecutionIds(executions[1..])
  }

  /**
   * The body of `update_bulk_executions_status`: the status code and the
   * execution ids in input order.
   */
  function BulkStatusBody(executions: seq<Execution>, status: string): (r: Result<Payload, Failure>)
    ensures r.Err? <==> Statuses.Code(status).None?
    ensures r.Err? ==> r.error == UnknownStatus(status)
    ensures r.Ok? ==> r.value.BulkStatusUpdate? && Statuses.NameOf(r.value.status) == Some(status)
    ensures r.Ok? ==> r.value.executions == ExecutionIds(executions)
  {
    match Statuses.Code(status)
    case None => Err(UnknownStatus(status))
    case Some(code) =>
      Statuses.CodeNameOf(status, code);
      Ok(BulkStatusUpdate(code, ExecutionIds(executions)))
  }

  /**
   * `Cycle.update_execution_status(execution, status)`: nothing is sent for
   * a missing execution; otherwise the body goes by PUT to the execution's
   * path. The earlier draft's version is the branch with an execution.
   */
  method UpdateExecutionStatus(gw: Gateway, version: string, execution: Option<Execution>, status: string,
                               now: int, server: Request -> Response)
    returns (r: Option<Result<Response, Failure>>)
    requires gw.Valid()
    modifies gw
    ensures execution.None? ==> r.None? && gw.headers == old(gw.headers)
    ensures execution.Some? && Statuses.Code(status).None? ==>
      r == Some(Err(UnknownStatus(status))) && gw.headers == old(gw.headers)
    ensures execution.Some? && Statuses.Code(status).Some? ==>
      var path := ExecutionPath(version, execution.value);
      && gw.headers == old(gw.headers)[AuthorizationHeader := AuthorizationValue(gw.signer, Call.Put(path), now)]
                                      [ContentTypeHeader := JsonMediaType]
      && r == Some(HandleResponseStatus(server(Request(PUT, gw.zapiUrl + path, gw.headers,
                                                       Some(ExecutionStatusBody(execution.value, status).value)))))
    ensures gw.Valid()
  {
    if execution.None? {
      return None;
    }
    var body := ExecutionStatusBody(execution.value, status);
    if body.Err? {
      return Some(Err(body.error));
    }
    var resp := gw.PutRequest(ExecutionPath(version, execution.value), Some(body.value), now, server);
    r := Some(resp);
  }

  /** `update_bulk_executions_status(executions, status)`: one POST with every id. */
  method UpdateBulkExecutionsStatus(gw: Gateway, version: string, executions: seq<Execution>, status: string,
                                    now: int, server: Request -> Response)
    returns (r: Result<Response, Failure>)
    requires gw.Valid()
    modifies gw
    ensures Statuses.Code(status).None? ==> r == Err(UnknownStatus(status)) && gw.headers == old(gw.headers)
    ensures Statuses.Code(status).Some? ==>
      && gw.headers == old(gw.headers)[AuthorizationHeader := AuthorizationValue(gw.signer, Call.Post(PostExecutions(version)), now)]
                                      [ContentTypeHeader := JsonMediaType]
      && r == HandleResponseStatus(server(Request(POST, gw.zapiUrl + PostExecutions(version), gw.headers,
                                                  Some(BulkStatusBody(executions, status).value))))
    ensures gw.Valid()
  {
    var body := BulkStatusBody(executions, status);
    if body.Err? {
      return Err(body.error);
    }
    r := gw.PostRequest(PostExecutions(version), Some(body.value), now, server);
  }
}
