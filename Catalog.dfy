/**
 * The execution catalog of one test cycle: resolving the configured
 * project and cycle names to ids, caching every execution of the cycle,
 * and the two queries over that cache.
 */
module Catalog {

  import opened Wrappers
  import opened Errors
  import opened Search
  import opened Executions
  import opened Resolver
  import opened Pagination

  /** `labels=None` becomes the empty list. */
  function LabelsOrNone(labels: Option<seq<string>>): seq<string>
  {
    match labels
    case None => []
    case Some(l) => l
  }

  /** A resolved cycle and its cached executions. */
  class Cycle {
    const projectName: string
    const cycleName: string
    const ids: CycleIds
    const executions: seq<Execution>

    /** The fields `__init__` sets once the ids are resolved and the cache is filled. */
    constructor (projectName: string, cycleName: string, ids: CycleIds, executions: seq<Execution>)
      ensures this.projectName == projectName && this.cycleName == cycleName
      ensures this.ids == ids && this.executions == executions
    {
      this.projectName := projectName;
      this.cycleName := cycleName;
      this.ids := ids;
      this.executions := executions;
    }

    /**
     * `get_executions_by_status_and_labels(status, labels)`: the cached
     * executions that match, in cache order; no labels means only the
     * status is compared.
     */
    method GetExecutionsByStatusAndLabels(status: string, labels: Option<seq<string>>)
      returns (byStatus: seq<Execution>)
      ensures byStatus == Select(executions, status, LabelsOrNone(labels))
      ensures labels.None? ==> byStatus == Where(executions, HasStatus(status))
    {
      var required := LabelsOrNone(labels);
      byStatus := AppendMatches([], executions, status, required);
      assert byStatus == Select(executions, status, required);
      if labels.None? {
        NoLabelsSelectsByStatus(executions, status);
      }
    }

    /**
     * `get_execution_by_issue_key(issue_key)`: the first cached execution
     * with that key, or nothing when no cached execution has it.
     */
    function GetExecutionByIssueKey(issueKey: string): (r: Option<Execution>)
      ensures r.None? <==> forall i :: 0 <= i < |executions| ==> executions[i].issueKey != issueKey
      ensures r.Some? ==> exists i :: IsFirst(executions, HasIssueKey(issueKey), i) && executions[i] == r.value
    {
      FirstWhere(executions, HasIssueKey(issueKey))
    }
  }

  /**
   * `Cycle.__init__`: resolve the names through the ZQL field metadata,
   * then sweep the cycle's executions through `pages(ids)`. The first
   * failure, of the metadata request, of the resolution or of a page
   * request, is the outcome.
   */
  method Open(projectName: string, cycleName: string, fields: Result<ZqlFields, Failure>, pages: CycleIds -> Fetch)
    returns (r: Result<Cycle, Failure>)
    ensures fields.Err? ==> r == Err(fields.error)
    ensures fields.Ok? && GetProjectAndCycle(cycleName, projectName, fields.value).Err? ==>
      r == Err(GetProjectAndCycle(cycleName, projectName, fields.value).error)
    ensures fields.Ok? && GetProjectAndCycle(cycleName, projectName, fields.value).Ok? ==>
      var ids := GetProjectAndCycle(cycleName, projectName, fields.value).value;
      && (Sweep(pages(ids)).Err? ==> r == Err(Sweep(pages(ids)).error))
      && (Sweep(pages(ids)).Ok? ==>
            && r.Ok? && fresh(r.value)
            && r.value.projectName == projectName && r.value.cycleName == cycleName
            && r.value.ids == ids && r.value.executions == Sweep(pages(ids)).value)
  {
    if fields.Err? {
      return Err(fields.error);
    }
    var resolved := GetProjectAndCycle(cycleName, projectName, fields.value);
    if resolved.Err? {
      return Err(resolved.error);
    }
    var cache, _ := GetAllExecutionsInCycle(pages(resolved.value));
    if cache.Err? {
      return Err(cache.error);
    }
    var cycle := new Cycle(projectName, cycleName, resolved.value, cache.value);
    r := Ok(cycle);
  }
}
