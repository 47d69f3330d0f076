/**
 * Resolving human-readable names to Zapi ids: a project and a cycle from
 * the ZQL field metadata (`get_project_and_cycle`), or a cycle record
 * from the cycle listing of an earlier draft (`get_cycle`). Both take the
 * first exact-name match and fail when there is none.
 */
module Resolver {

  import opened Wrappers
  import opened Errors
  import opened Search

  /** An entry of `fields.project`. */
  datatype ProjectField = ProjectField(name: string, id: string)

  /** An entry of `fields.cycleName`. */
  datatype CycleField = CycleField(name: string, id: string, versionId: string)

  /** The part of the ZQL field metadata the resolver reads. */
  datatype ZqlFields = ZqlFields(project: seq<ProjectField>, cycleName: seq<CycleField>)

  /** The ids dictionary `{project_id, version_id, cycle_id, cycle_name}`. */
  datatype CycleIds = CycleIds(projectId: string, versionId: string, cycleId: string, cycleName: string)

  function ProjectNamed(name: string): ProjectField -> bool
  {
    (p: ProjectField) => p.name == name
  }

  function CycleFieldNamed(name: string): CycleField -> bool
  {
    (c: CycleField) => c.name == name
  }

  /**
   * `get_project_and_cycle(cycle_name, project_name)`. The project is
   * checked first, so a missing project is reported even when the cycle is
   * missing too.
   */
  function GetProjectAndCycle(cycleName: string, projectName: string, fields: ZqlFields): (r: Result<CycleIds, Failure>)
    ensures r == Err(ProjectNotFound(projectName))
        <==> forall i :: 0 <= i < |fields.project| ==> fields.project[i].name != projectName
    ensures r == Err(CycleNotFound(cycleName))
        <==> (exists i :: 0 <= i < |fields.project| && fields.project[i].name == projectName)
             && forall j :: 0 <= j < |fields.cycleName| ==> fields.cycleName[j].name != cycleName
    ensures r.Ok? <==> ((exists i :: 0 <= i < |fields.project| && fields.project[i].name == projectName)
                     && (exists j :: 0 <= j < |fields.cycleName| && fields.cycleName[j].name == cycleName))
    ensures r.Ok? ==>
      exists i, j :: IsFirst(fields.project, ProjectNamed(projectName), i)
                  && IsFirst(fields.cycleName, CycleFieldNamed(cycleName), j)
                  && r.value == CycleIds(fields.project[i].id, fields.cycleName[j].versionId,
                                         fields.cycleName[j].id, cycleName)
  {
    match FirstIndex(fields.project, ProjectNamed(projectName))
    case None => Err(ProjectNotFound(projectName))
    case Some(i) =>
      match FirstIndex(fields.cycleName, CycleFieldNamed(cycleName))
      case None => Err(CycleNotFound(cycleName))
      case Some(j) =>
        Ok(CycleIds(fields.project[i].id, fields.cycleName[j].versionId, fields.cycleName[j].id, cycleName))
  }

  /** An entry of the cycle listing. */
  datatype CycleInfo = CycleInfo(id: string, name: string)

  function CycleNamed(name: string): CycleInfo -> bool
  {
    (c: CycleInfo) => c.name == name
  }

  /**
   * `get_cycle(cycle_name)` over the outcome of the `get_cycles()` request:
   * a failed listing request is the outcome; otherwise the first cycle with
   * the name, or a failure naming the cycle when none has it.
   */
  function GetCycle(listing: Result<seq<CycleInfo>, Failure>, cycleName: string): (r: Result<CycleInfo, Failure>)
    ensures listing.Err? ==> r == Err(listing.error)
    ensures listing.Ok? ==> (r.Err? <==> forall i :: 0 <= i < |listing.value| ==> listing.value[i].name != cycleName)
    ensures listing.Ok? && r.Err? ==> r.error == CycleNotFound(cycleName)
    ensures r.Ok? ==> listing.Ok? && exists i :: IsFirst(listing.value, CycleNamed(cycleName), i) && r.value == listing.value[i]
  {
    match listing
    case Err(e) => Err(e)
    case Ok(cycles) =>
      match FirstWhere(cycles, CycleNamed(cycleName))
      case None => Err(CycleNotFound(cycleName))
      case Some(c) => Ok(c)
  }
}
