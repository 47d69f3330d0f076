/** The exceptions the core raises, as values. */
module Errors {

  datatype Failure =
    /** A response outside {200, 201, 204}: the request URL, the body and the status code. */
    | RequestFailed(url: string, content: string, statusCode: int)
    /** "Project %s is not found!" */
    | ProjectNotFound(projectName: string)
    /** "Cycle %s is not found!" */
    | CycleNotFound(cycleName: string)
    /** The KeyError of looking up a name that is not in the status table. */
    | UnknownStatus(statusName: string)
}
