/**
 * The two JSON bodies the core sends, as records. Their serialisation
 * (`json.dumps`) is not part of this model.
 */
module Payloads {

  datatype Payload =
    /** `{"status": {"id": code}, "issueId": .., "projectId": .., "cycleId": .., "versionId": ..}` */
    | StatusUpdate(statusId: int, issueId: string, projectId: string, cycleId: string, versionId: string)
    /** `{"status": code, "executions": [id, ...]}` */
    | BulkStatusUpdate(status: int, executions: seq<string>)
}
