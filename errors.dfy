/** The errors a gameplan run can end with, as thrown by src/index.js and the helpers it calls. */
module Errors {
  import opened JsObject

  datatype Failure =
    /** `OutOfBoundsFile`: `filepath` does not reside within `directory`. */
    | OutOfBoundsFile(directory: string, filepath: string)
    /** The `TypeError` `path.join` throws for a path segment that is not a string. */
    | PathSegmentNotString(segment: JsValue)
    /** The `TypeError` thrown by `template` when its variables are not an object. */
    | TemplateVariablesNotObject
    /** `UndefinedTemplateVariable`, thrown while a queued template is rendered. */
    | UndefinedTemplateVariable(variableName: string)
    /** What `gameplan.run` itself throws, or the reason its promise rejects with. */
    | RunRejected(reason: JsValue)
    /** `SpawnError`: a spawned command exited with a non-zero code. */
    | SpawnError(command: string, args: seq<JsValue>, code: int)
    /** Any other failure of a filesystem effect. */
    | FileSystemError(path: string)
}
