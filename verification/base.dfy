/**
 * Values shared by the two controllers and the container service:
 * optional values, results, and the shapes of the request bodies and of
 * the parsed completion replies.
 */
module Base {

  datatype Option<+T> = None | Some(value: T)

  /** The outcome of a step that may throw: the thrown error's message on failure. */
  datatype Result<+T> = Ok(value: T) | Err(message: string)

  /** One `{path, content}` element of a `files` array. */
  datatype FileInput = FileInput(path: string, content: string)

  /**
   * One `{action, path, content}` element of an update batch. The action is
   * kept as the string the completion produced: only "add", "update" and
   * "delete" are acted on, anything else is skipped.
   */
  datatype FileOp = FileOp(action: string, path: string, content: string)

  /** A parsed update reply: `{files: [{action, path, content}], description}`; `files` may be absent. */
  datatype UpdateReply = UpdateReply(files: Option<seq<FileOp>>, description: string)

  /** The message V8 gives when `for (const file of response.files)` meets a missing array. */
  const NotIterable := "response.files is not iterable"

  /** The `files` field of a request body, as JavaScript sees it. */
  datatype Payload = Missing | NotAnArray | Items(files: seq<FileInput>)

  predicate IsDelete(op: FileOp) { op.action == "delete" }

  predicate IsWrite(op: FileOp) { op.action == "add" || op.action == "update" }

  /** True when the operation reaches the store at all. */
  predicate Touches(op: FileOp) { IsDelete(op) || IsWrite(op) }
}
