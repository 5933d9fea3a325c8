/** The reasons client.go gives when a call fails. client.go builds these with
    `errors.New` and `fmt.Errorf`, never with the typed errors of errors.go, so
    each reason stands for one message template; the template is noted beside
    it, with `%w` the wrapped cause and `%d`/`%v` the recorded numbers. */
module Failures {
  import Errors
  import Decimal

  datatype Failure =
    | ApiKeyRequired                                // "API key is required"
    | FileNameRequired                              // "file_name is required"
    | FileNotFound(cause: string)                   // "file not found: %w"
    | InitiateFailed(cause: string)                 // "failed to request presigned URLs: %w"
    | PartCountMismatch(requested: int, received: int)
                                                    // "mismatch: requested %d parts but received %d presigned URLs"
    | UploadIdMissing                               // "upload ID not received from server"
    | OpenFailed(cause: string)                     // "failed to open file: %w"
    | ReadFailed(cause: string)                     // "failed to read chunk: %w"
    | RequestBuildFailed(cause: string)             // "failed to create request: %w"
    | PartSendFailed(cause: string)                 // "failed to upload chunk: %w"
    | PartRejected(part: int, status: int)          // "failed to upload part %d: status %d"
    | EtagMissing(part: int)                        // "failed to get ETag for part %d"
    | CompleteFailed(cause: string)                 // "failed to complete upload: %w"
    | ExtRequired                                   // "extension (ext) is required"
    | SupportCheckFailed(cause: string)             // "failed to check supported operation: %w"
    | ActionRequired                                // "action is required"
    | FileKeysRequired                              // "at least one file key is required"
    | CreateFailed(cause: string)                   // "failed to create operation: %w"
    | MainTaskIdRequired                            // "main_task_id is required"
    | StatusFailed(cause: string)                   // "failed to get status: %w"
    | PollTimedOut(timeout: int)                    // "polling timed out after %v"

  /** The reasons that wrap an underlying error with `%w`. */
  predicate Wraps(f: Failure) {
    f.FileNotFound? || f.InitiateFailed? || f.OpenFailed? || f.ReadFailed? || f.RequestBuildFailed?
    || f.PartSendFailed? || f.CompleteFailed? || f.SupportCheckFailed? || f.CreateFailed? || f.StatusFailed?
  }

  /** The text a wrapping reason puts before ": " and the wrapped error. */
  function Context(f: Failure): string
    requires Wraps(f)
  {
    match f
    case FileNotFound(_) => "file not found"
    case InitiateFailed(_) => "failed to request presigned URLs"
    case OpenFailed(_) => "failed to open file"
    case ReadFailed(_) => "failed to read chunk"
    case RequestBuildFailed(_) => "failed to create request"
    case PartSendFailed(_) => "failed to upload chunk"
    case CompleteFailed(_) => "failed to complete upload"
    case SupportCheckFailed(_) => "failed to check supported operation"
    case CreateFailed(_) => "failed to create operation"
    case StatusFailed(_) => "failed to get status"
  }

  /** The text the reason's template renders to. `%d` is `Decimal.FormatInt`;
      `%v` of a `time.Duration` is `formatDuration`, which stays a parameter. */
  function Message(f: Failure, formatDuration: int -> string): (m: string)
    ensures |m| > 0
  {
    if Wraps(f) then Context(f) + ": " + f.cause
    else
      match f
      case ApiKeyRequired => "API key is required"
      case FileNameRequired => "file_name is required"
      case PartCountMismatch(r, n) =>
        "mismatch: requested " + Decimal.FormatInt(r) + " parts but received " + Decimal.FormatInt(n) + " presigned URLs"
      case UploadIdMissing => "upload ID not received from server"
      case PartRejected(part, status) =>
        "failed to upload part " + Decimal.FormatInt(part) + ": status " + Decimal.FormatInt(status)
      case EtagMissing(part) => "failed to get ETag for part " + Decimal.FormatInt(part)
      case ExtRequired => "extension (ext) is required"
      case ActionRequired => "action is required"
      case FileKeysRequired => "at least one file key is required"
      case MainTaskIdRequired => "main_task_id is required"
      case PollTimedOut(t) => "polling timed out after " + formatDuration(t)
      case _ => assert false; ""
  }

  /** `%w` keeps the wrapped error's text: it ends the message, after ": ". */
  lemma MessageEndsWithCause(f: Failure, formatDuration: int -> string)
    requires Wraps(f)
    ensures var m := Message(f, formatDuration);
            |m| >= |f.cause| + 2 && m[|m| - |f.cause| - 2..] == ": " + f.cause
  {
    var m := Message(f, formatDuration);
    var tail := ": " + f.cause;
    assert m == Context(f) + tail;
    assert m[|Context(f)|..] == tail;
  }

  /** Part numbers and statuses are printed in decimal: part 2 refused with
      403 reads "failed to upload part 2: status 403". */
  lemma PartRejectedMessage(formatDuration: int -> string)
    ensures Message(PartRejected(2, 403), formatDuration) == "failed to upload part 2: status 403"
  {
    Decimal.FormatExamples();
  }

  /** The error value a failure surfaces as: an untyped Go error, so none of
      the `IsD3*` tests recognise it and `FormatError` prints its message. */
  function AsError(f: Failure, formatDuration: int -> string): (e: Errors.Error)
    ensures !Errors.IsApiError(e) && !Errors.IsValidationError(e)
    ensures !Errors.IsUploadError(e) && !Errors.IsTimeoutError(e)
    ensures Errors.FormatError(e) == Message(f, formatDuration)
  {
    Errors.Other(Message(f, formatDuration))
  }
}
