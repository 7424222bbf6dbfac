/** `fileUpload(fieldName, optional = true, maxSize = 50 MiB)`: the
    single-file multipart middleware.

    The multipart parser is a library; what it reports is an input here: a
    transport failure (a parser error or any other error) or the one file it
    received. Its two checks that this middleware configures are modelled: a
    file under another field name is a parser error "Unexpected field" naming
    that field, and a file over the size limit is a parser error "File too
    large" naming the configured field. */
module UploadMiddleware {
  import opened Values

  newtype byte = x: int | 0 <= x < 256

  datatype UploadedFile = UploadedFile(
    fieldName: string,
    originalName: string,
    mimeType: string,
    size: nat,
    buffer: seq<byte>)

  /** `req.fileInfo`. */
  datatype FileInfo = FileInfo(originalName: string, size: nat, mimeType: string, buffer: seq<byte>)

  datatype Failure = ParserError(message: string, field: Option<string>) | OtherError(detail: string)

  /** What the parser met while reading the request. */
  datatype Incoming = Incoming(failure: Option<Failure>, file: Option<UploadedFile>)

  const DefaultMaxSize: nat := 50 * 1024 * 1024

  datatype Config = Config(fieldName: string, optional: bool, maxSize: nat)

  /** `fileUpload(...)` with JavaScript's default arguments. */
  function FileUpload(fieldName: string, optional: Option<bool>, maxSize: Option<nat>): (c: Config)
    ensures c.fieldName == fieldName
    ensures optional.None? ==> c.optional
    ensures maxSize.None? ==> c.maxSize == 52428800
    ensures optional.Some? ==> c.optional == optional.value
    ensures maxSize.Some? ==> c.maxSize == maxSize.value
  {
    Config(fieldName, optional.GetOr(true), maxSize.GetOr(DefaultMaxSize))
  }

  /** The parser's verdict under the configuration: its own failure, or the
      two limit checks, or the file it accepted (if any). */
  function ParserVerdict(config: Config, incoming: Incoming): Option<Failure>
  {
    if incoming.failure.Some? then incoming.failure
    else if incoming.file.Some? && incoming.file.value.fieldName != config.fieldName then
      Some(ParserError("Unexpected field", Some(incoming.file.value.fieldName)))
    else if incoming.file.Some? && incoming.file.value.size > config.maxSize then
      Some(ParserError("File too large", Some(config.fieldName)))
    else None
  }

  datatype UploadOutcome =
    | Reject(status: int, error: string, message: string, field: Option<string>)
    | Next(file: Option<UploadedFile>, info: Option<FileInfo>)

  /** `req.fileInfo` for a received file: its fields copied unchanged. */
  function InfoOf(file: UploadedFile): (info: FileInfo)
    ensures info.originalName == file.originalName && info.size == file.size
    ensures info.mimeType == file.mimeType && info.buffer == file.buffer
  {
    FileInfo(file.originalName, file.size, file.mimeType, file.buffer)
  }

  /** The middleware's decision: 400 with the parser's message and field for
      a parser error, 500 for any other error, 400 "Missing File" when a
      required file is missing, and otherwise `next` with the file and its
      `fileInfo`. */
  function HandleUpload(config: Config, incoming: Incoming): (r: UploadOutcome)
    ensures r.Next? <==> ParserVerdict(config, incoming).None? && (incoming.file.Some? || config.optional)
    ensures ParserVerdict(config, incoming).Some? && ParserVerdict(config, incoming).value.ParserError? ==>
      r == Reject(400, "File Upload Error", ParserVerdict(config, incoming).value.message, ParserVerdict(config, incoming).value.field)
    ensures ParserVerdict(config, incoming).Some? && ParserVerdict(config, incoming).value.OtherError? ==>
      r == Reject(500, "Server Error", "An error occurred during file upload", None)
    ensures ParserVerdict(config, incoming).None? && incoming.file.None? && !config.optional ==>
      r == Reject(400, "Missing File", "The file field '" + config.fieldName + "' is required", None)
    ensures r.Next? ==> r.file == incoming.file
    ensures r.Next? && r.file.Some? ==> r.info == Some(InfoOf(r.file.value)) && r.file.value.size <= config.maxSize
    ensures r.Next? && r.file.None? ==> r.info.None?
  {
    match ParserVerdict(config, incoming)
    case Some(ParserError(message, field)) => Reject(400, "File Upload Error", message, field)
    case Some(OtherError(_)) => Reject(500, "Server Error", "An error occurred during file upload", None)
    case None =>
      if incoming.file.None? && !config.optional then
        Reject(400, "Missing File", "The file field '" + config.fieldName + "' is required", None)
      else
        Next(incoming.file, if incoming.file.Some? then Some(InfoOf(incoming.file.value)) else None)
  }

  /** With the default arguments, a request without a file goes through. */
  lemma DefaultsLetMissingFileThrough(fieldName: string)
    ensures HandleUpload(FileUpload(fieldName, None, None), Incoming(None, None)) == Next(None, None)
  {
  }

  /** A file sent under any other field name is refused. */
  lemma OtherFieldNameRefused(config: Config, file: UploadedFile)
    requires file.fieldName != config.fieldName
    ensures HandleUpload(config, Incoming(None, Some(file))) ==
      Reject(400, "File Upload Error", "Unexpected field", Some(file.fieldName))
  {
  }
}
