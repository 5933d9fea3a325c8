/** The operation endpoints of the client: asking whether an action is
    supported for an extension, creating an operation over uploaded files,
    and the shortcuts that fill in the action and its parameters. The
    transport is a parameter: a call either fails before an answer arrives
    or yields the decoded `data` object of the answer. */
module Operations {
  import opened Wrappers
  import opened Failures

  const SupportedOperationPath: string := "/v1/biz/supported-operation"
  const DoPath: string := "/v1/biz/do"

  /** A JSON value the client places in a request body. Parameter values are
      strings in this model. */
  datatype Value = Text(text: string) | List(items: seq<string>) | Table(entries: map<string, string>)

  /** A POST of a JSON object to a path relative to the base URL. */
  datatype Post = Post(path: string, body: map<string, Value>)

  /** What a call did: the request it sent, if any, and what it returned. */
  datatype Call<T> = Call(request: Option<Post>, result: Result<T, Failure>)

  /** `parameters: None` is Go's nil map, which is left out of the body;
      `Some(map[])` is an empty but present map. */
  datatype SupportedOperationOptions = SupportedOperationOptions(
    ext: string,
    action: string,
    parameters: Option<map<string, string>>)

  datatype SupportedOperationResponse = SupportedOperationResponse(
    supported: bool,
    ext: string,
    action: string,
    availableActions: seq<string>,
    parameters: map<string, string>)

  datatype OperationOptions = OperationOptions(
    action: string,
    fileKeys: seq<string>,
    parameters: Option<map<string, string>>,
    notes: Option<map<string, string>>)

  datatype OperationResponse = OperationResponse(mainTaskId: string, mainTaskIdAlias: string)

  /** A body entry that is present exactly when `value` is. */
  function Optional(key: string, value: Option<Value>): map<string, Value> {
    if value.Some? then map[key := value.value] else map[]
  }

  function AsTable(m: Option<map<string, string>>): Option<Value> {
    if m.Some? then Some(Table(m.value)) else None
  }

  /** The body of a supported-operation query: the extension always, the
      action only when non-empty, the parameters only when non-nil. */
  function SupportBody(options: SupportedOperationOptions): (body: map<string, Value>)
    ensures "ext" in body && body["ext"] == Text(options.ext)
    ensures "action" in body <==> options.action != ""
    ensures "parameters" in body <==> options.parameters.Some?
    ensures body.Keys <= {"ext", "action", "parameters"}
  {
    map["ext" := Text(options.ext)]
      + Optional("action", if options.action != "" then Some(Text(options.action)) else None)
      + Optional("parameters", AsTable(options.parameters))
  }

  /** Reads the options back out of a supported-operation body. */
  function ReadSupportBody(body: map<string, Value>): Option<SupportedOperationOptions> {
    if "ext" !in body || !body["ext"].Text? then None
    else if "action" in body && !body["action"].Text? then None
    else if "parameters" in body && !body["parameters"].Table? then None
    else
      Some(SupportedOperationOptions(
        body["ext"].text,
        if "action" in body then body["action"].text else "",
        if "parameters" in body then Some(body["parameters"].entries) else None))
  }

  /** The body loses nothing: an omitted action reads back as the empty one
      it stood for, and omitted parameters as nil. */
  lemma SupportBodyRoundTrip(options: SupportedOperationOptions)
    ensures ReadSupportBody(SupportBody(options)) == Some(options)
  {
  }

  function CheckSupportedOperation(
    options: SupportedOperationOptions,
    answer: Result<SupportedOperationResponse, string>): (c: Call<SupportedOperationResponse>)
    // an empty extension is refused before anything is sent
    ensures c.request.None? <==> options.ext == ""
    ensures options.ext == "" ==> c.result == Err(ExtRequired)
    ensures options.ext != "" ==>
              && c.request == Some(Post(SupportedOperationPath, SupportBody(options)))
              && (answer.Err? ==> c.result == Err(SupportCheckFailed(answer.error)))
              && (answer.Ok? ==> c.result == Ok(answer.value))
  {
    if options.ext == "" then Call(None, Err(ExtRequired))
    else
      var request := Post(SupportedOperationPath, SupportBody(options));
      match answer
      case Err(e) => Call(Some(request), Err(SupportCheckFailed(e)))
      case Ok(data) => Call(Some(request), Ok(data))
  }

  /** The body of an operation: action and file keys always, parameters and
      notes only when non-nil. */
  function DoBody(options: OperationOptions): (body: map<string, Value>)
    ensures "action" in body && body["action"] == Text(options.action)
    ensures "file_keys" in body && body["file_keys"] == List(options.fileKeys)
    ensures "parameters" in body <==> options.parameters.Some?
    ensures "notes" in body <==> options.notes.Some?
    ensures body.Keys <= {"action", "file_keys", "parameters", "notes"}
  {
    map["action" := Text(options.action), "file_keys" := List(options.fileKeys)]
      + Optional("parameters", AsTable(options.parameters))
      + Optional("notes", AsTable(options.notes))
  }

  /** Reads the options back out of an operation body. */
  function ReadDoBody(body: map<string, Value>): Option<OperationOptions> {
    if "action" !in body || !body["action"].Text? then None
    else if "file_keys" !in body || !body["file_keys"].List? then None
    else if "parameters" in body && !body["parameters"].Table? then None
    else if "notes" in body && !body["notes"].Table? then None
    else
      Some(OperationOptions(
        body["action"].text,
        body["file_keys"].items,
        if "parameters" in body then Some(body["parameters"].entries) else None,
        if "notes" in body then Some(body["notes"].entries) else None))
  }

  lemma DoBodyRoundTrip(options: OperationOptions)
    ensures ReadDoBody(DoBody(options)) == Some(options)
  {
  }

  /** The answer's main task id, under both of its names. */
  function RespondOperation(mainTaskId: string): (r: OperationResponse)
    ensures r.mainTaskIdAlias == r.mainTaskId == mainTaskId
  {
    OperationResponse(mainTaskId, mainTaskId)
  }

  /** `answer` is the decoded `main_task_id`, or the transport error. */
  function CreateOperation(options: OperationOptions, answer: Result<string, string>): (c: Call<OperationResponse>)
    // the action is checked first, then the file keys; neither failure sends anything
    ensures options.action == "" ==> c == Call(None, Err(ActionRequired))
    ensures options.action != "" && options.fileKeys == [] ==> c == Call(None, Err(FileKeysRequired))
    ensures c.request.Some? <==> options.action != "" && options.fileKeys != []
    ensures c.request.Some? ==>
              && c.request.value == Post(DoPath, DoBody(options))
              && (answer.Err? ==> c.result == Err(CreateFailed(answer.error)))
              && (answer.Ok? ==> c.result.Ok? && c.result.value.mainTaskId == answer.value
                                 && c.result.value.mainTaskIdAlias == answer.value)
  {
    if options.action == "" then Call(None, Err(ActionRequired))
    else if |options.fileKeys| == 0 then Call(None, Err(FileKeysRequired))
    else
      var request := Post(DoPath, DoBody(options));
      match answer
      case Err(e) => Call(Some(request), Err(CreateFailed(e)))
      case Ok(id) => Call(Some(request), Ok(RespondOperation(id)))
  }

  /** The convenience methods, each a fixed action with its parameters. */
  datatype Shortcut =
    | Convert(convertTo: string)
    | Compress(compressionValue: string)
    | Merge
    | Zip
    | Share
    | LockPdf(password: string)
    | UnlockPdf(password: string)
    | ResetPdfPassword(oldPassword: string, newPassword: string)

  const DefaultCompression: string := "recommended"

  /** The action name each shortcut sends. */
  function ActionName(s: Shortcut): (a: string)
    ensures a != ""
  {
    match s
    case Convert(_) => "convert"
    case Compress(_) => "compress"
    case Merge => "merge"
    case Zip => "zip"
    case Share => "share"
    case LockPdf(_) => "lock"
    case UnlockPdf(_) => "unlock"
    case ResetPdfPassword(_, _) => "reset_password"
  }

  /** The parameters each shortcut sends; merge, zip and share send none. */
  function ShortcutParameters(s: Shortcut): Option<map<string, string>> {
    match s
    case Convert(to) => Some(map["convert_to" := to])
    case Compress(v) => Some(map["compression_value" := if v == "" then DefaultCompression else v])
    case Merge => None
    case Zip => None
    case Share => None
    case LockPdf(p) => Some(map["password" := p])
    case UnlockPdf(p) => Some(map["password" := p])
    case ResetPdfPassword(o, n) => Some(map["old_password" := o, "new_password" := n])
  }

  /** The options a shortcut hands to `CreateOperation`: its own action, the
      caller's file keys and notes, and the parameters it fills in. */
  function ShortcutOptions(s: Shortcut, fileKeys: seq<string>, notes: Option<map<string, string>>): (o: OperationOptions)
    ensures o.action == ActionName(s) && o.fileKeys == fileKeys && o.notes == notes
    // merge, zip and share send no parameters at all; the others send exactly their own keys
    ensures o.parameters.None? <==> s.Merge? || s.Zip? || s.Share?
    ensures s.Convert? ==> o.parameters == Some(map["convert_to" := s.convertTo])
    ensures s.Compress? ==>
              o.parameters == Some(map["compression_value" :=
                                       if s.compressionValue == "" then DefaultCompression else s.compressionValue])
    ensures s.LockPdf? || s.UnlockPdf? ==> o.parameters == Some(map["password" := s.password])
    ensures s.ResetPdfPassword? ==>
              o.parameters == Some(map["old_password" := s.oldPassword, "new_password" := s.newPassword])
  {
    OperationOptions(ActionName(s), fileKeys, ShortcutParameters(s), notes)
  }

  /** The shortcut a caller meant, with the empty compression level written
      as the level it stands for. */
  function Canonical(s: Shortcut): Shortcut {
    if s.Compress? && s.compressionValue == "" then Compress(DefaultCompression) else s
  }

  /** Recognises the shortcut behind a set of operation options from the
      action and the parameter keys alone. */
  function ReadShortcut(o: OperationOptions): Option<Shortcut> {
    match o.parameters
    case None =>
      if o.action == "merge" then Some(Merge)
      else if o.action == "zip" then Some(Zip)
      else if o.action == "share" then Some(Share)
      else None
    case Some(m) =>
      if o.action == "convert" && "convert_to" in m then Some(Convert(m["convert_to"]))
      else if o.action == "compress" && "compression_value" in m then Some(Compress(m["compression_value"]))
      else if o.action == "lock" && "password" in m then Some(LockPdf(m["password"]))
      else if o.action == "unlock" && "password" in m then Some(UnlockPdf(m["password"]))
      else if o.action == "reset_password" && "old_password" in m && "new_password" in m then
        Some(ResetPdfPassword(m["old_password"], m["new_password"]))
      else None
  }

  /** The request says which shortcut made it: the action and parameters
      give the shortcut back, up to the defaulted compression level. */
  lemma ShortcutRoundTrip(s: Shortcut, fileKeys: seq<string>, notes: Option<map<string, string>>)
    ensures ReadShortcut(ShortcutOptions(s, fileKeys, notes)) == Some(Canonical(s))
  {
  }

  function RunShortcut(s: Shortcut, fileKeys: seq<string>, notes: Option<map<string, string>>,
                       answer: Result<string, string>): (c: Call<OperationResponse>)
    ensures c.result != Err(ActionRequired)
    ensures c.result == Err(FileKeysRequired) <==> fileKeys == []
    ensures c.request.Some? <==> fileKeys != []
    ensures fileKeys != [] ==> c.request.value == Post(DoPath, DoBody(ShortcutOptions(s, fileKeys, notes)))
    ensures fileKeys != [] && answer.Ok? ==> c.result.Ok? && c.result.value.mainTaskId == answer.value
  {
    CreateOperation(ShortcutOptions(s, fileKeys, notes), answer)
  }

  /** The action names are distinct: the server can tell every shortcut apart. */
  lemma ActionNamesDistinct(a: Shortcut, b: Shortcut)
    requires ActionName(a) == ActionName(b)
    ensures a.Convert? == b.Convert? && a.Compress? == b.Compress? && a.Merge? == b.Merge?
    ensures a.Zip? == b.Zip? && a.Share? == b.Share? && a.LockPdf? == b.LockPdf?
    ensures a.UnlockPdf? == b.UnlockPdf? && a.ResetPdfPassword? == b.ResetPdfPassword?
  {
  }

  /** A shortcut never fails for a missing action; it fails before sending
      exactly when no file key is given, and otherwise sends its own action. */
  lemma ShortcutValidation(s: Shortcut, fileKeys: seq<string>, notes: Option<map<string, string>>,
                           answer: Result<string, string>)
    ensures var c := RunShortcut(s, fileKeys, notes, answer);
            && c.result != Err(ActionRequired)
            && (c.result == Err(FileKeysRequired) <==> fileKeys == [])
            && (fileKeys != [] ==> c.request.Some? && c.request.value.body["action"] == Text(ActionName(s)))
  {
  }

  /** Compression always names a level: the empty one becomes "recommended",
      any other is sent unchanged. */
  lemma CompressAlwaysNamesLevel(v: string)
    ensures var p := ShortcutParameters(Compress(v));
            && p.Some? && p.value.Keys == {"compression_value"}
            && p.value["compression_value"] != ""
            && (v != "" ==> p.value["compression_value"] == v)
            && (v == "" ==> p.value["compression_value"] == DefaultCompression)
  {
  }

  /** Converting one file to PNG with no notes sends action "convert",
      `convert_to` "png", and no notes, and yields the answered task id. */
  lemma ConvertScenario()
    ensures var c := RunShortcut(Convert("png"), ["file-key-123"], None, Ok("task-123"));
            && c.request.Some?
            && c.request.value.path == DoPath
            && c.request.value.body["action"] == Text("convert")
            && c.request.value.body["file_keys"] == List(["file-key-123"])
            && c.request.value.body["parameters"] == Table(map["convert_to" := "png"])
            && "notes" !in c.request.value.body
            && c.result == Ok(OperationResponse("task-123", "task-123"))
  {
  }

  /** Asking about "pdf" alone sends only the extension. */
  lemma SupportQueryScenario(answer: SupportedOperationResponse)
    ensures var c := CheckSupportedOperation(SupportedOperationOptions("pdf", "", None), Ok(answer));
            && c.request == Some(Post(SupportedOperationPath, map["ext" := Text("pdf")]))
            && c.result == Ok(answer)
  {
    assert SupportBody(SupportedOperationOptions("pdf", "", None)) == map["ext" := Text("pdf")];
  }
}
