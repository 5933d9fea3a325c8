/** `UploadFile` as a step machine: validate, plan, resolve the content type,
    initiate the session, check it, send the parts in order while collecting
    their ETags and reporting progress, then complete the session. The file,
    the server's answers and the per-part transfers are inputs; the requests
    the client sends are outputs. */
module Upload {
  import opened Wrappers
  import opened Failures
  import Planner
  import Mime

  type Byte = b: int | 0 <= b < 256

  datatype UploadFileOptions = UploadFileOptions(
    file: string,
    fileName: string,
    mimeType: string,
    parts: int,
    onProgress: bool)     // whether an `OnProgress` callback is set

  /** Body of the initiate-upload request. */
  datatype InitiateRequest = InitiateRequest(fileName: string, size: nat, mimeType: string, parts: nat)

  /** The `data` of the initiate-upload response. */
  datatype InitiateData = InitiateData(
    fileKey: string,
    uploadId: string,
    presignedUrls: seq<string>,
    objectName: string)

  /** What happens to one part: reading its bytes fails, building its PUT
      fails, sending it fails, or the storage answers with a status and the
      value of its ETag header ("" when absent). */
  datatype PartIo =
    | ReadError(cause: string)
    | BuildError(cause: string)
    | SendError(cause: string)
    | Answered(status: int, etag: string)

  /** Everything outside the client that an upload observes. */
  datatype UploadEnv = UploadEnv(
    file: Result<seq<Byte>, string>,       // the file's contents, or why it cannot be stat'ed
    platform: Mime.Platform,
    initiate: Result<InitiateData, string>, // decoded answer, or a transport error
    openError: Option<string>,
    partIo: nat -> PartIo,                  // by 0-based part index
    completeError: Option<string>)

  datatype PutRequest = PutRequest(url: string, contentType: string, body: seq<Byte>)

  datatype UploadProgress = UploadProgress(
    currentPart: int,
    totalParts: int,
    bytesUploaded: int,
    totalBytes: int,
    percentage: int)

  datatype CompletedPart = CompletedPart(etag: string, partNumber: int)

  /** Body of the complete-upload request. */
  datatype CompleteRequest = CompleteRequest(
    fileKey: string,
    uploadId: string,
    objectName: string,
    parts: seq<CompletedPart>)

  /** What `UploadFile` returns: each field twice, the second copy being the
      camel-case alias. */
  datatype UploadResponse = UploadResponse(
    fileKey: string,
    uploadId: string,
    presignedUrls: seq<string>,
    objectName: string,
    fileKeyAlias: string,
    uploadIdAlias: string,
    presignedUrlsAlias: seq<string>,
    objectNameAlias: string)
  {
    predicate AliasesMirror() {
      fileKeyAlias == fileKey && uploadIdAlias == uploadId
      && presignedUrlsAlias == presignedUrls && objectNameAlias == objectName
    }
  }

  /** The outcome of an upload and what the client did on the way: the
      initiate request sent, whether the file was opened, the PUTs sent, the
      progress reports made and the complete request sent. */
  datatype UploadRun = UploadRun(
    result: Result<UploadResponse, Failure>,
    initiate: Option<InitiateRequest>,
    fileOpened: bool,
    puts: seq<PutRequest>,
    progress: seq<UploadProgress>,
    complete: Option<CompleteRequest>)

  // ---------------------------------------------------------------------------
  // ETag quotes

  predicate AllQuotes(s: string) {
    forall i :: 0 <= i < |s| ==> s[i] == '"'
  }

  function TrimLeadingQuotes(s: string): string {
    if |s| > 0 && s[0] == '"' then TrimLeadingQuotes(s[1..]) else s
  }

  function TrimTrailingQuotes(s: string): string {
    if |s| > 0 && s[|s| - 1] == '"' then TrimTrailingQuotes(s[..|s| - 1]) else s
  }

  /** `strings.Trim(etag, "\"")`: every leading and trailing quote removed. */
  function TrimQuotes(s: string): string {
    TrimTrailingQuotes(TrimLeadingQuotes(s))
  }

  lemma {:induction false} TrimLeadingShape(s: string)
    ensures var r := TrimLeadingQuotes(s);
            && |r| <= |s| && r == s[|s| - |r|..]
            && AllQuotes(s[..|s| - |r|])
            && (r == "" || r[0] != '"')
  {
    if |s| > 0 && s[0] == '"' {
      TrimLeadingShape(s[1..]);
      var r := TrimLeadingQuotes(s);
      assert s[..|s| - |r|] == [s[0]] + s[1..][..|s| - 1 - |r|];
    }
  }

  lemma {:induction false} TrimTrailingShape(s: string)
    ensures var r := TrimTrailingQuotes(s);
            && |r| <= |s| && r == s[..|r|]
            && AllQuotes(s[|r|..])
            && (r == "" || r[|r| - 1] != '"')
  {
    if |s| > 0 && s[|s| - 1] == '"' {
      TrimTrailingShape(s[..|s| - 1]);
      var r := TrimTrailingQuotes(s);
      assert s[|r|..] == s[..|s| - 1][|r|..] + [s[|s| - 1]];
    }
  }

  /** The trimmed ETag is the original with a run of quotes cut from each
      end, and it neither starts nor ends with a quote. */
  lemma TrimQuotesShape(s: string)
    ensures var r := TrimQuotes(s);
            && (r == "" || (r[0] != '"' && r[|r| - 1] != '"'))
            && exists i :: 0 <= i <= i + |r| <= |s| && s[i..i + |r|] == r
                           && AllQuotes(s[..i]) && AllQuotes(s[i + |r|..])
  {
    var left := TrimLeadingQuotes(s);
    var r := TrimQuotes(s);
    TrimLeadingShape(s);
    TrimTrailingShape(left);
    var i := |s| - |left|;
    assert s[i..i + |r|] == r;
    assert s[i + |r|..] == left[|r|..];
  }

  /** A quoted ETag loses exactly its quotes; a header made of two quotes
      gives an empty ETag, which is accepted because the emptiness check
      comes first. */
  lemma TrimQuotesExamples()
    ensures TrimQuotes("\"etag-part-1\"") == "etag-part-1"
    ensures TrimQuotes("etag-part-1") == "etag-part-1"
    ensures TrimQuotes("\"\"") == ""
  {
    assert "\"etag-part-1\""[1..] == "etag-part-1\"";
    assert "etag-part-1\""[..|"etag-part-1\""| - 1] == "etag-part-1";
    assert "\"\""[1..] == "\"";
    assert "\""[1..] == "";
  }

  lemma TrimQuotesIdempotent(s: string)
    ensures TrimQuotes(TrimQuotes(s)) == TrimQuotes(s)
  {
    var r := TrimQuotes(s);
    TrimQuotesShape(s);
    if r != "" {
      assert TrimLeadingQuotes(r) == r;
      assert TrimTrailingQuotes(r) == r;
    }
  }

  // ---------------------------------------------------------------------------
  // Progress

  /** The percentage as written, `bytesUploaded * 100 / fileSize`; `None`
      stands for the integer-division panic on an empty file. */
  function PercentageAsWritten(bytes: nat, size: nat): (p: Option<int>)
    ensures p.None? <==> size == 0
  {
    if size == 0 then None else Some(bytes * 100 / size)
  }

  /** The percentage with the empty file reported as complete. */
  function Percentage(bytes: nat, size: nat): (p: int)
    ensures size > 0 ==> PercentageAsWritten(bytes, size) == Some(p)
    ensures bytes <= size ==> 0 <= p <= 100
    ensures bytes == size ==> p == 100
  {
    if size == 0 then 100
    else
      PercentageBounded(bytes, size);
      bytes * 100 / size
  }

  lemma PercentageBounded(bytes: nat, size: nat)
    requires size > 0
    ensures bytes <= size ==> bytes * 100 / size <= 100
    ensures size * 100 / size == 100
  {
    if bytes <= size {
      QuotientMonotone(bytes, size, size);
    }
  }

  /** More bytes never mean a smaller percentage, as written or corrected. */
  lemma PercentageMonotone(a: nat, b: nat, size: nat)
    requires a <= b
    ensures size > 0 ==> PercentageAsWritten(a, size).value <= PercentageAsWritten(b, size).value
    ensures Percentage(a, size) <= Percentage(b, size)
  {
    if size > 0 {
      QuotientMonotone(a, b, size);
    }
  }

  lemma QuotientMonotone(a: nat, b: nat, size: nat)
    requires a <= b && size > 0
    ensures a * 100 / size <= b * 100 / size
  {
    var qa := a * 100 / size;
    var qb := b * 100 / size;
    if qa > qb {
      assert qa * size <= a * 100;
      Planner.MulMono(qb + 1, qa, size);
      assert false;
    }
  }

  /** An empty file uploaded with a progress callback: one part of 0 bytes,
      after which the percentage divides by zero. */
  lemma EmptyFileProgressWitness()
    ensures PercentageAsWritten(0, 0) == None
    ensures Percentage(0, 0) == 100
  {
  }

  lemma EmptyFilePlan()
    ensures Planner.PartCount(0, 0) == 1
    ensures Planner.Plan(0, 1)[0] == Planner.PartRange(0, 0)
  {
    Planner.CeilDivBounds(0, 5_242_880);
  }

  // ---------------------------------------------------------------------------
  // Sending the parts

  /** What the part loop works on: the file, the planned byte ranges, one
      presigned URL per part, the content type, whether progress is reported,
      and the per-part transfers. */
  datatype PartsJob = PartsJob(
    content: seq<Byte>,
    plan: seq<Planner.PartRange>,
    urls: seq<string>,
    mimeType: string,
    onProgress: bool,
    io: nat -> PartIo)
  {
    function Count(): nat {
      |plan|
    }

    predicate Valid() {
      && |plan| > 0
      && |urls| == |plan|
      && forall j :: 0 <= j < |plan| ==> 0 <= plan[j].start <= plan[j].End() <= |content|
    }
  }

  /** Each planned part starts where the previous one ends, the first at 0. */
  predicate Contiguous(plan: seq<Planner.PartRange>) {
    && (|plan| > 0 ==> plan[0].start == 0)
    && forall j :: 0 < j < |plan| ==> plan[j].start == plan[j - 1].End()
  }

  /** A part succeeds when it is answered with a 2xx status and a non-empty ETag. */
  predicate Accepted(io: PartIo) {
    io.Answered? && 200 <= io.status < 300 && io.etag != ""
  }

  /** Whether the PUT for a part actually went out. */
  predicate Sent(io: PartIo) {
    io.SendError? || io.Answered?
  }

  /** The failure a rejected part causes, naming its 1-based number. */
  function PartFailure(io: PartIo, partNumber: int): Failure
    requires !Accepted(io)
  {
    match io
    case ReadError(e) => ReadFailed(e)
    case BuildError(e) => RequestBuildFailed(e)
    case SendError(e) => PartSendFailed(e)
    case Answered(status, _) =>
      if status < 200 || status >= 300 then PartRejected(partNumber, status) else EtagMissing(partNumber)
  }

  /** The first part from `i` on that is not accepted, or `n` when all are. */
  function FirstRejected(io: nat -> PartIo, i: nat, n: nat): (k: nat)
    requires i <= n
    ensures i <= k <= n
    ensures forall j :: i <= j < k ==> Accepted(io(j))
    ensures k < n ==> !Accepted(io(k))
    decreases n - i
  {
    if i == n || !Accepted(io(i)) then i else FirstRejected(io, i + 1, n)
  }

  /** The PUT for part `j`: its presigned URL, the content type, and the bytes it covers. */
  function PutFor(job: PartsJob, j: nat): PutRequest
    requires job.Valid() && j < job.Count()
  {
    var p := job.plan[j];
    PutRequest(job.urls[j], job.mimeType, job.content[p.start..p.End()])
  }

  /** The report after part `j`: the bytes up to the end of that part. */
  function ProgressAfter(job: PartsJob, j: nat): UploadProgress
    requires job.Valid() && j < job.Count()
  {
    var uploaded := job.plan[j].End();
    UploadProgress(j + 1, job.Count(), uploaded, |job.content|, Percentage(uploaded, |job.content|))
  }

  datatype PartsRun = PartsRun(
    failure: Option<Failure>,
    parts: seq<CompletedPart>,
    puts: seq<PutRequest>,
    progress: seq<UploadProgress>)

  /** Failures that name a single part. */
  predicate PartLevel(f: Failure) {
    f.ReadFailed? || f.RequestBuildFailed? || f.PartSendFailed? || f.PartRejected? || f.EtagMissing?
  }

  /** The part loop from part `i` on, with `uploaded` bytes already sent. */
  function SendParts(job: PartsJob, i: nat, uploaded: nat): (r: PartsRun)
    requires job.Valid() && i <= job.Count()
    decreases job.Count() - i
    ensures |r.parts| <= job.Count() - i
    ensures r.failure.Some? ==> PartLevel(r.failure.value)
  {
    if i == job.Count() then PartsRun(None, [], [], [])
    else
      var p := job.plan[i];
      var put := PutRequest(job.urls[i], job.mimeType, job.content[p.start..p.start + p.length]);
      match job.io(i)
      case ReadError(e) => PartsRun(Some(ReadFailed(e)), [], [], [])
      case BuildError(e) => PartsRun(Some(RequestBuildFailed(e)), [], [], [])
      case SendError(e) => PartsRun(Some(PartSendFailed(e)), [], [put], [])
      case Answered(status, header) =>
        if status < 200 || status >= 300 then PartsRun(Some(PartRejected(i + 1, status)), [], [put], [])
        else if header == "" then PartsRun(Some(EtagMissing(i + 1)), [], [put], [])
        else
          var total := uploaded + p.length;
          var report := if job.onProgress then
                          [UploadProgress(i + 1, job.Count(), total, |job.content|, Percentage(total, |job.content|))]
                        else [];
          var rest := SendParts(job, i + 1, total);
          PartsRun(rest.failure,
                   [CompletedPart(TrimQuotes(header), i + 1)] + rest.parts,
                   [put] + rest.puts,
                   report + rest.progress)
  }

  /** One step of the loop on an accepted part: its ETag, PUT and report
      come first, then whatever the rest of the loop produces. */
  lemma SendPartsAccepted(job: PartsJob, i: nat, uploaded: nat)
    requires job.Valid() && i < job.Count() && Accepted(job.io(i))
    ensures var r := SendParts(job, i, uploaded);
            var total := uploaded + job.plan[i].length;
            var rest := SendParts(job, i + 1, total);
            && r.failure == rest.failure
            && r.parts == [CompletedPart(TrimQuotes(job.io(i).etag), i + 1)] + rest.parts
            && r.puts == [PutFor(job, i)] + rest.puts
            && r.progress == (if job.onProgress
                              then [UploadProgress(i + 1, job.Count(), total, |job.content|, Percentage(total, |job.content|))]
                              else []) + rest.progress
  {
  }

  /** One step of the loop on a part that is not accepted: the loop ends
      with that part's failure, after its PUT if the PUT went out. */
  lemma SendPartsRejected(job: PartsJob, i: nat, uploaded: nat)
    requires job.Valid() && i < job.Count() && !Accepted(job.io(i))
    ensures SendParts(job, i, uploaded) ==
              PartsRun(Some(PartFailure(job.io(i), i + 1)), [],
                       if Sent(job.io(i)) then [PutFor(job, i)] else [], [])
  {
  }

  /** What the loop collects from part `i` on: the failure of the first
      rejected part, if any, and one stripped ETag per part before it. */
  predicate CollectsFrom(job: PartsJob, i: nat, r: PartsRun)
    requires job.Valid() && i <= job.Count()
  {
    var k := FirstRejected(job.io, i, job.Count());
    && r.failure == (if k == job.Count() then None else Some(PartFailure(job.io(k), k + 1)))
    && |r.parts| == k - i
    && (forall j :: 0 <= j < |r.parts| ==>
          r.parts[j] == CompletedPart(TrimQuotes(job.io(i + j).etag), i + j + 1))
  }

  /** The PUTs from part `i` on: one per part up to the first rejected part,
      and that part's too when it was sent. */
  predicate PutsFrom(job: PartsJob, i: nat, r: PartsRun)
    requires job.Valid() && i <= job.Count()
  {
    var k := FirstRejected(job.io, i, job.Count());
    && |r.puts| == k - i + (if k < job.Count() && Sent(job.io(k)) then 1 else 0)
    && (forall j :: 0 <= j < |r.puts| ==> i + j < job.Count() && r.puts[j] == PutFor(job, i + j))
  }

  /** The reports from part `i` on: one per accepted part, when asked for. */
  predicate ReportsFrom(job: PartsJob, i: nat, r: PartsRun)
    requires job.Valid() && i <= job.Count()
  {
    var k := FirstRejected(job.io, i, job.Count());
    && |r.progress| == (if job.onProgress then k - i else 0)
    && (forall j :: 0 <= j < |r.progress| ==> i + j < job.Count() && r.progress[j] == ProgressAfter(job, i + j))
  }

  /** Prepending an accepted part's entry keeps the collection in step. */
  lemma CollectsPrepend(job: PartsJob, i: nat, r: PartsRun, rest: PartsRun)
    requires job.Valid() && i < job.Count() && Accepted(job.io(i))
    requires r.failure == rest.failure
    requires r.parts == [CompletedPart(TrimQuotes(job.io(i).etag), i + 1)] + rest.parts
    requires CollectsFrom(job, i + 1, rest)
    ensures CollectsFrom(job, i, r)
  {
    assert FirstRejected(job.io, i, job.Count()) == FirstRejected(job.io, i + 1, job.Count());
    forall j | 0 <= j < |r.parts|
      ensures r.parts[j] == CompletedPart(TrimQuotes(job.io(i + j).etag), i + j + 1)
    {
      if j > 0 {
        assert r.parts[j] == rest.parts[j - 1];
      }
    }
  }

  lemma PutsPrepend(job: PartsJob, i: nat, r: PartsRun, rest: PartsRun)
    requires job.Valid() && i < job.Count() && Accepted(job.io(i))
    requires r.puts == [PutFor(job, i)] + rest.puts
    requires PutsFrom(job, i + 1, rest)
    ensures PutsFrom(job, i, r)
  {
    assert FirstRejected(job.io, i, job.Count()) == FirstRejected(job.io, i + 1, job.Count());
    forall j | 0 <= j < |r.puts|
      ensures i + j < job.Count() && r.puts[j] == PutFor(job, i + j)
    {
      if j > 0 {
        assert r.puts[j] == rest.puts[j - 1];
      }
    }
  }

  lemma ReportsPrepend(job: PartsJob, i: nat, r: PartsRun, rest: PartsRun)
    requires job.Valid() && i < job.Count() && Accepted(job.io(i))
    requires r.progress == (if job.onProgress then [ProgressAfter(job, i)] else []) + rest.progress
    requires ReportsFrom(job, i + 1, rest)
    ensures ReportsFrom(job, i, r)
  {
    assert FirstRejected(job.io, i, job.Count()) == FirstRejected(job.io, i + 1, job.Count());
    forall j | 0 <= j < |r.progress|
      ensures i + j < job.Count() && r.progress[j] == ProgressAfter(job, i + j)
    {
      if j > 0 {
        assert r.progress[j] == rest.progress[j - 1];
      }
    }
  }

  /** The loop stops at the first rejected part, with that part's failure,
      and otherwise collects one stripped ETag per part, numbered from 1. */
  lemma {:induction false} SendPartsCollects(job: PartsJob, i: nat, uploaded: nat)
    requires job.Valid() && i <= job.Count()
    decreases job.Count() - i
    ensures CollectsFrom(job, i, SendParts(job, i, uploaded))
  {
    if i == job.Count() {
    } else if !Accepted(job.io(i)) {
      SendPartsRejected(job, i, uploaded);
    } else {
      var total := uploaded + job.plan[i].length;
      SendPartsCollects(job, i + 1, total);
      SendPartsAccepted(job, i, uploaded);
      CollectsPrepend(job, i, SendParts(job, i, uploaded), SendParts(job, i + 1, total));
    }
  }

  /** The PUTs go out in part order, one per part up to and including the
      first rejected part when that part got as far as being sent. */
  lemma {:induction false} SendPartsPuts(job: PartsJob, i: nat, uploaded: nat)
    requires job.Valid() && i <= job.Count()
    decreases job.Count() - i
    ensures PutsFrom(job, i, SendParts(job, i, uploaded))
  {
    if i == job.Count() {
    } else if !Accepted(job.io(i)) {
      SendPartsRejected(job, i, uploaded);
    } else {
      var total := uploaded + job.plan[i].length;
      SendPartsPuts(job, i + 1, total);
      SendPartsAccepted(job, i, uploaded);
      PutsPrepend(job, i, SendParts(job, i, uploaded), SendParts(job, i + 1, total));
    }
  }

  /** With a callback set, each accepted part is followed by one report whose
      cumulative byte count is the end of that part: the running total the
      loop keeps agrees with the plan when the plan is contiguous. */
  lemma {:induction false} SendPartsProgress(job: PartsJob, i: nat, uploaded: nat)
    requires job.Valid() && i <= job.Count() && Contiguous(job.plan)
    requires i < job.Count() ==> uploaded == job.plan[i].start
    decreases job.Count() - i
    ensures ReportsFrom(job, i, SendParts(job, i, uploaded))
  {
    if i == job.Count() {
    } else if !Accepted(job.io(i)) {
      SendPartsRejected(job, i, uploaded);
    } else {
      var total := uploaded + job.plan[i].length;
      SendPartsAccepted(job, i, uploaded);
      SendPartsProgress(job, i + 1, total);
      assert total == job.plan[i].End();
      ReportsPrepend(job, i, SendParts(job, i, uploaded), SendParts(job, i + 1, total));
    }
  }

  // ---------------------------------------------------------------------------
  // The whole upload

  /** Failures that happen before the file is opened. */
  predicate PreUpload(f: Failure) {
    f.FileNameRequired? || f.FileNotFound? || f.InitiateFailed? || f.PartCountMismatch? || f.UploadIdMissing?
  }

  function Stopped(f: Failure, initiate: Option<InitiateRequest>): UploadRun {
    UploadRun(Err(f), initiate, false, [], [], None)
  }

  function Respond(data: InitiateData): (r: UploadResponse)
    ensures r.AliasesMirror()
    ensures r.fileKey == data.fileKey && r.uploadId == data.uploadId
    ensures r.presignedUrls == data.presignedUrls && r.objectName == data.objectName
  {
    UploadResponse(data.fileKey, data.uploadId, data.presignedUrls, data.objectName,
                   data.fileKey, data.uploadId, data.presignedUrls, data.objectName)
  }

  /** The part loop's job once the session checks have passed: the planned
      ranges of the file, one per presigned URL. */
  function JobFor(opts: UploadFileOptions, env: UploadEnv): (job: PartsJob)
    requires env.file.Ok? && env.initiate.Ok?
    requires |env.initiate.value.presignedUrls| == Planner.PartCount(|env.file.value|, opts.parts)
    ensures job.Valid() && Contiguous(job.plan)
    ensures job.Count() == Planner.PartCount(|env.file.value|, opts.parts)
    ensures job.content == env.file.value && job.urls == env.initiate.value.presignedUrls
    ensures job.plan[job.Count() - 1].End() == |job.content|
    ensures job.mimeType == Mime.ResolveMimeType(opts.mimeType, opts.fileName, env.platform)
    ensures job.onProgress == opts.onProgress && job.io == env.partIo
  {
    var content := env.file.value;
    var count := Planner.PartCount(|content|, opts.parts);
    var plan := Planner.Plan(|content|, count);
    Planner.PlanCoversFile(|content|, count);
    PartsJob(content, plan, env.initiate.value.presignedUrls,
             Mime.ResolveMimeType(opts.mimeType, opts.fileName, env.platform), opts.onProgress, env.partIo)
  }

  function UploadFile(opts: UploadFileOptions, env: UploadEnv): (run: UploadRun)
    // the initiate request announces the planned count and the resolved type
    ensures run.initiate.Some? ==>
              && env.file.Ok?
              && run.initiate.value.fileName == opts.fileName
              && run.initiate.value.size == |env.file.value|
              && run.initiate.value.parts == Planner.PartCount(|env.file.value|, opts.parts)
              && run.initiate.value.mimeType == Mime.ResolveMimeType(opts.mimeType, opts.fileName, env.platform)
    // nothing is sent, opened or uploaded for a failure before the session is checked
    ensures run.result.Err? && PreUpload(run.result.error) ==>
              !run.fileOpened && run.puts == [] && run.progress == [] && run.complete.None?
    ensures !run.fileOpened ==> run.puts == [] && run.complete.None?
  {
    if opts.fileName == "" then Stopped(FileNameRequired, None)
    else
      match env.file
      case Err(e) => Stopped(FileNotFound(e), None)
      case Ok(content) =>
        var count := Planner.PartCount(|content|, opts.parts);
        var mimeType := Mime.ResolveMimeType(opts.mimeType, opts.fileName, env.platform);
        var request := InitiateRequest(opts.fileName, |content|, mimeType, count);
        match env.initiate
        case Err(e) => Stopped(InitiateFailed(e), Some(request))
        case Ok(data) =>
          if |data.presignedUrls| != count then
            Stopped(PartCountMismatch(count, |data.presignedUrls|), Some(request))
          else if data.uploadId == "" then Stopped(UploadIdMissing, Some(request))
          else if env.openError.Some? then
            UploadRun(Err(OpenFailed(env.openError.value)), Some(request), false, [], [], None)
          else
            var sent := SendParts(JobFor(opts, env), 0, 0);
            if sent.failure.Some? then
              UploadRun(Err(sent.failure.value), Some(request), true, sent.puts, sent.progress, None)
            else
              var completion := CompleteRequest(data.fileKey, data.uploadId, data.objectName, sent.parts);
              var result := if env.completeError.Some? then Err(CompleteFailed(env.completeError.value))
                            else Ok(Respond(data));
              UploadRun(result, Some(request), true, sent.puts, sent.progress, Some(completion))
  }

  /** The checks that must pass before the file is opened. */
  predicate SessionReady(opts: UploadFileOptions, env: UploadEnv) {
    && opts.fileName != ""
    && env.file.Ok?
    && env.initiate.Ok?
    && |env.initiate.value.presignedUrls| == Planner.PartCount(|env.file.value|, opts.parts)
    && env.initiate.value.uploadId != ""
  }

  /** The checks run in the source's order, each failing with its own reason
      and before anything is uploaded: the file name, the file, the initiate
      call, the URL count, the upload id, then opening the file. */
  lemma UploadValidationOrder(opts: UploadFileOptions, env: UploadEnv)
    ensures var run := UploadFile(opts, env);
            && (opts.fileName == "" ==> run.result == Err(FileNameRequired) && run.initiate.None?)
            && (opts.fileName != "" && env.file.Err? ==>
                  run.result == Err(FileNotFound(env.file.error)) && run.initiate.None?)
            && (opts.fileName != "" && env.file.Ok? ==> run.initiate.Some?)
            && (opts.fileName != "" && env.file.Ok? && env.initiate.Err? ==>
                  run.result == Err(InitiateFailed(env.initiate.error)))
            && (opts.fileName != "" && env.file.Ok? && env.initiate.Ok? ==>
                  var planned := Planner.PartCount(|env.file.value|, opts.parts);
                  var received := |env.initiate.value.presignedUrls|;
                  && (received != planned ==> run.result == Err(PartCountMismatch(planned, received)))
                  && (received == planned && env.initiate.value.uploadId == "" ==>
                        run.result == Err(UploadIdMissing)))
            && (SessionReady(opts, env) && env.openError.Some? ==>
                  run.result == Err(OpenFailed(env.openError.value)) && !run.fileOpened)
            && (run.result.Err? && !run.fileOpened ==> run.puts == [] && run.progress == [])
  {
  }

  /** An upload succeeds exactly when the session checks pass, the file
      opens, every part is accepted and the complete call goes through. */
  lemma UploadSucceedsIff(opts: UploadFileOptions, env: UploadEnv)
    ensures UploadFile(opts, env).result.Ok? <==>
              && SessionReady(opts, env)
              && env.openError.None?
              && (forall j :: 0 <= j < |env.initiate.value.presignedUrls| ==> Accepted(env.partIo(j)))
              && env.completeError.None?
  {
    if SessionReady(opts, env) && env.openError.None? {
      var job := JobFor(opts, env);
      SendPartsCollects(job, 0, 0);
    }
  }

  /** On success the complete request carries the session's identifiers
      unchanged and one entry per presigned URL, in ascending order, with
      part number `j + 1` and the stripped ETag of part `j`. */
  lemma UploadCompletion(opts: UploadFileOptions, env: UploadEnv)
    requires UploadFile(opts, env).result.Ok?
    ensures var run := UploadFile(opts, env);
            var data := env.initiate.value;
            && env.initiate.Ok? && run.complete.Some?
            && run.complete.value.fileKey == data.fileKey
            && run.complete.value.uploadId == data.uploadId
            && run.complete.value.objectName == data.objectName
            && |run.complete.value.parts| == |data.presignedUrls|
            && (forall j :: 0 <= j < |run.complete.value.parts| ==>
                  && Accepted(env.partIo(j))
                  && run.complete.value.parts[j] == CompletedPart(TrimQuotes(env.partIo(j).etag), j + 1))
  {
    UploadSucceedsIff(opts, env);
    var job := JobFor(opts, env);
    var sent := SendParts(job, 0, 0);
    SendPartsCollects(job, 0, 0);
    var data := env.initiate.value;
    assert UploadFile(opts, env).complete == Some(CompleteRequest(data.fileKey, data.uploadId, data.objectName, sent.parts));
  }

  /** On success the response repeats the session: file key, upload id,
      presigned URLs and object name, each mirrored by its alias. */
  lemma UploadResponseMirrorsSession(opts: UploadFileOptions, env: UploadEnv)
    requires UploadFile(opts, env).result.Ok?
    ensures var r := UploadFile(opts, env).result.value;
            && env.initiate.Ok?
            && r.AliasesMirror()
            && r.fileKey == env.initiate.value.fileKey
            && r.uploadId == env.initiate.value.uploadId
            && r.presignedUrls == env.initiate.value.presignedUrls
            && r.objectName == env.initiate.value.objectName
  {
    UploadSucceedsIff(opts, env);
  }

  /** The first part that is not accepted ends the upload with that part's
      failure and its 1-based number; no complete request is sent. */
  lemma UploadPartFailure(opts: UploadFileOptions, env: UploadEnv, k: nat)
    requires SessionReady(opts, env) && env.openError.None?
    requires k < |env.initiate.value.presignedUrls|
    requires forall j :: 0 <= j < k ==> Accepted(env.partIo(j))
    requires !Accepted(env.partIo(k))
    ensures var run := UploadFile(opts, env);
            && run.result == Err(PartFailure(env.partIo(k), k + 1))
            && run.complete.None?
            && |run.puts| == k + (if Sent(env.partIo(k)) then 1 else 0)
    ensures var io := env.partIo(k);
            && (io.Answered? && (io.status < 200 || io.status >= 300) ==>
                  UploadFile(opts, env).result == Err(PartRejected(k + 1, io.status)))
            && (io.Answered? && 200 <= io.status < 300 ==>
                  UploadFile(opts, env).result == Err(EtagMissing(k + 1)))
  {
    var job := JobFor(opts, env);
    assert FirstRejected(job.io, 0, job.Count()) == k by {
      FirstRejectedIsFirst(job.io, 0, job.Count(), k);
    }
    SendPartsCollects(job, 0, 0);
    SendPartsPuts(job, 0, 0);
  }

  lemma {:induction false} FirstRejectedIsFirst(io: nat -> PartIo, i: nat, n: nat, k: nat)
    requires i <= k < n
    requires forall j :: i <= j < k ==> Accepted(io(j))
    requires !Accepted(io(k))
    ensures FirstRejected(io, i, n) == k
    decreases k - i
  {
    if i < k {
      FirstRejectedIsFirst(io, i + 1, n, k);
    }
  }

  /** Part ends never move backwards along a contiguous plan. */
  lemma {:induction false} PlanEndsMonotone(job: PartsJob, a: nat, b: nat)
    requires job.Valid() && Contiguous(job.plan)
    requires a <= b < job.Count()
    ensures job.plan[a].End() <= job.plan[b].End()
    decreases b - a
  {
    if a < b {
      PlanEndsMonotone(job, a + 1, b);
    }
  }

  /** The job cuts the file along the planner's plan for the announced count. */
  lemma JobForPlan(opts: UploadFileOptions, env: UploadEnv)
    requires SessionReady(opts, env)
    ensures JobFor(opts, env).plan ==
              Planner.Plan(|env.file.value|, Planner.PartCount(|env.file.value|, opts.parts))
  {
  }

  /** Once the session is ready and the file opens, the run carries exactly
      what the part loop produced. */
  lemma UploadRunsParts(opts: UploadFileOptions, env: UploadEnv)
    requires SessionReady(opts, env) && env.openError.None?
    ensures var run := UploadFile(opts, env);
            var sent := SendParts(JobFor(opts, env), 0, 0);
            && run.puts == sent.puts
            && run.progress == sent.progress
            && (run.result.Ok? <==> sent.failure.None? && env.completeError.None?)
  {
  }

  /** The part loop's reports over a whole contiguous plan: one per accepted
      part, each naming its part, the plan size and the file size. */
  lemma JobProgressShape(job: PartsJob)
    requires job.Valid() && Contiguous(job.plan) && job.onProgress
    requires job.plan[job.Count() - 1].End() == |job.content|
    ensures var sent := SendParts(job, 0, 0);
            && |sent.progress| <= job.Count()
            && (sent.failure.None? ==> |sent.progress| == job.Count())
            && (forall j :: 0 <= j < |sent.progress| ==>
                  && sent.progress[j].currentPart == j + 1
                  && sent.progress[j].totalParts == job.Count()
                  && sent.progress[j].totalBytes == |job.content|
                  && sent.progress[j].bytesUploaded == job.plan[j].End()
                  && 0 <= sent.progress[j].bytesUploaded <= |job.content|
                  && sent.progress[j].percentage == Percentage(job.plan[j].End(), |job.content|))
  {
    SendPartsProgress(job, 0, 0);
    SendPartsCollects(job, 0, 0);
  }

  /** Along the reports, bytes and percentage only grow. */
  lemma JobProgressMonotone(job: PartsJob)
    requires job.Valid() && Contiguous(job.plan) && job.onProgress
    requires job.plan[job.Count() - 1].End() == |job.content|
    ensures var sent := SendParts(job, 0, 0);
            forall a, b :: 0 <= a <= b < |sent.progress| ==>
              && sent.progress[a].bytesUploaded <= sent.progress[b].bytesUploaded
              && sent.progress[a].percentage <= sent.progress[b].percentage
  {
    JobProgressShape(job);
    ReportsMonotone(job, SendParts(job, 0, 0).progress);
  }

  /** Reports that follow the part ends of a contiguous plan only grow. */
  lemma ReportsMonotone(job: PartsJob, reports: seq<UploadProgress>)
    requires job.Valid() && Contiguous(job.plan)
    requires job.plan[job.Count() - 1].End() == |job.content|
    requires |reports| <= job.Count()
    requires forall j :: 0 <= j < |reports| ==>
               && reports[j].bytesUploaded == job.plan[j].End()
               && reports[j].percentage == Percentage(job.plan[j].End(), |job.content|)
    ensures forall a, b :: 0 <= a <= b < |reports| ==>
              && reports[a].bytesUploaded <= reports[b].bytesUploaded
              && reports[a].percentage <= reports[b].percentage
  {
    var size := |job.content|;
    forall a, b | 0 <= a <= b < |reports|
      ensures reports[a].bytesUploaded <= reports[b].bytesUploaded
      ensures reports[a].percentage <= reports[b].percentage
    {
      PlanEndsMonotone(job, a, b);
      PercentageMonotone(job.plan[a].End(), job.plan[b].End(), size);
    }
  }

  /** With a callback set, a ready upload reports once per accepted part:
      part `j + 1` of the planned count, with the file size as total, and
      every part when it succeeds. */
  lemma UploadProgressReports(opts: UploadFileOptions, env: UploadEnv)
    requires SessionReady(opts, env) && env.openError.None? && opts.onProgress
    ensures var run := UploadFile(opts, env);
            var size := |env.file.value|;
            var count := Planner.PartCount(size, opts.parts);
            && |run.progress| <= count
            && (run.result.Ok? ==> |run.progress| == count)
            && (forall j :: 0 <= j < |run.progress| ==>
                  && run.progress[j].currentPart == j + 1
                  && run.progress[j].totalParts == count
                  && run.progress[j].totalBytes == size
                  && 0 <= run.progress[j].bytesUploaded <= size
                  && run.progress[j].percentage == Percentage(run.progress[j].bytesUploaded, size))
  {
    UploadRunsParts(opts, env);
    JobProgressShape(JobFor(opts, env));
  }

  /** The reported bytes and percentage never go backwards, and a successful
      upload's last report is the whole file at 100%. */
  lemma UploadProgressClimbs(opts: UploadFileOptions, env: UploadEnv)
    requires SessionReady(opts, env) && env.openError.None? && opts.onProgress
    ensures var run := UploadFile(opts, env);
            var size := |env.file.value|;
            && (forall a, b :: 0 <= a <= b < |run.progress| ==>
                  && run.progress[a].bytesUploaded <= run.progress[b].bytesUploaded
                  && run.progress[a].percentage <= run.progress[b].percentage)
            && (run.result.Ok? ==>
                  && |run.progress| > 0
                  && run.progress[|run.progress| - 1].bytesUploaded == size
                  && run.progress[|run.progress| - 1].percentage == 100)
  {
    var job := JobFor(opts, env);
    UploadRunsParts(opts, env);
    JobProgressShape(job);
    JobProgressMonotone(job);
  }

  /** With no callback, nothing is reported. */
  lemma UploadSilentWithoutCallback(opts: UploadFileOptions, env: UploadEnv)
    requires !opts.onProgress
    ensures UploadFile(opts, env).progress == []
  {
    if SessionReady(opts, env) && env.openError.None? {
      SendPartsProgress(JobFor(opts, env), 0, 0);
    }
  }

  /** The bytes of all PUT bodies, in the order sent. */
  function Bodies(puts: seq<PutRequest>): seq<Byte> {
    if |puts| == 0 then [] else Bodies(puts[..|puts| - 1]) + puts[|puts| - 1].body
  }

  lemma PrefixSplits(s: seq<Byte>, a: int, b: int)
    requires 0 <= a <= b <= |s|
    ensures s[..b] == s[..a] + s[a..b]
  {
  }

  /** The first `n` PUT bodies, laid end to end, are the file up to the end of part `n`. */
  lemma {:induction false} BodiesFollowPlan(job: PartsJob, puts: seq<PutRequest>, n: nat)
    requires job.Valid() && Contiguous(job.plan)
    requires n <= |puts| <= job.Count()
    requires forall j :: 0 <= j < |puts| ==> puts[j] == PutFor(job, j)
    ensures Bodies(puts[..n]) == job.content[..if n == 0 then 0 else job.plan[n - 1].End()]
  {
    if n > 0 {
      BodiesFollowPlan(job, puts, n - 1);
      var prefix := puts[..n];
      assert prefix[..n - 1] == puts[..n - 1];
      assert Bodies(prefix) == Bodies(puts[..n - 1]) + puts[n - 1].body;
      var p := job.plan[n - 1];
      assert p.start == (if n - 1 == 0 then 0 else job.plan[n - 2].End());
      assert puts[n - 1].body == job.content[p.start..p.End()];
      PrefixSplits(job.content, p.start, p.End());
    }
  }

  /** When no part fails, the loop sends every planned PUT, in order. */
  lemma JobSendsEveryPart(job: PartsJob)
    requires job.Valid()
    requires SendParts(job, 0, 0).failure.None?
    ensures var r := SendParts(job, 0, 0);
            && |r.puts| == job.Count()
            && (forall j :: 0 <= j < |r.puts| ==> r.puts[j] == PutFor(job, j))
  {
    SendPartsCollects(job, 0, 0);
    SendPartsPuts(job, 0, 0);
  }

  /** Over a contiguous plan, the bodies of a run with no failure put
      together are the content up to the end of the last part. */
  lemma JobSendsWholeContent(job: PartsJob)
    requires job.Valid() && Contiguous(job.plan)
    requires SendParts(job, 0, 0).failure.None?
    ensures Bodies(SendParts(job, 0, 0).puts) == job.content[..job.plan[job.Count() - 1].End()]
  {
    var puts := SendParts(job, 0, 0).puts;
    JobSendsEveryPart(job);
    BodiesFollowPlan(job, puts, |puts|);
    assert puts[..|puts|] == puts;
  }

  /** A successful upload sends one PUT per presigned URL, in order, each
      with the resolved content type, and the bodies put together are the
      whole file. */
  lemma UploadSendsWholeFile(opts: UploadFileOptions, env: UploadEnv)
    requires UploadFile(opts, env).result.Ok?
    ensures var run := UploadFile(opts, env);
            && env.file.Ok? && env.initiate.Ok?
            && |run.puts| == |env.initiate.value.presignedUrls|
            && (forall j :: 0 <= j < |run.puts| ==>
                  && run.puts[j].url == env.initiate.value.presignedUrls[j]
                  && run.puts[j].contentType == Mime.ResolveMimeType(opts.mimeType, opts.fileName, env.platform))
            && Bodies(run.puts) == env.file.value
  {
    UploadSucceedsIff(opts, env);
    UploadRunsParts(opts, env);
    JobSendsWholeFile(JobFor(opts, env));
  }

  /** A run with no failure over a plan that ends at the end of the content
      sends one PUT per URL, in order, with the job's type, and the bodies
      put together are the whole content. */
  lemma JobSendsWholeFile(job: PartsJob)
    requires job.Valid() && Contiguous(job.plan)
    requires job.plan[job.Count() - 1].End() == |job.content|
    requires SendParts(job, 0, 0).failure.None?
    ensures var puts := SendParts(job, 0, 0).puts;
            && |puts| == |job.urls|
            && (forall j :: 0 <= j < |puts| ==> puts[j].url == job.urls[j] && puts[j].contentType == job.mimeType)
            && Bodies(puts) == job.content
  {
    JobSendsEveryPart(job);
    JobSendsWholeContent(job);
    assert job.content[..|job.content|] == job.content;
  }

  // ---------------------------------------------------------------------------
  // Where the source as written panics

  /** Whether the upload loop as written panics: it reaches a part (every
      part before it accepted) whose as-written range runs backwards, so
      `make([]byte, partSize)` gets a negative length; or, for an empty file
      with a progress callback, it accepts a part and then divides by the
      zero file size. `UploadFile` follows the corrected plan and percentage
      instead, and agrees with the source wherever this is false. */
  predicate UploadPanics(opts: UploadFileOptions, env: UploadEnv) {
    && SessionReady(opts, env)
    && env.openError.None?
    && var size := |env.file.value|;
       var count := Planner.PartCount(size, opts.parts);
       var k := FirstRejected(env.partIo, 0, count);
       || (exists i :: 0 <= i < count && i <= k && Planner.PartAsWritten(size, count, i).length < 0)
       || (opts.onProgress && size == 0 && k > 0)
  }

  /** A safe plan, and a non-empty file whenever a callback is set, never
      panic. */
  lemma SafeUploadNeverPanics(opts: UploadFileOptions, env: UploadEnv)
    requires env.file.Ok?
    requires Planner.Safe(|env.file.value|, Planner.PartCount(|env.file.value|, opts.parts))
    requires |env.file.value| > 0 || !opts.onProgress
    ensures !UploadPanics(opts, env)
  {
    var size := |env.file.value|;
    Planner.SafeIffNoNegativeLength(size, Planner.PartCount(size, opts.parts));
  }

  /** Without a panic, every part the loop reaches is the part as written,
      and an empty file with a callback never gets as far as a report. */
  lemma PanicFreeRunFollowsSource(opts: UploadFileOptions, env: UploadEnv)
    requires SessionReady(opts, env) && env.openError.None?
    requires !UploadPanics(opts, env)
    ensures var size := |env.file.value|;
            var count := Planner.PartCount(size, opts.parts);
            var k := FirstRejected(env.partIo, 0, count);
            && (forall i :: 0 <= i < count && i <= k ==>
                  JobFor(opts, env).plan[i] == Planner.PartAsWritten(size, count, i))
            && (size == 0 && opts.onProgress ==> UploadFile(opts, env).progress == [])
  {
    var size := |env.file.value|;
    var count := Planner.PartCount(size, opts.parts);
    var k := FirstRejected(env.partIo, 0, count);
    JobForPlan(opts, env);
    forall i | 0 <= i < count && i <= k
      ensures JobFor(opts, env).plan[i] == Planner.PartAsWritten(size, count, i)
    {
      Planner.NonNegativeAgrees(size, count, i);
    }
    if size == 0 && opts.onProgress {
      var job := JobFor(opts, env);
      UploadRunsParts(opts, env);
      SendPartsProgress(job, 0, 0);
    }
  }

  /** The source completes an upload, without panicking, exactly when the
      session is ready, the file opens, every part is accepted, completion
      goes through, the plan is safe, and the file is non-empty whenever a
      callback is set. */
  lemma UploadSucceedsIffAsWritten(opts: UploadFileOptions, env: UploadEnv)
    ensures UploadFile(opts, env).result.Ok? && !UploadPanics(opts, env) <==>
              && SessionReady(opts, env)
              && env.openError.None?
              && (forall j :: 0 <= j < |env.initiate.value.presignedUrls| ==> Accepted(env.partIo(j)))
              && env.completeError.None?
              && Planner.Safe(|env.file.value|, Planner.PartCount(|env.file.value|, opts.parts))
              && (|env.file.value| > 0 || !opts.onProgress)
  {
    UploadSucceedsIff(opts, env);
    if SessionReady(opts, env) && env.openError.None? {
      var size := |env.file.value|;
      var count := Planner.PartCount(size, opts.parts);
      var k := FirstRejected(env.partIo, 0, count);
      Planner.SafeIffNoNegativeLength(size, count);
      if forall j :: 0 <= j < count ==> Accepted(env.partIo(j)) {
        assert k == count;
      }
    }
  }

  /** The setting of the 1-byte example: 3 requested parts, 3 URLs, and
      every part answered 200 with an ETag. */
  predicate OneByteInThreeParts(opts: UploadFileOptions, env: UploadEnv) {
    && opts.fileName != "" && opts.parts == 3
    && env.file.Ok? && |env.file.value| == 1
    && env.initiate.Ok? && |env.initiate.value.presignedUrls| == 3 && env.initiate.value.uploadId != ""
    && env.openError.None? && env.completeError.None?
    && (forall j: nat :: j < 3 ==> env.partIo(j) == Answered(200, "\"etag\""))
  }

  /** The 1-byte example gets a ready session and all three parts accepted. */
  lemma OneByteInThreePartsRuns(opts: UploadFileOptions, env: UploadEnv)
    requires OneByteInThreeParts(opts, env)
    ensures SessionReady(opts, env) && Planner.PartCount(1, opts.parts) == 3
    ensures forall j :: 0 <= j < 3 ==> Accepted(env.partIo(j))
    ensures FirstRejected(env.partIo, 0, 3) == 3
  {
    assert Accepted(env.partIo(0)) && Accepted(env.partIo(1)) && Accepted(env.partIo(2));
  }

  /** A 1-byte file in 3 parts, every part accepted: part 3 starts at byte 2
      and runs back to byte 1, so the source panics. */
  lemma OneByteInThreePartsPanics(opts: UploadFileOptions, env: UploadEnv)
    requires OneByteInThreeParts(opts, env)
    ensures UploadPanics(opts, env)
  {
    OneByteInThreePartsRuns(opts, env);
    Planner.OneByteInThreeParts();
    assert Planner.PartAsWritten(1, 3, 2).length < 0;
  }

  /** The same upload completes in the corrected model, with an empty third part. */
  lemma OneByteInThreePartsCompletes(opts: UploadFileOptions, env: UploadEnv)
    requires OneByteInThreeParts(opts, env)
    ensures UploadFile(opts, env).result.Ok?
  {
    OneByteInThreePartsRuns(opts, env);
    AllAcceptedCompletes(opts, env);
  }

  /** A ready session whose every part is accepted and whose complete call
      goes through succeeds. */
  lemma AllAcceptedCompletes(opts: UploadFileOptions, env: UploadEnv)
    requires SessionReady(opts, env) && env.openError.None? && env.completeError.None?
    requires forall j :: 0 <= j < |env.initiate.value.presignedUrls| ==> Accepted(env.partIo(j))
    ensures UploadFile(opts, env).result.Ok?
  {
    UploadSucceedsIff(opts, env);
  }

  /** The setting of the empty-file example: a callback set, one URL, and
      the one part answered 200 with an ETag. */
  predicate EmptyFileWithCallback(opts: UploadFileOptions, env: UploadEnv) {
    && opts.fileName != "" && opts.parts == 0 && opts.onProgress
    && env.file.Ok? && |env.file.value| == 0
    && env.initiate.Ok? && |env.initiate.value.presignedUrls| == 1 && env.initiate.value.uploadId != ""
    && env.openError.None?
    && env.partIo(0) == Answered(200, "\"etag\"")
  }

  /** Accepting any part of an empty file with a callback set panics. */
  lemma EmptyFileReportPanics(opts: UploadFileOptions, env: UploadEnv)
    requires SessionReady(opts, env) && env.openError.None?
    requires opts.onProgress && |env.file.value| == 0
    requires FirstRejected(env.partIo, 0, Planner.PartCount(0, opts.parts)) > 0
    ensures UploadPanics(opts, env)
  {
  }

  /** The empty-file example gets a ready session and its one part accepted. */
  lemma EmptyFileWithCallbackRuns(opts: UploadFileOptions, env: UploadEnv)
    requires EmptyFileWithCallback(opts, env)
    ensures SessionReady(opts, env) && Planner.PartCount(0, opts.parts) == 1
    ensures FirstRejected(env.partIo, 0, 1) == 1
  {
    assert Accepted(env.partIo(0));
  }

  /** The source divides by the zero file size after the one part. */
  lemma EmptyFileWithCallbackPanics(opts: UploadFileOptions, env: UploadEnv)
    requires EmptyFileWithCallback(opts, env)
    ensures UploadPanics(opts, env)
  {
    EmptyFileWithCallbackRuns(opts, env);
    EmptyFileReportPanics(opts, env);
  }

  /** A one-part job over empty content with a callback set reports 100%
      once its part is accepted. */
  lemma EmptyJobReportsComplete(job: PartsJob)
    requires job.Valid() && Contiguous(job.plan) && job.Count() == 1
    requires |job.content| == 0 && job.onProgress
    requires FirstRejected(job.io, 0, 1) == 1
    ensures |SendParts(job, 0, 0).progress| == 1
    ensures SendParts(job, 0, 0).progress[0].percentage == 100
  {
    SendPartsProgress(job, 0, 0);
  }

  /** The corrected model reports the empty upload as 100% done. */
  lemma EmptyFileWithCallbackReports(opts: UploadFileOptions, env: UploadEnv)
    requires EmptyFileWithCallback(opts, env)
    ensures |UploadFile(opts, env).progress| == 1
    ensures UploadFile(opts, env).progress[0].percentage == 100
  {
    EmptyFileWithCallbackRuns(opts, env);
    UploadRunsParts(opts, env);
    EmptyJobReportsComplete(JobFor(opts, env));
  }

  /** The preconditions of the two-part test upload: a 6 MiB file in 2
      parts, where every part is answered 200 with the quoted ETag
      "etag-part-1". */
  predicate SixMiBSetting(opts: UploadFileOptions, env: UploadEnv) {
    && opts.fileName == "test.pdf" && opts.mimeType == "application/pdf" && opts.parts == 2
    && env.file.Ok? && |env.file.value| == 6_291_456
    && env.initiate.Ok? && |env.initiate.value.presignedUrls| == 2
    && env.initiate.value.uploadId == "upload-id-456"
    && env.openError.None? && env.completeError.None?
    && (forall j: nat :: j < 2 ==> env.partIo(j) == Answered(200, "\"etag-part-1\""))
  }

  /** Once a named file is found, the initiate request goes out. */
  lemma UploadAnnounces(opts: UploadFileOptions, env: UploadEnv)
    requires opts.fileName != "" && env.file.Ok?
    ensures UploadFile(opts, env).initiate.Some?
  {
  }

  /** The two-part test upload gets a usable session: 2 URLs for 2 planned parts. */
  lemma SixMiBSessionReady(opts: UploadFileOptions, env: UploadEnv)
    requires SixMiBSetting(opts, env)
    ensures SessionReady(opts, env)
  {
    Planner.SixMiBCount();
  }

  /** The two-part test upload succeeds. */
  lemma SixMiBUploadSucceeds(opts: UploadFileOptions, env: UploadEnv)
    requires SixMiBSetting(opts, env)
    ensures UploadFile(opts, env).result.Ok?
  {
    SixMiBSessionReady(opts, env);
    assert Accepted(env.partIo(0)) && Accepted(env.partIo(1));
    UploadSucceedsIff(opts, env);
  }

  /** In the two-part test upload, the initiate request announces 2 parts of
      the explicit type, and the session is echoed back. */
  lemma SixMiBUploadAnswers(opts: UploadFileOptions, env: UploadEnv)
    requires SixMiBSetting(opts, env)
    ensures var run := UploadFile(opts, env);
            && run.initiate == Some(InitiateRequest("test.pdf", 6_291_456, "application/pdf", 2))
            && run.result == Ok(Respond(env.initiate.value))
  {
    Planner.SixMiBCount();
    UploadAnnounces(opts, env);
    SixMiBUploadSucceeds(opts, env);
    UploadResponseMirrorsSession(opts, env);
  }

  /** In the two-part test upload, the completion lists both parts with the
      quotes removed from their ETags. */
  lemma SixMiBUploadCompletes(opts: UploadFileOptions, env: UploadEnv)
    requires SixMiBSetting(opts, env)
    ensures var run := UploadFile(opts, env);
            && run.complete.Some?
            && |run.complete.value.parts| == 2
            && run.complete.value.parts[0] == CompletedPart("etag-part-1", 1)
            && run.complete.value.parts[1] == CompletedPart("etag-part-1", 2)
  {
    SixMiBUploadSucceeds(opts, env);
    TrimQuotesExamples();
    UploadCompletion(opts, env);
    var parts := UploadFile(opts, env).complete.value.parts;
    assert parts[0] == CompletedPart(TrimQuotes(env.partIo(0).etag), 1);
    assert parts[1] == CompletedPart(TrimQuotes(env.partIo(1).etag), 2);
  }

  /** The two-part test upload plans 2 parts. */
  lemma SixMiBJobCount(opts: UploadFileOptions, env: UploadEnv)
    requires SixMiBSetting(opts, env)
    ensures SessionReady(opts, env) && JobFor(opts, env).Count() == 2
  {
    SixMiBSessionReady(opts, env);
    Planner.SixMiBCount();
  }

  /** The two-part test upload cuts the file into two 3 MiB halves. */
  lemma SixMiBJobHalves(opts: UploadFileOptions, env: UploadEnv)
    requires SixMiBSetting(opts, env)
    ensures SessionReady(opts, env) && JobFor(opts, env).Count() == 2
    ensures JobFor(opts, env).plan[0] == Planner.PartRange(0, 3_145_728)
    ensures JobFor(opts, env).plan[1] == Planner.PartRange(3_145_728, 3_145_728)
  {
    SixMiBJobCount(opts, env);
    Planner.SixMiBInTwoParts();
    JobForPlan(opts, env);
  }

  /** A job of two accepted 3 MiB halves sends exactly those halves. */
  lemma TwoHalvesSent(job: PartsJob)
    requires job.Valid() && job.Count() == 2 && |job.content| == 6_291_456
    requires job.plan[0] == Planner.PartRange(0, 3_145_728)
    requires job.plan[1] == Planner.PartRange(3_145_728, 3_145_728)
    requires Accepted(job.io(0)) && Accepted(job.io(1))
    ensures var puts := SendParts(job, 0, 0).puts;
            && |puts| == 2
            && puts[0].body == job.content[..3_145_728]
            && puts[1].body == job.content[3_145_728..]
  {
    SendPartsPuts(job, 0, 0);
    assert FirstRejected(job.io, 0, 2) == 2;
    var puts := SendParts(job, 0, 0).puts;
    assert puts[0] == PutFor(job, 0);
    assert puts[1] == PutFor(job, 1);
  }

  /** The initiate answer carries one URL where two parts were planned: the
      upload stops with the count mismatch and nothing is opened or sent. */
  lemma UrlCountMismatchScenario(opts: UploadFileOptions, env: UploadEnv)
    requires opts.fileName == "test.pdf" && opts.parts == 2
    requires env.file.Ok? && |env.file.value| == 6_291_456
    requires env.initiate.Ok? && |env.initiate.value.presignedUrls| == 1
    ensures var run := UploadFile(opts, env);
            && run.result == Err(PartCountMismatch(2, 1))
            && !run.fileOpened && run.puts == [] && run.complete.None?
  {
    Planner.SixMiBCount();
  }
}
