/** Reading the status of an operation, once and by polling. The transport
    and the clock are parameters: a status call either fails before an
    answer arrives or yields the decoded `data` object, and the poll loop
    reads the time elapsed since it started from a finite list of ticks,
    one per pass. */
module Status {
  import opened Wrappers
  import opened Failures
  import Errors
  import Client

  const StatusPrefix: string := "/v1/biz/status/"
  const DefaultInterval: int := 2 * Client.Second
  const DefaultTimeout: int := 300 * Client.Second      // 5 minutes

  const Completed: string := "completed"
  const FailedStatus: string := "failed"

  datatype StatusOptions = StatusOptions(mainTaskId: string, fileTaskId: string)

  datatype FileTaskStatus = FileTaskStatus(
    fileKey: string,
    status: string,
    downloadLink: string,
    errorCode: string,
    errorMessage: string)

  /** The decoded `data` object of a status answer. */
  datatype StatusData = StatusData(operationStatus: string, filesData: seq<FileTaskStatus>)

  datatype StatusResponse = StatusResponse(
    operationStatus: string,
    filesData: seq<FileTaskStatus>,
    operationStatusAlias: string,
    filesDataAlias: seq<FileTaskStatus>)
  {
    predicate AliasesMirror() {
      operationStatusAlias == operationStatus && filesDataAlias == filesData
    }
  }

  /** What a status call did: the path it fetched, if any, and what it returned. */
  datatype StatusCall = StatusCall(request: Option<string>, result: Result<StatusResponse, Failure>)

  /** The path of a status request: the main task, then the file task when given. */
  function StatusPath(options: StatusOptions): (path: string)
    ensures |path| >= |StatusPrefix| + |options.mainTaskId|
    ensures path[..|StatusPrefix|] == StatusPrefix
    ensures path[|StatusPrefix|..|StatusPrefix| + |options.mainTaskId|] == options.mainTaskId
  {
    StatusPrefix + options.mainTaskId
      + (if options.fileTaskId != "" then "/" + options.fileTaskId else "")
  }

  /** Reads a status path back into the task ids, splitting at the first
      '/' after the prefix. */
  function ParseStatusPath(path: string): Option<StatusOptions> {
    if |path| < |StatusPrefix| || path[..|StatusPrefix|] != StatusPrefix then None
    else
      var rest := path[|StatusPrefix|..];
      var i := Errors.IndexOf(rest, '/');
      if i == |rest| then Some(StatusOptions(rest, ""))
      else Some(StatusOptions(rest[..i], rest[i + 1..]))
  }

  /** The path identifies the tasks, as long as the main task id holds no
      '/' (the ids are placed in the path unescaped). */
  lemma StatusPathRoundTrip(options: StatusOptions)
    requires forall k :: 0 <= k < |options.mainTaskId| ==> options.mainTaskId[k] != '/'
    ensures ParseStatusPath(StatusPath(options)) == Some(options)
  {
    var main := options.mainTaskId;
    var tail := if options.fileTaskId != "" then "/" + options.fileTaskId else "";
    var rest := main + tail;
    var path := StatusPrefix + rest;
    assert StatusPath(options) == path;
    assert path[..|StatusPrefix|] == StatusPrefix;
    assert path[|StatusPrefix|..] == rest;
    if options.fileTaskId == "" {
      assert rest == main;
    } else {
      Errors.IndexOfAfter(main, '/', tail);
      assert rest[..|main|] == main;
      assert rest[|main| + 1..] == options.fileTaskId;
    }
  }

  /** The answer's status and files, under both of their names. */
  function RespondStatus(data: StatusData): (r: StatusResponse)
    ensures r.AliasesMirror()
    ensures r.operationStatus == data.operationStatus && r.filesData == data.filesData
  {
    StatusResponse(data.operationStatus, data.filesData, data.operationStatus, data.filesData)
  }

  function GetStatus(options: StatusOptions, answer: Result<StatusData, string>): (c: StatusCall)
    // an empty main task id is refused before anything is fetched
    ensures c.request.None? <==> options.mainTaskId == ""
    ensures options.mainTaskId == "" ==> c.result == Err(MainTaskIdRequired)
    ensures options.mainTaskId != "" ==>
              && c.request == Some(StatusPath(options))
              && (answer.Err? ==> c.result == Err(StatusFailed(answer.error)))
              && (answer.Ok? ==> c.result == Ok(RespondStatus(answer.value)))
  {
    if options.mainTaskId == "" then StatusCall(None, Err(MainTaskIdRequired))
    else
      var path := StatusPath(options);
      match answer
      case Err(e) => StatusCall(Some(path), Err(StatusFailed(e)))
      case Ok(data) => StatusCall(Some(path), Ok(RespondStatus(data)))
  }

  predicate Terminal(operationStatus: string) {
    operationStatus == Completed || operationStatus == FailedStatus
  }

  /** Durations are nanoseconds. */
  datatype PollOptions = PollOptions(
    status: StatusOptions,
    interval: int,
    timeout: int,
    onUpdate: bool)

  /** One pass of the loop: the time elapsed since polling started, read
      before the pass's status call, and what that call would get. */
  datatype Tick = Tick(elapsed: int, answer: Result<StatusData, string>)

  /** `Pending` means the ticks ran out while the loop was still polling. */
  datatype PollOutcome = Finished(response: StatusResponse) | Stopped(failure: Failure) | Pending

  /** What polling did: its outcome, the status calls it made, the updates it
      delivered and the sleeps between passes. */
  datatype PollRun = PollRun(outcome: PollOutcome, calls: nat, updates: seq<StatusResponse>, sleeps: seq<int>)

  /** A zero interval or timeout falls back to its default; any other value,
      negative included, is kept. */
  function EffectiveInterval(interval: int): (d: int)
    ensures interval == 0 ==> d == DefaultInterval
    ensures interval != 0 ==> d == interval
    ensures interval >= 0 ==> d > 0
  {
    if interval == 0 then DefaultInterval else interval
  }

  function EffectiveTimeout(timeout: int): (d: int)
    ensures timeout == 0 ==> d == DefaultTimeout
    ensures timeout != 0 ==> d == timeout
    ensures timeout >= 0 ==> d > 0
  {
    if timeout == 0 then DefaultTimeout else timeout
  }

  /** A pass that polls again: in time, answered, and not yet terminal. */
  predicate Continues(options: StatusOptions, timeout: int, t: Tick) {
    && t.elapsed <= timeout
    && GetStatus(options, t.answer).result.Ok?
    && !Terminal(GetStatus(options, t.answer).result.value.operationStatus)
  }

  /** The first pass at or after `i` that does not poll again, or the number
      of ticks when every remaining pass does. */
  function FirstStop(options: StatusOptions, timeout: int, ticks: seq<Tick>, i: nat): (k: nat)
    requires i <= |ticks|
    ensures i <= k <= |ticks|
    ensures forall j :: i <= j < k ==> Continues(options, timeout, ticks[j])
    ensures k < |ticks| ==> !Continues(options, timeout, ticks[k])
    decreases |ticks| - i
  {
    if i == |ticks| || !Continues(options, timeout, ticks[i]) then i
    else FirstStop(options, timeout, ticks, i + 1)
  }

  /** The loop from pass `i` on, with the interval and timeout already defaulted. */
  function PollFrom(o: PollOptions, interval: int, timeout: int, ticks: seq<Tick>, i: nat): (run: PollRun)
    requires i <= |ticks|
    ensures |run.sleeps| <= run.calls <= |ticks| - i
    ensures |run.updates| <= run.calls
    ensures !o.onUpdate ==> run.updates == []
    ensures run.outcome.Pending? ==> run.calls == |ticks| - i
    decreases |ticks| - i
  {
    if i == |ticks| then PollRun(Pending, 0, [], [])
    else if ticks[i].elapsed > timeout then PollRun(Stopped(PollTimedOut(timeout)), 0, [], [])
    else
      match GetStatus(o.status, ticks[i].answer).result
      case Err(f) => PollRun(Stopped(f), 1, [], [])
      case Ok(s) =>
        var updates := if o.onUpdate then [s] else [];
        if Terminal(s.operationStatus) then PollRun(Finished(s), 1, updates, [])
        else
          var rest := PollFrom(o, interval, timeout, ticks, i + 1);
          PollRun(rest.outcome, rest.calls + 1, updates + rest.updates, [interval] + rest.sleeps)
  }

  /** `PollStatus`: the loop over the passes the clock allows, with the
      interval and timeout defaulted. */
  function PollStatus(o: PollOptions, ticks: seq<Tick>): (run: PollRun)
    ensures var timeout := EffectiveTimeout(o.timeout);
            var k := FirstStop(o.status, timeout, ticks, 0);
            && (run.outcome.Pending? <==> k == |ticks|)
            && (run.outcome == Stopped(PollTimedOut(timeout)) <==> k < |ticks| && ticks[k].elapsed > timeout)
            && (run.outcome.Finished? <==>
                  && k < |ticks| && ticks[k].elapsed <= timeout
                  && GetStatus(o.status, ticks[k].answer).result.Ok?)
            && |run.sleeps| == k
            && (forall j :: 0 <= j < k ==> run.sleeps[j] == EffectiveInterval(o.interval))
  {
    PollFromStopsAtFirstStop(o, EffectiveInterval(o.interval), EffectiveTimeout(o.timeout), ticks, 0);
    PollFrom(o, EffectiveInterval(o.interval), EffectiveTimeout(o.timeout), ticks, 0)
  }

  /** The response of the status call made on pass `j`. */
  function ResponseAt(options: StatusOptions, t: Tick): StatusResponse
    requires GetStatus(options, t.answer).result.Ok?
  {
    GetStatus(options, t.answer).result.value
  }

  /** The loop's calls and outcome from pass `i`, in terms of the first pass
      `k` that does not poll again: one call per pass up to `k`, one more
      when pass `k` got past the clock, and the outcome pass `k` gives. */
  lemma {:induction false} PollFromOutcome(o: PollOptions, interval: int, timeout: int, ticks: seq<Tick>, i: nat)
    requires i <= |ticks|
    decreases |ticks| - i
    ensures var run := PollFrom(o, interval, timeout, ticks, i);
            var k := FirstStop(o.status, timeout, ticks, i);
            var fetched := k < |ticks| && ticks[k].elapsed <= timeout;
            && run.calls == k - i + (if fetched then 1 else 0)
            && (k == |ticks| ==> run.outcome == Pending)
            && (k < |ticks| && ticks[k].elapsed > timeout ==> run.outcome == Stopped(PollTimedOut(timeout)))
            && (fetched ==>
                  var c := GetStatus(o.status, ticks[k].answer);
                  && (c.result.Err? ==> run.outcome == Stopped(c.result.error))
                  && (c.result.Ok? ==> run.outcome == Finished(c.result.value)))
  {
    if i < |ticks| && Continues(o.status, timeout, ticks[i]) {
      PollFromOutcome(o, interval, timeout, ticks, i + 1);
    }
  }

  /** The loop sleeps the interval after each pass before `k`, and only then. */
  lemma {:induction false} PollFromSleeps(o: PollOptions, interval: int, timeout: int, ticks: seq<Tick>, i: nat)
    requires i <= |ticks|
    decreases |ticks| - i
    ensures var run := PollFrom(o, interval, timeout, ticks, i);
            var k := FirstStop(o.status, timeout, ticks, i);
            && |run.sleeps| == k - i
            && (forall j :: 0 <= j < |run.sleeps| ==> run.sleeps[j] == interval)
  {
    if i < |ticks| && Continues(o.status, timeout, ticks[i]) {
      PollFromSleeps(o, interval, timeout, ticks, i + 1);
    }
  }

  /** When asked to, the loop delivers every response it got, in order. */
  lemma PollFromUpdates(o: PollOptions, interval: int, timeout: int, ticks: seq<Tick>, i: nat)
    requires i <= |ticks|
    ensures var run := PollFrom(o, interval, timeout, ticks, i);
            var k := FirstStop(o.status, timeout, ticks, i);
            var fetched := k < |ticks| && ticks[k].elapsed <= timeout;
            && |run.updates| == (if !o.onUpdate then 0
                                 else k - i + (if fetched && GetStatus(o.status, ticks[k].answer).result.Ok? then 1 else 0))
            && (o.onUpdate ==> forall j :: 0 <= j < |run.updates| ==>
                  GetStatus(o.status, ticks[i + j].answer).result.Ok?
                  && run.updates[j] == ResponseAt(o.status, ticks[i + j]))
  {
    PollFromUpdateCount(o, interval, timeout, ticks, i);
    PollFromUpdateValues(o, interval, timeout, ticks, i);
  }

  lemma {:induction false} PollFromUpdateCount(o: PollOptions, interval: int, timeout: int, ticks: seq<Tick>, i: nat)
    requires i <= |ticks|
    decreases |ticks| - i
    ensures var run := PollFrom(o, interval, timeout, ticks, i);
            var k := FirstStop(o.status, timeout, ticks, i);
            var fetched := k < |ticks| && ticks[k].elapsed <= timeout;
            |run.updates| == (if !o.onUpdate then 0
                              else k - i + (if fetched && GetStatus(o.status, ticks[k].answer).result.Ok? then 1 else 0))
  {
    if i < |ticks| && Continues(o.status, timeout, ticks[i]) {
      PollFromUpdateCount(o, interval, timeout, ticks, i + 1);
    }
  }

  lemma {:induction false} PollFromUpdateValues(o: PollOptions, interval: int, timeout: int, ticks: seq<Tick>, i: nat)
    requires i <= |ticks|
    decreases |ticks| - i
    ensures var run := PollFrom(o, interval, timeout, ticks, i);
            o.onUpdate ==> forall j :: i <= j < i + |run.updates| ==>
              GetStatus(o.status, ticks[j].answer).result.Ok?
              && run.updates[j - i] == ResponseAt(o.status, ticks[j])
  {
    if i < |ticks| && Continues(o.status, timeout, ticks[i]) {
      PollFromUpdateValues(o, interval, timeout, ticks, i + 1);
      if o.onUpdate {
        assert PollFrom(o, interval, timeout, ticks, i).updates
            == [ResponseAt(o.status, ticks[i])] + PollFrom(o, interval, timeout, ticks, i + 1).updates;
      }
    }
  }

  /** The loop from pass `i`, in terms of the first pass `k` that does not
      poll again: it made one call per pass up to `k` (and one more when pass
      `k` got past the clock), slept the interval after each pass before `k`,
      delivered every response it got when asked to, and ended as pass `k`
      says. */
  lemma PollFromStopsAtFirstStop(o: PollOptions, interval: int, timeout: int, ticks: seq<Tick>, i: nat)
    requires i <= |ticks|
    ensures var run := PollFrom(o, interval, timeout, ticks, i);
            var k := FirstStop(o.status, timeout, ticks, i);
            var fetched := k < |ticks| && ticks[k].elapsed <= timeout;
            && run.calls == k - i + (if fetched then 1 else 0)
            && |run.sleeps| == k - i
            && (forall j :: 0 <= j < |run.sleeps| ==> run.sleeps[j] == interval)
            && (k == |ticks| ==> run.outcome == Pending)
            && (k < |ticks| && ticks[k].elapsed > timeout ==> run.outcome == Stopped(PollTimedOut(timeout)))
            && (fetched ==>
                  var c := GetStatus(o.status, ticks[k].answer);
                  && (c.result.Err? ==> run.outcome == Stopped(c.result.error))
                  && (c.result.Ok? ==> run.outcome == Finished(c.result.value)))
            && |run.updates| == (if !o.onUpdate then 0
                                 else k - i + (if fetched && GetStatus(o.status, ticks[k].answer).result.Ok? then 1 else 0))
            && (o.onUpdate ==> forall j :: 0 <= j < |run.updates| ==>
                  GetStatus(o.status, ticks[i + j].answer).result.Ok?
                  && run.updates[j] == ResponseAt(o.status, ticks[i + j]))
  {
    PollFromOutcome(o, interval, timeout, ticks, i);
    PollFromSleeps(o, interval, timeout, ticks, i);
    PollFromUpdates(o, interval, timeout, ticks, i);
  }

  /** Polling finishes exactly when some pass is the first not to poll again
      and was fetched with a terminal answer; it then returns that pass's
      snapshot after one call per pass and a sleep between passes. */
  lemma PollFinishedIff(o: PollOptions, ticks: seq<Tick>)
    ensures var run := PollStatus(o, ticks);
            var timeout := EffectiveTimeout(o.timeout);
            var k := FirstStop(o.status, timeout, ticks, 0);
            && (run.outcome.Finished? <==>
                  && k < |ticks| && ticks[k].elapsed <= timeout
                  && GetStatus(o.status, ticks[k].answer).result.Ok?)
            && (run.outcome.Finished? ==>
                  && run.outcome.response == ResponseAt(o.status, ticks[k])
                  && Terminal(run.outcome.response.operationStatus)
                  && run.outcome.response.AliasesMirror()
                  && run.calls == k + 1
                  && |run.sleeps| == k)
  {
    PollFromStopsAtFirstStop(o, EffectiveInterval(o.interval), EffectiveTimeout(o.timeout), ticks, 0);
  }

  /** Polling times out exactly when the clock is past the timeout at the
      start of the first pass that does not poll again; no call is made on
      that pass. */
  lemma PollTimedOutIff(o: PollOptions, ticks: seq<Tick>)
    ensures var run := PollStatus(o, ticks);
            var timeout := EffectiveTimeout(o.timeout);
            var k := FirstStop(o.status, timeout, ticks, 0);
            && (run.outcome == Stopped(PollTimedOut(timeout)) <==>
                  k < |ticks| && ticks[k].elapsed > timeout)
            && (k < |ticks| && ticks[k].elapsed > timeout ==> run.calls == k)
  {
    PollFromStopsAtFirstStop(o, EffectiveInterval(o.interval), EffectiveTimeout(o.timeout), ticks, 0);
  }

  /** A status call that fails ends polling at once with that call's error,
      whatever time remains. */
  lemma PollStopsOnCallFailure(o: PollOptions, ticks: seq<Tick>, k: nat)
    requires k < |ticks|
    requires forall j :: 0 <= j < k ==> Continues(o.status, EffectiveTimeout(o.timeout), ticks[j])
    requires ticks[k].elapsed <= EffectiveTimeout(o.timeout)
    requires GetStatus(o.status, ticks[k].answer).result.Err?
    ensures PollStatus(o, ticks).outcome == Stopped(GetStatus(o.status, ticks[k].answer).result.error)
    ensures PollStatus(o, ticks).calls == k + 1
  {
    var timeout := EffectiveTimeout(o.timeout);
    assert FirstStop(o.status, timeout, ticks, 0) == k by {
      FirstStopIsFirst(o.status, timeout, ticks, 0, k);
    }
    PollFromStopsAtFirstStop(o, EffectiveInterval(o.interval), timeout, ticks, 0);
  }

  /** `FirstStop` is the first failing pass: any pass that does not poll
      again, with every earlier one polling again, is it. */
  lemma {:induction false} FirstStopIsFirst(options: StatusOptions, timeout: int, ticks: seq<Tick>, i: nat, k: nat)
    requires i <= k < |ticks|
    requires forall j :: i <= j < k ==> Continues(options, timeout, ticks[j])
    requires !Continues(options, timeout, ticks[k])
    ensures FirstStop(options, timeout, ticks, i) == k
    decreases k - i
  {
    if i < k {
      FirstStopIsFirst(options, timeout, ticks, i + 1, k);
    }
  }

  /** With an empty main task id the first pass in time fails with that
      error, without fetching anything. */
  lemma PollNeedsMainTask(o: PollOptions, ticks: seq<Tick>)
    requires o.status.mainTaskId == ""
    requires |ticks| > 0 && ticks[0].elapsed <= EffectiveTimeout(o.timeout)
    ensures PollStatus(o, ticks).outcome == Stopped(MainTaskIdRequired)
    ensures PollStatus(o, ticks).updates == []
  {
  }

  /** The clock reading on pass `j` of an honest clock: it starts at or after
      zero and advances by at least the interval slept between passes. */
  predicate ClockAdvances(ticks: seq<Tick>, interval: int) {
    && (|ticks| > 0 ==> ticks[0].elapsed >= 0)
    && (forall j :: 0 < j < |ticks| ==> ticks[j].elapsed >= ticks[j - 1].elapsed + interval)
  }

  lemma {:induction false} ClockAtLeast(ticks: seq<Tick>, interval: int, j: nat)
    requires ClockAdvances(ticks, interval) && interval > 0
    requires j < |ticks|
    ensures ticks[j].elapsed >= j * interval
  {
    if j > 0 {
      ClockAtLeast(ticks, interval, j - 1);
      assert j * interval == (j - 1) * interval + interval;
    }
  }

  /** With a non-negative interval and an honest clock, every pass that
      polls again started within the timeout, so there are at most
      `timeout / interval + 1` of them. */
  lemma PollsWithinTimeout(o: PollOptions, ticks: seq<Tick>)
    requires o.interval >= 0
    requires ClockAdvances(ticks, EffectiveInterval(o.interval))
    ensures var interval := EffectiveInterval(o.interval);
            var timeout := EffectiveTimeout(o.timeout);
            var k := FirstStop(o.status, timeout, ticks, 0);
            k > 0 ==> (k - 1) * interval <= timeout
  {
    var interval := EffectiveInterval(o.interval);
    var timeout := EffectiveTimeout(o.timeout);
    var k := FirstStop(o.status, timeout, ticks, 0);
    if k > 0 {
      ClockAtLeast(ticks, interval, k - 1);
      assert Continues(o.status, timeout, ticks[k - 1]);
    }
  }

  /** Polling never runs past the timeout: a window of more ticks than
      `timeout / interval + 1` always reaches an outcome. */
  lemma PollEndsInTime(o: PollOptions, ticks: seq<Tick>)
    requires o.interval >= 0
    requires ClockAdvances(ticks, EffectiveInterval(o.interval))
    ensures var interval := EffectiveInterval(o.interval);
            var timeout := EffectiveTimeout(o.timeout);
            |ticks| > 0 && (|ticks| - 1) * interval > timeout ==> PollStatus(o, ticks).outcome != Pending
  {
    var interval := EffectiveInterval(o.interval);
    var timeout := EffectiveTimeout(o.timeout);
    if |ticks| > 0 && (|ticks| - 1) * interval > timeout {
      var last := |ticks| - 1;
      ClockAtLeast(ticks, interval, last);
      assert !Continues(o.status, timeout, ticks[last]);
      assert FirstStop(o.status, timeout, ticks, 0) < |ticks|;
      PollFromStopsAtFirstStop(o, interval, timeout, ticks, 0);
    }
  }

  const TestQueued: StatusData :=
    StatusData("queued", [FileTaskStatus("file-key-123", "queued", "", "", "")])
  const TestCompleted: StatusData :=
    StatusData("completed", [FileTaskStatus("file-key-123", "completed", "https://files.d3.com/output.png", "", "")])

  /** Polling task "task-123" every 5 ms for up to 1 s, with the first
      answer queued and the second completed, returns the completed snapshot
      with its download link after two calls and one sleep. */
  lemma QueuedThenCompleted()
    ensures var o := PollOptions(StatusOptions("task-123", ""), 5_000_000, Client.Second, false);
            var run := PollStatus(o, [Tick(0, Ok(TestQueued)), Tick(5_000_000, Ok(TestCompleted))]);
            && run.outcome == Finished(RespondStatus(TestCompleted))
            && run.outcome.response.filesData[0].downloadLink == "https://files.d3.com/output.png"
            && run.calls == 2
            && run.sleeps == [5_000_000]
            && run.updates == []
  {
    var o := PollOptions(StatusOptions("task-123", ""), 5_000_000, Client.Second, false);
    var ticks := [Tick(0, Ok(TestQueued)), Tick(5_000_000, Ok(TestCompleted))];
    StatusExamples();
    assert PollFrom(o, 5_000_000, Client.Second, ticks, 1) == PollRun(Finished(RespondStatus(TestCompleted)), 1, [], []);
  }

  /** The same task answered queued twice before completing, with updates
      asked for: three calls, two sleeps, and every snapshot delivered. */
  lemma TwiceQueuedThenCompleted()
    ensures var o := PollOptions(StatusOptions("task-123", ""), 5_000_000, Client.Second, true);
            var run := PollStatus(o, [Tick(0, Ok(TestQueued)), Tick(5_000_000, Ok(TestQueued)),
                                      Tick(10_000_000, Ok(TestCompleted))]);
            && run.outcome == Finished(RespondStatus(TestCompleted))
            && run.calls == 3
            && run.sleeps == [5_000_000, 5_000_000]
            && run.updates == [RespondStatus(TestQueued), RespondStatus(TestQueued), RespondStatus(TestCompleted)]
  {
    var o := PollOptions(StatusOptions("task-123", ""), 5_000_000, Client.Second, true);
    var ticks := [Tick(0, Ok(TestQueued)), Tick(5_000_000, Ok(TestQueued)), Tick(10_000_000, Ok(TestCompleted))];
    StatusExamples();
    var done := RespondStatus(TestCompleted);
    var queued := RespondStatus(TestQueued);
    assert PollFrom(o, 5_000_000, Client.Second, ticks, 2) == PollRun(Finished(done), 1, [done], []);
    assert PollFrom(o, 5_000_000, Client.Second, ticks, 1) == PollRun(Finished(done), 2, [queued] + [done], [5_000_000]);
    assert PollFrom(o, 5_000_000, Client.Second, ticks, 0)
        == PollRun(Finished(done), 3, [queued] + ([queued] + [done]), [5_000_000] + [5_000_000]);
  }

  /** A zero interval and timeout fall back to 2 s and 5 min: a task still
      queued when 5 min have passed times out with the default timeout. */
  lemma DefaultsTimeOut()
    ensures var o := PollOptions(StatusOptions("task-123", ""), 0, 0, false);
            var run := PollStatus(o, [Tick(0, Ok(TestQueued)), Tick(DefaultTimeout + 1, Ok(TestQueued))]);
            && run.outcome == Stopped(PollTimedOut(300 * Client.Second))
            && run.calls == 1
            && run.sleeps == [2 * Client.Second]
  {
    var o := PollOptions(StatusOptions("task-123", ""), 0, 0, false);
    var ticks := [Tick(0, Ok(TestQueued)), Tick(DefaultTimeout + 1, Ok(TestQueued))];
    StatusExamples();
    assert PollFrom(o, DefaultInterval, DefaultTimeout, ticks, 1) == PollRun(Stopped(PollTimedOut(DefaultTimeout)), 0, [], []);
  }

  /** The two test answers: queued is not terminal, completed is. */
  lemma StatusExamples()
    ensures !Terminal(TestQueued.operationStatus)
    ensures Terminal(TestCompleted.operationStatus)
  {
    assert TestQueued.operationStatus[0] == 'q';
  }
}
