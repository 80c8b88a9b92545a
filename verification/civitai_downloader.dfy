/** The stand-alone CivitAI downloader: the worker `run_download_script`, the
    route `/download` that starts it and the route `/stop`, on `download_status`
    and the `current_process` handle. The worker reads the process' output with
    `readline` and `poll` on the handle itself, so once a stop has dropped the
    handle the next read fails. */
module CivitaiDownloader {
  import opened Text
  import opened ProgressParser
  import opened Jobs

  const CompleteMessage: string := "Download Complete!"

  const FailureMessage: string := "Error during download. Please check the logs."

  /** `Config.MODEL_PATHS[model_type]` under the models folder, or `None` for an unknown type. */
  function ModelPath(modelsPath: string, modelType: string): Option<string> {
    if modelType == "lora" then Some(PathJoin(modelsPath, "loras"))
    else if modelType == "checkpoint" then Some(PathJoin(modelsPath, "checkpoints"))
    else None
  }

  /** The argument list of the aria2c process. */
  function Arguments(dir: string, file: string, url: string): seq<string> {
    ["aria2c", "-x", "16", "-s", "16", "-d", dir, "-o", file, url]
  }

  /** The end of `stop_download`, once the terminated process has exited (or
      been killed after five seconds): the handle is dropped and the status says
      stopped, whatever the worker wrote meanwhile. */
  function AfterStopEnd(j: FileJob): FileJob {
    FileJob(j.status.(phase := Stopped, message := StopMessage), false)
  }

  /** `stop_download` as one step: only a running process is stopped. */
  function AfterStop(j: FileJob): FileJob {
    if j.live then AfterStopEnd(j) else j
  }

  /** The handlers that may run beside the worker; the status route only reads. */
  function AfterHandler(j: FileJob, h: Handler): FileJob {
    match h
    case StopRequest => AfterStop(j)
    case StatusPoll => j
  }

  /** One non-empty read, stripped: a sample updates the fields and says
      completed at 100%; any other line, a blank one too, becomes the message. */
  function AfterLine(s: FileStatus, line: string, file: string): FileStatus {
    var r := ParseStandalone(line);
    if Reported(r) then
      var s1 := WithSample(s, r.value);
      if r.value.percent == 100 then s1.(phase := Completed, message := CompleteMessage)
      else s1.(message := "Downloading " + file + "...")
    else s.(message := line)
  }

  function AfterStep(j: FileJob, step: Step, file: string): FileJob {
    match step
    case Output(raw) => if raw == [] then j else j.(status := AfterLine(j.status, Strip(raw), file))
    case Interrupt(h) => AfterHandler(j, h)
  }

  /** The read loop; it ends when the process has ended, or at the first read
      after a stop has dropped the handle. */
  function AfterSteps(j: FileJob, steps: seq<Step>, file: string): FileJob
    decreases |steps|
  {
    if steps == [] || !j.live then j else AfterSteps(AfterStep(j, steps[0], file), steps[1..], file)
  }

  /** What the worker leaves and the argument list it spawned, if any. */
  datatype Outcome = Outcome(state: FileJob, spawned: Option<seq<string>>)

  /** The status the worker starts from: every key is reset. */
  const Starting: FileStatus := FileStatus(Downloading, "Starting download...", 0, "0B", "0B", "0B/s", "Unknown")

  /** `run_download_script`; the handle is dropped when it returns. */
  function DownloadRun(j: FileJob, url: string, modelType: string, filename: string, token: string,
                       modelsPath: string, transfer: Transfer): Outcome
  {
    var s0 := Starting;
    match ModelPath(modelsPath, modelType)
    case None => Outcome(FileJob(s0.(phase := Error, message := ErrorText(KeyErrorText(modelType))), false), None)
    case Some(dir) =>
      var file := NamedFile(url, filename);
      var args := Arguments(dir, file, url + "?token=" + token);
      match transfer
      case SpawnFailed(reason) => Outcome(FileJob(s0.(phase := Error, message := ErrorText(reason)), false), None)
      case Ran(steps, code, _) =>
        var j1 := AfterSteps(FileJob(s0, true), steps, file);
        var s1 :=
          if !j1.live then j1.status.(phase := Error, message := ErrorText(MissingAttribute("stdout")))
          else if code == 0 then j1.status.(phase := Completed, message := CompleteMessage, progress := 100)
          else j1.status.(phase := Error, message := FailureMessage);
        Outcome(FileJob(s1, false), Some(args))
  }

  /** The answer of `/download`. */
  datatype Response = BadRequest(error: string) | Started

  /** `/download`; an absent form field is the empty string. */
  function RequestResponse(token: string, url: string, modelType: string, filename: string, modelsPath: string): Response {
    if token == [] || url == [] || modelType == [] || filename == [] then
      BadRequest("Token, URL, model type, and filename are required")
    else if ModelPath(modelsPath, modelType).None? then BadRequest("Invalid model type")
    else Started
  }

  /** The status after a request: an accepted one says it is initializing. */
  function AfterRequest(j: FileJob, response: Response): FileJob {
    if response.Started? then j.(status := j.status.(phase := Idle, message := "Initializing download...")) else j
  }

  class Downloader {
    /** `download_status` */
    var status: FileStatus
    /** `current_process is not None` */
    var live: bool

    function State(): FileJob
      reads this
    {
      FileJob(status, live)
    }

    constructor ()
      ensures State() == FileJob(IdleStatus, false)
    {
      status := IdleStatus;
      live := false;
    }

    /** The start of `/stop`: it acts only when a process runs, and then
        terminates it, which ends the output the worker reads. */
    method StopBegin() returns (stopping: bool)
      ensures stopping == live
    {
      stopping := live;
    }

    /** The end of `/stop`, once it has waited for the process: it drops the
        handle and says stopped. */
    method StopEnd()
      modifies this
      ensures State() == AfterStopEnd(old(State()))
    {
      live := false;
      status := status.(phase := Stopped, message := StopMessage);
    }

    /** `/stop` with nothing between its start and its end. */
    method Stop()
      modifies this
      ensures State() == AfterStop(old(State()))
    {
      var stopping := StopBegin();
      if stopping {
        StopEnd();
      }
    }

    /** `/download`: the checks, and the status reset before the worker starts. */
    method Request(token: string, url: string, modelType: string, filename: string, modelsPath: string)
      returns (response: Response)
      modifies this
      ensures response == RequestResponse(token, url, modelType, filename, modelsPath)
      ensures State() == AfterRequest(old(State()), response)
    {
      if token == [] || url == [] || modelType == [] || filename == [] {
        return BadRequest("Token, URL, model type, and filename are required");
      }
      if ModelPath(modelsPath, modelType).None? {
        return BadRequest("Invalid model type");
      }
      status := status.(phase := Idle, message := "Initializing download...");
      response := Started;
    }

    /** One read of the process' output. */
    method ReadLine(raw: string, file: string)
      modifies this
      ensures State() == AfterStep(old(State()), Output(raw), file)
    {
      if raw != [] {
        var line := Strip(raw);
        assert AfterStep(State(), Output(raw), file) == FileJob(AfterLine(status, line, file), live);
        var r := ParseStandalone(line);
        if Reported(r) {
          status := WithSample(status, r.value);
          if r.value.percent == 100 {
            status := status.(phase := Completed, message := CompleteMessage);
          } else {
            status := status.(message := "Downloading " + file + "...");
          }
        } else {
          status := status.(message := line);
        }
      }
    }

    /** One step of the read loop. */
    method Take(step: Step, file: string)
      modifies this
      ensures State() == AfterStep(old(State()), step, file)
    {
      match step {
        case Output(raw) => ReadLine(raw, file);
        case Interrupt(h) =>
          if h == StopRequest {
            Stop();
          }
      }
    }

    /** The read loop of the worker. */
    method ReadOutput(steps: seq<Step>, file: string)
      modifies this
      ensures State() == AfterSteps(old(State()), steps, file)
    {
      var i := 0;
      while i < |steps| && live
        invariant 0 <= i <= |steps|
        invariant AfterSteps(old(State()), steps, file) == AfterSteps(State(), steps[i..], file)
      {
        assert steps[i..][1..] == steps[i + 1..];
        Take(steps[i], file);
        i := i + 1;
      }
    }

    /** `run_download_script` */
    method Download(url: string, modelType: string, filename: string, token: string, modelsPath: string, transfer: Transfer)
      returns (spawned: Option<seq<string>>)
      modifies this
      ensures Outcome(State(), spawned) == DownloadRun(old(State()), url, modelType, filename, token, modelsPath, transfer)
    {
      status := Starting;
      spawned := None;
      var dir := ModelPath(modelsPath, modelType);
      if dir.None? {
        status := status.(phase := Error, message := ErrorText(KeyErrorText(modelType)));
      } else {
        var file := NamedFile(url, filename);
        match transfer {
          case SpawnFailed(reason) =>
            status := status.(phase := Error, message := ErrorText(reason));
          case Ran(steps, code, _) =>
            spawned := Some(Arguments(dir.value, file, url + "?token=" + token));
            live := true;
            ReadOutput(steps, file);
            if !live {
              status := status.(phase := Error, message := ErrorText(MissingAttribute("stdout")));
            } else if code == 0 {
              status := status.(phase := Completed, message := CompleteMessage, progress := 100);
            } else {
              status := status.(phase := Error, message := FailureMessage);
            }
        }
      }
      live := false;
    }
  }

  /** A stop acts only on a running process, and then leaves no handle and a
      stopped status with the progress fields untouched. */
  lemma StopOutcome(j: FileJob)
    ensures !j.live ==> AfterStop(j) == j
    ensures j.live ==> (!AfterStop(j).live && AfterStop(j).status.phase == Stopped
                        && AfterStop(j).status.message == StopMessage
                        && AfterStop(j).status.progress == j.status.progress)
    ensures AfterStop(AfterStop(j)) == AfterStop(j)
  {
  }

  /** The read loop: a stop drops the handle, which ends it; without one the
      handle stays. */
  lemma {:induction false} StepsOutcome(j: FileJob, steps: seq<Step>, file: string)
    ensures var r := AfterSteps(j, steps, file);
      && (StopsDuring(steps) ==> !r.live)
      && (!StopsDuring(steps) ==> r.live == j.live)
    decreases |steps|
  {
    if steps != [] && j.live {
      StepsOutcome(AfterStep(j, steps[0], file), steps[1..], file);
      if StopsDuring(steps) && steps[0] != Interrupt(StopRequest) {
        assert Interrupt(StopRequest) in steps[1..];
      }
      if !StopsDuring(steps) {
        assert Interrupt(StopRequest) !in steps[1..];
      }
    }
  }

  /** While the worker reads, no stop having run among the steps read so far, the
      handle stays set: a stop that starts at any point of the read finds the
      process and terminates it. */
  lemma ReadKeepsHandle(j: FileJob, steps: seq<Step>, k: nat, file: string)
    requires j.live && !StopsDuring(steps) && k <= |steps|
    ensures AfterSteps(j, steps[..k], file).live
  {
    StopsPrefix(steps, k);
    StepsOutcome(j, steps[..k], file);
  }

  /** The usual course of a stop: its termination ends the output and the
      process returns a non-zero code while the stop waits for it, so the worker,
      its handle still set, records the failure, and the stop's end then writes
      "stopped" last, without a handle and with the progress the worker left. */
  lemma LateStopOutcome(j: FileJob, url: string, modelType: string, filename: string, token: string,
                        modelsPath: string, steps: seq<Step>, code: int, stderr: string)
    requires ModelPath(modelsPath, modelType).Some? && !StopsDuring(steps) && code != 0
    ensures var r := DownloadRun(j, url, modelType, filename, token, modelsPath, Ran(steps, code, stderr));
      var s := AfterStopEnd(r.state);
      && r.state.status.phase == Error && r.state.status.message == FailureMessage && r.spawned.Some?
      && s.status.phase == Stopped && s.status.message == StopMessage && !s.live
      && s.status.progress == r.state.status.progress
  {
    DownloadOutcome(j, url, modelType, filename, token, modelsPath, Ran(steps, code, stderr));
  }

  /** `run_download_script` always starts from a full reset and ends without a
      handle, completed or failed. It completes, at 100%, exactly when the model
      type is known, the process ran with no stop while it was read and returned
      0; a line at 100% does not save a process that then fails. The URL always
      carries the token, and the file name gets the URL's extension when it has
      none. */
  lemma DownloadOutcome(j: FileJob, url: string, modelType: string, filename: string, token: string,
                        modelsPath: string, transfer: Transfer)
    ensures var r := DownloadRun(j, url, modelType, filename, token, modelsPath, transfer);
      var known := ModelPath(modelsPath, modelType).Some?;
      var stopped := transfer.Ran? && StopsDuring(transfer.steps);
      && !r.state.live
      && (r.state.status.phase == Completed || r.state.status.phase == Error)
      && (r.state.status.phase == Completed <==> known && transfer.Ran? && !stopped && transfer.exitCode == 0)
      && (r.state.status.phase == Completed ==> r.state.status.progress == 100 && r.state.status.message == CompleteMessage)
      && (!known ==> r.spawned == None && r.state.status == Starting.(phase := Error, message := ErrorText(KeyErrorText(modelType))))
      && (r.spawned.Some? <==> known && transfer.Ran?)
      && (r.spawned.Some? ==> |r.spawned.value| == 10 && r.spawned.value[6] == ModelPath(modelsPath, modelType).value
                              && r.spawned.value[8] == NamedFile(url, filename)
                              && r.spawned.value[9] == url + "?token=" + token)
      && (known && stopped ==> r.state.status.message == ErrorText(MissingAttribute("stdout")))
      && (known && transfer.Ran? && !stopped && transfer.exitCode != 0 ==> r.state.status.message == FailureMessage)
  {
    if ModelPath(modelsPath, modelType).None? {
      assert DownloadRun(j, url, modelType, filename, token, modelsPath, transfer)
        == Outcome(FileJob(Starting.(phase := Error, message := ErrorText(KeyErrorText(modelType))), false), None);
    } else if transfer.Ran? {
      StepsOutcome(FileJob(Starting, true), transfer.steps, NamedFile(url, filename));
    }
  }

  /** `/download` accepts a request exactly when the token, the URL, the model type
      and the file name are given and the type is `lora` or `checkpoint`; only
      then does it touch the status. */
  lemma RequestOutcome(j: FileJob, token: string, url: string, modelType: string, filename: string, modelsPath: string)
    ensures var response := RequestResponse(token, url, modelType, filename, modelsPath);
      && (response.Started? <==> token != [] && url != [] && filename != []
                                 && (modelType == "lora" || modelType == "checkpoint"))
      && (response.BadRequest? ==> AfterRequest(j, response) == j)
      && (response.Started? ==> AfterRequest(j, response).status.phase == Idle && AfterRequest(j, response).live == j.live)
  {
  }
}
