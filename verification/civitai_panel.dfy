/** The control panel's single-file CivitAI download: the worker
    `run_civitai_download`, the route `/download_civitai` that starts it and the
    route `/stop_civitai`, all on `civitai_download_status` and the
    `civitai_current_process` handle. The worker reads the process' output with
    `iter(readline, '')`: the bound `readline` outlives a stop, so the loop goes
    on to the end of the output, and the `wait()` after it finds no handle. */
module CivitaiPanel {
  import opened Text
  import opened ProgressParser
  import opened Jobs

  const CompleteMessage: string := "Download Complete!"

  const FailureMessage: string := "Error during download. Please check the logs."

  /** `BASE_PATH`, which depends on `DOCKER_DEV`. */
  function ModelsBase(dockerDev: bool): string {
    if dockerDev then "/workspace/ComfyUI/models" else "workspace/ComfyUI/models"
  }

  /** `MODEL_DIRS[model_type]`, or `None` for an unknown type. */
  function ModelDir(dockerDev: bool, modelType: string): Option<string> {
    var base := ModelsBase(dockerDev);
    if modelType == "lora" then Some(base + "/loras")
    else if modelType == "checkpoint" then Some(base + "/checkpoints")
    else if modelType == "diffusion_models" then Some(base + "/diffusion_models")
    else if modelType == "vae" then Some(base + "/vae")
    else if modelType == "text_encoders" then Some(base + "/text_encoders")
    else None
  }

  /** The shell command of the download. */
  function Command(dir: string, file: string, url: string): string {
    "stdbuf -oL aria2c -x 16 -s 16 -d " + dir + " -o " + file + " " + url
  }

  /** The end of `stop_civitai_download`, once the terminated process has exited (or
      been killed after five seconds): the handle is dropped and the status says
      stopped, whatever the worker wrote meanwhile. */
  function AfterStopEnd(j: FileJob): FileJob {
    FileJob(j.status.(phase := Stopped, message := StopMessage), false)
  }

  /** `stop_civitai_download` as one step: only a running process is stopped. */
  function AfterStop(j: FileJob): FileJob {
    if j.live then AfterStopEnd(j) else j
  }

  /** The handlers that may run beside the worker; the status route only reads. */
  function AfterHandler(j: FileJob, h: Handler): FileJob {
    match h
    case StopRequest => AfterStop(j)
    case StatusPoll => j
  }

  /** One stripped, non-blank output line: a sample updates the fields and says
      completed at 100%; any other line becomes the message. */
  function AfterLine(s: FileStatus, line: string, file: string): FileStatus {
    var r := ParsePanel(line);
    if Reported(r) then
      var s1 := WithSample(s, r.value);
      if r.value.percent == 100 then s1.(phase := Completed, message := CompleteMessage)
      else s1.(message := "Downloading " + file + "... " + NatToString(r.value.percent) + "%")
    else s.(message := line)
  }

  function AfterStep(j: FileJob, step: Step, file: string): FileJob {
    match step
    case Output(raw) => if Strip(raw) == [] then j else j.(status := AfterLine(j.status, Strip(raw), file))
    case Interrupt(h) => AfterHandler(j, h)
  }

  /** `for line in iter(readline, '')`: it ends at the first empty read, whatever
      the handle meanwhile became. */
  function AfterSteps(j: FileJob, steps: seq<Step>, file: string): FileJob
    decreases |steps|
  {
    if steps == [] || steps[0] == Output("") then j else AfterSteps(AfterStep(j, steps[0], file), steps[1..], file)
  }

  /** What a worker leaves and the command it spawned, if any. */
  datatype Outcome = Outcome(state: FileJob, spawned: Option<string>)

  /** `run_civitai_download`; the handle is dropped when it returns. */
  function DownloadRun(j: FileJob, url: string, modelType: string, filename: string, token: string,
                       dockerDev: bool, transfer: Transfer): Outcome
  {
    var s0 := j.status.(phase := Downloading, message := "Starting download...", progress := 0);
    match ModelDir(dockerDev, modelType)
    case None => Outcome(FileJob(s0.(phase := Error, message := ErrorText(KeyErrorText(modelType))), false), None)
    case Some(dir) =>
      var file := NamedFile(url, filename);
      match transfer
      case SpawnFailed(reason) => Outcome(FileJob(s0.(phase := Error, message := ErrorText(reason)), false), None)
      case Ran(steps, code, _) =>
        var j1 := AfterSteps(FileJob(s0, true), steps, file);
        var s1 :=
          if !j1.live then j1.status.(phase := Error, message := ErrorText(MissingAttribute("wait")))
          else if code == 0 then j1.status.(phase := Completed, message := CompleteMessage, progress := 100)
          else j1.status.(phase := Error, message := FailureMessage);
        Outcome(FileJob(s1, false), Some(Command(dir, file, TokenUrl(url, token))))
  }

  /** The answer of `/download_civitai`. */
  datatype Response = BadRequest(error: string) | Started

  /** `/download_civitai`; an absent form field is the empty string. */
  function RequestResponse(url: string, modelType: string, filename: string, dockerDev: bool): Response {
    if url == [] || modelType == [] || filename == [] then BadRequest("URL, model type, and filename are required")
    else if ModelDir(dockerDev, modelType).None? then BadRequest("Invalid model type")
    else Started
  }

  /** The status after a request: an accepted one says it is initializing. */
  function AfterRequest(j: FileJob, response: Response): FileJob {
    if response.Started? then j.(status := j.status.(phase := Idle, message := "Initializing download...")) else j
  }

  class CivitaiDownload {
    /** `civitai_download_status` */
    var status: FileStatus
    /** `civitai_current_process is not None` */
    var live: bool

    function State(): FileJob
      reads this
    {
      FileJob(status, live)
    }

    constructor ()
      ensures State() == FileJob(IdleStatus, false)
    {
      status := IdleStatus;
      live := false;
    }

    /** The start of `/stop_civitai`: it acts only when a process runs, and then
        terminates it, which ends the output the worker reads. */
    method StopBegin() returns (stopping: bool)
      ensures stopping == live
    {
      stopping := live;
    }

    /** The end of `/stop_civitai`, once it has waited for the process: it drops the
        handle and says stopped. */
    method StopEnd()
      modifies this
      ensures State() == AfterStopEnd(old(State()))
    {
      live := false;
      status := status.(phase := Stopped, message := StopMessage);
    }

    /** `/stop_civitai` with nothing between its start and its end. */
    method Stop()
      modifies this
      ensures State() == AfterStop(old(State()))
    {
      var stopping := StopBegin();
      if stopping {
        StopEnd();
      }
    }

    /** `/download_civitai`: the checks, and the status reset before the worker starts. */
    method Request(url: string, modelType: string, filename: string, dockerDev: bool) returns (response: Response)
      modifies this
      ensures response == RequestResponse(url, modelType, filename, dockerDev)
      ensures State() == AfterRequest(old(State()), response)
    {
      if url == [] || modelType == [] || filename == [] {
        return BadRequest("URL, model type, and filename are required");
      }
      if ModelDir(dockerDev, modelType).None? {
        return BadRequest("Invalid model type");
      }
      status := status.(phase := Idle, message := "Initializing download...");
      response := Started;
    }

    /** One output line of the process. */
    method ReadLine(raw: string, file: string)
      modifies this
      ensures State() == AfterStep(old(State()), Output(raw), file)
    {
      var line := Strip(raw);
      if line != [] {
        var r := ParsePanel(line);
        if r.Some? && r.value.downloaded != [] && r.value.total != [] {
          status := WithSample(status, r.value);
          if r.value.percent == 100 {
            status := status.(phase := Completed, message := CompleteMessage);
          } else {
            status := status.(message := "Downloading " + file + "... " + NatToString(r.value.percent) + "%");
          }
        } else {
          status := status.(message := line);
        }
      }
    }

    /** One step of the read loop. */
    method Take(step: Step, file: string)
      modifies this
      ensures State() == AfterStep(old(State()), step, file)
    {
      match step {
        case Output(raw) => ReadLine(raw, file);
        case Interrupt(h) =>
          if h == StopRequest {
            Stop();
          }
      }
    }

    /** The read loop of the worker. */
    method ReadOutput(steps: seq<Step>, file: string)
      modifies this
      ensures State() == AfterSteps(old(State()), steps, file)
    {
      var i := 0;
      while i < |steps| && steps[i] != Output("")
        invariant 0 <= i <= |steps|
        invariant AfterSteps(old(State()), steps, file) == AfterSteps(State(), steps[i..], file)
      {
        assert steps[i..][1..] == steps[i + 1..];
        Take(steps[i], file);
        i := i + 1;
      }
    }

    /** `run_civitai_download` */
    method Download(url: string, modelType: string, filename: string, token: string, dockerDev: bool, transfer: Transfer)
      returns (spawned: Option<string>)
      modifies this
      ensures Outcome(State(), spawned) == DownloadRun(old(State()), url, modelType, filename, token, dockerDev, transfer)
    {
      status := status.(phase := Downloading, message := "Starting download...", progress := 0);
      spawned := None;
      var dir := ModelDir(dockerDev, modelType);
      if dir.None? {
        status := status.(phase := Error, message := ErrorText(KeyErrorText(modelType)));
      } else {
        var file := NamedFile(url, filename);
        match transfer {
          case SpawnFailed(reason) =>
            status := status.(phase := Error, message := ErrorText(reason));
          case Ran(steps, code, _) =>
            spawned := Some(Command(dir.value, file, TokenUrl(url, token)));
            live := true;
            ReadOutput(steps, file);
            if !live {
              status := status.(phase := Error, message := ErrorText(MissingAttribute("wait")));
            } else if code == 0 {
              status := status.(phase := Completed, message := CompleteMessage, progress := 100);
            } else {
              status := status.(phase := Error, message := FailureMessage);
            }
        }
      }
      live := false;
    }
  }

  /** A stop acts only on a running process, and then leaves no handle and a
      stopped status with the progress fields untouched; stopping twice is
      stopping once. */
  lemma StopOutcome(j: FileJob)
    ensures !j.live ==> AfterStop(j) == j
    ensures j.live ==> (!AfterStop(j).live && AfterStop(j).status.phase == Stopped
                        && AfterStop(j).status.message == StopMessage
                        && AfterStop(j).status.progress == j.status.progress)
    ensures AfterStop(AfterStop(j)) == AfterStop(j)
  {
  }

  /** The read loop sees only the steps before the first empty read; a stop
      among them drops the handle, and without one the handle stays. */
  lemma {:induction false} StepsOutcome(j: FileJob, steps: seq<Step>, file: string)
    ensures var r := AfterSteps(j, steps, file);
      && (StopsDuring(ReadPart(steps)) ==> !r.live)
      && (!StopsDuring(ReadPart(steps)) ==> r.live == j.live)
    decreases |steps|
  {
    if steps != [] && steps[0] != Output("") {
      StepsOutcome(AfterStep(j, steps[0], file), steps[1..], file);
      assert ReadPart(steps) == [steps[0]] + ReadPart(steps[1..]);
    }
  }

  /** While the worker reads, no stop having run among the steps read so far, the
      handle stays set: a stop that starts at any point of the read finds the
      process and terminates it. */
  lemma ReadKeepsHandle(j: FileJob, steps: seq<Step>, k: nat, file: string)
    requires j.live && !StopsDuring(ReadPart(steps)) && k <= |ReadPart(steps)|
    ensures AfterSteps(j, ReadPart(steps)[..k], file).live
  {
    ReadPrefix(steps, k);
    StepsOutcome(j, ReadPart(steps)[..k], file);
  }

  /** The usual course of a stop: its termination ends the output and the
      process returns a non-zero code while the stop waits for it, so the worker,
      its handle still set, records the failure, and the stop's end then writes
      "stopped" last, without a handle and with the progress the worker left. */
  lemma LateStopOutcome(j: FileJob, url: string, modelType: string, filename: string, token: string,
                        dockerDev: bool, steps: seq<Step>, code: int, stderr: string)
    requires ModelDir(dockerDev, modelType).Some? && !StopsDuring(ReadPart(steps)) && code != 0
    ensures var r := DownloadRun(j, url, modelType, filename, token, dockerDev, Ran(steps, code, stderr));
      var s := AfterStopEnd(r.state);
      && r.state.status.phase == Error && r.state.status.message == FailureMessage && r.spawned.Some?
      && s.status.phase == Stopped && s.status.message == StopMessage && !s.live
      && s.status.progress == r.state.status.progress
  {
    DownloadOutcome(j, url, modelType, filename, token, dockerDev, Ran(steps, code, stderr));
  }

  /** `run_civitai_download` always ends without a handle and either completed or
      failed, never still downloading or stopped. It completes, at 100%, exactly
      when the model type is known, the process ran, no stop came while its output
      was read and it returned 0; a stop meanwhile ends as an error because the
      handle is gone when the worker waits. */
  lemma DownloadOutcome(j: FileJob, url: string, modelType: string, filename: string, token: string,
                        dockerDev: bool, transfer: Transfer)
    ensures var r := DownloadRun(j, url, modelType, filename, token, dockerDev, transfer);
      var known := ModelDir(dockerDev, modelType).Some?;
      var stopped := transfer.Ran? && StopsDuring(ReadPart(transfer.steps));
      && !r.state.live
      && (r.state.status.phase == Completed || r.state.status.phase == Error)
      && (r.state.status.phase == Completed <==> known && transfer.Ran? && !stopped && transfer.exitCode == 0)
      && (r.state.status.phase == Completed ==> r.state.status.progress == 100 && r.state.status.message == CompleteMessage)
      && (!known ==> r.spawned == None && r.state.status.message == ErrorText(KeyErrorText(modelType)))
      && (r.spawned.Some? <==> known && transfer.Ran?)
      && (r.spawned.Some? ==>
            r.spawned.value == Command(ModelDir(dockerDev, modelType).value, NamedFile(url, filename), TokenUrl(url, token)))
      && (known && stopped ==> r.state.status.message == ErrorText(MissingAttribute("wait")))
      && (known && transfer.Ran? && !stopped && transfer.exitCode != 0 ==> r.state.status.message == FailureMessage)
  {
    if ModelDir(dockerDev, modelType).Some? && transfer.Ran? {
      var s0 := j.status.(phase := Downloading, message := "Starting download...", progress := 0);
      StepsOutcome(FileJob(s0, true), transfer.steps, NamedFile(url, filename));
    }
  }

  /** `/download_civitai` accepts a request exactly when the URL, the model type
      and the file name are given and the type is one of the model folders; only
      then does it touch the status. */
  lemma RequestOutcome(j: FileJob, url: string, modelType: string, filename: string, dockerDev: bool)
    ensures var response := RequestResponse(url, modelType, filename, dockerDev);
      && (response.Started? <==> url != [] && modelType != [] && filename != [] && ModelDir(dockerDev, modelType).Some?)
      && (response.BadRequest? ==> AfterRequest(j, response) == j)
      && (response.Started? ==> AfterRequest(j, response).status.phase == Idle && AfterRequest(j, response).live == j.live)
  {
  }

  /** A known model type names a folder under the models folder. A one-step
      consequence of the folder table, kept as the fact the download route relies on
      when it puts the file under that folder. */
  lemma ModelDirUnderBase(dockerDev: bool, modelType: string)
    requires ModelDir(dockerDev, modelType).Some?
    ensures StartsWith(ModelDir(dockerDev, modelType).value, ModelsBase(dockerDev) + "/")
  {
  }
}
