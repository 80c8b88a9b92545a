/** The control panel's download of a single file from a direct URL: the worker
    `run_huggingface_download`, the route `/download_huggingface` and the route
    `/stop_huggingface`, on `huggingface_download_status` and the
    `huggingface_current_process` handle. As in the CivitAI worker, the output is
    read with `iter(readline, '')`, so a stop does not end the loop, and the
    `wait()` after it finds no handle. */
module HfPanel {
  import opened Text
  import opened ProgressParser
  import opened Jobs

  /** `huggingface_download_status`; `download_path` is `None` when the form had none. */
  datatype HfStatus = HfStatus(
    phase: Phase, message: string, progress: int,
    downloaded: string, total: string, speed: string, eta: string,
    modelId: string, url: string, downloadPath: Option<string>)

  const IdleHfStatus: HfStatus := HfStatus(Idle, "", 0, "0B", "0B", "0B/s", "Unknown", "", "", Some(""))

  /** The status and whether the process handle is set. */
  datatype HfJob = HfJob(status: HfStatus, live: bool)

  const DefaultTarget: string := "/workspace/ComfyUI/models"

  /** The folder the file goes to: the requested one, or the models folder. */
  function TargetDir(downloadPath: Option<string>): string {
    if downloadPath.Some? && downloadPath.value != [] then downloadPath.value else DefaultTarget
  }

  /** `os.path.basename(url.split('?')[0])` */
  function FileName(url: string): string {
    Basename(BeforeFirst(url, '?'))
  }

  /** The shell command of the download, with every argument in single quotes. */
  function HfCommand(dir: string, file: string, url: string): string {
    "stdbuf -oL aria2c -x 16 -s 16 -d '" + dir + "' -o '" + file + "' '" + url + "'"
  }

  /** The reset at the start of the worker, which also records the request. */
  function HfStart(s: HfStatus, url: string, downloadPath: Option<string>): HfStatus {
    s.(phase := Downloading, message := "Starting download...", progress := 0,
       downloaded := "0B", total := "0B", speed := "0B/s", eta := "Unknown",
       url := url, downloadPath := downloadPath)
  }

  /** The files a stop deletes when they exist: the download and aria2c's control
      file, in the requested folder only. */
  function PartialFiles(s: HfStatus): seq<string> {
    var file := FileName(s.url);
    if s.url != [] && file != [] && s.downloadPath.Some? && s.downloadPath.value != [] then
      [PathJoin(s.downloadPath.value, file), PathJoin(s.downloadPath.value, file + ".aria2")]
    else []
  }

  /** The end of `stop_huggingface_download`, a second after it killed the
      process group: the handle is dropped and the status says stopped, whatever
      the worker wrote meanwhile. */
  function AfterStopEnd(j: HfJob): HfJob {
    HfJob(j.status.(phase := Stopped, message := StopMessage, progress := 0), false)
  }

  /** `stop_huggingface_download` as one step: only a running process is stopped. */
  function AfterStop(j: HfJob): HfJob {
    if j.live then AfterStopEnd(j) else j
  }

  /** The handlers that may run beside the worker; the status route only reads. */
  function AfterHandler(j: HfJob, h: Handler): HfJob {
    match h
    case StopRequest => AfterStop(j)
    case StatusPoll => j
  }

  /** One stripped, non-blank output line: a sample updates the progress fields,
      any other line becomes the message. */
  function AfterLine(s: HfStatus, line: string, file: string): HfStatus {
    var r := ParsePanel(line);
    if Reported(r) then
      s.(downloaded := r.value.downloaded, total := r.value.total, progress := r.value.percent,
         speed := r.value.speed + "/s", eta := r.value.eta,
         message := "Downloading " + file + "... " + NatToString(r.value.percent) + "%")
    else s.(message := line)
  }

  function AfterStep(j: HfJob, step: Step, file: string): HfJob {
    match step
    case Output(raw) => if Strip(raw) == [] then j else j.(status := AfterLine(j.status, Strip(raw), file))
    case Interrupt(h) => AfterHandler(j, h)
  }

  /** The read loop, which ends at the first empty read. */
  function AfterSteps(j: HfJob, steps: seq<Step>, file: string): HfJob
    decreases |steps|
  {
    if steps == [] || steps[0] == Output("") then j else AfterSteps(AfterStep(j, steps[0], file), steps[1..], file)
  }

  /** What the worker leaves, what it returns and the command it spawned, if any. */
  datatype Outcome = Outcome(state: HfJob, ok: bool, spawned: Option<string>)

  /** `run_huggingface_download`; the handle is dropped when it returns. */
  function DownloadRun(j: HfJob, url: string, token: string, downloadPath: Option<string>, transfer: Transfer): Outcome {
    var s0 := HfStart(j.status, url, downloadPath);
    var dir := TargetDir(downloadPath);
    var full := TokenUrl(url, token);
    var file := FileName(full);
    match transfer
    case SpawnFailed(reason) => Outcome(HfJob(s0.(phase := Error, message := ErrorText(reason), progress := 0), false), false, None)
    case Ran(steps, code, stderr) =>
      var j1 := AfterSteps(HfJob(s0, true), steps, file);
      var cmd := Some(HfCommand(dir, file, full));
      if !j1.live then
        Outcome(HfJob(j1.status.(phase := Error, message := ErrorText(MissingAttribute("wait")), progress := 0), false), false, cmd)
      else if code == 0 then
        Outcome(HfJob(j1.status.(phase := Completed, message := "Successfully downloaded to " + PathJoin(dir, file), progress := 100), false), true, cmd)
      else
        Outcome(HfJob(j1.status.(phase := Error, message := "Download failed: " + stderr, progress := 0), false), false, cmd)
  }

  /** The answer of `/download_huggingface`. */
  datatype Response = BadRequest(error: string) | Started(message: string)

  /** `/download_huggingface`; an absent form field is the empty string. */
  function RequestResponse(url: string): (r: Response)
    ensures r.Started? <==> url != []
  {
    if url == [] then BadRequest("Model URL is required") else Started("Started downloading from " + url)
  }

  class HfDownload {
    /** `huggingface_download_status` */
    var status: HfStatus
    /** `huggingface_current_process is not None` */
    var live: bool

    function State(): HfJob
      reads this
    {
      HfJob(status, live)
    }

    constructor ()
      ensures State() == HfJob(IdleHfStatus, false)
    {
      status := IdleHfStatus;
      live := false;
    }

    /** The start of `/stop_huggingface`: it acts only when a process runs, and
        then kills its group, which ends the output the worker reads. */
    method StopBegin() returns (stopping: bool)
      ensures stopping == live
    {
      stopping := live;
    }

    /** The end of `/stop_huggingface`, after its second of sleep: it gives the
        files it deletes if they exist, drops the handle and says stopped. */
    method StopEnd() returns (removed: seq<string>)
      modifies this
      ensures State() == AfterStopEnd(old(State()))
      ensures removed == PartialFiles(old(status))
    {
      removed := PartialFiles(status);
      live := false;
      status := status.(phase := Stopped, message := StopMessage, progress := 0);
    }

    /** `/stop_huggingface` with nothing between its start and its end. */
    method Stop() returns (removed: seq<string>)
      modifies this
      ensures State() == AfterStop(old(State()))
      ensures removed == if old(live) then PartialFiles(old(status)) else []
    {
      removed := [];
      var stopping := StopBegin();
      if stopping {
        removed := StopEnd();
      }
    }

    /** One output line of the process. */
    method ReadLine(raw: string, file: string)
      modifies this
      ensures State() == AfterStep(old(State()), Output(raw), file)
    {
      var line := Strip(raw);
      if line != [] {
        var r := ParsePanel(line);
        if r.Some? && r.value.downloaded != [] && r.value.total != [] {
          status := status.(downloaded := r.value.downloaded, total := r.value.total, progress := r.value.percent,
                            speed := r.value.speed + "/s", eta := r.value.eta,
                            message := "Downloading " + file + "... " + NatToString(r.value.percent) + "%");
        } else {
          status := status.(message := line);
        }
      }
    }

    /** One step of the read loop. */
    method Take(step: Step, file: string)
      modifies this
      ensures State() == AfterStep(old(State()), step, file)
    {
      match step {
        case Output(raw) => ReadLine(raw, file);
        case Interrupt(h) =>
          if h == StopRequest {
            var _ := Stop();
          }
      }
    }

    /** The read loop of the worker. */
    method ReadOutput(steps: seq<Step>, file: string)
      modifies this
      ensures State() == AfterSteps(old(State()), steps, file)
    {
      var i := 0;
      while i < |steps| && steps[i] != Output("")
        invariant 0 <= i <= |steps|
        invariant AfterSteps(old(State()), steps, file) == AfterSteps(State(), steps[i..], file)
      {
        assert steps[i..][1..] == steps[i + 1..];
        Take(steps[i], file);
        i := i + 1;
      }
    }

    /** `run_huggingface_download` */
    method Download(url: string, token: string, downloadPath: Option<string>, transfer: Transfer)
      returns (ok: bool, spawned: Option<string>)
      modifies this
      ensures Outcome(State(), ok, spawned) == DownloadRun(old(State()), url, token, downloadPath, transfer)
    {
      status := HfStart(status, url, downloadPath);
      var dir := TargetDir(downloadPath);
      var full := TokenUrl(url, token);
      var file := FileName(full);
      ok, spawned := false, None;
      match transfer {
        case SpawnFailed(reason) =>
          status := status.(phase := Error, message := ErrorText(reason), progress := 0);
        case Ran(steps, code, stderr) =>
          spawned := Some(HfCommand(dir, file, full));
          live := true;
          ReadOutput(steps, file);
          if !live {
            status := status.(phase := Error, message := ErrorText(MissingAttribute("wait")), progress := 0);
          } else if code == 0 {
            status := status.(phase := Completed, message := "Successfully downloaded to " + PathJoin(dir, file), progress := 100);
            ok := true;
          } else {
            status := status.(phase := Error, message := "Download failed: " + stderr, progress := 0);
          }
      }
      live := false;
    }
  }

  /** A stop acts only on a running process, and then leaves no handle and a
      stopped status at 0%; stopping twice is stopping once. */
  lemma StopOutcome(j: HfJob)
    ensures !j.live ==> AfterStop(j) == j
    ensures j.live ==> (!AfterStop(j).live && AfterStop(j).status.phase == Stopped
                        && AfterStop(j).status.message == StopMessage && AfterStop(j).status.progress == 0)
    ensures AfterStop(AfterStop(j)) == AfterStop(j)
  {
  }

  /** One step keeps the recorded request; only a stop drops the handle. */
  lemma StepOutcome(j: HfJob, step: Step, file: string)
    ensures var r := AfterStep(j, step, file);
      && (step == Interrupt(StopRequest) ==> !r.live)
      && (step != Interrupt(StopRequest) ==> r.live == j.live)
      && r.status.url == j.status.url && r.status.downloadPath == j.status.downloadPath
  {
    if step.Output? && Strip(step.line) != [] {
      var r := ParsePanel(Strip(step.line));
      assert AfterStep(j, step, file).status == AfterLine(j.status, Strip(step.line), file);
    }
  }

  /** The read loop: a stop among the steps it consumes drops the handle, without
      one the handle stays; the recorded request is never touched. */
  lemma {:induction false} StepsOutcome(j: HfJob, steps: seq<Step>, file: string)
    ensures var r := AfterSteps(j, steps, file);
      && (StopsDuring(ReadPart(steps)) ==> !r.live)
      && (!StopsDuring(ReadPart(steps)) ==> r.live == j.live)
      && r.status.url == j.status.url && r.status.downloadPath == j.status.downloadPath
    decreases |steps|
  {
    if steps != [] && steps[0] != Output("") {
      var j1 := AfterStep(j, steps[0], file);
      StepOutcome(j, steps[0], file);
      StepsOutcome(j1, steps[1..], file);
      assert AfterSteps(j, steps, file) == AfterSteps(j1, steps[1..], file);
      assert ReadPart(steps) == [steps[0]] + ReadPart(steps[1..]);
    }
  }

  /** While the worker reads, no stop having run among the steps read so far, the
      handle stays set: a stop that starts at any point of the read finds the
      process and kills it. */
  lemma ReadKeepsHandle(j: HfJob, steps: seq<Step>, k: nat, file: string)
    requires j.live && !StopsDuring(ReadPart(steps)) && k <= |ReadPart(steps)|
    ensures AfterSteps(j, ReadPart(steps)[..k], file).live
  {
    ReadPrefix(steps, k);
    StepsOutcome(j, ReadPart(steps)[..k], file);
  }

  /** The usual course of a stop: its kill ends the output and the process
      returns a non-zero code while the stop sleeps, so the worker, its handle
      still set, records the failure, and the stop's end then writes "stopped"
      last, at 0% and without a handle. The request stays recorded, so the files
      the stop deletes are those of this download. */
  lemma LateStopOutcome(j: HfJob, url: string, token: string, downloadPath: Option<string>,
                        steps: seq<Step>, code: int, stderr: string)
    requires !StopsDuring(ReadPart(steps)) && code != 0
    ensures var r := DownloadRun(j, url, token, downloadPath, Ran(steps, code, stderr));
      var s := AfterStopEnd(r.state);
      && !r.ok && r.state.status.phase == Error && r.state.status.message == "Download failed: " + stderr
      && PartialFiles(r.state.status) == PartialFiles(HfStart(j.status, url, downloadPath))
      && s.status.phase == Stopped && s.status.message == StopMessage && s.status.progress == 0 && !s.live
  {
    DownloadOutcome(j, url, token, downloadPath, Ran(steps, code, stderr));
  }

  /** The file name does not depend on the token appended to the URL. */
  lemma FileNameIgnoresToken(url: string, token: string)
    ensures FileName(TokenUrl(url, token)) == FileName(url)
  {
    if token != [] {
      assert TokenUrl(url, token) == url + ("?token=" + token);
      if '?' in url {
        BeforeFirstExtend(url, "?token=" + token, '?');
      } else {
        BeforeFirstPrefix(url, "?token=" + token, '?');
        BeforeFirstAbsent(url, '?');
      }
    }
  }

  /** `run_huggingface_download` ends without a handle, completed or failed; it
      returns true exactly when it completes, which happens exactly when the
      process ran to its end without a stop and returned 0, and then it names the
      file's place, which the token does not change; every failure sets the
      progress back to 0. */
  lemma DownloadOutcome(j: HfJob, url: string, token: string, downloadPath: Option<string>, transfer: Transfer)
    ensures var r := DownloadRun(j, url, token, downloadPath, transfer);
      var stopped := transfer.Ran? && StopsDuring(ReadPart(transfer.steps));
      && !r.state.live
      && (r.state.status.phase == Completed || r.state.status.phase == Error)
      && (r.ok <==> r.state.status.phase == Completed)
      && (r.ok <==> transfer.Ran? && !stopped && transfer.exitCode == 0)
      && (r.ok ==> r.state.status.progress == 100
                   && r.state.status.message == "Successfully downloaded to " + PathJoin(TargetDir(downloadPath), FileName(url)))
      && (!r.ok ==> r.state.status.progress == 0)
      && (stopped ==> r.state.status.message == ErrorText(MissingAttribute("wait")))
      && (transfer.Ran? && !stopped && transfer.exitCode != 0 ==> r.state.status.message == "Download failed: " + transfer.stderr)
      && (r.spawned.Some? <==> transfer.Ran?)
      && r.state.status.url == url && r.state.status.downloadPath == downloadPath
  {
    FileNameIgnoresToken(url, token);
    if transfer.Ran? {
      var file := FileName(TokenUrl(url, token));
      StepsOutcome(HfJob(HfStart(j.status, url, downloadPath), true), transfer.steps, file);
    }
  }

  /** Joining a name without a separator, then adding a suffix, is joining the longer name. */
  lemma JoinSuffix(dir: string, file: string, suffix: string)
    requires file != [] && file[0] != '/'
    ensures PathJoin(dir, file + suffix) == PathJoin(dir, file) + suffix
  {
    assert (file + suffix)[0] == file[0];
    if dir == [] || EndsWith(dir, "/") {
      assert dir + (file + suffix) == dir + file + suffix;
    } else {
      assert dir + "/" + (file + suffix) == dir + "/" + file + suffix;
    }
  }

  /** What a stop during a download deletes is the file the download writes and
      aria2c's control file beside it, when a folder was requested. */
  lemma StopDeletesTarget(s: HfStatus, url: string, token: string, dir: string)
    requires dir != [] && FileName(url) != []
    ensures var target := PathJoin(TargetDir(Some(dir)), FileName(TokenUrl(url, token)));
      PartialFiles(HfStart(s, url, Some(dir))) == [target, target + ".aria2"]
  {
    FileNameIgnoresToken(url, token);
    AfterLastOf(BeforeFirst(url, '?'), '/');
    JoinSuffix(dir, FileName(url), ".aria2");
  }
}
