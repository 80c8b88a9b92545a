/** The batch download of preset model scripts in the control panel:
    `run_model_downloads` and `run_model_download` work on the module-level
    `model_download_status` dictionary and on the `model_current_process` handle,
    while `stop_model_download` and `model_status` run beside them. The route
    `/run_download_script` checks the request before the batch starts. */
module ModelBatch {
  import opened Text
  import opened ProgressParser
  import opened ScriptReader
  import opened Jobs

  /** The `model_download_status` dictionary. Its `script_name` and `display_name`
      keys are never written by the batch and are not part of it. */
  datatype Status = Status(
    phase: Phase, message: string, progress: int,
    downloaded: string, total: string, speed: string, eta: string,
    currentModel: string, totalModels: int, completedModels: int)

  /** The status dictionary and whether `model_current_process` is set. */
  datatype Job = Job(status: Status, live: bool)

  /** One entry of `model_infos`: the display name read from the script header and
      the lines of the script (`None` when the file cannot be read). */
  datatype Item = Item(name: string, script: Option<seq<string>>)

  /** The handlers that run before one command's stopped check, and its process. */
  datatype Attempt = Attempt(before: seq<Handler>, transfer: Transfer)

  /** The environment of a batch: the handlers that run before the stopped check
      of item `k`, and the attempt of command `i` of item `k`. */
  datatype World = World(beforeItem: nat -> seq<Handler>, attempt: (nat, nat) -> Attempt)

  /** The state a worker leaves, whether it reports success, and the command
      lines it spawned, in order. */
  datatype Run = Run(state: Job, ok: bool, spawned: seq<string>)

  function After(spawned: seq<string>, r: Run): Run {
    Run(r.state, r.ok, spawned + r.spawned)
  }

  const LostMessage: string := "Download process exited unexpectedly. Please try again."

  const DoneMessage: string := "All downloads completed successfully!"

  /** The progress fields back at their defaults, with a new phase and message. */
  function Reset(s: Status, phase: Phase, message: string): Status {
    s.(phase := phase, message := message, progress := 0,
       downloaded := "0B", total := "0B", speed := "0B/s", eta := "Unknown")
  }

  /** `stop_model_download` */
  function AfterStop(j: Job): Job {
    Job(Reset(j.status, Stopped, StopMessage), false)
  }

  /** `model_status` */
  function AfterPoll(j: Job): Job {
    if !j.live && j.status.phase == Downloading then j.(status := Reset(j.status, Error, LostMessage)) else j
  }

  function AfterHandler(j: Job, h: Handler): Job {
    match h
    case StopRequest => AfterStop(j)
    case StatusPoll => AfterPoll(j)
  }

  function AfterHandlers(j: Job, hs: seq<Handler>): Job
    decreases |hs|
  {
    if hs == [] then j else AfterHandlers(AfterHandler(j, hs[0]), hs[1..])
  }

  /** `f"{name} ({i+1}/{n})"` */
  function Label(name: string, i: nat, n: nat): string {
    name + " (" + NatToString(i + 1) + "/" + NatToString(n) + ")"
  }

  /** One line read from the process: a progress sample updates the fields. */
  function AfterOutput(s: Status, raw: string, title: string): Status {
    if raw == [] then s
    else
      var r := ParsePanel(Strip(raw));
      if Reported(r) then
        s.(downloaded := r.value.downloaded, total := r.value.total, progress := r.value.percent,
           speed := r.value.speed + "/s", eta := r.value.eta,
           message := "Downloading " + title + "... " + NatToString(r.value.percent) + "%")
      else s
  }

  function AfterStep(j: Job, step: Step, title: string): Job {
    match step
    case Output(line) => j.(status := AfterOutput(j.status, line, title))
    case Interrupt(h) => AfterHandler(j, h)
  }

  /** The read loop. The worker fetches the handle again for every read, so the
      loop ends, with the rest unread, as soon as a stop has dropped the handle. */
  function AfterSteps(j: Job, steps: seq<Step>, title: string): Job
    decreases |steps|
  {
    if steps == [] || !j.live then j else AfterSteps(AfterStep(j, steps[0], title), steps[1..], title)
  }

  /** The command with `?token=<token>` after every occurrence of its first URL. */
  function InjectToken(cmd: string, token: string): string {
    if token == [] then cmd
    else
      match FindUrl(cmd)
      case None => cmd
      case Some(url) =>
        FindUrlIn(cmd);
        Replace(cmd, url, url + "?token=" + token)
  }

  /** The command line handed to the shell for `cmd`. */
  function Spawned(cmd: string, token: string): string {
    "stdbuf -oL " + InjectToken(cmd, token)
  }

  /** The status after a failure: the phase is error and the message says why. */
  function Failed(j: Job, message: string): Job {
    j.(status := j.status.(phase := Error, message := message))
  }

  /** One pass of the command loop of `run_model_download`, for command `i` of `n`. */
  function CommandRun(j: Job, cmd: string, a: Attempt, name: string, i: nat, n: nat, token: string): (r: Run)
    ensures r.spawned == [] || r.spawned == [Spawned(cmd, token)]
    ensures r.ok ==> r.spawned == [Spawned(cmd, token)]
  {
    var j1 := AfterHandlers(j, a.before);
    if j1.status.phase == Stopped then Run(j1, false, [])
    else
      var title := Label(name, i, n);
      var j2 := j1.(status := j1.status.(currentModel := title, message := "Downloading " + title + "..."));
      match a.transfer
      case SpawnFailed(reason) => Run(Failed(j2, ErrorText(reason)), false, [])
      case Ran(steps, code, _) =>
        var j3 := AfterSteps(j2.(live := true), steps, title);
        if !j3.live then Run(Failed(j3, ErrorText(MissingAttribute("stdout"))), false, [Spawned(cmd, token)])
        else if code != 0 then
          Run(Failed(j3, "Error downloading " + title + ". Return code: " + IntToString(code)), false, [Spawned(cmd, token)])
        else Run(j3, true, [Spawned(cmd, token)])
  }

  /** The command loop of `run_model_download` from command `i` on. */
  function ScriptFrom(j: Job, cmds: seq<string>, name: string, token: string, world: World, k: nat, i: nat): Run
    decreases |cmds| - i
  {
    if i >= |cmds| then Run(j, true, [])
    else
      var r := CommandRun(j, cmds[i], world.attempt(k, i), name, i, |cmds|, token);
      if !r.ok then r else After(r.spawned, ScriptFrom(r.state, cmds, name, token, world, k, i + 1))
  }

  /** `run_model_download` for item `k`; the handle is dropped when it returns. */
  function ScriptRun(j: Job, item: Item, token: string, world: World, k: nat): Run {
    var cmds := Commands(item.script);
    var r := if cmds == [] then Run(j, false, []) else ScriptFrom(j, cmds, item.name, token, world, k, 0);
    Run(r.state.(live := false), r.ok, r.spawned)
  }

  /** The status `run_model_downloads` starts from. */
  function Started(s: Status, n: nat): Status {
    Reset(s, Downloading, "Starting downloads...").(currentModel := "", totalModels := n, completedModels := 0)
  }

  /** One pass of the item loop of `run_model_downloads`: the stopped check, the
      download of item `k` and, when it succeeds, the count. */
  function ItemRun(j: Job, items: seq<Item>, token: string, world: World, k: nat): Run
    requires k < |items|
  {
    var j1 := AfterHandlers(j, world.beforeItem(k));
    if j1.status.phase == Stopped then Run(j1, false, [])
    else
      var j2 := j1.(status := j1.status.(currentModel := items[k].name,
                                         message := "Downloading " + Label(items[k].name, k, |items|) + "..."));
      var r := ScriptRun(j2, items[k], token, world, k);
      if !r.ok then r
      else Run(r.state.(status := r.state.status.(completedModels := r.state.status.completedModels + 1)), true, r.spawned)
  }

  /** The item loop of `run_model_downloads` from item `k` on. */
  function ItemsFrom(j: Job, items: seq<Item>, token: string, world: World, k: nat): Run
    decreases |items| - k
  {
    if k >= |items| then
      Run(j.(status := j.status.(phase := Completed, message := DoneMessage, progress := 100)), true, [])
    else
      var r := ItemRun(j, items, token, world, k);
      if !r.ok then r else After(r.spawned, ItemsFrom(r.state, items, token, world, k + 1))
  }

  /** `run_model_downloads` */
  function BatchRun(j: Job, items: seq<Item>, token: string, world: World): Run {
    ItemsFrom(j.(status := Started(j.status, |items|)), items, token, world, 0)
  }

  class ModelJob {
    /** `model_download_status` */
    var status: Status
    /** `model_current_process is not None` */
    var live: bool

    function State(): Job
      reads this
    {
      Job(status, live)
    }

    /** The values the module starts with. */
    constructor ()
      ensures State() == Job(Status(Idle, "", 0, "0B", "0B", "0B/s", "Unknown", "", 0, 0), false)
    {
      status := Status(Idle, "", 0, "0B", "0B", "0B/s", "Unknown", "", 0, 0);
      live := false;
    }

    /** The start of `stop_model_download`: it kills the process group only when a
        process runs, which ends the output the worker reads. */
    method StopBegin() returns (stopping: bool)
      ensures stopping == live
    {
      stopping := live;
    }

    /** The end of `stop_model_download`, a second after its kill: whether or not
        a process ran, the handle is dropped and the status says stopped, whatever
        the worker wrote meanwhile. */
    method Stop()
      modifies this
      ensures State() == AfterStop(old(State()))
    {
      live := false;
      status := Reset(status, Stopped, StopMessage);
    }

    /** `model_status`: a download without a process is reported as lost. */
    method Poll()
      modifies this
      ensures State() == AfterPoll(old(State()))
    {
      if !live && status.phase == Downloading {
        status := Reset(status, Error, LostMessage);
      }
    }

    method Handle(h: Handler)
      modifies this
      ensures State() == AfterHandler(old(State()), h)
    {
      match h {
        case StopRequest => Stop();
        case StatusPoll => Poll();
      }
    }

    /** The handlers that run at one point of the worker, in order. */
    method HandleAll(hs: seq<Handler>)
      modifies this
      ensures State() == AfterHandlers(old(State()), hs)
    {
      for i := 0 to |hs|
        invariant AfterHandlers(old(State()), hs) == AfterHandlers(State(), hs[i..])
      {
        assert hs[i..][1..] == hs[i + 1..];
        Handle(hs[i]);
      }
    }

    /** One line read from the process. */
    method ReadLine(raw: string, title: string)
      modifies this
      ensures State() == old(State()).(status := AfterOutput(old(status), raw, title))
    {
      if raw != [] {
        var r := ParsePanel(Strip(raw));
        if r.Some? && r.value.downloaded != [] && r.value.total != [] {
          status := status.(downloaded := r.value.downloaded, total := r.value.total, progress := r.value.percent,
                            speed := r.value.speed + "/s", eta := r.value.eta,
                            message := "Downloading " + title + "... " + NatToString(r.value.percent) + "%");
        }
      }
    }

    /** The `while True` loop that reads the process' output. */
    method ReadOutput(steps: seq<Step>, title: string)
      modifies this
      ensures State() == AfterSteps(old(State()), steps, title)
    {
      var i := 0;
      while i < |steps| && live
        invariant 0 <= i <= |steps|
        invariant AfterSteps(old(State()), steps, title) == AfterSteps(State(), steps[i..], title)
      {
        assert steps[i..][1..] == steps[i + 1..];
        match steps[i] {
          case Output(raw) => ReadLine(raw, title);
          case Interrupt(h) => Handle(h);
        }
        i := i + 1;
      }
    }

    /** One pass of the command loop of `run_model_download`. */
    method RunCommand(cmd: string, a: Attempt, name: string, i: nat, n: nat, token: string)
      returns (ok: bool, spawned: seq<string>)
      modifies this
      ensures Run(State(), ok, spawned) == CommandRun(old(State()), cmd, a, name, i, n, token)
    {
      HandleAll(a.before);
      if status.phase == Stopped {
        return false, [];
      }
      var title := Label(name, i, n);
      status := status.(currentModel := title, message := "Downloading " + title + "...");
      match a.transfer {
        case SpawnFailed(reason) =>
          status := status.(phase := Error, message := ErrorText(reason));
          return false, [];
        case Ran(steps, code, _) =>
          live := true;
          spawned := [Spawned(cmd, token)];
          ReadOutput(steps, title);
          if !live {
            status := status.(phase := Error, message := ErrorText(MissingAttribute("stdout")));
            ok := false;
          } else if code != 0 {
            status := status.(phase := Error, message := "Error downloading " + title + ". Return code: " + IntToString(code));
            ok := false;
          } else {
            ok := true;
          }
      }
    }

    /** `run_model_download` for item `k` of the batch. */
    method RunModelDownload(item: Item, token: string, world: World, k: nat) returns (ok: bool, spawned: seq<string>)
      modifies this
      ensures Run(State(), ok, spawned) == ScriptRun(old(State()), item, token, world, k)
    {
      var commands := ExtractAria2cCommands(item.script);
      ok, spawned := false, [];
      if commands != [] {
        ghost var goal := ScriptFrom(State(), commands, item.name, token, world, k, 0);
        ok := true;
        var i := 0;
        while i < |commands|
          invariant 0 <= i <= |commands|
          invariant goal == After(spawned, ScriptFrom(State(), commands, item.name, token, world, k, i))
        {
          ghost var before := spawned;
          var done, more := RunCommand(commands[i], world.attempt(k, i), item.name, i, |commands|, token);
          spawned := spawned + more;
          if !done {
            ok := false;
            break;
          }
          ghost var rest := ScriptFrom(State(), commands, item.name, token, world, k, i + 1);
          assert before + (more + rest.spawned) == spawned + rest.spawned;
          i := i + 1;
        }
      }
      live := false;
    }

    /** One pass of the item loop of `run_model_downloads`. */
    method RunItem(items: seq<Item>, token: string, world: World, k: nat) returns (ok: bool, spawned: seq<string>)
      requires k < |items|
      modifies this
      ensures Run(State(), ok, spawned) == ItemRun(old(State()), items, token, world, k)
    {
      HandleAll(world.beforeItem(k));
      if status.phase == Stopped {
        return false, [];
      }
      status := status.(currentModel := items[k].name, message := "Downloading " + Label(items[k].name, k, |items|) + "...");
      ok, spawned := RunModelDownload(items[k], token, world, k);
      if ok {
        status := status.(completedModels := status.completedModels + 1);
      }
    }

    /** `run_model_downloads` */
    method RunModelDownloads(items: seq<Item>, token: string, world: World) returns (spawned: seq<string>)
      modifies this
      ensures State() == BatchRun(old(State()), items, token, world).state
      ensures spawned == BatchRun(old(State()), items, token, world).spawned
    {
      status := Started(status, |items|);
      ghost var goal := ItemsFrom(State(), items, token, world, 0);
      spawned := [];
      var k := 0;
      while k < |items|
        invariant 0 <= k <= |items|
        invariant goal == After(spawned, ItemsFrom(State(), items, token, world, k))
      {
        ghost var before := spawned;
        var ok, more := RunItem(items, token, world, k);
        spawned := spawned + more;
        if !ok {
          return;
        }
        ghost var rest := ItemsFrom(State(), items, token, world, k + 1);
        assert before + (more + rest.spawned) == spawned + rest.spawned;
        k := k + 1;
      }
      status := status.(phase := Completed, message := DoneMessage, progress := 100);
    }
  }

  /** The reply of `/run_download_script`: an error with its HTTP code, or the
      batch that is started in the background with the token it is given. */
  datatype Reply =
    | Refused(code: nat, message: string)
    | Launched(items: seq<Item>, token: string, message: string)

  /** The outcome of looking up the selected scripts: the first name without a
      script, or an item per name together with whether any header asks for a token. */
  datatype Lookup = Missing(name: string) | Found(items: seq<Item>, needsToken: bool)

  const TokenRequiredMessage: string := "HuggingFace token is required for one or more selected models"

  /** `SCRIPTS_PATH`, which depends on `DOCKER_DEV`. */
  function ScriptsPath(dockerDev: bool): string {
    if dockerDev then "/scripts" else "scripts"
  }

  /** The download script of a selected name. */
  function ScriptPath(dockerDev: bool, name: string): string {
    ScriptsPath(dockerDev) + "/preset_model_scripts/download_" + name + ".sh"
  }

  /** The lines of the file at each path; `None` when it does not exist. */
  type Files = string -> Option<seq<string>>

  /** The batch entry of a script that exists. */
  function ItemOf(path: string, file: seq<string>): Item {
    Item(HeaderOf(path, Some(file)).name, Some(file))
  }

  /** `items` in front of a lookup that went on from there. */
  function Prepend(items: seq<Item>, needsToken: bool, rest: Lookup): Lookup {
    match rest
    case Missing(_) => rest
    case Found(more, t) => Found(items + more, needsToken || t)
  }

  /** The loop over the selected names. */
  function LookUp(names: seq<string>, dockerDev: bool, files: Files): Lookup
    decreases |names|
  {
    if names == [] then Found([], false)
    else
      var path := ScriptPath(dockerDev, names[0]);
      match files(path)
      case None => Missing(names[0])
      case Some(file) =>
        Prepend([ItemOf(path, file)], HeaderOf(path, Some(file)).requiresToken, LookUp(names[1..], dockerDev, files))
  }

  /** The reply once the selected names are looked up. */
  function Answer(count: nat, token: Option<string>, lookup: Lookup): Reply {
    match lookup
    case Missing(name) => Refused(404, "Script not found for " + name)
    case Found(items, needsToken) =>
      var given := if token.Some? then token.value else "";
      if needsToken && given == [] then Refused(400, TokenRequiredMessage)
      else Launched(items, given, "Started downloading " + NatToString(count) + " models")
  }

  /** `/run_download_script` for the selected names and the optional `token` field. */
  function RequestReply(names: seq<string>, token: Option<string>, dockerDev: bool, files: Files): Reply {
    if names == [] then Refused(400, "No models selected")
    else Answer(|names|, token, LookUp(names, dockerDev, files))
  }

  lemma LookUpStep(names: seq<string>, dockerDev: bool, files: Files, i: nat)
    requires i < |names| && files(ScriptPath(dockerDev, names[i])).Some?
    ensures var path := ScriptPath(dockerDev, names[i]);
      var file := files(path).value;
      LookUp(names[i..], dockerDev, files)
        == Prepend([ItemOf(path, file)], HeaderOf(path, Some(file)).requiresToken, LookUp(names[i + 1..], dockerDev, files))
  {
    assert names[i..][1..] == names[i + 1..];
  }

  lemma PrependTwice(items: seq<Item>, needsToken: bool, item: Item, t: bool, rest: Lookup)
    ensures Prepend(items, needsToken, Prepend([item], t, rest)) == Prepend(items + [item], needsToken || t, rest)
  {
    if rest.Found? {
      assert items + ([item] + rest.items) == items + [item] + rest.items;
    }
  }

  /** A name whose script exists adds its entry and its token flag to what the
      lookup has collected before it. */
  lemma LookUpNext(names: seq<string>, dockerDev: bool, files: Files, items: seq<Item>, needsToken: bool, i: nat, header: Header)
    requires i < |names| && files(ScriptPath(dockerDev, names[i])).Some?
    requires header == HeaderOf(ScriptPath(dockerDev, names[i]), files(ScriptPath(dockerDev, names[i])))
    requires LookUp(names, dockerDev, files) == Prepend(items, needsToken, LookUp(names[i..], dockerDev, files))
    ensures var file := files(ScriptPath(dockerDev, names[i]));
      LookUp(names, dockerDev, files)
        == Prepend(items + [Item(header.name, file)], needsToken || header.requiresToken, LookUp(names[i + 1..], dockerDev, files))
  {
    var path := ScriptPath(dockerDev, names[i]);
    LookUpStep(names, dockerDev, files, i);
    assert ItemOf(path, files(path).value) == Item(header.name, files(path));
    PrependTwice(items, needsToken, Item(header.name, files(path)), header.requiresToken, LookUp(names[i + 1..], dockerDev, files));
  }

  /** The first name without a script ends the lookup. */
  lemma LookUpStops(names: seq<string>, dockerDev: bool, files: Files, items: seq<Item>, needsToken: bool, i: nat)
    requires i < |names| && files(ScriptPath(dockerDev, names[i])).None?
    requires LookUp(names, dockerDev, files) == Prepend(items, needsToken, LookUp(names[i..], dockerDev, files))
    ensures LookUp(names, dockerDev, files) == Missing(names[i])
  {
    assert names[i..][0] == names[i];
  }

  /** Once every name is looked up, the collected items are the lookup's result. */
  lemma LookUpEnds(names: seq<string>, dockerDev: bool, files: Files, items: seq<Item>, needsToken: bool)
    requires LookUp(names, dockerDev, files) == Prepend(items, needsToken, LookUp(names[|names|..], dockerDev, files))
    ensures LookUp(names, dockerDev, files) == Found(items, needsToken)
  {
    assert names[|names|..] == [];
    assert items + [] == items;
  }

  /** The loop of `run_download_script` over the selected names: each script's
      header is read, and the first name without a script ends the loop. */
  method LookUpScripts(names: seq<string>, dockerDev: bool, files: Files) returns (lookup: Lookup)
    ensures lookup == LookUp(names, dockerDev, files)
  {
    var items: seq<Item> := [];
    var needsToken := false;
    for i := 0 to |names|
      invariant LookUp(names, dockerDev, files) == Prepend(items, needsToken, LookUp(names[i..], dockerDev, files))
    {
      var path := ScriptPath(dockerDev, names[i]);
      var file := files(path);
      if file.None? {
        LookUpStops(names, dockerDev, files, items, needsToken, i);
        return Missing(names[i]);
      }
      var header := ParseScriptHeader(path, file);
      LookUpNext(names, dockerDev, files, items, needsToken, i, header);
      items := items + [Item(header.name, file)];
      needsToken := needsToken || header.requiresToken;
    }
    LookUpEnds(names, dockerDev, files, items, needsToken);
    lookup := Found(items, needsToken);
  }

  /** `run_download_script`: the checks the route makes before it starts the batch. */
  method RunDownloadScript(names: seq<string>, token: Option<string>, dockerDev: bool, files: Files)
    returns (reply: Reply)
    ensures reply == RequestReply(names, token, dockerDev, files)
  {
    if names == [] {
      return Refused(400, "No models selected");
    }
    var lookup := LookUpScripts(names, dockerDev, files);
    reply := Answer(|names|, token, lookup);
  }
}
