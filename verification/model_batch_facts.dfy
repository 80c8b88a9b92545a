/** What the batch download of preset model scripts guarantees: how a stop and a
    status poll act, what one command, one script and the whole batch leave in
    the status dictionary, and which command lines reach the shell. */
module ModelBatchFacts {
  import opened Text
  import opened ScriptReader
  import opened Jobs
  import opened ModelBatch

  /** The state a stop leaves: phase stopped and no process handle. */
  predicate Halted(j: Job) {
    j.status.phase == Stopped && !j.live
  }

  /** The model counters, which only the item loop itself changes. */
  predicate SameCounts(a: Job, b: Job) {
    a.status.totalModels == b.status.totalModels && a.status.completedModels == b.status.completedModels
  }

  /** The command lines of `cmds`, in order, as the worker hands them to the shell. */
  function SpawnedAll(cmds: seq<string>, token: string): seq<string> {
    seq(|cmds|, m requires 0 <= m < |cmds| => Spawned(cmds[m], token))
  }

  /** Every command line of every item, item after item. */
  function BatchCommands(items: seq<Item>, token: string): seq<string>
    decreases |items|
  {
    if items == [] then [] else SpawnedAll(Commands(items[0].script), token) + BatchCommands(items[1..], token)
  }

  lemma SpawnedAllStep(cmds: seq<string>, token: string, i: nat)
    requires i < |cmds|
    ensures SpawnedAll(cmds[i..], token) == [Spawned(cmds[i], token)] + SpawnedAll(cmds[i + 1..], token)
  {
  }

  /** A stop among the handlers leaves the worker halted, and so does any handler
      once it is halted; the handlers never touch the counters, never set the
      handle and never report completion. */
  lemma {:induction false} HandlersOutcome(j: Job, hs: seq<Handler>)
    ensures var r := AfterHandlers(j, hs);
      && ((StopRequest in hs || Halted(j)) ==> Halted(r))
      && SameCounts(r, j) && r.status.currentModel == j.status.currentModel
      && (r.live ==> j.live)
      && (r.status.phase == Completed ==> j.status.phase == Completed)
    decreases |hs|
  {
    if hs != [] {
      HandlersOutcome(AfterHandler(j, hs[0]), hs[1..]);
      if StopRequest in hs && hs[0] != StopRequest {
        assert StopRequest in hs[1..];
      }
    }
  }

  /** Without a stop the handle is kept, a running worker is left alone, and only
      a download without a process can change: it becomes an error. */
  lemma {:induction false} HandlersWithoutStop(j: Job, hs: seq<Handler>)
    requires StopRequest !in hs
    ensures var r := AfterHandlers(j, hs);
      && r.live == j.live
      && ((j.live || j.status.phase != Downloading) ==> r == j)
      && (j.status.phase != Stopped ==> r.status.phase != Stopped)
    decreases |hs|
  {
    if hs != [] {
      assert StopRequest !in hs[1..];
      HandlersWithoutStop(AfterHandler(j, hs[0]), hs[1..]);
    }
  }

  /** `model_status` changes the status exactly when a download has no process,
      and then it reports it as lost; polling twice is polling once. */
  lemma PollOutcome(j: Job)
    ensures AfterPoll(j) != j <==> !j.live && j.status.phase == Downloading
    ensures AfterPoll(j) != j ==> AfterPoll(j).status.phase == Error && AfterPoll(j).status.message == LostMessage
    ensures AfterPoll(AfterPoll(j)) == AfterPoll(j)
  {
  }

  /** The read loop: a stop during it leaves no handle, otherwise the handle and
      a phase other than stopped survive; the counters are never touched. */
  lemma {:induction false} StepsOutcome(j: Job, steps: seq<Step>, title: string)
    ensures var r := AfterSteps(j, steps, title);
      && SameCounts(r, j)
      && (r.status.phase == Completed ==> j.status.phase == Completed)
      && (StopsDuring(steps) ==> !r.live)
      && (!StopsDuring(steps) ==> r.live == j.live && (j.status.phase != Stopped ==> r.status.phase != Stopped))
    decreases |steps|
  {
    if steps != [] && j.live {
      var j1 := AfterStep(j, steps[0], title);
      StepsOutcome(j1, steps[1..], title);
      if StopsDuring(steps) && steps[0] != Interrupt(StopRequest) {
        assert Interrupt(StopRequest) in steps[1..];
      }
      if !StopsDuring(steps) {
        assert Interrupt(StopRequest) !in steps[1..];
      }
    }
  }

  /** One command of a script: a stop before it spawns nothing and halts; it
      succeeds exactly when it was not stopped, its process ran to the end without
      a stop and returned 0; each failure leaves its own error message. */
  lemma CommandOutcome(j: Job, cmd: string, a: Attempt, name: string, i: nat, n: nat, token: string)
    ensures var r := CommandRun(j, cmd, a, name, i, n, token);
      var j1 := AfterHandlers(j, a.before);
      && SameCounts(r.state, j)
      && (r.state.status.phase == Completed ==> j.status.phase == Completed)
      && (StopRequest in a.before ==> r == Run(j1, false, []) && Halted(r.state))
      && (r.ok <==> j1.status.phase != Stopped && a.transfer.Ran? && !StopsDuring(a.transfer.steps)
                    && a.transfer.exitCode == 0)
      && (r.ok ==> r.state.live)
      && (j1.status.phase != Stopped && a.transfer.SpawnFailed? ==>
            r.spawned == [] && r.state.status.phase == Error && r.state.status.message == ErrorText(a.transfer.reason))
      && (j1.status.phase != Stopped && a.transfer.Ran? && StopsDuring(a.transfer.steps) ==>
            r.spawned == [Spawned(cmd, token)] && r.state.status.phase == Error
            && r.state.status.message == ErrorText(MissingAttribute("stdout")))
      && (j1.status.phase != Stopped && a.transfer.Ran? && !StopsDuring(a.transfer.steps) && a.transfer.exitCode != 0 ==>
            r.spawned == [Spawned(cmd, token)] && r.state.status.phase == Error
            && r.state.status.message == "Error downloading " + Label(name, i, n) + ". Return code: " + IntToString(a.transfer.exitCode))
  {
    var j1 := AfterHandlers(j, a.before);
    HandlersOutcome(j, a.before);
    if j1.status.phase != Stopped && a.transfer.Ran? {
      var title := Label(name, i, n);
      var j2 := j1.(status := j1.status.(currentModel := title, message := "Downloading " + title + "..."));
      StepsOutcome(j2.(live := true), a.transfer.steps, title);
    }
  }

  /** While the worker reads, no stop having run among the steps read so far, the
      handle stays set: a stop that starts at any point of the read finds the
      process and kills it. */
  lemma ReadKeepsHandle(j: Job, steps: seq<Step>, k: nat, title: string)
    requires j.live && !StopsDuring(steps) && k <= |steps|
    ensures AfterSteps(j, steps[..k], title).live
  {
    StopsPrefix(steps, k);
    StepsOutcome(j, steps[..k], title);
  }

  /** The usual course of a stop: its kill ends the output and the process
      returns a non-zero code while the stop sleeps, so the worker, its handle
      still set, records the failed command, which ends the script and the batch
      (`FailureEndsBatch`), and the stop's end then writes "stopped" last, with
      the progress fields reset, no handle and the counts the batch reached. */
  lemma LateStopOutcome(j: Job, cmd: string, a: Attempt, name: string, i: nat, n: nat, token: string)
    requires AfterHandlers(j, a.before).status.phase != Stopped
    requires a.transfer.Ran? && !StopsDuring(a.transfer.steps) && a.transfer.exitCode != 0
    ensures var r := CommandRun(j, cmd, a, name, i, n, token);
      var s := AfterStop(r.state);
      && !r.ok && r.spawned == [Spawned(cmd, token)] && r.state.status.phase == Error
      && r.state.status.message == "Error downloading " + Label(name, i, n) + ". Return code: " + IntToString(a.transfer.exitCode)
      && s.status.phase == Stopped && s.status.message == StopMessage && s.status.progress == 0 && !s.live
      && SameCounts(s, j)
  {
    CommandOutcome(j, cmd, a, name, i, n, token);
  }

  /** The command loop of a script from command `i` on: it hands the shell a
      prefix of the remaining commands, in order, and all of them when it succeeds. */
  lemma {:induction false} ScriptFromOutcome(j: Job, cmds: seq<string>, name: string, token: string, world: World, k: nat, i: nat)
    requires i <= |cmds|
    ensures var r := ScriptFrom(j, cmds, name, token, world, k, i);
      && r.spawned <= SpawnedAll(cmds[i..], token)
      && (r.ok ==> r.spawned == SpawnedAll(cmds[i..], token))
      && SameCounts(r.state, j)
      && (r.state.status.phase == Completed ==> j.status.phase == Completed)
    decreases |cmds| - i
  {
    if i < |cmds| {
      var r1 := CommandRun(j, cmds[i], world.attempt(k, i), name, i, |cmds|, token);
      CommandOutcome(j, cmds[i], world.attempt(k, i), name, i, |cmds|, token);
      SpawnedAllStep(cmds, token, i);
      if r1.ok {
        ScriptFromOutcome(r1.state, cmds, name, token, world, k, i + 1);
      }
    }
  }

  /** `run_model_download`: it always ends without a process handle, spawns a
      prefix of the script's commands in order, all of them when it succeeds, and
      fails without spawning anything when the script holds no command. */
  lemma ScriptOutcome(j: Job, item: Item, token: string, world: World, k: nat)
    ensures var r := ScriptRun(j, item, token, world, k);
      var cmds := Commands(item.script);
      && !r.state.live
      && r.spawned <= SpawnedAll(cmds, token)
      && (r.ok ==> cmds != [] && r.spawned == SpawnedAll(cmds, token))
      && (cmds == [] ==> r == Run(j.(live := false), false, []))
      && SameCounts(r.state, j)
      && (r.state.status.phase == Completed ==> j.status.phase == Completed)
  {
    var cmds := Commands(item.script);
    if cmds != [] {
      ScriptFromOutcome(j, cmds, item.name, token, world, k, 0);
      assert cmds[0..] == cmds;
    }
  }

  /** A stop before the stopped check of an item ends the batch there. */
  lemma StopBeforeItem(j: Job, items: seq<Item>, token: string, world: World, k: nat)
    requires k < |items| && StopRequest in world.beforeItem(k)
    ensures var r := ItemRun(j, items, token, world, k);
      !r.ok && r.spawned == [] && Halted(r.state)
  {
    HandlersOutcome(j, world.beforeItem(k));
  }

  /** One item of the batch: it counts one more completed model exactly when it succeeds. */
  lemma ItemOutcome(j: Job, items: seq<Item>, token: string, world: World, k: nat)
    requires k < |items|
    ensures var r := ItemRun(j, items, token, world, k);
      && r.state.status.totalModels == j.status.totalModels
      && r.state.status.completedModels == j.status.completedModels + (if r.ok then 1 else 0)
      && (r.state.status.phase == Completed ==> j.status.phase == Completed)
      && (!j.live ==> !r.state.live)
      && r.spawned <= SpawnedAll(Commands(items[k].script), token)
      && (r.ok ==> r.spawned == SpawnedAll(Commands(items[k].script), token))
  {
    var j1 := AfterHandlers(j, world.beforeItem(k));
    HandlersOutcome(j, world.beforeItem(k));
    if j1.status.phase != Stopped {
      var j2 := j1.(status := j1.status.(currentModel := items[k].name,
                                         message := "Downloading " + Label(items[k].name, k, |items|) + "..."));
      ScriptOutcome(j2, items[k], token, world, k);
    }
  }

  lemma PrefixJoin(a: seq<string>, b: seq<string>, x: seq<string>, y: seq<string>)
    requires a == x && b <= y
    ensures a + b <= x + y
  {
    assert (x + y)[..|a + b|] == a + b;
  }

  lemma PrefixExtend(a: seq<string>, x: seq<string>, y: seq<string>)
    requires a <= x
    ensures a <= x + y
  {
    assert (x + y)[..|a|] == x[..|a|];
  }

  /** The item loop from item `k` on, started with `k` models completed. */
  lemma {:induction false} ItemsOutcome(j: Job, items: seq<Item>, token: string, world: World, k: nat)
    requires k <= |items| && j.status.completedModels == k && j.status.phase != Completed
    ensures var r := ItemsFrom(j, items, token, world, k);
      && r.state.status.totalModels == j.status.totalModels
      && k <= r.state.status.completedModels <= |items|
      && (r.ok <==> r.state.status.completedModels == |items|)
      && (r.ok <==> r.state.status.phase == Completed)
      && (r.ok ==> r.state.status.progress == 100 && r.state.status.message == DoneMessage)
      && (!j.live ==> !r.state.live)
      && r.spawned <= BatchCommands(items[k..], token)
      && (r.ok ==> r.spawned == BatchCommands(items[k..], token))
    decreases |items| - k
  {
    if k < |items| {
      var r1 := ItemRun(j, items, token, world, k);
      ItemOutcome(j, items, token, world, k);
      var here := SpawnedAll(Commands(items[k].script), token);
      assert items[k..][1..] == items[k + 1..];
      assert BatchCommands(items[k..], token) == here + BatchCommands(items[k + 1..], token);
      if r1.ok {
        var rest := ItemsFrom(r1.state, items, token, world, k + 1);
        ItemsOutcome(r1.state, items, token, world, k + 1);
        PrefixJoin(r1.spawned, rest.spawned, here, BatchCommands(items[k + 1..], token));
      } else {
        PrefixExtend(r1.spawned, here, BatchCommands(items[k + 1..], token));
      }
    }
  }

  /** One pass of the item loop, and the rest of it when the item succeeds. */
  lemma ItemsFromStep(j: Job, items: seq<Item>, token: string, world: World, k: nat)
    requires k < |items|
    ensures var r1 := ItemRun(j, items, token, world, k);
      ItemsFrom(j, items, token, world, k) == if !r1.ok then r1 else After(r1.spawned, ItemsFrom(r1.state, items, token, world, k + 1))
  {
  }

  /** The command lines of the items from `k` up to, not including, `m`. */
  function CommandsBetween(items: seq<Item>, token: string, k: nat, m: nat): seq<string>
    decreases m - k
  {
    if k >= m || k >= |items| then [] else SpawnedAll(Commands(items[k].script), token) + CommandsBetween(items, token, k + 1, m)
  }

  /** The shell received only commands of items `k` to `m`, in order. */
  predicate SpawnedThrough(spawned: seq<string>, items: seq<Item>, token: string, k: nat, m: nat) {
    spawned <= CommandsBetween(items, token, k, m + 1)
  }

  /** A failing item hands the shell only its own commands. */
  lemma ThroughOne(spawned: seq<string>, items: seq<Item>, token: string, k: nat)
    requires k < |items| && spawned <= SpawnedAll(Commands(items[k].script), token)
    ensures SpawnedThrough(spawned, items, token, k, k)
  {
    assert CommandsBetween(items, token, k + 1, k + 1) == [];
    assert CommandsBetween(items, token, k, k + 1) == SpawnedAll(Commands(items[k].script), token) + [];
  }

  /** A successful item's commands, then those of the rest of the loop. */
  lemma ThroughCons(here: seq<string>, later: seq<string>, items: seq<Item>, token: string, k: nat, m: nat)
    requires k <= m && k < |items| && here == SpawnedAll(Commands(items[k].script), token)
    requires SpawnedThrough(later, items, token, k + 1, m)
    ensures SpawnedThrough(here + later, items, token, k, m)
  {
    assert CommandsBetween(items, token, k, m + 1) == here + CommandsBetween(items, token, k + 1, m + 1);
    PrefixJoin(here, later, here, CommandsBetween(items, token, k + 1, m + 1));
  }

  /** The item loop from item `k` on stops at the first item that fails: the
      shell receives no command of any later item. */
  lemma {:induction false} FailureEndsItems(j: Job, items: seq<Item>, token: string, world: World, k: nat)
    requires k <= |items| && j.status.completedModels == k && j.status.phase != Completed
    ensures var r := ItemsFrom(j, items, token, world, k);
      !r.ok ==> && k <= r.state.status.completedModels < |items|
                && SpawnedThrough(r.spawned, items, token, k, r.state.status.completedModels)
    decreases |items| - k
  {
    if k < |items| {
      var r1 := ItemRun(j, items, token, world, k);
      ItemsFromStep(j, items, token, world, k);
      ItemOutcome(j, items, token, world, k);
      if r1.ok {
        var rest := ItemsFrom(r1.state, items, token, world, k + 1);
        FailureEndsItems(r1.state, items, token, world, k + 1);
        if !rest.ok {
          var m := rest.state.status.completedModels;
          ThroughCons(r1.spawned, rest.spawned, items, token, k, m);
        }
      } else {
        ThroughOne(r1.spawned, items, token, k);
      }
    }
  }

  /** A batch that fails has completed fewer models than it has, and the shell
      never receives a command of an item after the one that failed. */
  lemma FailureEndsBatch(j: Job, items: seq<Item>, token: string, world: World)
    ensures var r := BatchRun(j, items, token, world);
      !r.ok ==> && 0 <= r.state.status.completedModels < |items|
                && SpawnedThrough(r.spawned, items, token, 0, r.state.status.completedModels)
  {
    FailureEndsItems(j.(status := Started(j.status, |items|)), items, token, world, 0);
  }

  /** `run_model_downloads`: the status counts the models, the batch succeeds
      exactly when every model completed, and then the status says completed at
      100%; the shell receives the commands of the scripts in order, never one
      twice, and all of them when the batch succeeds. */
  lemma BatchOutcome(j: Job, items: seq<Item>, token: string, world: World)
    ensures var r := BatchRun(j, items, token, world);
      && r.state.status.totalModels == |items|
      && 0 <= r.state.status.completedModels <= |items|
      && (r.ok <==> r.state.status.completedModels == |items|)
      && (r.ok <==> r.state.status.phase == Completed)
      && (r.ok ==> r.state.status.progress == 100 && r.state.status.message == DoneMessage)
      && (!j.live ==> !r.state.live)
      && r.spawned <= BatchCommands(items, token)
      && (r.ok ==> r.spawned == BatchCommands(items, token))
  {
    ItemsOutcome(j.(status := Started(j.status, |items|)), items, token, world, 0);
    assert items[0..] == items;
  }

  /** A stop that lands before the batch has written its starting status is
      overwritten by it: the batch runs as if no stop had come. */
  lemma StopBeforeStartOverwritten(j: Job, items: seq<Item>, token: string, world: World)
    requires !j.live
    ensures BatchRun(AfterStop(j), items, token, world) == BatchRun(j, items, token, world)
  {
    assert AfterStop(j).(status := Started(AfterStop(j).status, |items|)) == j.(status := Started(j.status, |items|));
  }

  /** A first script without any command ends the batch silently: nothing is
      spawned and the status still says downloading, until the next poll reports
      the download as lost. */
  lemma EmptyScriptLeftDownloading(j: Job, items: seq<Item>, token: string, world: World)
    requires !j.live && items != [] && world.beforeItem(0) == [] && Commands(items[0].script) == []
    ensures var r := BatchRun(j, items, token, world);
      && !r.ok && r.spawned == [] && !r.state.live && r.state.status.phase == Downloading
      && AfterPoll(r.state).status.phase == Error && AfterPoll(r.state).status.message == LostMessage
  {
    var j0 := j.(status := Started(j.status, |items|));
    var j2 := j0.(status := j0.status.(currentModel := items[0].name,
                                       message := "Downloading " + Label(items[0].name, 0, |items|) + "..."));
    ScriptOutcome(j2, items[0], token, world, 0);
  }

  /** A poll that arrives after the batch has started but before its first
      process exists reports the download as lost. */
  lemma PollBeforeFirstSpawn(j: Job, n: nat)
    requires !j.live
    ensures var j1 := AfterHandlers(j.(status := Started(j.status, n)), [StatusPoll]);
      j1.status.phase == Error && j1.status.message == LostMessage
  {
    assert [StatusPoll][1..] == [];
  }

  /** A command that is not stopped before it starts reaches the shell. */
  lemma RanCommandSpawns(j: Job, cmd: string, a: Attempt, name: string, i: nat, n: nat, token: string)
    requires a.before == [] && a.transfer.Ran? && j.status.phase != Stopped
    ensures CommandRun(j, cmd, a, name, i, n, token).spawned == [Spawned(cmd, token)]
  {
    assert AfterHandlers(j, a.before) == j;
  }

  /** Such a first command of a script is spawned whatever follows. */
  lemma ScriptSpawnsFirst(j: Job, item: Item, token: string, world: World, k: nat)
    requires Commands(item.script) != [] && j.status.phase != Stopped
    requires world.attempt(k, 0).before == [] && world.attempt(k, 0).transfer.Ran?
    ensures ScriptRun(j, item, token, world, k).spawned != []
  {
    var cmds := Commands(item.script);
    RanCommandSpawns(j, cmds[0], world.attempt(k, 0), item.name, 0, |cmds|, token);
  }

  /** The batch goes on after such a poll: the first command of the first item is
      still spawned. */
  lemma BatchGoesOnAfterPoll(j: Job, items: seq<Item>, token: string, world: World)
    requires !j.live && items != [] && world.beforeItem(0) == [StatusPoll]
    requires Commands(items[0].script) != []
    requires world.attempt(0, 0).before == [] && world.attempt(0, 0).transfer.Ran?
    ensures BatchRun(j, items, token, world).spawned != []
  {
    var j0 := j.(status := Started(j.status, |items|));
    PollBeforeFirstSpawn(j, |items|);
    var j1 := AfterHandlers(j0, world.beforeItem(0));
    var j2 := j1.(status := j1.status.(currentModel := items[0].name,
                                       message := "Downloading " + Label(items[0].name, 0, |items|) + "..."));
    ScriptSpawnsFirst(j2, items[0], token, world, 0);
    assert ItemRun(j0, items, token, world, 0).spawned != [];
  }

  /** With a token, the first URL of a command reaches the shell with the token attached. */
  lemma TokenInjected(cmd: string, token: string)
    requires token != [] && FindUrl(cmd).Some?
    ensures Contains(Spawned(cmd, token), FindUrl(cmd).value + "?token=" + token)
  {
    var url := FindUrl(cmd).value;
    FindUrlIn(cmd);
    ReplaceInserts(cmd, url, url + "?token=" + token);
    ContainsBehind("stdbuf -oL ", InjectToken(cmd, token), url + "?token=" + token);
  }

  /** Illustrates the no-token case of `Spawned` in one step: the command reaches
      the shell unchanged. The token case is `TokenInjected`, and the whole batch
      is `BatchOutcome`. */
  lemma NoTokenUnchanged(cmd: string)
    ensures Spawned(cmd, "") == "stdbuf -oL " + cmd
  {
  }

  /** Every selected name has its download script. */
  predicate AllScriptsExist(names: seq<string>, dockerDev: bool, files: Files) {
    forall m :: 0 <= m < |names| ==> files(ScriptPath(dockerDev, names[m])).Some?
  }

  /** The header of some selected script asks for a token. */
  predicate SomeNeedsToken(names: seq<string>, dockerDev: bool, files: Files) {
    exists m :: 0 <= m < |names| && HeaderOf(ScriptPath(dockerDev, names[m]), files(ScriptPath(dockerDev, names[m]))).requiresToken
  }

  /** The entries are the selected scripts, in the order of the names. */
  predicate ItemsOfNames(items: seq<Item>, names: seq<string>, dockerDev: bool, files: Files) {
    && |items| == |names|
    && forall m :: 0 <= m < |names| && files(ScriptPath(dockerDev, names[m])).Some? ==>
         items[m] == ItemOf(ScriptPath(dockerDev, names[m]), files(ScriptPath(dockerDev, names[m])).value)
  }

  /** `names[m]` is the first selected name without a script. */
  predicate FirstMissing(names: seq<string>, dockerDev: bool, files: Files, m: nat) {
    && m < |names|
    && files(ScriptPath(dockerDev, names[m])).None?
    && forall q :: 0 <= q < m ==> files(ScriptPath(dockerDev, names[q])).Some?
  }

  /** The loop over the selected names stops at the first name without a script. */
  lemma {:induction false} LookUpMissing(names: seq<string>, dockerDev: bool, files: Files)
    ensures var l := LookUp(names, dockerDev, files);
      && (l.Found? <==> AllScriptsExist(names, dockerDev, files))
      && (l.Missing? ==> exists m: nat :: FirstMissing(names, dockerDev, files, m) && names[m] == l.name)
    decreases |names|
  {
    if names != [] {
      var tail := names[1..];
      LookUpMissing(tail, dockerDev, files);
      assert forall m :: 1 <= m < |names| ==> tail[m - 1] == names[m];
      if files(ScriptPath(dockerDev, names[0])).None? {
        assert FirstMissing(names, dockerDev, files, 0);
      } else if LookUp(tail, dockerDev, files).Missing? {
        var m: nat :| FirstMissing(tail, dockerDev, files, m) && tail[m] == LookUp(tail, dockerDev, files).name;
        assert FirstMissing(names, dockerDev, files, m + 1);
      }
    }
  }

  /** When every script exists, the loop gives one entry per name, in order. */
  lemma {:induction false} LookUpItems(names: seq<string>, dockerDev: bool, files: Files)
    requires LookUp(names, dockerDev, files).Found?
    ensures ItemsOfNames(LookUp(names, dockerDev, files).items, names, dockerDev, files)
    decreases |names|
  {
    if names != [] {
      var tail := names[1..];
      var path := ScriptPath(dockerDev, names[0]);
      LookUpItems(tail, dockerDev, files);
      assert forall m :: 1 <= m < |names| ==> tail[m - 1] == names[m];
      assert LookUp(names, dockerDev, files).items == [ItemOf(path, files(path).value)] + LookUp(tail, dockerDev, files).items;
    }
  }

  /** When every script exists, the loop asks for a token exactly when some header does. */
  lemma {:induction false} LookUpToken(names: seq<string>, dockerDev: bool, files: Files)
    requires LookUp(names, dockerDev, files).Found?
    ensures LookUp(names, dockerDev, files).needsToken <==> SomeNeedsToken(names, dockerDev, files)
    decreases |names|
  {
    if names != [] {
      var tail := names[1..];
      var path := ScriptPath(dockerDev, names[0]);
      LookUpToken(tail, dockerDev, files);
      if LookUp(tail, dockerDev, files).needsToken {
        var m :| 0 <= m < |tail| && HeaderOf(ScriptPath(dockerDev, tail[m]), files(ScriptPath(dockerDev, tail[m]))).requiresToken;
        assert names[m + 1] == tail[m];
      }
      if SomeNeedsToken(names, dockerDev, files) && !HeaderOf(path, files(path)).requiresToken {
        var m :| 0 <= m < |names| && HeaderOf(ScriptPath(dockerDev, names[m]), files(ScriptPath(dockerDev, names[m]))).requiresToken;
        assert m != 0;
        assert tail[m - 1] == names[m];
      }
    }
  }

  /** `/run_download_script`: the batch starts exactly when some names are
      selected, every one has its script and a token is given whenever a header
      asks for one. */
  lemma RequestLaunches(names: seq<string>, token: Option<string>, dockerDev: bool, files: Files)
    ensures var reply := RequestReply(names, token, dockerDev, files);
      var given := if token.Some? then token.value else "";
      && (names == [] ==> reply == Refused(400, "No models selected"))
      && (reply.Launched? <==> names != [] && AllScriptsExist(names, dockerDev, files)
                               && (given == [] ==> !SomeNeedsToken(names, dockerDev, files)))
  {
    LookUpMissing(names, dockerDev, files);
    if LookUp(names, dockerDev, files).Found? {
      LookUpToken(names, dockerDev, files);
    }
  }

  /** A started batch gets the selected scripts, in the order of the names. */
  lemma LaunchedItems(names: seq<string>, token: Option<string>, dockerDev: bool, files: Files)
    ensures var reply := RequestReply(names, token, dockerDev, files);
      reply.Launched? ==> ItemsOfNames(reply.items, names, dockerDev, files)
  {
    if names != [] && LookUp(names, dockerDev, files).Found? {
      LookUpItems(names, dockerDev, files);
    }
  }

  /** A started batch gets the given token, and the reply counts the names. */
  lemma LaunchedToken(names: seq<string>, token: Option<string>, dockerDev: bool, files: Files)
    ensures var reply := RequestReply(names, token, dockerDev, files);
      reply.Launched? ==>
        && reply.token == (if token.Some? then token.value else "")
        && reply.message == "Started downloading " + NatToString(|names|) + " models"
  {
    if names != [] {
      AnswerLaunched(|names|, token, LookUp(names, dockerDev, files));
    }
  }

  lemma AnswerLaunched(count: nat, token: Option<string>, lookup: Lookup)
    ensures var reply := Answer(count, token, lookup);
      reply.Launched? ==>
        && reply.token == (if token.Some? then token.value else "")
        && reply.message == "Started downloading " + NatToString(count) + " models"
  {
  }

  /** The route asks for a token exactly when every script exists, none is given
      and some header asks for one. */
  lemma RequestAsksToken(names: seq<string>, token: Option<string>, dockerDev: bool, files: Files)
    ensures var reply := RequestReply(names, token, dockerDev, files);
      var given := if token.Some? then token.value else "";
      reply == Refused(400, TokenRequiredMessage) <==>
        names != [] && AllScriptsExist(names, dockerDev, files) && given == [] && SomeNeedsToken(names, dockerDev, files)
  {
    LookUpMissing(names, dockerDev, files);
    if LookUp(names, dockerDev, files).Found? {
      LookUpToken(names, dockerDev, files);
    }
  }

  /** A 404 reply names the first selected name without a script. */
  lemma RequestNamesMissing(names: seq<string>, token: Option<string>, dockerDev: bool, files: Files)
    ensures var reply := RequestReply(names, token, dockerDev, files);
      reply.Refused? && reply.code == 404 ==>
        exists m: nat :: FirstMissing(names, dockerDev, files, m) && reply.message == "Script not found for " + names[m]
  {
    LookUpMissing(names, dockerDev, files);
  }
}
