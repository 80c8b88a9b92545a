# ArtOfficial Studio model downloads, modelled in Dafny

ArtOfficial Studio is a container for ComfyUI and training tools. This project
models how it downloads models. A Flask control panel runs three kinds of
download. Each runs `aria2c` in a background thread and keeps a status
dictionary and a process handle that its HTTP routes read and change:

- a single CivitAI file (`run_civitai_download`, `/download_civitai`, `/stop_civitai`);
- a single file from a direct URL (`run_huggingface_download`,
  `/download_huggingface`, `/stop_huggingface`);
- a batch of preset download scripts (`run_model_downloads`, `run_model_download`,
  `/run_download_script`, `/stop_model_download`, `/model_status`).

The panel's one other background job, the training-tool install
(`run_training_tool_installation`), is not a download and is left out.

The batch worker reads each script for its `aria2c` commands
(`extract_aria2c_commands`), and the route reads each script's header
(`parse_script_header`). The filename extractor `extract_filename_from_command`
and the progress parser `parse_aria2c_output` are modelled too.

Beside the panel the project models:

- the stand-alone CivitAI downloader (`run_download_script`, `/download`, `/stop`),
  which has its own stricter progress pattern;
- the script generator `hf_dl_gen.py` (`filter_files`, `generate_download_script`
  and the output path chosen by `main`);
- `ensure_previews.py`, which makes two ComfyUI settings present in a JSON
  settings file.

## How the model is built

- `Text` gives the Python string operations the code uses (`strip`, `replace`,
  `split`, `lower`, `title`, `os.path.basename`, `os.path.join`,
  `os.path.splitext`) as functions on `seq<char>`.
- `ProgressParser` recognises what the two `aria2c` progress regular expressions
  match, one recogniser per pattern. `ProgressFacts` proves what each of them
  extracts from a well-formed progress summary and what each one rejects.
- `Jobs` holds what the workers share. The `aria2c` process is an input, a
  `Transfer`: the lines it prints, its exit code and its error output, or the
  reason it could not be started. The HTTP handlers that run beside a worker
  (a stop, a status poll) are `Interrupt` steps placed between two reads of output.
  Each handler runs atomically at that point.
- A stop also has two halves, as each class shows with `StopBegin` and `StopEnd`.
  The start finds the process and kills or terminates it, which ends its
  output. The end comes after a sleep of one second, or after waiting for the
  process. It drops the handle and writes "stopped", whatever the worker wrote
  in between. `AfterStopEnd` is that end, and `AfterStop` is the whole stop as one step.
- Each status dictionary and its process handle form one class, with a `status`
  record field and a `live` flag for "the handle is not `None`". The classes are
  `CivitaiDownloader.Downloader`, `CivitaiPanel.CivitaiDownload`,
  `HfPanel.HfDownload` and `ModelBatch.ModelJob`.
  - Every method ensures that the new `State()` is a function of the old one and
    of the inputs.
  - The lemmas beside each class state what those functions guarantee.
- Files on disk are inputs: a script is `Option<seq<string>>`, where `None`
  means it cannot be read, and the preset scripts folder is a function from path
  to file.
- `ScriptRoundTrip` and `HeaderRoundTrip` prove that what the generator writes is
  what the control panel reads back: the commands, their file names and the
  header.

A stop can end in two ways, and the model has both.

- Usually the stop's end comes after the worker has returned. The kill ends the
  output, and the process exits with a non-zero code. The worker still has its
  handle, waits, and records that exit code's error: "Download failed: …",
  "Error during download. …" or "Error downloading … Return code: …". The
  stop's end then writes "stopped" last (`LateStopOutcome` in each module).
  `ReadKeepsHandle` shows that a stop starting anywhere in the read finds the
  process.
- Sometimes the stop's end, which sets the handle to `None`, comes before the
  worker's next read. That is the `Interrupt(StopRequest)` step among the
  output, and here the read loops differ:
  - The batch worker and the stand-alone CivitAI worker call `readline` and
    `poll` through the handle on every pass. Their next read raises
    `'NoneType' object has no attribute 'stdout'`, and the worker stores that as
    an error over "stopped".
  - The control panel's CivitAI and URL workers loop over
    `iter(process.stdout.readline, '')`. They keep reading to the end of the
    output, then fail on `wait()` with the same kind of error, naming `wait`.

Behaviour of the code that the model keeps, even where it may surprise:

- The control panel's progress pattern does not capture the total's unit: for
  `16GiB/31GiB` it stores the total as `31`. Only the stand-alone pattern keeps
  `31GiB`.
- A batch stop that arrives before the worker starts does not prevent the batch.
  The worker overwrites the status with "downloading" and runs
  (`StopBeforeStartOverwritten`).
- The batch handle is cleared when each script ends (`finally` in
  `run_model_download`), not after each command. So a status poll between two
  scripts can report "exited unexpectedly", and the worker then goes on
  (`BatchGoesOnAfterPoll`).
- A generated script ends with `echo "All downloads completed!"`. The command
  reader treats that line as a continuation of the last `aria2c` command, so the
  last command read back carries the `echo` text
  (`GeneratedCommandsReadBack`). The file name extracted from it is still
  correct (`GeneratedFilenamesReadBack`).

## Model

| member | source | states |
|---|---|---|
| Jobs.Repr | control_panel/app.py:174 | the text `str(KeyError(key))` stores for an unknown model type is `repr(key)`: it starts and ends with the same quote, a double quote exactly when the key holds a single quote and no double quote |
| Jobs.ReprReadBack | control_panel/app.py:174 | what `repr` writes between its quotes reads back, escape by escape, as the key itself, for every key |
| Jobs.ReprPlain | civitai_model_downloader/app.py:80 | a key with no quote, no backslash and nothing `repr` escapes is written as itself between single quotes |
| Jobs.ReprSingleQuote | civitai_model_downloader/app.py:80 | the key `a'b` is written as `"a'b"` (an illustration of the quote choice) |
| CivitaiDownloader.Downloader.constructor | civitai_model_downloader/app.py:34-43 | the status starts idle, with an empty message, 0%, `0B` sizes, `0B/s` speed and `Unknown` ETA, and there is no process handle |
| CivitaiDownloader.Downloader.Stop | civitai_model_downloader/app.py:170-187 | the state becomes `AfterStop` of the old one: with a handle the status is stopped with "Download stopped by user" and the handle is gone; without one nothing changes |
| CivitaiDownloader.Downloader.StopBegin | civitai_model_downloader/app.py:173-176 | the stop goes on to terminate the process exactly when a handle is set |
| CivitaiDownloader.Downloader.StopEnd | civitai_model_downloader/app.py:182-185 | the state becomes `AfterStopEnd` of the old one: no handle, and the status says stopped with the stop message over whatever the worker wrote, keeping the progress |
| CivitaiDownloader.Downloader.Request | civitai_model_downloader/app.py:146-168 | returns the route's answer for the form fields, and changes the status to idle with "Initializing download..." only when the answer is "started" |
| CivitaiDownloader.Downloader.ReadLine | civitai_model_downloader/app.py:106-125 | an empty read changes nothing; otherwise a progress sample updates the progress fields and says completed at 100%, and any other stripped line becomes the message |
| CivitaiDownloader.Downloader.Take | civitai_model_downloader/app.py:102-125 | one step of the read loop: a read as in `ReadLine`, or a stop handler as in `Stop`; a status poll changes nothing |
| CivitaiDownloader.Downloader.ReadOutput | civitai_model_downloader/app.py:101-125 | the loop takes the steps in order and ends when they run out or when the handle is gone |
| CivitaiDownloader.Downloader.Download | civitai_model_downloader/app.py:68-140 | the new state and the spawned argument list are those of `DownloadRun`, whose properties `DownloadOutcome` states |
| CivitaiDownloader.StopOutcome | civitai_model_downloader/app.py:170-187 | a stop acts only on a running process; it then drops the handle, sets the status to stopped with the stop message and keeps the progress; stopping twice is stopping once |
| CivitaiDownloader.StepsOutcome | civitai_model_downloader/app.py:101-125 | a stop among the steps leaves no handle; without one the handle is unchanged |
| CivitaiDownloader.DownloadOutcome | civitai_model_downloader/app.py:68-140 | the worker always ends without a handle, either completed or in error. It completes, at 100% with "Download Complete!", exactly when the model type is known, the process ran, no stop came and it exited with 0. An unknown type gives "Error: " and the `KeyError` text, `repr` of the type, and spawns nothing. The spawned list has ten arguments: the model folder at index 6, the file name with the URL's extension at index 8 and the URL with `?token=` at index 9. A stop gives the missing-`stdout` error, and a non-zero exit gives the failure message |
| CivitaiDownloader.ReadKeepsHandle | civitai_model_downloader/app.py:101-125 | with no stop among the steps, the handle is still set after any number of reads, so a stop that starts during the read finds the process |
| CivitaiDownloader.LateStopOutcome | civitai_model_downloader/app.py:170-187 | when the stop's termination ends the output, the process exits non-zero and the stop's end follows the worker: the worker records "Error during download. Please check the logs." (lines 127-134), and the stop's end leaves "stopped" with the stop message, no handle and the worker's progress |
| CivitaiDownloader.RequestOutcome | civitai_model_downloader/app.py:146-168 | `/download` starts a download exactly when the token, URL, model type and file name are all given and the type is `lora` or `checkpoint`; a refused request changes nothing, and an accepted one sets the status to idle and keeps the handle |
| CivitaiPanel.CivitaiDownload.constructor | control_panel/app.py:66-74 | the status starts idle, with `0B` sizes, `0B/s` speed and `Unknown` ETA, and there is no handle |
| CivitaiPanel.CivitaiDownload.Stop | control_panel/app.py:774-788 | the state becomes `AfterStop` of the old one: only a running process is stopped |
| CivitaiPanel.CivitaiDownload.StopBegin | control_panel/app.py:776-779 | the stop goes on to terminate the process exactly when a handle is set |
| CivitaiPanel.CivitaiDownload.StopEnd | control_panel/app.py:782-787 | the state becomes `AfterStopEnd` of the old one: no handle, and the status says stopped with the stop message over whatever the worker wrote, keeping the progress |
| CivitaiPanel.CivitaiDownload.Request | control_panel/app.py:749-771 | returns the route's answer and changes the status to idle with "Initializing download..." only when the request is accepted |
| CivitaiPanel.CivitaiDownload.ReadLine | control_panel/app.py:200-224 | a blank line is skipped; a progress sample updates the progress fields and says completed at 100% or "Downloading <file>... <n>%"; any other stripped line becomes the message |
| CivitaiPanel.CivitaiDownload.Take | control_panel/app.py:200-224 | one step of the loop: a line as in `ReadLine`, or a stop as in `Stop` |
| CivitaiPanel.CivitaiDownload.ReadOutput | control_panel/app.py:200-224 | the loop consumes the steps up to the first empty read, whether or not a stop came |
| CivitaiPanel.CivitaiDownload.Download | control_panel/app.py:166-249 | the new state and the spawned command line are those of `DownloadRun`, whose properties `DownloadOutcome` states |
| CivitaiPanel.StopOutcome | control_panel/app.py:774-788 | a stop acts only on a running process; it drops the handle, says stopped with the stop message and keeps the progress; stopping twice is stopping once |
| CivitaiPanel.StepsOutcome | control_panel/app.py:200-224 | a stop among the steps the loop consumes leaves no handle; without one the handle is unchanged |
| CivitaiPanel.DownloadOutcome | control_panel/app.py:166-249 | the worker ends without a handle, completed or in error. It completes at 100% exactly when the type is one of the model folders, the process ran, no stop came while its output was read and it exited with 0. An unknown type gives "Error: " and the `KeyError` text, `repr` of the type, and spawns nothing. The command names the model folder, the file name and the URL with the token when one is given. A stop ends in the missing-`wait` error, and a non-zero exit gives the failure message |
| CivitaiPanel.ReadKeepsHandle | control_panel/app.py:200-224 | with no stop among the steps the loop reads, the handle is still set after any number of them, so a stop that starts during the read finds the process |
| CivitaiPanel.LateStopOutcome | control_panel/app.py:774-788 | when the stop's termination ends the output, the process exits non-zero and the stop's end follows the worker: the worker records "Error during download. Please check the logs." (lines 236-240), and the stop's end leaves "stopped" with the stop message, no handle and the worker's progress |
| CivitaiPanel.RequestOutcome | control_panel/app.py:749-771 | `/download_civitai` accepts a request exactly when the URL, type and file name are given and the type is a model folder; a refused request changes nothing |
| CivitaiPanel.ModelDirUnderBase | control_panel/app.py:43-49 | every model folder a known type maps to lies inside the models folder |
| HfPanel.RequestResponse | control_panel/app.py:727-746 | `/download_huggingface` starts a download exactly when a model URL is given |
| HfPanel.HfDownload.constructor | control_panel/app.py:91-102 | the status starts idle with empty URL and download path, and there is no handle |
| HfPanel.HfDownload.Stop | control_panel/app.py:804-852 | the state becomes `AfterStop` of the old one, and the files it may delete are the partial download and its `.aria2` control file in the recorded folder, only when a process was running |
| HfPanel.HfDownload.StopBegin | control_panel/app.py:806-813 | the stop goes on to kill the process group exactly when a handle is set |
| HfPanel.HfDownload.StopEnd | control_panel/app.py:814-850 | the state becomes `AfterStopEnd` of the old one: no handle, and the status says stopped at 0% over whatever the worker wrote; the files it may delete are those named by the recorded URL and folder |
| HfPanel.HfDownload.ReadLine | control_panel/app.py:399-417 | a blank line is skipped; a progress sample updates the fields and the message "Downloading <file>... <n>%"; any other stripped line becomes the message |
| HfPanel.HfDownload.Take | control_panel/app.py:399-417 | one step of the loop: a line as in `ReadLine`, or a stop as in `Stop` |
| HfPanel.HfDownload.ReadOutput | control_panel/app.py:399-417 | the loop consumes the steps up to the first empty read |
| HfPanel.HfDownload.Download | control_panel/app.py:341-448 | the new state, the returned flag and the spawned command are those of `DownloadRun`, whose properties `DownloadOutcome` states |
| HfPanel.StopOutcome | control_panel/app.py:804-852 | a stop acts only on a running process; it drops the handle and says stopped at 0%; stopping twice is stopping once |
| HfPanel.StepsOutcome | control_panel/app.py:399-417 | a stop among the consumed steps leaves no handle, without one the handle is unchanged, and the recorded URL and path are never touched |
| HfPanel.StepOutcome | control_panel/app.py:399-417 | one step keeps the recorded URL and path, and only a stop drops the handle |
| HfPanel.FileNameIgnoresToken | control_panel/app.py:376-380 | the file name taken from the URL is the same with or without the appended token |
| HfPanel.DownloadOutcome | control_panel/app.py:341-448 | the worker ends without a handle and returns true exactly when it completes. It completes exactly when the process ran, no stop came and it exited with 0; it then reports "Successfully downloaded to" the target folder joined with the file name. Every failure sets the progress to 0: a stop gives the missing-`wait` error and a non-zero exit gives "Download failed: " with the error output. The request's URL and path stay recorded |
| HfPanel.ReadKeepsHandle | control_panel/app.py:399-417 | with no stop among the steps the loop reads, the handle is still set after any number of them, so a stop that starts during the read finds the process |
| HfPanel.LateStopOutcome | control_panel/app.py:804-852 | when the stop's kill ends the output, the process exits non-zero and the stop's end follows the worker: the worker records "Download failed: " with the error output (lines 430-436) and returns false, the files the stop deletes are those of this request, and the stop's end leaves "stopped" at 0% without a handle |
| HfPanel.JoinSuffix | control_panel/app.py:827-830 | joining a name with a suffix to a folder is joining the name, then adding the suffix |
| HfPanel.StopDeletesTarget | control_panel/app.py:814-835 | when a folder was requested, a stop's deletion candidates are exactly the file the download writes and its `.aria2` control file |
| ModelBatch.ModelJob.constructor | control_panel/app.py:76-89 | the status starts idle with no models counted, and there is no handle |
| ModelBatch.ModelJob.Stop | control_panel/app.py:1076-1101 | the state becomes `AfterStop` of the old one: the handle is dropped and the status is stopped with the progress fields reset, whether or not a process was running. This is also the stop's end, after `StopBegin` and its second of sleep, over whatever the worker wrote meanwhile |
| ModelBatch.ModelJob.StopBegin | control_panel/app.py:1080-1084 | the stop goes on to kill the process group exactly when a handle is set |
| ModelBatch.ModelJob.Poll | control_panel/app.py:1104-1123 | the state becomes `AfterPoll` of the old one: "downloading" without a handle turns into the "exited unexpectedly" error |
| ModelBatch.ModelJob.Handle | control_panel/app.py:1076-1123 | one handler runs as `Stop` or `Poll` |
| ModelBatch.ModelJob.HandleAll | control_panel/app.py:1076-1123 | the handlers run in order |
| ModelBatch.ModelJob.ReadLine | control_panel/app.py:930-943 | only the status changes: a progress sample updates the fields and the message "Downloading <name> (i/n)... <p>%" |
| ModelBatch.ModelJob.ReadOutput | control_panel/app.py:926-943 | the loop takes the steps in order until they run out or the handle is gone |
| ModelBatch.ModelJob.RunCommand | control_panel/app.py:886-959 | the new state, the success flag and the spawned command line are those of `CommandRun` |
| ModelBatch.ModelJob.RunModelDownload | control_panel/app.py:861-971 | the new state, the result and the spawned commands are those of `ScriptRun` |
| ModelBatch.ModelJob.RunItem | control_panel/app.py:999-1016 | one pass of the batch loop, as `ItemRun` |
| ModelBatch.ModelJob.RunModelDownloads | control_panel/app.py:973-1032 | the new state and the spawned commands are those of `BatchRun`, whose properties `BatchOutcome` states |
| ModelBatch.CommandRun | control_panel/app.py:886-959 | one command spawns at most its own line, `stdbuf -oL` and the command with the token injected, and a success always spawned it |
| ModelBatch.LookUpScripts | control_panel/app.py:1043-1054 | the loop over the selected names gives `LookUp`: the first name without a script, or the scripts in order with whether any header asks for a token |
| ModelBatch.RunDownloadScript | control_panel/app.py:1035-1073 | the route's answer is `RequestReply`, whose properties `RequestLaunches` and its neighbours state |
| ModelBatch.LookUpStep | control_panel/app.py:1044-1051 | a name whose script exists adds that script and its token flag to the rest of the look-up |
| ModelBatch.LookUpNext | control_panel/app.py:1044-1054 | a name whose script exists adds its entry, named by its header, and ors its token flag into what was collected before it |
| ModelBatch.PrependTwice | control_panel/app.py:1051-1054 | adding scripts one at a time collects them in order and ors their token flags |
| ModelBatch.LookUpStops | control_panel/app.py:1047-1048 | the look-up stops at a name without a script and reports that name |
| ModelBatch.LookUpEnds | control_panel/app.py:1043-1054 | after the last name the look-up holds the collected scripts and flag |
| ModelBatchFacts.HandlersOutcome | control_panel/app.py:1076-1123 | handlers never bring a handle back, never change the model counts or the current model, and never make a job completed; a stop among them leaves the job halted |
| ModelBatchFacts.HandlersWithoutStop | control_panel/app.py:1104-1123 | without a stop the handle is unchanged, a running job or one not downloading is untouched, and nothing becomes stopped |
| ModelBatchFacts.PollOutcome | control_panel/app.py:1104-1123 | a poll changes the job exactly when it is downloading without a handle, and then reports the "exited unexpectedly" error; polling twice is polling once |
| ModelBatchFacts.StepsOutcome | control_panel/app.py:926-943 | reading output keeps the model counts and never completes; a stop among the steps leaves no handle; without one the handle stays and nothing becomes stopped |
| ModelBatchFacts.CommandOutcome | control_panel/app.py:886-959 | a command succeeds exactly when the job is not stopped when it is checked, the process ran, no stop came while reading and it exited with 0. A stop before it spawns nothing. A spawn failure gives its error. A stop while reading gives the missing-`stdout` error. A non-zero exit gives "Error downloading <name> (i/n). Return code: <code>" |
| ModelBatchFacts.ReadKeepsHandle | control_panel/app.py:926-943 | with no stop among the steps, the handle is still set after any number of reads, so a stop that starts during the read finds the process |
| ModelBatchFacts.LateStopOutcome | control_panel/app.py:1076-1101 | when the stop's kill ends the output, the process exits non-zero and the stop's end follows the worker: the command fails with "Error downloading <name> (i/n). Return code: <code>" (lines 951-956), which ends the batch, and the stop's end leaves "stopped" with the progress reset, no handle and the model counts unchanged |
| ModelBatchFacts.ScriptFromOutcome | control_panel/app.py:886-961 | the command loop from command `i` spawns a prefix of the remaining commands, and all of them when it succeeds |
| ModelBatchFacts.ScriptOutcome | control_panel/app.py:861-971 | a script run ends without a handle and spawns a prefix of its commands, all of them on success. A script with no commands fails without spawning and changes nothing but the handle |
| ModelBatchFacts.StopBeforeItem | control_panel/app.py:999-1001 | a stop before an item's check ends the batch at that item without spawning anything |
| ModelBatchFacts.ItemOutcome | control_panel/app.py:999-1016 | one item adds one to the completed count exactly when its script succeeds, and spawns a prefix of its commands |
| ModelBatchFacts.ItemsOutcome | control_panel/app.py:999-1023 | from item `k` on, the batch completes exactly when every item succeeds; it then reports 100% and "All downloads completed successfully!", and it spawns a prefix of the remaining commands |
| ModelBatchFacts.FailureEndsItems | control_panel/app.py:1010-1013 | a failed run from item `k` stops at the failing item and spawned only commands of items `k` up to it |
| ModelBatchFacts.FailureEndsBatch | control_panel/app.py:1010-1013 | a failed batch stops at the first failing item and spawned only commands of the items up to it |
| ModelBatchFacts.BatchOutcome | control_panel/app.py:973-1032 | the batch counts all selected items, completes exactly when all of them succeed and then reports 100%, and spawns the commands of its scripts in order with the token injected, all of them on success |
| ModelBatchFacts.StopBeforeStartOverwritten | control_panel/app.py:985-996 | a stop that comes before the worker starts has no effect on the run |
| ModelBatchFacts.EmptyScriptLeftDownloading | control_panel/app.py:879-881 | a first script without commands fails silently and leaves the status "downloading" without a handle, which the next poll turns into the "exited unexpectedly" error |
| ModelBatchFacts.PollBeforeFirstSpawn | control_panel/app.py:1111-1121 | a poll that comes after the worker resets the status but before its first spawn reports the "exited unexpectedly" error |
| ModelBatchFacts.RanCommandSpawns | control_panel/app.py:898-921 | a command that is not stopped and whose process starts spawns its line |
| ModelBatchFacts.ScriptSpawnsFirst | control_panel/app.py:886-921 | a script with commands spawns its first command when nothing stops it |
| ModelBatchFacts.BatchGoesOnAfterPoll | control_panel/app.py:999-1010 | an "exited unexpectedly" error reported by a poll before the first item does not stop the batch |
| ModelBatchFacts.TokenInjected | control_panel/app.py:898-906 | with a token, the spawned line contains the first URL of the command followed by `?token=` and the token |
| ModelBatchFacts.NoTokenUnchanged | control_panel/app.py:898-911 | without a token the spawned line is the command behind `stdbuf -oL` |
| ModelBatchFacts.LookUpMissing | control_panel/app.py:1044-1048 | the look-up reports a missing script exactly when some selected name has none, and then it reports the first such name |
| ModelBatchFacts.LookUpItems | control_panel/app.py:1044-1051 | a successful look-up holds one script per selected name, in the order of the names |
| ModelBatchFacts.LookUpToken | control_panel/app.py:1050-1054 | a successful look-up needs a token exactly when the header of some selected script asks for one |
| ModelBatchFacts.RequestLaunches | control_panel/app.py:1035-1073 | no names is refused with 400. The batch is launched exactly when names are given, every script exists, and a token is given or no header asks for one |
| ModelBatchFacts.LaunchedItems | control_panel/app.py:1043-1068 | a launched batch runs the selected scripts in the order of the names |
| ModelBatchFacts.LaunchedToken | control_panel/app.py:1037-1073 | a launched batch gets the token as given, or none, and the answer counts the selected names |
| ModelBatchFacts.AnswerLaunched | control_panel/app.py:1053-1073 | the answer of a launched batch carries the given token and counts the names |
| ModelBatchFacts.RequestAsksToken | control_panel/app.py:1053-1059 | the request is refused for a missing token exactly when every script exists, no token is given and some header asks for one |
| ModelBatchFacts.RequestNamesMissing | control_panel/app.py:1044-1048 | a 404 answer names the first selected name without a script |
| ProgressFacts.PanelParsesSummary | control_panel/app.py:133-164 | the control panel's parser reads the done size with its unit, the total's number without its unit, the whole percent, the speed with its unit and the ETA as hours, minutes and seconds |
| ProgressFacts.StandaloneParsesSummary | civitai_model_downloader/app.py:45-66 | the stand-alone parser reads the done size and the total with their binary units, the percent, the speed and the ETA |
| ProgressFacts.PanelNeedsMarker | control_panel/app.py:144-148 | a line without `[#` is never a progress sample for the control panel |
| ProgressFacts.StandaloneNeedsMarker | civitai_model_downloader/app.py:47-49 | a line without `[#` is never a progress sample for the stand-alone downloader |
| ProgressFacts.StandaloneRejectsDecimalPercent | civitai_model_downloader/app.py:47-49 | the stand-alone parser rejects a summary whose percent has a fraction, which the control panel accepts and truncates |
| ProgressFacts.StandaloneHeadRejectsFraction | civitai_model_downloader/app.py:47 | the stand-alone pattern's head does not match a fractional percent |
| ProgressFacts.IntPercentRejectsFraction | civitai_model_downloader/app.py:47 | a percent of digits followed by a fraction is not an integer percent |
| ProgressFacts.TotalUnitRejected | civitai_model_downloader/app.py:47 | the stand-alone pattern needs a binary unit on the total |
| ProgressFacts.CommentSummaryFields | control_panel/app.py:143 | the example line in the parser's comment is a well-formed summary of 16GiB of 31GiB at 52%, 80MiB/s, 3m12s |
| ProgressFacts.CommentExamplePanel | control_panel/app.py:143-164 | the control panel reads the example as `16GiB`, `31`, 52, `80MiB`, `3m12s` |
| ProgressFacts.CommentExampleStandalone | civitai_model_downloader/app.py:45-66 | the stand-alone downloader reads the example as `16GiB`, `31GiB`, 52, `80MiB`, `3m12s` |
| ScriptReader.ExtractAria2cCommands | control_panel/app.py:251-299 | the loop gives `Commands` of the file; an unreadable file gives no commands |
| ScriptReader.CommandCount | control_panel/app.py:266-294 | there is exactly one command per line that starts with `aria2c` after stripping |
| ScriptReader.FeedAllCount | control_panel/app.py:268-294 | reading lines adds one command per `aria2c` line to those already collected |
| ScriptReader.LeadingLinesIgnored | control_panel/app.py:268-289 | lines before the first `aria2c` line never reach a command |
| ScriptReader.CleanTidy | control_panel/app.py:277-279 | a cleaned command has no backslash left |
| ScriptReader.CommandsTidy | control_panel/app.py:266-294 | no extracted command contains a backslash |
| ScriptReader.PlainLineAppended | control_panel/app.py:276-287 | a plain line after an `aria2c` line is appended to that command after a space |
| ScriptReader.UrlFileName | control_panel/app.py:318-326 | the file name taken from a URL contains no `/` or `?` and is a piece of the URL |
| ScriptReader.ExtractFilename | control_panel/app.py:301-329 | a non-string gives none, and a found file name contains no quote |
| ScriptReader.QuoteFree | control_panel/app.py:314-316 | a name found after `-o` or `--out=` contains no quote |
| ScriptReader.UrlQuoteFree | control_panel/app.py:318-320 | a URL found in a command contains no quote |
| ScriptReader.FindUrlIn | control_panel/app.py:318-320 | a URL found in a command is non-empty and occurs in it |
| ScriptReader.SkipNoDash | control_panel/app.py:314 | text without a dash in front of the rest does not change the output flag found |
| ScriptReader.SkipShortOption | control_panel/app.py:314 | a short option other than `-o` is skipped when looking for the output flag |
| ScriptReader.OutputFlagOf | control_panel/app.py:314-316 | ` -o "<name>"` yields the name whenever it has no quote |
| ScriptReader.QuotedAtIff | control_panel/app.py:315 | the quoted part of the output pattern matches exactly a quote, a non-empty quote-free name and a quote, either quote closing either |
| ScriptReader.OutputAtIff | control_panel/app.py:315 | the output pattern matches at a position and captures `n` exactly when the text there is `--out=` or whitespace, `-o` and whitespace, then `n` quoted |
| ScriptReader.FindOutputFirst | control_panel/app.py:315-317 | the output name found is `n` exactly when the pattern matches with `n` at some position and at no earlier one: the leftmost match |
| ScriptReader.FindOutputNone | control_panel/app.py:315-316 | no output name is found exactly when the pattern matches at no position |
| ScriptReader.OutputFlagAfter | control_panel/app.py:315-317 | text that starts with an output flag and a quoted quote-free name gives that name after any text in which no match starts |
| ScriptReader.ExtractFromOutput | control_panel/app.py:311-317 | a command in which the output pattern matches is named by the leftmost match's value |
| ScriptReader.ExtractFromUrl | control_panel/app.py:315-329 | a command without an output flag is named after the last path segment, before any `?`, of its leftmost URL, and has no name when it has no URL |
| ScriptReader.LastValueStep | control_panel/app.py:469-476 | one more line replaces the value of its tag and keeps the others |
| ScriptReader.TagsExclusive | control_panel/app.py:471-476 | a line carries at most one of the three header tags |
| ScriptReader.ReadHeaderLine | control_panel/app.py:470-476 | one line sets the name, the description or the token flag, as its tag says, and leaves the others |
| ScriptReader.ParseScriptHeader | control_panel/app.py:450-500 | the header is `HeaderOf` the file: the last value of each tag, the file-name fallback for a missing or empty name, and the fallback alone for an unreadable file |
| HfScriptGen.AnyMarker | hf_dl_gen.py:79-85 | true exactly when the lower-cased path contains one of `fp8`, `fp16`, `fp32`, `bf16` |
| HfScriptGen.MatchesAny | hf_dl_gen.py:65-69 | true exactly when some pattern matches the path |
| HfScriptGen.FilterByPattern | hf_dl_gen.py:62-69 | the pattern loop keeps, in order, exactly the files that match some pattern, each once |
| HfScriptGen.FilterByPrecision | hf_dl_gen.py:76-102 | the precision loop keeps, in order, exactly the files that `KeepsPrecision` accepts |
| HfScriptGen.KeepsPrecision | hf_dl_gen.py:81-100 | true exactly when the path has no precision marker or contains one of the requested precisions other than `none` |
| HfScriptGen.FilterFiles | hf_dl_gen.py:49-103 | the result is `Selected`: the pattern filter and then the precision filter, each skipped when its list is empty |
| HfScriptGen.ByPatternCount | hf_dl_gen.py:62-69 | the pattern filter keeps every copy of a matching path and no copy of another |
| HfScriptGen.ByPrecisionCount | hf_dl_gen.py:76-100 | the precision filter keeps every copy of a kept path and no copy of another |
| HfScriptGen.SelectAll | hf_dl_gen.py:62-73 | with no patterns and no precisions every file is kept |
| HfScriptGen.SelectedSubsequence | hf_dl_gen.py:49-103 | the selected files keep their order and come from the input |
| HfScriptGen.SelectedCount | hf_dl_gen.py:49-103 | a path is kept, with all its copies, exactly when it passes both filters that are given |
| HfScriptGen.AppendBlock | hf_dl_gen.py:126-136 | one file adds its comment, its `aria2c` command and a blank line |
| HfScriptGen.AppendBlocks | hf_dl_gen.py:126-136 | the loop appends the blocks of all files, in the order of the files |
| HfScriptGen.GenerateDownloadScript | hf_dl_gen.py:105-145 | the lines and the written text are `ScriptLines` and their join with newlines |
| HfScriptGen.ScriptLayout | hf_dl_gen.py:116-138 | a script has 9 + 3 lines per file: the shebang, `# Model:` with the model name or the repository, per file its comment and its command, and the closing `echo` last |
| HfScriptGen.ScriptEnds | hf_dl_gen.py:116-138 | the preamble comes first, the file blocks start at line 8 and the closing `echo` is last |
| HfScriptGen.PlacedIn | hf_dl_gen.py:178-183 | a script name placed in a folder lies in that folder, has that name as basename and ends in `.sh` |
| HfScriptGen.OutputPathNaming | hf_dl_gen.py:170-183 | without `--output` the script goes into the given or the default folder, named `download_` + the repository with `/` turned into `_`, then `_` + the precisions when there are any, then `.sh` |
| ScriptRoundTrip.ScriptSplit | hf_dl_gen.py:116-144 | splitting the written text at newlines gives the preamble, each file's block as its own lines, and the closing line |
| ScriptRoundTrip.BlockSplit | hf_dl_gen.py:131-136 | one file's block splits into its comment, the three command lines and a blank line |
| ScriptRoundTrip.PreambleRead | hf_dl_gen.py:116-125 | the preamble has no line break inside a line and yields no command |
| ScriptRoundTrip.ReadBackEmpty | control_panel/app.py:266-294 | a script with no file yields no command |
| ScriptRoundTrip.ReadBackSome | control_panel/app.py:266-294 | with files, the reader yields each file's command, and the closing line is appended to the last one |
| ScriptRoundTrip.GeneratedCommandsReadBack | control_panel/app.py:251-299 | reading a generated script back gives one cleaned `aria2c` command per file, in order, with the closing `echo` line appended to the last |
| ScriptRoundTrip.GeneratedFilenamesReadBack | control_panel/app.py:301-329 | each command read back from a generated script yields the basename of its file as the output name |
| HeaderRoundTrip.GeneratedHeaderReadBack | control_panel/app.py:450-500 | the header of a generated script reads back the model name or repository it was written with, no description and no token requirement, falling back to the file name only when the name is empty |
| HeaderRoundTrip.ModelLineValue | control_panel/app.py:471-472 | the value read from `# Model: <d>` is `d` when `d` has no outer blanks and does not contain the tag |
| HeaderRoundTrip.HeaderAssembly | control_panel/app.py:469-480 | a file whose only tagged line is the second, a `# Model:` line, reads as that name with no description and no token requirement |
| EnsurePreviews.EnsureSettings | scripts/modifier_scripts/ensure_previews.py:11-36 | the outcome is `EnsureRun` of what was loaded |
| EnsurePreviews.RequiredWellFormed | scripts/modifier_scripts/ensure_previews.py:6-9 | the required settings have distinct keys and scalar values |
| EnsurePreviews.MergedOtherKey | scripts/modifier_scripts/ensure_previews.py:25-28 | a key that is not required is present and valued after the merge exactly as before |
| EnsurePreviews.MergedHasRequired | scripts/modifier_scripts/ensure_previews.py:25-28 | after the merge `settings.get` of every required key gives a value equal to the required one; the key is present unless that value is `None`, since an absent key reads as `None` |
| EnsurePreviews.MergedKeepsOthers | scripts/modifier_scripts/ensure_previews.py:25-28 | the merge adds only required keys, keeps every existing key, and keeps the value of each key that is not required |
| EnsurePreviews.ChangedIffStale | scripts/modifier_scripts/ensure_previews.py:24-28 | `updated` becomes true exactly when `settings.get` of some required key differs from its value: the key holds another value, or it is absent and the value is not `None` |
| EnsurePreviews.MergeIdempotent | scripts/modifier_scripts/ensure_previews.py:24-31 | merging a second time changes nothing |
| EnsurePreviews.UnchangedKeeps | scripts/modifier_scripts/ensure_previews.py:24-31 | when nothing is stale the merge leaves the settings as they were |
| EnsurePreviews.EnsureOutcome | scripts/modifier_scripts/ensure_previews.py:11-36 | an invalid file, or JSON that is not an object, exits with 1. A missing file is written with just the two settings. Loaded settings are written exactly when a required one is stale, and then hold both required values and keep every other key |
| EnsurePreviews.EnsureIdempotent | scripts/modifier_scripts/ensure_previews.py:11-36 | running again on what was written leaves the file unchanged |
| EnsurePreviews.OneCountsAsTrue | scripts/modifier_scripts/ensure_previews.py:26 | a stored `1` equals Python's `True`, so it is not rewritten |

## Left out

- Process spawning, output streaming, signals, `sleep` and `wait(timeout=5)` are not modelled. The process is an input, a `Transfer`.
- Threads are not modelled, beyond the handlers that run between two reads and the two halves of a stop. The model fixes where a handler can run: before an item's check, before a command's check, and between two reads. A stop's end may also follow the worker's return (`LateStopOutcome`). A stop's end that lands between the end of the read loop and `wait()` or the error read, or between `wait()` and the worker's status update, is not modelled.
- The Flask layer is not modelled: JSON encoding of answers, the HTML routes and the read-only status routes `/civitai_status`, `/huggingface_status` and `/health`. An absent form field is the empty string.
- ModelBatch.RunDownloadScript: takes the list of names that `json.loads` of the `script_names` field gives. Text that is not JSON, which fails the route before any check, is not modelled. Neither is JSON that is not a list of names. A string is iterated character by character, a non-zero number raises `TypeError`, and other values are not modelled either.
- Jobs.Repr: characters above U+00FF are written as they are. Python's `repr` writes those it does not count as printable as `\x`, `\u` or `\U` escapes.
- File I/O is not modelled. A script or settings file is an input. The difference between a file that exists and a file that can be read is not modelled. Creating folders is left out.
- `json.load` and `json.dump` are not modelled: only their results, valid or not, object or not. Key order, indentation, `NaN` and the error text are left out.
- `update_download_status` is a record update of the status.
- The models folder of each downloader and the `DOCKER_DEV` switch are parameters. Environment lookups, `Path` and path normalisation are not modelled. `PathJoin` follows `os.path.join` for two parts.
- HfPanel.HfDownload.Stop: returns the files a stop may delete, not whether they exist or were deleted.
- `fnmatch` is a parameter of the filter. `hf_hub_url` is a parameter of the generator.
- `get_repository_files` (the Hub API call) is not modelled.
- `main` of `hf_dl_gen.py` is modelled only for where it writes the script. Its printing, its argument parsing and its early return when no file matches are left out. `os.chmod` is left out.
- `int(float(...))` of a percent with many fractional digits is modelled as truncating the exact decimal. Float rounding is not modelled.
- Digits and letter case follow ASCII. Unicode digits and case folding are not modelled.
- The training-tool routes and `parse_training_tool_script` are not part of this model. `flux_model_downloader/app.py`, `downloadmodels.py` and `frontend_fix.py` are not part of it either.
- The `print` calls and debug output of every file are left out.
- HeaderRoundTrip.GeneratedHeaderReadBack: stated only for a display name without leading or trailing blanks that does not contain `# Model:`. Other names read back changed, as `strip` and `replace` make them.
- ScriptRoundTrip.GeneratedCommandsReadBack, ScriptRoundTrip.GeneratedFilenamesReadBack: stated only for generated scripts that `ScriptFits` admits. The repository, the display name and the paths have no line break. File names and URLs have no line break, backslash or double space. A line break here is a line feed or a carriage return (`NoBreak`), because Python's text-mode reading breaks lines at both. File names are non-empty and have no quote.
