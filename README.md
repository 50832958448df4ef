# Terminal-Bench platform: the attempt pipeline

This project models the backend of a platform that runs Terminal-Bench tasks
against language models. A user uploads a task as a zip archive. A run of
that task creates a number of attempts. Each attempt is executed by starting
the Harbor runner (`harbor run ... --agent terminus-2`), reading the trial
directory the runner leaves behind (episodes, test results and the reward)
and recording the outcome in the database. After every attempt ends, the
run's status is derived again. Task files can also live in an S3-compatible
object store.

The modules follow the backend's files:

- `HarborRunner` (`harbor_runner.dfy`) models `backend/harbor_runner.py`:
  - the command line and the environment the runner is started with;
  - the classification of how the process ended into one result record;
  - the search for the trial directory;
  - the parsing of episodes, of `verifier/ctrf.json` and of `verifier/reward.txt`.

  The subprocess is a function parameter from the invocation (argv,
  environment, timeout) to an outcome. The outcome is an exit with its
  output, a timeout, or a failure to start. The runner's output directory is
  a tree of `OutputTree.Node` values in listing order.
- `Database` (`database.dfy`) holds the rows of the five tables declared in
  `backend/database.py`, in a `Store` class whose methods are the writes the
  worker and the API make. `Store.Valid` is the foreign-key and status
  invariant every write keeps.
- `CeleryWorker` (`celery_worker.dfy`) models `backend/celery_worker.py`:
  - the worker task that runs one attempt and finalises it (success, failure, exception handler);
  - `update_run_status_if_complete`;
  - `ensure_task_files_exist`.
- `Api` (`main_api.dfy`) models the handlers of `backend/main.py`:
  - the upload of a task: naming, manifest directory selection, stored path;
  - run creation with its attempt loop;
  - the in-process executor;
  - the five-table delete;
  - the per-attempt `tests_passed`/`tests_total` counts in the run views.
- `Storage` (`storage.dfy`) models `backend/storage.py`:
  - the configuration read from the environment, and the credential guard;
  - the mapping between relative paths and object keys, in both directions;
  - the single-object operations, the listing, and the directory upload and download loops.

  The bucket and the local disk are classes holding maps. The client's
  success or failure is a parameter.
- `Text`, `Paths`, `OutputTree`, `Json` and `Wrappers` give the ASCII part
  of Python's string operations (whitespace, digits and letters are the
  ASCII ones), `pathlib` path normalisation, the listing tree, JSON values,
  the Option/Result types and `dict.get`. They are written out once and used by every
  module. `json.loads`, `json.dumps` and `float()` are opaque partial
  functions carried in a `Codec` record.

Behaviours of the code worth noting:

- Test statuses other than a missing one pass through unchanged.
- The worker's exception handler leaves the reward as it was and does not
  derive the run's status again. A run whose attempts all crash therefore
  stays `running` (`Database.CrashesLeaveRunStatus`).
- The columns `test_name` and `status` are NOT NULL, and parsed JSON values
  go into the rows unchanged. A success whose test has a `null` name or
  status, or whose stored field is a JSON list or object, is refused at
  commit. Nothing is written and the attempt stays `running`
  (`CeleryWorker.NullTestFieldRefused`).
- `ensure_task_files_exist` is defined but never called by the worker task.
  It is modelled as a standalone function.
- `download_directory_from_s3` is imported by `main.py` but never called.
  Its selection of keys is by bare string prefix, so a key under the prefix
  `tasks/a_1x` is also downloaded for the prefix `tasks/a_1`
  (`Storage.SiblingPrefixSelected`).

## Model

| member | source | states |
|---|---|---|
| HarborRunner.HarborCommandOptions | backend/harbor_runner.py:46-55 | the argv has 16 words: the binary, `run`, then exactly the pairs `--path`, `--agent terminus-2`, `--model`, `--jobs-dir`, `--n-attempts 1`, `--n-concurrent 1`, `--env docker`, read back pair by pair from the argv |
| HarborRunner.OptionPairsRoundTrip | backend/harbor_runner.py:46-55 | flattening `--flag value` pairs into an argv and reading them back returns the same pairs |
| HarborRunner.HarborEnvOverrides | backend/harbor_runner.py:58-62 | the runner's environment has the caller's variables plus the API key and `DOCKER_HOST`; only those two are overridden and every other variable keeps its value |
| HarborRunner.ExitCodeReadsBack | backend/harbor_runner.py:82-96 | a nonzero exit's error message starts with `Harbor execution failed (exit ` and the integer up to the next `)` parses back to the exit code |
| HarborRunner.ExitErrorEmbedsStderr | backend/harbor_runner.py:86-91 | the first 5000 characters of stderr occur in the error message |
| HarborRunner.ExitErrorEmbedsStdout | backend/harbor_runner.py:87-91 | the first 2000 characters of stdout occur in the error message |
| HarborRunner.ExitErrorBounded | backend/harbor_runner.py:84-91 | the error message's length is bounded by the fixed text, the exit code's digits, 5000 and 2000, whatever the length of the output |
| HarborRunner.FirstTrial | backend/harbor_runner.py:151-156 | a found position is a directory holding an `agent` entry inside a directory directly under the output directory |
| HarborRunner.FirstTrialNone | backend/harbor_runner.py:143-158 | no trial is found exactly when no directory under the output directory holds a directory with an `agent` entry; plain files at either level never count |
| HarborRunner.FirstTrialIsFirst | backend/harbor_runner.py:151-156 | the trial found is the first one in listing order: first by date directory, then by position inside it |
| HarborRunner.FindTrialDirectory | backend/harbor_runner.py:143-158 | the nested loop with early return finds the same trial as the function `FindTrial`, and fails as `iterdir` does on a missing output directory or on a file |
| HarborRunner.EpisodeDirsIn | backend/harbor_runner.py:169 | only directories whose name starts with `episode-` are kept, never more than the listing holds |
| HarborRunner.EpisodeDirsInKeepsAll | backend/harbor_runner.py:169 | an entry is kept if and only if it is in the listing and is an `episode-` directory |
| HarborRunner.EpisodeDirsInAppend | backend/harbor_runner.py:169 | the filter of a concatenation is the concatenation of the filters, so kept entries stay in listing order |
| HarborRunner.ParseEpisode | backend/harbor_runner.py:172-191 | an episode read from a directory carries the number parsed from the directory's name |
| HarborRunner.ParseEpisodeDirsErrPersists | backend/harbor_runner.py:171-172 | once an episode number fails to parse, the rest of the directories cannot change the outcome: the whole parse fails with that error |
| HarborRunner.ParseEpisodeList | backend/harbor_runner.py:171-191 | the loop over the sorted episode directories, appending or skipping each, computes `ParseEpisodeDirs` |
| HarborRunner.ParseEpisodes | backend/harbor_runner.py:160-193 | `parse_episodes` computes `Episodes`: `[]` without an `agent` entry, otherwise the parse of the sorted `episode-` directories |
| HarborRunner.EpisodesBounded | backend/harbor_runner.py:171-191 | a successful parse yields at most one episode per episode directory |
| HarborRunner.EpisodesFailIff | backend/harbor_runner.py:172 | the parse fails if and only if some episode directory's name has no integer between its first and second `-` |
| HarborRunner.EpisodesAllWellFormed | backend/harbor_runner.py:171-191 | when every directory's number parses and its response reads as a JSON object, nothing is skipped: one episode per directory |
| HarborRunner.EpisodesInDirectoryOrder | backend/harbor_runner.py:169-191 | in that case the k-th episode is the one read from the k-th sorted directory and carries that directory's number |
| HarborRunner.EpisodeNumbersFromDirs | backend/harbor_runner.py:171-185 | every parsed episode's number is the number of some episode directory |
| HarborRunner.EpisodeDefaults | backend/harbor_runner.py:181-184 | an empty JSON object gives analysis `''`, plan `''`, commands the serialisation of `[]` and task_complete `False` |
| HarborRunner.CollectSkips | backend/harbor_runner.py:171-191 | in a loop that stops at the first raise and collects what each entry yields, an entry that yields nothing can be removed without changing the outcome, error or not |
| HarborRunner.CollectKeeps | backend/harbor_runner.py:171-191 | when that loop finishes, every entry's yield is among the results |
| HarborRunner.CollectInOrder | backend/harbor_runner.py:171-191 | when that loop finishes, the yields of two entries occur in the order of the entries |
| HarborRunner.ParseEpisodeDirsCollects | backend/harbor_runner.py:171-191 | the episode parse is that loop, each directory raising on a bad number and otherwise yielding its episode or nothing |
| HarborRunner.SkippedEpisodeDropped | backend/harbor_runner.py:175-191 | a directory with a valid number whose response is missing or unreadable, or is not a JSON object, contributes nothing: the parse equals the parse without it |
| HarborRunner.ReadableEpisodeKept | backend/harbor_runner.py:171-185 | when the parse succeeds, the episode of every directory that reads is in the result |
| HarborRunner.ReadableEpisodesKeepOrder | backend/harbor_runner.py:169-185 | when the parse succeeds, episodes read from two directories appear in the order of their sorted directories, whatever is skipped between them |
| HarborRunner.EpisodesKeepEveryReadable | backend/harbor_runner.py:160-185 | when a trial's episodes parse, every `episode-` directory of its `agent/` listing that reads contributes its episode |
| HarborRunner.EpisodeTenBeforeTwo | backend/harbor_runner.py:169 | the sort is lexicographic: `episode-10` is processed before `episode-2` |
| HarborRunner.ParseTestResults | backend/harbor_runner.py:207-212 | a test has an error message only when its status is `failed`, and the message is never `null`, which reads as `None` |
| HarborRunner.TestResultsMissing | backend/harbor_runner.py:197-214 | a missing or unreadable `verifier/ctrf.json`, or one that is not JSON, gives no test results |
| HarborRunner.TestResultsFromCtrf | backend/harbor_runner.py:205-212 | otherwise there is one result per `results.tests` element, in order; status defaults to `unknown` and otherwise passes through unchanged; name defaults to `''` and duration to 0; the error message is present exactly when the test failed and its `message` is not `null`, and is then that message, `''` when absent |
| HarborRunner.TestResultsAllOrNothing | backend/harbor_runner.py:207-214 | one element that is not an object makes the whole list empty, not just that element |
| HarborRunner.RewardReadOrZero | backend/harbor_runner.py:216-228 | a nonzero reward is the float read from the stripped `verifier/reward.txt`; a missing, unreadable or non-numeric file gives 0.0 |
| HarborRunner.ExecuteHarbor | backend/harbor_runner.py:10-141 | success holds exactly when the binary exists, the process exits 0, a trial is found and its episodes parse. A success carries the trial's path, its parsed episodes, tests and reward, and no error. Every failure has reward 0.0, no episodes or tests, no output path, and an error |
| HarborRunner.MissingBinaryFails | backend/harbor_runner.py:34-42 | without the executable nothing is started and the attempt fails with `Harbor executable not found at <path>. Set HARBOR_BIN env var or install Harbor in harbor-venv/` |
| HarborRunner.NoTrialFails | backend/harbor_runner.py:98-108 | a clean exit that leaves no trial directory fails with `Could not find trial directory in output` |
| HarborRunner.TimeoutFails | backend/harbor_runner.py:124-132 | a run that outlives the 1800 s timeout fails with the timeout message |
| HarborRunner.NonzeroExitFails | backend/harbor_runner.py:82-96 | a nonzero exit fails with the message built from the exit code and the truncated stderr and stdout |
| HarborRunner.BadEpisodeNumberFails | backend/harbor_runner.py:133-141 | an episode directory whose number does not parse turns a clean exit into an `Unexpected error: ` failure |
| OutputTree.FirstDirWith | backend/main.py:259-263 | the result is the first entry that is a directory holding the marker, or none exactly when no entry is |
| OutputTree.SortByName | backend/harbor_runner.py:169 | `sorted` returns a permutation of the entries, ordered by name |
| Database.NewAttempt | backend/main.py:395-399 | a new attempt belongs to its run, carries its number, is `running`, and has no reward, episode count, output path, error or completion time |
| Database.Succeeded | backend/celery_worker.py:178-183 | a succeeded attempt is `completed` with the result's reward, the number of parsed episodes and the trial path, no error, and a completion time; run, number and creation time are kept |
| Database.FailedWith | backend/celery_worker.py:226-229 | a failed attempt is `failed` with reward 0.0, the result's error and a completion time; episode count and output path are left as they were |
| Database.WorkerErrored | backend/celery_worker.py:248-250 | the exception handler marks the attempt `failed` with `Worker error: ` and the message, and a completion time; the reward is left as it was |
| Database.SettleRun | backend/celery_worker.py:16-32 | a run with no `running` attempt becomes `completed`; a run with one is unchanged; other runs, and every other field, are untouched; a missing run changes nothing |
| Database.Storable | backend/database.py:55-78 | a success commits only when every episode and test row binds: no list or object in a column, no `null` test name or status, and a boolean, 0, 1 or `null` for `task_complete` |
| Database.Finalised | backend/celery_worker.py:174-256 | however an attempt ends other than by a refused commit, provided the write recording that ending succeeds, it is no longer `running` and has a completion time |
| Database.LastFinishCompletesRun | backend/celery_worker.py:208-233 | after a sequence of endings in which every running attempt of a run ends other than by a refused commit, the last one by the success or failure branch, the run is `completed` |
| Database.CrashesLeaveRunStatus | backend/celery_worker.py:208-256 | when every ending of a run's attempts goes through the exception handler or a refused commit, the run's row is left exactly as it was |
| Database.Store.AddTask | backend/main.py:281-287 | inserts exactly one new task row; its id is one more than the largest task id, or 1 when there are no tasks; nothing else changes |
| Database.Store.AddRun | backend/main.py:384-391 | inserts a `queued` run of an existing task; its id is one more than the largest run id, or 1 when there are no runs; nothing else changes |
| Database.Store.AddAttempt | backend/main.py:395-401 | inserts one new `running` attempt; its id is one more than the largest attempt id, or 1 when there are none; nothing else changes |
| Database.Store.MarkRunRunning | backend/main.py:428-429 | sets only the run's status to `running` |
| Database.Store.RecordSuccess | backend/celery_worker.py:177-208 | the commit goes through exactly when the result is `Storable`. Then the attempt becomes `Succeeded`, and one episode row per parsed episode and one test row per parsed test are appended, in order and tagged with the attempt; otherwise nothing changes |
| Database.Store.AddEpisodes | backend/celery_worker.py:185-195 | appends exactly the episode rows of the parsed episodes, in order; the other tables are unchanged |
| Database.Store.AddTestResults | backend/celery_worker.py:197-206 | appends exactly the test rows of the parsed tests, in order; the other tables are unchanged |
| Database.Store.RecordFailure | backend/celery_worker.py:225-230 | the attempt becomes `FailedWith` the result's error; no rows are added |
| Database.Store.RecordWorkerError | backend/celery_worker.py:245-251 | the attempt becomes `WorkerErrored`; no rows are added |
| Database.Store.UpdateRunStatusIfComplete | backend/celery_worker.py:16-32 | the runs become `SettleRun` of the old runs, and nothing else changes |
| Database.Store.ClearEpisodes | backend/main.py:305 | empties the episode table only |
| Database.Store.ClearTestResults | backend/main.py:306 | empties the test result table only |
| Database.Store.ClearAttempts | backend/main.py:309 | empties the attempt table once no episode or test result refers to one; the next attempt id is 1 again |
| Database.Store.ClearRuns | backend/main.py:312 | empties the run table once no attempt refers to one; the next run id is 1 again |
| Database.Store.ClearTasks | backend/main.py:315 | empties the task table once no run refers to one; the next task id is 1 again |
| CeleryWorker.ReturnOf | backend/celery_worker.py:214-239 | the returned dictionary reports success exactly when the runner succeeded, with the reward and the counts of episodes and tests, or else the runner's error |
| CeleryWorker.RecordResult | backend/celery_worker.py:174-256 | the attempt is finalised from the result, with its episode and test rows only on success, and then the run's status is derived again; a success the database refuses changes nothing |
| CeleryWorker.NullTestFieldRefused | backend/celery_worker.py:198-208 | a success with a test whose name or status is `null` is refused at commit and leaves the attempts and runs as they were |
| CeleryWorker.RecordEnding | backend/celery_worker.py:174-256 | the same, except when an exception is raised before the commit: then no rows are kept, the handler's write is applied and the run is left alone |
| CeleryWorker.ExecuteHarborTask | backend/celery_worker.py:131-259 | a missing attempt raises before the runner starts and changes nothing. Otherwise the runner's result is recorded and the dictionary returned. After an exception, the handler's write is made and the exception propagates; after a refused commit, nothing is written and the driver's exception propagates |
| CeleryWorker.IndexOf | backend/celery_worker.py:83-89 | the first position of `uploads` among the path components, or none exactly when it does not occur |
| CeleryWorker.EnsureTaskFilesExist | backend/celery_worker.py:52-117 | every non-error result is the path itself, normalised. An error occurs exactly when `task.toml` is missing and `uploads` is absent or is the last component |
| CeleryWorker.EnsureTaskFilesExistKeepsPath | backend/celery_worker.py:67-117 | an accepted path names the same components, and checking it again gives the same answer |
| Api.TaskName | backend/main.py:233-237 | a filename is rejected with 400 exactly when it does not end in `.zip`; a name is never longer than the filename |
| Api.TaskNameOfArchive | backend/main.py:237 | `<base>.zip`, where `base` contains no `.zip`, is named `base` |
| Api.SelectTaskDirectory | backend/main.py:258-266 | the loop with early exit selects `FirstDirWith`: the first entry that is a directory holding `task.toml` |
| Api.StoredTaskPath | backend/main.py:269-284 | the stored path is `tasks/<name>_<timestamp>` exactly when cloud storage is on and the upload succeeded; otherwise it is the local task path |
| Api.UploadTask | backend/main.py:225-289 | a bad name, a failed extraction or a missing manifest directory gives its 400 error, and an upload that raises gives a 500; all of these leave the store untouched. Otherwise exactly one task row is inserted, with that name and the stored path, which is the object-store prefix only when the upload returned true |
| Api.AttemptDirNameInjective | backend/main.py:404 | distinct (run, attempt number) pairs get distinct `run_<id>_attempt_<k>` output directories |
| Api.NewAttemptsDomain | backend/main.py:394-401 | the attempts created for n dispatches have exactly the n consecutive fresh ids, and the k-th is attempt number k, `running`, of the run |
| Api.JobsForAt | backend/main.py:404-420 | the k-th dispatched job runs the k-th new attempt, with the task's path, the model, the key and the output directory of attempt number k+1 |
| Api.AddAttempts | backend/main.py:394-425 | the loop adds exactly the attempts `NewAttempts` describes and dispatches exactly the jobs `JobsFor` describes; runs, tasks and rows are unchanged |
| Api.StartRun | backend/main.py:384-431 | once the checks pass, a new run is inserted, its attempts are added and dispatched, and it ends up `running`; tasks and rows are unchanged |
| Api.DispatchRun | backend/main.py:394-431 | a queued run's attempts are added and dispatched as `AddAttempts` describes, then only the run's status changes, to `running` |
| Api.CreateRun | backend/main.py:365-431 | a missing task gives 404 and a missing or empty API key 500, both before any row is written. Otherwise one run is inserted, attempts numbered 1..n are added, and the run ends up `running`, for every n including 0 (a negative n creates none, as `range` does) |
| Api.ExecuteAttemptLocally | backend/main.py:56-132 | the runner is always executed; a missing attempt then changes nothing; otherwise the attempt is finalised as by the worker (nothing is written when the commit is refused), and an exception is swallowed after the handler's write |
| Api.DeleteAllTasks | backend/main.py:297-325 | all five tables end up empty and ids start again at 1, so a later run reuses `run_1_attempt_<n>` output directories; the reported count and message use the number of tasks before deletion |
| Api.TestsOfAttempt | backend/main.py:341 | the attempt's test rows: all of them belong to it, and there are none exactly when no row does |
| Api.PassedRowsOfTestRows | backend/main.py:342 | counting `passed` rows after storing a result's tests gives the number of its tests with status `passed` |
| Api.TestCounts | backend/main.py:341-351 | both counts are absent together, exactly when the attempt has no test rows; otherwise passed is at most total and total is positive |
| Api.CountsAfterSuccess | backend/main.py:341-351 | after a success stores its tests, the attempt's counts are the number of passed tests and the number of tests, or absent when there are none |
| Api.ViewOf | backend/main.py:344-352 | an attempt's view copies its number, status, reward and episode count, and carries `TestCounts` |
| Api.RunViewOf | backend/main.py:443-464 | a run's view holds exactly the run's attempts, each as `ViewOf`, with the run's status and task |
| Api.GetRun | backend/main.py:433-464 | a missing run gives 404; otherwise the run's view |
| Api.GetTaskRuns | backend/main.py:327-363 | a missing task gives 404; otherwise the views of exactly the task's runs |
| Storage.Lower | backend/storage.py:12 | `lower()` keeps the length and lowers each character |
| Storage.LowerIdempotent | backend/storage.py:12 | lowering twice is lowering once |
| Wrappers.Get | backend/storage.py:16-17 | `get` with a default gives the key's value when it is present, otherwise the default |
| Storage.ConfigOf | backend/storage.py:12-17 | cloud storage is on exactly when `USE_CLOUD_STORAGE` lowers to `true`; credentials are present exactly when set; bucket and region take their defaults |
| Storage.CloudOffByDefault | backend/storage.py:12 | without the variable, cloud storage is off |
| Storage.CloudFlagIgnoresCase | backend/storage.py:12 | `TRUE` turns cloud storage on |
| Storage.S3Client | backend/storage.py:19-35 | a client exists exactly when cloud storage is on and endpoint, access key and secret are all non-empty; it carries them and the region |
| Storage.Slashed | backend/storage.py:89 | replacing `\` by `/` keeps the length and leaves no backslash |
| Storage.SlashedKeeps | backend/storage.py:89 | a string without backslashes is unchanged |
| Storage.UploadKey | backend/storage.py:89 | an object key never contains a backslash |
| Storage.UploadKeyShape | backend/storage.py:89 | for a backslash-free prefix the key is the prefix, `/`, and the slashed relative path |
| Storage.LStrip | backend/storage.py:121 | `lstrip` removes exactly the leading run of the character and keeps the rest |
| Storage.RelativeFromKey | backend/storage.py:121 | the relative path is a suffix of the key after the prefix and does not start with `/` |
| Storage.KeyRoundTrip | backend/storage.py:89-121 | mapping the key built for a relative path back gives that path with backslashes turned into slashes |
| Storage.KeyRoundTripPosix | backend/storage.py:89-121 | for a backslash-free relative path not starting with `/`, the download mapping of the upload key recovers the relative path itself |
| Storage.SiblingPrefixSelected | backend/storage.py:112-121 | a key uploaded under a longer prefix that extends the prefix also starts with the prefix, and maps to a relative path that keeps the extra text |
| Storage.UploadFile | backend/storage.py:37-52 | without a client the result is false; with one, a refused upload is raised naming the key, and an accepted one returns true; only then is the object written under the key |
| Storage.DownloadFile | backend/storage.py:54-72 | the download succeeds exactly when a client exists, the store answers without an error and the key exists; only then is the local file written with the object's content |
| Storage.DeleteObject | backend/storage.py:153-168 | the delete succeeds exactly when a client exists and the store answers without an error; only then the key is gone |
| Storage.ListObjects | backend/storage.py:137-151 | without a client, or when the store answers with an error, the list is empty; otherwise it is the first page (at most 1000 keys) of the listing, in order |
| Storage.ListedKeysCarryPrefix | backend/storage.py:147-148 | every listed key exists and starts with the prefix |
| Storage.UploadedKeys | backend/storage.py:84-91 | the uploaded keys are exactly the keys of the walk's regular files, and none has a backslash |
| Storage.UploadDirectory | backend/storage.py:74-98 | without a client nothing is written and the result is false. Otherwise the files up to the first refused one are uploaded; a refusal is raised naming the refused key, and the result is true when none was refused |
| Storage.DownloadedFromListing | backend/storage.py:118-128 | every written local file comes from a listed key with that object's content, and every listed key's local path is written |
| Storage.DownloadListing | backend/storage.py:114-128 | the loop writes the objects up to the first failed download and succeeds exactly when none failed |
| Storage.DownloadDirectory | backend/storage.py:100-135 | without a client, or when the listing request is answered with an error, nothing is written and the result is false. Otherwise each listed key under the prefix is written to `local_dir / relative`, up to the first failed download, and the result is true exactly when none failed |

## Left out

- Starting the runner process, the 1800-second timeout mechanism, logging and the resolution of `HARBOR_BIN` are not modelled. The process is a function parameter; the binary's path and whether it exists are an input.
- File and JSON I/O are not modelled. The output directory is a tree value. `json.loads`, `json.dumps` and `float()` are opaque partial functions, and floats are Dafny reals.
- Only the exceptions the parser can raise from its own logic are modelled: a missing directory, a file where a directory is expected, and a non-integer episode number. Other exceptions, such as permission errors or a broken disk, are not.
- Timestamps are an opaque `Clock` value passed in; the database's own defaults for `created_at` are not modelled.
- The SQLAlchemy session is not modelled: no flush or rollback state, and no relationship loading. An exception raised before the worker's commit is the `fault` parameter, and the handler's own write is taken to succeed.
- Database.Finalised: holds only when the exception handler's write succeeds. The handler runs its query without a rollback (backend/celery_worker.py:241-253, backend/main.py:120-130), so after a database error it fails, its failure is logged and swallowed, and the attempt stays `running`. That path is modelled for a commit refused because of the parsed values (`Refused`); other database errors, such as a locked or full database file, are not.
- Database.Storable: SQLite's 64-bit integer limit is not modelled, because JSON numbers are reals here; an `int` too large to bind would also make the commit fail. The exception message of a refused commit is a stand-in, `CeleryWorker.COMMIT_REFUSED`, for the driver's own text.
- CeleryWorker.RecordEnding: an exception raised after the attempt's commit, such as one from reloading the attempt to read its run id for the status update, would make the handler rewrite an already recorded attempt as failed. Only exceptions raised before the commit are modelled.
- Database.SettleRun: a commit failure inside `update_run_status_if_complete` is caught and logged there (backend/celery_worker.py:31-32), leaving the run as it was; the model's status update always succeeds.
- The rollback and 500 answer of `delete_all_tasks` are not modelled, because the in-memory deletes cannot fail.
- Celery's queueing, retries and backoff are not modelled. Neither are Redis probing or the background thread that `create_run` starts; dispatch is the list of jobs `create_run` returns.
- Concurrent attempts are not modelled. Two attempts of one run finishing at the same time, and the recomputation of run status under that race, are left out; endings are taken one at a time (`Database.Replay`).
- Directory creation (`mkdir`), saving the uploaded archive and extracting it are not modelled. The extraction's result is an input: the extracted listing, or the exception's message.
- Storage.DownloadDirectory: a listed key whose part after the prefix is empty or only `/`, such as a folder-marker object, maps to `local_dir` itself. Python writes that object as a file at `local_dir`, and the next key's `parent.mkdir` then raises `FileExistsError`, which escapes; the flat disk map writes both and reports success. The same holds when one key's local path is the parent directory of another's, as with prefix `tasks/a` and keys `tasks/a/b` and `tasks/ab/c`.
- `list_tasks` and the other read-only endpoints that only return rows ordered by creation time are not modelled, since the order of rows by timestamp is not modelled either.
- Api.GetRun: the attempts of a run view are a map by id, not a list in relationship order.
- Api.GetTaskRuns: the runs are a map by id, not a list ordered by `created_at` descending.
- Api.UploadTask: the directory upload's outcome is the `upload` parameter, which stands for what `Storage.UploadDirectory` returns or raises for the selected directory.
- Storage.UploadDirectory: `rglob`'s order is the order of the walk given as input, and a failed upload is a refusal by the store's `accepts` parameter.
- Storage: an unreachable endpoint raises a connection error, which is not a `ClientError` and escapes every function of the module. This is not modelled; `answered` only covers errors the store returns.
- Storage.DownloadDirectory: the order of the listing is an input, and the listing is not required to be sorted. Pagination is modelled as one complete listing of all keys under the prefix, and `answered` stands for all its requests: a page request that fails after earlier pages were downloaded, leaving those files written, is not modelled. A partial file left by a download that fails part way is not modelled.
- Storage.ListObjects: the store's first page is taken to be the first 1000 entries of the listing.
- Paths: the POSIX special case of a path starting with exactly `//` is not modelled; such a path normalises like one starting with `/`.
- Storage.Lower: only ASCII letters are lowered; `str.lower` on other alphabets is not modelled.
- Text.ParseInt: only ASCII digits and ASCII whitespace are accepted. Python's `int()` also accepts other Unicode decimal digits and whitespace; those are not modelled.
- Text.Strip: only ASCII whitespace is removed; `str.strip` also removes other Unicode whitespace.
- Boto3's client construction, signature version and endpoint handling are not modelled. The client is the `Client` record of the configuration's credentials.
