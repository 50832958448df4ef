/**
 * The HTTP handlers' logic: uploading a task, creating a run and dispatching
 * its attempts, running an attempt in-process, deleting every task, and the
 * per-attempt test counts the run listings report.
 */
module Api {
  import opened Wrappers
  import opened Text
  import opened Paths
  import opened OutputTree
  import opened Json
  import opened HarborRunner
  import opened Database
  import opened CeleryWorker

  /** An `HTTPException`: status code and detail. */
  datatype HttpError = HttpError(status: nat, detail: string)

  const ZIP := ".zip"
  const CLOUD_TASKS_PREFIX := "tasks/"
  const NOT_A_ZIP := HttpError(400, "File must be a .zip file")
  const NO_MANIFEST := HttpError(400, "Could not find task directory with task.toml in uploaded zip")
  const TASK_NOT_FOUND := HttpError(404, "Task not found")
  const RUN_NOT_FOUND := HttpError(404, "Run not found")
  const NO_API_KEY := HttpError(500, "OPENROUTER_API_KEY not configured")
  /** The answer to an exception a handler does not catch. */
  const SERVER_ERROR := HttpError(500, "Internal Server Error")

  // ---------------------------------------------------------------------------
  // Uploading a task

  /** The task name of an uploaded file: the file must end in `.zip`, and every `.zip` in it is removed. */
  function TaskName(filename: string): (r: Result<string, HttpError>)
    ensures r.Err? <==> !EndsWith(filename, ZIP)
    ensures r.Err? ==> r.error == NOT_A_ZIP
    ensures r.Ok? ==> |r.value| <= |filename|
  {
    if EndsWith(filename, ZIP) then Ok(RemoveAll(filename, ZIP)) else Err(NOT_A_ZIP)
  }

  /** A file called `<base>.zip` whose base does not itself contain `.zip` is named `<base>`. */
  lemma TaskNameOfArchive(base: string)
    requires Free(base, ZIP)
    ensures TaskName(base + ZIP) == Ok(base)
  {
    assert (base + ZIP)[|base + ZIP| - |ZIP|..] == ZIP;
    RemoveAppended(base, ZIP);
  }

  /**
   * The task directory of an extracted archive: the first entry, in listing
   * order, that is a directory holding `task.toml`.
   */
  method SelectTaskDirectory(entries: seq<Node>) returns (r: Option<nat>)
    ensures r == FirstDirWith(entries, TASK_MANIFEST)
  {
    var i := 0;
    while i < |entries|
      invariant 0 <= i <= |entries|
      invariant forall k :: 0 <= k < i ==> !IsDirWith(entries[k], TASK_MANIFEST)
    {
      if entries[i].Dir? && HasEntry(entries[i], TASK_MANIFEST) {
        FirstDirWithAt(entries, TASK_MANIFEST, i);
        return Some(i);
      }
      i := i + 1;
    }
    return None;
  }

  /** The upload's own directory, `<uploads>/<name>_<timestamp>`. */
  function UploadDirectory(uploadDir: string, name: string, stamp: string): string {
    JoinPath(uploadDir, name + "_" + stamp)
  }

  /** The object-store prefix the task is uploaded under, `tasks/<name>_<timestamp>`. */
  function CloudTaskPrefix(name: string, stamp: string): string {
    CLOUD_TASKS_PREFIX + name + "_" + stamp
  }

  /**
   * The `file_path` a new task row gets: the object-store prefix when cloud
   * storage is on and the directory upload reported success, otherwise the
   * local task directory.
   */
  function StoredTaskPath(name: string, stamp: string, taskPath: string, cloudEnabled: bool, uploaded: bool): (p: string)
    ensures cloudEnabled && uploaded ==> p == CloudTaskPrefix(name, stamp) && StartsWith(p, CLOUD_TASKS_PREFIX)
    ensures !(cloudEnabled && uploaded) ==> p == taskPath
  {
    if cloudEnabled && uploaded then CloudTaskPrefix(name, stamp) else taskPath
  }

  /**
   * `upload_task`, from the moment the archive has been saved. `extraction`
   * is the extracted directory's listing, or the message of the exception
   * extraction raised; `upload` is what the directory upload returned when
   * cloud storage is on, or `Err` when it raised (a file the store refused).
   * A raised upload escapes the handler as a server error; otherwise a task
   * row is inserted, naming the object-store prefix only when the upload
   * returned true.
   */
  method UploadTask(db: Store, filename: string, stamp: string, uploadDir: string,
                    extraction: Result<seq<Node>, string>, cloudEnabled: bool, upload: Result<bool, string>,
                    now: Clock)
    returns (r: Result<nat, HttpError>)
    requires db.Valid()
    modifies db
    ensures db.Valid()
    ensures TaskName(filename).Err? ==> r == Err(NOT_A_ZIP)
    ensures TaskName(filename).Ok? && extraction.Err? ==>
      r == Err(HttpError(400, "Failed to extract zip: " + extraction.error))
    ensures TaskName(filename).Ok? && extraction.Ok? && FirstDirWith(extraction.value, TASK_MANIFEST).None? ==>
      r == Err(NO_MANIFEST)
    ensures (TaskName(filename).Ok? && extraction.Ok? && FirstDirWith(extraction.value, TASK_MANIFEST).Some?
             && cloudEnabled && upload.Err?) ==> r == Err(SERVER_ERROR)
    ensures r.Err? ==> unchanged(db)
    ensures r.Ok? ==>
      && TaskName(filename).Ok? && extraction.Ok? && FirstDirWith(extraction.value, TASK_MANIFEST).Some?
      && !(cloudEnabled && upload.Err?)
      && var name := TaskName(filename).value;
         var dir := extraction.value[FirstDirWith(extraction.value, TASK_MANIFEST).value];
         var taskPath := JoinPath(JoinPath(UploadDirectory(uploadDir, name, stamp), "extracted"), dir.name);
         && r.value !in old(db.tasks)
         && db.tasks == old(db.tasks)[r.value := TaskRow(name, StoredTaskPath(name, stamp, taskPath, cloudEnabled, upload == Ok(true)), now)]
    ensures r.Ok? ==>
      && db.runs == old(db.runs) && db.attempts == old(db.attempts)
      && db.episodes == old(db.episodes) && db.testResults == old(db.testResults)
  {
    var named := TaskName(filename);
    if named.Err? {
      return Err(named.error);
    }
    var name := named.value;
    var extractDir := JoinPath(UploadDirectory(uploadDir, name, stamp), "extracted");
    if extraction.Err? {
      return Err(HttpError(400, "Failed to extract zip: " + extraction.error));
    }
    var found := SelectTaskDirectory(extraction.value);
    if found.None? {
      return Err(NO_MANIFEST);
    }
    if cloudEnabled && upload.Err? {
      return Err(SERVER_ERROR);
    }
    var taskPath := JoinPath(extractDir, extraction.value[found.value].name);
    var id := db.AddTask(name, StoredTaskPath(name, stamp, taskPath, cloudEnabled, upload == Ok(true)), now);
    r := Ok(id);
  }

  // ---------------------------------------------------------------------------
  // Creating a run

  /** The output directory name of attempt `number` of run `runId`. */
  function AttemptDirName(runId: nat, number: nat): string {
    "run_" + IntToString(runId) + "_attempt_" + IntToString(number)
  }

  /** `str(OUTPUT_DIR / name)` for that directory. */
  function AttemptOutputDir(outputRoot: string, runId: nat, number: nat): string {
    JoinPath(outputRoot, AttemptDirName(runId, number))
  }

  lemma {:induction false} NatToStringInjective(a: nat, b: nat)
    requires NatToString(a) == NatToString(b)
    ensures a == b
  {
    NatToStringValue(a);
    NatToStringValue(b);
  }

  /** Text without `_` followed by text starting with `_` splits back into the two. */
  lemma SplitAtUnderscore(s1: string, t1: string, s2: string, t2: string)
    requires '_' !in s1 && '_' !in s2
    requires t1 != [] && t1[0] == '_' && t2 != [] && t2[0] == '_'
    requires s1 + t1 == s2 + t2
    ensures s1 == s2 && t1 == t2
  {
    TakeUntilAppend(s1, t1, '_');
    TakeUntilAppend(s2, t2, '_');
    assert t1 == (s1 + t1)[|s1|..];
    assert t2 == (s2 + t2)[|s2|..];
  }

  lemma DigitsHaveNoUnderscore(n: nat)
    ensures '_' !in NatToString(n)
  {
    var s := NatToString(n);
    assert forall k :: 0 <= k < |s| ==> IsDigit(s[k]);
  }

  lemma DirNameShape(runId: nat, number: nat)
    ensures AttemptDirName(runId, number)[4..] == NatToString(runId) + ("_attempt_" + NatToString(number))
  {
    var x := NatToString(runId) + ("_attempt_" + NatToString(number));
    assert AttemptDirName(runId, number) == "run_" + x;
  }

  lemma {:induction false} AttemptSuffixInjective(n1: nat, n2: nat)
    requires "_attempt_" + NatToString(n1) == "_attempt_" + NatToString(n2)
    ensures n1 == n2
  {
    assert NatToString(n1) == ("_attempt_" + NatToString(n1))[9..];
    assert NatToString(n2) == ("_attempt_" + NatToString(n2))[9..];
    NatToStringInjective(n1, n2);
  }

  /** Two attempts share an output directory name only when they are the same attempt of the same run. */
  lemma {:induction false} AttemptDirNameInjective(run1: nat, n1: nat, run2: nat, n2: nat)
    requires AttemptDirName(run1, n1) == AttemptDirName(run2, n2)
    ensures run1 == run2 && n1 == n2
  {
    DirNameShape(run1, n1);
    DirNameShape(run2, n2);
    DigitsHaveNoUnderscore(run1);
    DigitsHaveNoUnderscore(run2);
    SplitAtUnderscore(NatToString(run1), "_attempt_" + NatToString(n1), NatToString(run2), "_attempt_" + NatToString(n2));
    NatToStringInjective(run1, run2);
    AttemptSuffixInjective(n1, n2);
  }

  /**
   * The attempts `create_run` adds: `n` consecutive ids from `first`, the
   * attempt with id `first + k` numbered `k + 1`, every one running.
   */
  function NewAttempts(first: nat, runId: nat, n: nat, now: Clock): map<nat, AttemptRow>
    decreases n
  {
    if n == 0 then map[] else NewAttempts(first, runId, n - 1, now)[first + n - 1 := NewAttempt(runId, n, now)]
  }

  /** The attempt rows `create_run` adds are exactly ids `first .. first + n - 1`, id `first + k` numbered `k + 1`. */
  lemma {:induction false} NewAttemptsDomain(first: nat, runId: nat, n: nat, now: Clock)
    ensures forall id :: id in NewAttempts(first, runId, n, now) <==> first <= id < first + n
    ensures forall id :: id in NewAttempts(first, runId, n, now) ==>
      NewAttempts(first, runId, n, now)[id] == NewAttempt(runId, id - first + 1, now)
    decreases n
  {
    if n > 0 {
      NewAttemptsDomain(first, runId, n - 1, now);
    }
  }

  lemma NewAttemptsStep(cur: map<nat, AttemptRow>, id: nat, base: map<nat, AttemptRow>,
                         first: nat, runId: nat, i: nat, now: Clock)
    requires cur == base + NewAttempts(first, runId, i, now) && id == first + i
    ensures cur[id := NewAttempt(runId, i + 1, now)] == base + NewAttempts(first, runId, i + 1, now)
  {
  }

  /**
   * The jobs `create_run` dispatches for `n` attempts whose ids start at
   * `first`: the k-th (from 0) runs attempt `first + k` in output directory
   * `run_<runId>_attempt_<k + 1>`.
   */
  function JobsFor(first: nat, n: nat, runId: nat, filePath: string, model: string, outputRoot: string,
                   apiKey: string): (r: seq<Job>)
    ensures |r| == n
    decreases n
  {
    if n == 0 then []
    else JobsFor(first, n - 1, runId, filePath, model, outputRoot, apiKey)
         + [Job(first + n - 1, filePath, model, AttemptOutputDir(outputRoot, runId, n), apiKey)]
  }

  lemma JobsForStep(jobs: seq<Job>, job: Job, first: nat, i: nat, runId: nat, filePath: string, model: string,
                    outputRoot: string, apiKey: string)
    requires jobs == JobsFor(first, i, runId, filePath, model, outputRoot, apiKey)
    requires job == Job(first + i, filePath, model, AttemptOutputDir(outputRoot, runId, i + 1), apiKey)
    ensures jobs + [job] == JobsFor(first, i + 1, runId, filePath, model, outputRoot, apiKey)
  {
  }

  /** The k-th dispatched job runs attempt `first + k`, numbered `k + 1`, in that attempt's own directory. */
  lemma {:induction false} JobsForAt(first: nat, n: nat, runId: nat, filePath: string, model: string,
                                     outputRoot: string, apiKey: string, k: nat)
    requires k < n
    ensures JobsFor(first, n, runId, filePath, model, outputRoot, apiKey)[k]
         == Job(first + k, filePath, model, AttemptOutputDir(outputRoot, runId, k + 1), apiKey)
    decreases n
  {
    var prev := JobsFor(first, n - 1, runId, filePath, model, outputRoot, apiKey);
    var dir := AttemptOutputDir(outputRoot, runId, n);
    var last := Job(first + n - 1, filePath, model, dir, apiKey);
    assert JobsFor(first, n, runId, filePath, model, outputRoot, apiKey) == prev + [last];
    if k < n - 1 {
      JobsForAt(first, n - 1, runId, filePath, model, outputRoot, apiKey, k);
      assert (prev + [last])[k] == prev[k];
    } else {
      assert k + 1 == n && (prev + [last])[k] == last;
    }
  }

  /**
   * The dispatch loop of `create_run`: for each of the `n` attempts, a
   * running attempt numbered from 1 is inserted and a job naming its own
   * output directory is dispatched.
   */
  method AddAttempts(db: Store, runId: nat, n: nat, filePath: string, model: string, outputRoot: string,
                     apiKey: string, now: Clock)
    returns (jobs: seq<Job>)
    requires db.Valid() && runId in db.runs && db.runs[runId].status == Queued
    modifies db
    ensures db.Valid()
    ensures db.attempts == old(db.attempts) + NewAttempts(old(db.nextAttemptId), runId, n, now)
    ensures jobs == JobsFor(old(db.nextAttemptId), n, runId, filePath, model, outputRoot, apiKey)
    ensures db.runs == old(db.runs) && db.tasks == old(db.tasks)
    ensures db.episodes == old(db.episodes) && db.testResults == old(db.testResults)
  {
    var first := db.nextAttemptId;
    ghost var base := db.attempts;
    jobs := [];
    var i := 0;
    while i < n
      invariant 0 <= i <= n
      invariant db.Valid()
      invariant db.runs == old(db.runs) && db.tasks == old(db.tasks)
      invariant db.episodes == old(db.episodes) && db.testResults == old(db.testResults)
      invariant db.nextAttemptId == first + i
      invariant db.attempts == base + NewAttempts(first, runId, i, now)
      invariant jobs == JobsFor(first, i, runId, filePath, model, outputRoot, apiKey)
    {
      var job := DispatchAttempt(db, runId, first, i, base, jobs, filePath, model, outputRoot, apiKey, now);
      jobs := jobs + [job];
      i := i + 1;
    }
  }

  /** One round of the dispatch loop: attempt `first + i`, numbered `i + 1`, is inserted and its job built. */
  method DispatchAttempt(db: Store, runId: nat, first: nat, i: nat, ghost base: map<nat, AttemptRow>, ghost jobs: seq<Job>,
                    filePath: string, model: string, outputRoot: string, apiKey: string, now: Clock)
    returns (job: Job)
    requires db.Valid() && runId in db.runs && db.runs[runId].status == Queued
    requires db.nextAttemptId == first + i && db.attempts == base + NewAttempts(first, runId, i, now)
    requires jobs == JobsFor(first, i, runId, filePath, model, outputRoot, apiKey)
    modifies db
    ensures db.Valid()
    ensures db.nextAttemptId == first + i + 1 && db.attempts == base + NewAttempts(first, runId, i + 1, now)
    ensures jobs + [job] == JobsFor(first, i + 1, runId, filePath, model, outputRoot, apiKey)
    ensures db.runs == old(db.runs) && db.tasks == old(db.tasks)
    ensures db.episodes == old(db.episodes) && db.testResults == old(db.testResults)
  {
    ghost var cur := db.attempts;
    var id := db.AddAttempt(runId, i + 1, now);
    NewAttemptsStep(cur, id, base, first, runId, i, now);
    job := Job(id, filePath, model, AttemptOutputDir(outputRoot, runId, i + 1), apiKey);
    JobsForStep(jobs, job, first, i, runId, filePath, model, outputRoot, apiKey);
  }

  /**
   * `create_run`. With no task, a 404 and with no API key a 500 are raised
   * before anything is written. Otherwise a queued run is inserted, one
   * running attempt per requested attempt is inserted and dispatched
   * (`jobs`, in dispatch order), and the run is set running, whatever the
   * number of attempts (a negative count dispatches nothing).
   */
  method CreateRun(db: Store, taskId: nat, model: string, nAttempts: int, apiKey: Option<string>,
                   outputRoot: string, now: Clock)
    returns (r: Result<nat, HttpError>, jobs: seq<Job>)
    requires db.Valid()
    modifies db
    ensures db.Valid()
    ensures taskId !in old(db.tasks) ==> r == Err(TASK_NOT_FOUND) && jobs == [] && unchanged(db)
    ensures taskId in old(db.tasks) && (apiKey.None? || apiKey.value == "") ==>
      r == Err(NO_API_KEY) && jobs == [] && unchanged(db)
    ensures r.Ok? <==> taskId in old(db.tasks) && apiKey.Some? && apiKey.value != ""
    ensures r.Ok? ==>
      var n := if nAttempts < 0 then 0 else nAttempts;
      var first := old(db.nextAttemptId);
      && r.value !in old(db.runs)
      && db.runs == old(db.runs)[r.value := RunRow(taskId, model, Running, now, None)]
      && db.attempts == old(db.attempts) + NewAttempts(first, r.value, n, now)
      && jobs == JobsFor(first, n, r.value, old(db.tasks)[taskId].filePath, model, outputRoot, apiKey.value)
      && db.tasks == old(db.tasks) && db.episodes == old(db.episodes) && db.testResults == old(db.testResults)
  {
    if taskId !in db.tasks {
      return Err(TASK_NOT_FOUND), [];
    }
    if apiKey.None? || apiKey.value == "" {
      return Err(NO_API_KEY), [];
    }
    var runId;
    runId, jobs := StartRun(db, taskId, model, if nAttempts < 0 then 0 else nAttempts, outputRoot, apiKey.value, now);
    r := Ok(runId);
  }

  /** The writes of `create_run` once its checks pass: the run, its `n` dispatched attempts, and its status. */
  method StartRun(db: Store, taskId: nat, model: string, n: nat, outputRoot: string, apiKey: string, now: Clock)
    returns (runId: nat, jobs: seq<Job>)
    requires db.Valid() && taskId in db.tasks
    modifies db
    ensures db.Valid()
    ensures runId !in old(db.runs)
    ensures db.runs == old(db.runs)[runId := RunRow(taskId, model, Running, now, None)]
    ensures db.attempts == old(db.attempts) + NewAttempts(old(db.nextAttemptId), runId, n, now)
    ensures jobs == JobsFor(old(db.nextAttemptId), n, runId, old(db.tasks)[taskId].filePath, model, outputRoot, apiKey)
    ensures db.tasks == old(db.tasks) && db.episodes == old(db.episodes) && db.testResults == old(db.testResults)
  {
    var filePath := db.tasks[taskId].filePath;
    runId := db.AddRun(taskId, model, now);
    jobs := DispatchRun(db, runId, n, filePath, model, outputRoot, apiKey, now);
  }

  /** A queued run's `n` attempts are inserted and dispatched, then the run is set running. */
  method DispatchRun(db: Store, runId: nat, n: nat, filePath: string, model: string, outputRoot: string,
                     apiKey: string, now: Clock)
    returns (jobs: seq<Job>)
    requires db.Valid() && runId in db.runs && db.runs[runId].status == Queued
    modifies db
    ensures db.Valid()
    ensures db.runs == old(db.runs)[runId := old(db.runs)[runId].(status := Running)]
    ensures db.attempts == old(db.attempts) + NewAttempts(old(db.nextAttemptId), runId, n, now)
    ensures jobs == JobsFor(old(db.nextAttemptId), n, runId, filePath, model, outputRoot, apiKey)
    ensures db.tasks == old(db.tasks) && db.episodes == old(db.episodes) && db.testResults == old(db.testResults)
  {
    jobs := AddAttempts(db, runId, n, filePath, model, outputRoot, apiKey, now);
    db.MarkRunRunning(runId);
  }

  // ---------------------------------------------------------------------------
  // Running an attempt in-process

  /**
   * `execute_attempt_locally`: the runner is started first; a missing attempt
   * is then ignored. Otherwise the result is recorded as the worker records
   * it, and an exception raised before the commit (`fault`) makes the
   * handler mark the attempt failed with a worker error and swallow it.
   */
  method ExecuteAttemptLocally(db: Store, job: Job, host: Host, fault: Option<string>, now: Clock)
    returns (harbor: HarborResult)
    requires db.Valid()
    modifies db
    ensures db.Valid()
    ensures harbor == RunJob(job, host)
    ensures job.attemptId !in old(db.attempts) ==> unchanged(db)
    ensures job.attemptId in old(db.attempts) ==>
      var ending := EndingOf(harbor, fault);
      && (db.attempts, db.runs) == AfterEnding(old(db.attempts), old(db.runs), job.attemptId, ending, now)
      && db.episodes == old(db.episodes) + EpisodesKept(job.attemptId, ending)
      && db.testResults == old(db.testResults) + TestsKept(job.attemptId, ending)
      && db.tasks == old(db.tasks)
  {
    harbor := RunJob(job, host);
    if job.attemptId !in db.attempts {
      return;
    }
    RecordEnding(db, job.attemptId, harbor, fault, now);
  }

  // ---------------------------------------------------------------------------
  // Deleting every task

  /**
   * `delete_all_tasks`: counts the tasks, then deletes episodes and test
   * results, attempts, runs and tasks, children before parents, so no row is
   * ever left pointing at a deleted one. With every table empty, ids start
   * again at 1: the next run is run 1 again, and its attempts are given the
   * same `run_1_attempt_<n>` output directories as the deleted run 1's.
   */
  method DeleteAllTasks(db: Store) returns (deleted: nat, message: string)
    requires db.Valid()
    modifies db
    ensures db.Valid()
    ensures deleted == |old(db.tasks)|
    ensures message == "Deleted " + IntToString(deleted) + " tasks and all related data"
    ensures db.tasks == map[] && db.runs == map[] && db.attempts == map[]
    ensures db.episodes == [] && db.testResults == []
    ensures db.nextTaskId == 1 && db.nextRunId == 1 && db.nextAttemptId == 1
  {
    deleted := |db.tasks|;
    db.ClearEpisodes();
    db.ClearTestResults();
    db.ClearAttempts();
    db.ClearRuns();
    db.ClearTasks();
    message := "Deleted " + IntToString(deleted) + " tasks and all related data";
  }

  // ---------------------------------------------------------------------------
  // Test counts in run listings

  /** `attempt.test_results`: the stored test results of one attempt, in insertion order. */
  function TestsOfAttempt(rows: seq<TestResultRow>, attemptId: nat): (r: seq<TestResultRow>)
    ensures |r| <= |rows|
    ensures forall k :: 0 <= k < |r| ==> r[k].attemptId == attemptId
    ensures r == [] <==> forall k :: 0 <= k < |rows| ==> rows[k].attemptId != attemptId
    decreases |rows|
  {
    if rows == [] then []
    else
      var prev := TestsOfAttempt(rows[..|rows| - 1], attemptId);
      var last := rows[|rows| - 1];
      if last.attemptId == attemptId then prev + [last] else prev
  }

  function IsPassed(status: Json): bool {
    status == JString("passed")
  }

  /** The number of entries of `s` that satisfy `p`. */
  function Count<T>(s: seq<T>, p: T -> bool): (n: nat)
    ensures n <= |s|
    decreases |s|
  {
    if s == [] then 0
    else Count(s[..|s| - 1], p) + (if p(s[|s| - 1]) then 1 else 0)
  }

  /** The number of rows whose status is `passed`. */
  function PassedRows(rows: seq<TestResultRow>): nat {
    Count(rows, (row: TestResultRow) => IsPassed(row.status))
  }

  /** The number of parsed tests whose status is `passed`. */
  function PassedTests(ts: seq<TestData>): nat {
    Count(ts, (t: TestData) => IsPassed(t.status))
  }

  /**
   * The `tests_passed` and `tests_total` of an attempt: both absent when it
   * has no stored test results, otherwise the passed count and the total.
   */
  function TestCounts(rows: seq<TestResultRow>, attemptId: nat): (r: (Option<nat>, Option<nat>))
    ensures r.0.None? <==> r.1.None?
    ensures r.1.None? <==> forall k :: 0 <= k < |rows| ==> rows[k].attemptId != attemptId
    ensures r.1.Some? ==> 0 < r.1.value <= |rows| && r.0.value <= r.1.value
  {
    var mine := TestsOfAttempt(rows, attemptId);
    if |mine| > 0 then (Some(PassedRows(mine)), Some(|mine|)) else (None, None)
  }

  lemma {:induction false} TestsOfAppended(rows: seq<TestResultRow>, more: seq<TestResultRow>, attemptId: nat)
    requires forall k :: 0 <= k < |more| ==> more[k].attemptId == attemptId
    ensures TestsOfAttempt(rows + more, attemptId) == TestsOfAttempt(rows, attemptId) + more
    decreases |more|
  {
    if more == [] {
      assert rows + more == rows;
    } else {
      var init := more[..|more| - 1];
      assert (rows + more)[..|rows + more| - 1] == rows + init;
      TestsOfAppended(rows, init, attemptId);
      assert init + [more[|more| - 1]] == more;
    }
  }

  lemma {:induction false} PassedRowsOfTestRows(attemptId: nat, ts: seq<TestData>)
    ensures PassedRows(TestRows(attemptId, ts)) == PassedTests(ts)
    decreases |ts|
  {
    if ts != [] {
      var rows := TestRows(attemptId, ts);
      assert rows[..|rows| - 1] == TestRows(attemptId, ts[..|ts| - 1]);
      assert rows[|rows| - 1].status == ts[|ts| - 1].status;
      PassedRowsOfTestRows(attemptId, ts[..|ts| - 1]);
    }
  }

  /**
   * After an attempt that had no stored test results succeeds, its listing
   * reports exactly the parsed tests: how many passed and how many there
   * were, or nothing when the run produced none.
   */
  lemma CountsAfterSuccess(rows: seq<TestResultRow>, attemptId: nat, ts: seq<TestData>)
    requires forall k :: 0 <= k < |rows| ==> rows[k].attemptId != attemptId
    ensures TestCounts(rows + TestRows(attemptId, ts), attemptId)
         == if ts == [] then (None, None) else (Some(PassedTests(ts)), Some(|ts|))
  {
    var more := TestRows(attemptId, ts);
    TestsOfAppended(rows, more, attemptId);
    assert TestsOfAttempt(rows, attemptId) == [];
    assert TestsOfAttempt(rows + more, attemptId) == more;
    PassedRowsOfTestRows(attemptId, ts);
  }

  /** One entry of a run listing's `attempts`. */
  datatype AttemptView = AttemptView(
    id: nat,
    attemptNumber: int,
    status: Status,
    reward: Option<real>,
    episodeCount: Option<nat>,
    testsPassed: Option<nat>,
    testsTotal: Option<nat>)

  /** The listing entry of a stored attempt. */
  function ViewOf(id: nat, a: AttemptRow, rows: seq<TestResultRow>): (v: AttemptView)
    ensures v.id == id && v.attemptNumber == a.attemptNumber && v.status == a.status
    ensures v.reward == a.reward && v.episodeCount == a.episodeCount
    ensures (v.testsPassed, v.testsTotal) == TestCounts(rows, id)
  {
    var counts := TestCounts(rows, id);
    AttemptView(id, a.attemptNumber, a.status, a.reward, a.episodeCount, counts.0, counts.1)
  }

  /** A run as listed: its fields and one view per attempt, keyed by attempt id. */
  datatype RunView = RunView(id: nat, taskId: nat, model: string, status: Status, createdAt: Clock,
                             attempts: map<nat, AttemptView>)

  function RunViewOf(runId: nat, run: RunRow, attempts: map<nat, AttemptRow>, rows: seq<TestResultRow>): (v: RunView)
    ensures v.attempts.Keys == set id | id in attempts && attempts[id].runId == runId
    ensures forall id :: id in v.attempts ==> v.attempts[id] == ViewOf(id, attempts[id], rows)
    ensures v.status == run.status && v.taskId == run.taskId
  {
    RunView(runId, run.taskId, run.model, run.status, run.createdAt,
            map id | id in attempts && attempts[id].runId == runId :: ViewOf(id, attempts[id], rows))
  }

  /** `get_run`. */
  function GetRun(db: Store, runId: nat): (r: Result<RunView, HttpError>)
    reads db
    ensures r.Err? <==> runId !in db.runs
    ensures r.Err? ==> r.error == RUN_NOT_FOUND
    ensures r.Ok? ==> r.value == RunViewOf(runId, db.runs[runId], db.attempts, db.testResults)
  {
    if runId in db.runs then Ok(RunViewOf(runId, db.runs[runId], db.attempts, db.testResults))
    else Err(RUN_NOT_FOUND)
  }

  /** `get_task_runs`: every run of the task, keyed by run id. */
  function GetTaskRuns(db: Store, taskId: nat): (r: Result<map<nat, RunView>, HttpError>)
    reads db
    ensures r.Err? <==> taskId !in db.tasks
    ensures r.Err? ==> r.error == TASK_NOT_FOUND
    ensures r.Ok? ==> r.value.Keys == set id | id in db.runs && db.runs[id].taskId == taskId
    ensures r.Ok? ==> forall id :: id in r.value ==> r.value[id] == RunViewOf(id, db.runs[id], db.attempts, db.testResults)
  {
    if taskId !in db.tasks then Err(TASK_NOT_FOUND)
    else Ok(map id | id in db.runs && db.runs[id].taskId == taskId
              :: RunViewOf(id, db.runs[id], db.attempts, db.testResults))
  }
}
