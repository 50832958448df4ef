/**
 * The background worker: the task that runs one attempt and records its
 * outcome, and the check of where a task's files live.
 */
module CeleryWorker {
  import opened Wrappers
  import opened Text
  import opened Paths
  import opened Json
  import opened HarborRunner
  import opened Database

  /** The arguments an attempt is dispatched with. */
  datatype Job = Job(attemptId: nat, taskPath: string, model: string, outputDir: string, apiKey: string)

  /**
   * What `execute_harbor` finds on the machine it runs on: the runner binary,
   * the process environment, the subprocess and the JSON library.
   */
  datatype Host = Host(bin: Binary, env: map<string, string>, runner: Invocation -> ProcessOutcome, codec: Codec)

  /** `execute_harbor` for a dispatched job. */
  function RunJob(job: Job, host: Host): HarborResult {
    ExecuteHarbor(host.bin, job.taskPath, job.model, job.outputDir, job.apiKey, host.env, host.runner, host.codec)
  }

  /** The dictionary the task returns when it does not raise. */
  datatype TaskReturn =
    | SuccessReturn(attemptId: nat, reward: real, episodeCount: nat, testCount: nat)
    | FailureReturn(attemptId: nat, error: Option<string>)

  function AttemptNotFound(attemptId: nat): string {
    "Attempt " + IntToString(attemptId) + " not found in database"
  }

  /**
   * How the attempt's recording ends, given the runner's result and any
   * exception raised before the commit.
   */
  function EndingOf(result: HarborResult, fault: Option<string>): (e: Ending)
    ensures e.Crashed? <==> fault.Some?
    ensures e.Refused? <==> fault.None? && !Storable(result)
    ensures e.Finished? ==> e.result == result && Storable(result)
  {
    if fault.Some? then Crashed(fault.value)
    else if Storable(result) then Finished(result)
    else Refused
  }

  /**
   * Stands for the message of the exception the database driver raises when
   * it refuses a commit; its text is the driver's own.
   */
  const COMMIT_REFUSED := "database refused the commit"

  /** The dictionary returned for a runner result. */
  function ReturnOf(attemptId: nat, result: HarborResult): (r: TaskReturn)
    ensures r.SuccessReturn? <==> result.success
    ensures r.attemptId == attemptId
    ensures r.SuccessReturn? ==> r.reward == result.reward && r.episodeCount == |result.episodes|
                                 && r.testCount == |result.testResults|
    ensures r.FailureReturn? ==> r.error == result.error
  {
    if result.success then SuccessReturn(attemptId, result.reward, |result.episodes|, |result.testResults|)
    else FailureReturn(attemptId, result.error)
  }

  /**
   * The success and failure branches shared by the worker and the local
   * executor: the attempt is finalised from the result (with its episodes and
   * test results when it succeeded) and then the run's status is re-derived.
   * When the database refuses the commit of a success, nothing is written and
   * the run's status is not re-derived.
   */
  method RecordResult(db: Store, attemptId: nat, result: HarborResult, now: Clock)
    requires db.Valid() && attemptId in db.attempts
    modifies db
    ensures db.Valid()
    ensures (db.attempts, db.runs) == AfterEnding(old(db.attempts), old(db.runs), attemptId, EndingOf(result, None), now)
    ensures db.episodes == old(db.episodes) + EpisodesKept(attemptId, EndingOf(result, None))
    ensures db.testResults == old(db.testResults) + TestsKept(attemptId, EndingOf(result, None))
    ensures db.tasks == old(db.tasks)
    ensures db.nextTaskId == old(db.nextTaskId) && db.nextRunId == old(db.nextRunId)
    ensures db.nextAttemptId == old(db.nextAttemptId)
  {
    var runId := db.attempts[attemptId].runId;
    if result.success {
      var committed := db.RecordSuccess(attemptId, result, now);
      if !committed {
        // The commit raised; the handler's query fails on the session that
        // was not rolled back, and that failure is swallowed.
        assert db.episodes == old(db.episodes) + [];
        assert db.testResults == old(db.testResults) + [];
        return;
      }
    } else {
      db.RecordFailure(attemptId, result.error, now);
      assert db.episodes == old(db.episodes) + [];
      assert db.testResults == old(db.testResults) + [];
    }
    db.UpdateRunStatusIfComplete(runId);
  }

  /**
   * A success holding a test whose name or status is JSON `null` breaks a
   * NOT NULL column: the commit is refused and both tables stay as they were,
   * so a `running` attempt stays `running`.
   */
  lemma NullTestFieldRefused(attempts: map<nat, AttemptRow>, runs: map<nat, RunRow>, id: nat,
                             result: HarborResult, k: nat, now: Clock)
    requires id in attempts && result.success && k < |result.testResults|
    requires result.testResults[k].name == JNull || result.testResults[k].status == JNull
    ensures EndingOf(result, None) == Refused
    ensures AfterEnding(attempts, runs, id, EndingOf(result, None), now) == (attempts, runs)
  {
    assert !StorableTest(result.testResults[k]);
  }

  /**
   * What both executors write once the runner has returned for an existing
   * attempt: the result, or, when an exception (`fault`) is raised before the
   * commit, only the handler's worker error, with the run's status left alone;
   * nothing at all when the database refuses the commit of a success.
   */
  method RecordEnding(db: Store, attemptId: nat, result: HarborResult, fault: Option<string>, now: Clock)
    requires db.Valid() && attemptId in db.attempts
    modifies db
    ensures db.Valid()
    ensures (db.attempts, db.runs) == AfterEnding(old(db.attempts), old(db.runs), attemptId, EndingOf(result, fault), now)
    ensures db.episodes == old(db.episodes) + EpisodesKept(attemptId, EndingOf(result, fault))
    ensures db.testResults == old(db.testResults) + TestsKept(attemptId, EndingOf(result, fault))
    ensures db.tasks == old(db.tasks)
    ensures db.nextTaskId == old(db.nextTaskId) && db.nextRunId == old(db.nextRunId)
    ensures db.nextAttemptId == old(db.nextAttemptId)
  {
    if fault.Some? {
      db.RecordWorkerError(attemptId, fault.value, now);
      assert db.episodes == old(db.episodes) + [];
      assert db.testResults == old(db.testResults) + [];
    } else {
      RecordResult(db, attemptId, result, now);
    }
  }

  /**
   * `execute_harbor_task`. The attempt is looked up first; when it is missing
   * the task raises before the runner is started and nothing is written.
   * Otherwise the runner's result is recorded, unless an exception (`fault`)
   * is raised before the commit: then nothing of the result is kept, the
   * handler marks the attempt failed with a worker error, leaves the run's
   * status alone, and the exception propagates. When the database refuses
   * the commit of a success, nothing is written, the attempt stays
   * `running`, and the driver's exception propagates.
   *
   * `harbor` is the runner's result, `None` when the runner was not started;
   * `r` is the returned dictionary or the message of the exception raised.
   */
  method ExecuteHarborTask(db: Store, job: Job, host: Host, fault: Option<string>, now: Clock)
    returns (r: Result<TaskReturn, string>, harbor: Option<HarborResult>)
    requires db.Valid()
    modifies db
    ensures db.Valid()
    ensures job.attemptId !in old(db.attempts) ==>
      && r == Err(AttemptNotFound(job.attemptId)) && harbor.None?
      && unchanged(db)
    ensures job.attemptId in old(db.attempts) ==>
      var result := RunJob(job, host);
      var ending := EndingOf(result, fault);
      && harbor == Some(result)
      && (db.attempts, db.runs) == AfterEnding(old(db.attempts), old(db.runs), job.attemptId, ending, now)
      && db.episodes == old(db.episodes) + EpisodesKept(job.attemptId, ending)
      && db.testResults == old(db.testResults) + TestsKept(job.attemptId, ending)
      && db.tasks == old(db.tasks)
      && r == (if fault.Some? then Err(fault.value)
               else if ending.Refused? then Err(COMMIT_REFUSED)
               else Ok(ReturnOf(job.attemptId, result)))
  {
    if job.attemptId !in db.attempts {
      // The handler finds no attempt to mark and re-raises.
      return Err(AttemptNotFound(job.attemptId)), None;
    }
    var result := RunJob(job, host);
    harbor := Some(result);
    RecordEnding(db, job.attemptId, result, fault, now);
    if fault.Some? {
      r := Err(fault.value);
    } else if !Storable(result) {
      r := Err(COMMIT_REFUSED);
    } else {
      r := Ok(ReturnOf(job.attemptId, result));
    }
  }

  // ---------------------------------------------------------------------------
  // Where a task's files live

  const TASK_MANIFEST := "task.toml"
  const UPLOADS := "uploads"

  /** `parts.index(x)`: the first position of `x`, or `None` where Python raises `ValueError`. */
  function IndexOf(parts: seq<string>, x: string): (r: Option<nat>)
    ensures r.None? <==> x !in parts
    ensures r.Some? ==> r.value < |parts| && parts[r.value] == x
    ensures r.Some? ==> forall k :: 0 <= k < r.value ==> parts[k] != x
    decreases |parts|
  {
    if parts == [] then None
    else if parts[0] == x then Some(0)
    else match IndexOf(parts[1..], x)
      case None => None
      case Some(i) => Some(i + 1)
  }

  /**
   * `ensure_task_files_exist`. `manifestPresent` says whether the path exists
   * and holds `task.toml`. When it does not, the path must name a component
   * after its first `uploads` component; the result is always the path
   * itself, printed as `str(Path(...))` prints it.
   */
  function EnsureTaskFilesExist(taskPath: string, manifestPresent: bool): (r: Result<string, string>)
    ensures r.Ok? ==> r.value == NormalizePath(taskPath)
    ensures r.Err? <==>
      && !manifestPresent
      && (UPLOADS !in Parts(taskPath) || IndexOf(Parts(taskPath), UPLOADS).value == |Parts(taskPath)| - 1)
  {
    if manifestPresent then Ok(NormalizePath(taskPath))
    else
      match IndexOf(Parts(taskPath), UPLOADS)
      case None => Err("Invalid task path format: " + NormalizePath(taskPath))
      case Some(i) =>
        if i + 1 < |Parts(taskPath)| then Ok(NormalizePath(taskPath))
        else Err("Could not extract task directory name from " + NormalizePath(taskPath))
  }

  /** Accepting a path changes nothing about it: the result names the same path. */
  lemma EnsureTaskFilesExistKeepsPath(taskPath: string, manifestPresent: bool)
    requires EnsureTaskFilesExist(taskPath, manifestPresent).Ok?
    ensures Parts(EnsureTaskFilesExist(taskPath, manifestPresent).value) == Parts(taskPath)
    ensures EnsureTaskFilesExist(EnsureTaskFilesExist(taskPath, manifestPresent).value, manifestPresent)
         == EnsureTaskFilesExist(taskPath, manifestPresent)
  {
    NormalizeKeepsParts(taskPath);
    NormalizeIdempotent(taskPath);
  }
}
