/**
 * The five tables the backend stores (tasks, runs, attempts, episodes and test
 * results), held in memory by a `Store` object, and the writes the worker and
 * the local executor make when an attempt ends.
 *
 * Row ids follow the rule of SQLite's integer primary keys declared without
 * AUTOINCREMENT: a new row gets one more than the largest id in its table, or
 * 1 when the table is empty, so ids are handed out again once a table has
 * been emptied. Each table keeps that next id in a counter. Timestamps are an
 * opaque clock value passed in by the caller.
 */
module Database {
  import opened Wrappers
  import opened Json
  import opened HarborRunner

  /** A clock reading (`datetime.utcnow()`), taken as given. */
  type Clock = int

  /** The values the `status` columns of runs and attempts take. */
  datatype Status = Queued | Running | Completed | Failed

  datatype TaskRow = TaskRow(name: string, filePath: string, createdAt: Clock)

  datatype RunRow = RunRow(taskId: nat, model: string, status: Status, createdAt: Clock, completedAt: Option<Clock>)

  datatype AttemptRow = AttemptRow(
    runId: nat,
    attemptNumber: int,
    status: Status,
    reward: Option<real>,
    episodeCount: Option<nat>,
    outputPath: Option<string>,
    errorMessage: Option<string>,
    createdAt: Clock,
    completedAt: Option<Clock>)

  datatype EpisodeRow = EpisodeRow(
    attemptId: nat,
    episodeNumber: int,
    analysis: Json,
    plan: Json,
    commands: string,
    taskComplete: Json)

  datatype TestResultRow = TestResultRow(
    attemptId: nat,
    testName: Json,
    status: Json,
    durationMs: Json,
    errorMessage: Option<Json>)

  // ---------------------------------------------------------------------------
  // How an attempt row changes when the attempt ends

  /** A freshly dispatched attempt: running, nothing recorded yet. */
  function NewAttempt(runId: nat, number: int, now: Clock): (r: AttemptRow)
    ensures r.status == Running && r.runId == runId && r.attemptNumber == number
    ensures r.reward.None? && r.episodeCount.None? && r.outputPath.None?
    ensures r.errorMessage.None? && r.completedAt.None?
  {
    AttemptRow(runId, number, Running, None, None, None, None, now, None)
  }

  /** The attempt after a successful runner result has been recorded. */
  function Succeeded(a: AttemptRow, result: HarborResult, now: Clock): (r: AttemptRow)
    ensures r.runId == a.runId && r.attemptNumber == a.attemptNumber && r.createdAt == a.createdAt
    ensures r.status == Completed && r.completedAt == Some(now)
    ensures r.reward == Some(result.reward) && r.episodeCount == Some(|result.episodes|)
    ensures r.outputPath == result.outputPath && r.errorMessage.None?
  {
    a.(status := Completed, reward := Some(result.reward), episodeCount := Some(|result.episodes|),
       outputPath := result.outputPath, errorMessage := None, completedAt := Some(now))
  }

  /** The attempt after a failed runner result has been recorded; episode count and output path are kept. */
  function FailedWith(a: AttemptRow, error: Option<string>, now: Clock): (r: AttemptRow)
    ensures r.runId == a.runId && r.attemptNumber == a.attemptNumber && r.createdAt == a.createdAt
    ensures r.status == Failed && r.completedAt == Some(now)
    ensures r.reward == Some(0.0) && r.errorMessage == error
    ensures r.episodeCount == a.episodeCount && r.outputPath == a.outputPath
  {
    a.(status := Failed, reward := Some(0.0), errorMessage := error, completedAt := Some(now))
  }

  const WORKER_ERROR_PREFIX := "Worker error: "

  /** The attempt after the exception handler ran; the reward is left as it was. */
  function WorkerErrored(a: AttemptRow, message: string, now: Clock): (r: AttemptRow)
    ensures r.runId == a.runId && r.attemptNumber == a.attemptNumber && r.createdAt == a.createdAt
    ensures r.status == Failed && r.completedAt == Some(now)
    ensures r.errorMessage == Some(WORKER_ERROR_PREFIX + message)
    ensures r.reward == a.reward && r.episodeCount == a.episodeCount && r.outputPath == a.outputPath
  {
    a.(status := Failed, errorMessage := Some(WORKER_ERROR_PREFIX + message), completedAt := Some(now))
  }

  /** The Episode row stored for one parsed episode. */
  function EpisodeRowOf(attemptId: nat, e: EpisodeData): EpisodeRow {
    EpisodeRow(attemptId, e.number, e.analysis, e.plan, e.commands, e.taskComplete)
  }

  /** The TestResult row stored for one parsed test. */
  function TestRowOf(attemptId: nat, t: TestData): TestResultRow {
    TestResultRow(attemptId, t.name, t.status, t.duration, t.errorMessage)
  }

  function EpisodeRows(attemptId: nat, es: seq<EpisodeData>): (r: seq<EpisodeRow>)
    ensures |r| == |es|
  {
    seq(|es|, i requires 0 <= i < |es| => EpisodeRowOf(attemptId, es[i]))
  }

  function TestRows(attemptId: nat, ts: seq<TestData>): (r: seq<TestResultRow>)
    ensures |r| == |ts|
  {
    seq(|ts|, i requires 0 <= i < |ts| => TestRowOf(attemptId, ts[i]))
  }

  // ---------------------------------------------------------------------------
  // Run status

  /** No attempt of run `runId` is still running. */
  predicate NoneRunning(attempts: map<nat, AttemptRow>, runId: nat) {
    forall id :: id in attempts && attempts[id].runId == runId ==> attempts[id].status != Running
  }

  /**
   * The runs table after `update_run_status_if_complete(runId)`: the run is
   * marked completed when none of its attempts is running, and otherwise (or
   * when there is no such run) nothing changes. It never marks a run failed
   * and never sets its completion time.
   */
  function SettleRun(runs: map<nat, RunRow>, attempts: map<nat, AttemptRow>, runId: nat): (r: map<nat, RunRow>)
    ensures r.Keys == runs.Keys
    ensures forall id :: id in runs && id != runId ==> r[id] == runs[id]
    ensures runId in runs ==>
      && r[runId].taskId == runs[runId].taskId && r[runId].model == runs[runId].model
      && r[runId].createdAt == runs[runId].createdAt && r[runId].completedAt == runs[runId].completedAt
    ensures runId in runs && NoneRunning(attempts, runId) ==> r[runId].status == Completed
    ensures runId in runs && !NoneRunning(attempts, runId) ==> r[runId] == runs[runId]
  {
    if runId in runs && NoneRunning(attempts, runId) then runs[runId := runs[runId].(status := Completed)]
    else runs
  }

  // ---------------------------------------------------------------------------
  // What the database accepts at commit

  /**
   * A JSON value the SQLite driver can bind to a column: `None`, a boolean, a
   * number or a string. A list or a dictionary is refused.
   */
  predicate Bindable(j: Json) {
    !j.JArray? && !j.JObject?
  }

  /** A value a `Boolean` column accepts: `None`, `True`, `False`, or the numbers 0 and 1. */
  predicate BooleanBindable(j: Json) {
    j.JNull? || j.JBool? || (j.JNumber? && (j.n == 0.0 || j.n == 1.0))
  }

  /** An Episode row the database accepts: text columns bindable, `task_complete` a boolean. */
  predicate StorableEpisode(e: EpisodeData) {
    Bindable(e.analysis) && Bindable(e.plan) && BooleanBindable(e.taskComplete)
  }

  /**
   * A TestResult row the database accepts: every column bindable, and
   * `test_name` and `status`, which are NOT NULL, not `None`.
   */
  predicate StorableTest(t: TestData) {
    && Bindable(t.name) && !t.name.JNull?
    && Bindable(t.status) && !t.status.JNull?
    && Bindable(t.duration)
    && (t.errorMessage.Some? ==> Bindable(t.errorMessage.value))
  }

  /**
   * The commit recording a runner result goes through: a failure writes only
   * its message, and a success commits only when every episode and test row it
   * adds is accepted.
   */
  predicate Storable(result: HarborResult) {
    || !result.success
    || (&& (forall k :: 0 <= k < |result.episodes| ==> StorableEpisode(result.episodes[k]))
        && (forall k :: 0 <= k < |result.testResults| ==> StorableTest(result.testResults[k])))
  }

  /**
   * How an attempt's recording ends: `Finished` when the result was
   * committed (the success or the failure branch, both of which re-derive
   * the run's status), `Crashed` when an exception raised before the commit
   * reached the handler, and `Refused` when the database refused the commit
   * of a success. A refused commit rolls the transaction back, and the
   * handler's own query then fails on the session that was not rolled back,
   * so nothing is written and the attempt stays `running`.
   */
  datatype Ending = Finished(result: HarborResult) | Crashed(message: string) | Refused

  /** The attempt row after an ending that writes it. */
  function Finalised(a: AttemptRow, e: Ending, now: Clock): (r: AttemptRow)
    requires !e.Refused?
    ensures r.runId == a.runId && r.status != Running && r.completedAt == Some(now)
  {
    match e
    case Finished(result) => if result.success then Succeeded(a, result, now) else FailedWith(a, result.error, now)
    case Crashed(message) => WorkerErrored(a, message, now)
  }

  /** The attempts and runs tables after attempt `id` ends as `e`. */
  function AfterEnding(attempts: map<nat, AttemptRow>, runs: map<nat, RunRow>, id: nat, e: Ending, now: Clock)
    : (r: (map<nat, AttemptRow>, map<nat, RunRow>))
    requires id in attempts
    ensures e.Refused? ==> r == (attempts, runs)
    ensures !e.Refused? ==> r.0 == attempts[id := Finalised(attempts[id], e, now)]
    ensures r.1.Keys == runs.Keys
  {
    if e.Refused? then (attempts, runs)
    else
      var attempts' := attempts[id := Finalised(attempts[id], e, now)];
      (attempts', if e.Finished? then SettleRun(runs, attempts', attempts[id].runId) else runs)
  }

  /** The Episode rows kept when an attempt ends as `e`: the parsed episodes of a success, else none. */
  function EpisodesKept(attemptId: nat, e: Ending): seq<EpisodeRow> {
    if e.Finished? && e.result.success then EpisodeRows(attemptId, e.result.episodes) else []
  }

  /** The TestResult rows kept when an attempt ends as `e`: the parsed tests of a success, else none. */
  function TestsKept(attemptId: nat, e: Ending): seq<TestResultRow> {
    if e.Finished? && e.result.success then TestRows(attemptId, e.result.testResults) else []
  }

  /** The tables after a series of attempts end, in order. */
  function Replay(attempts: map<nat, AttemptRow>, runs: map<nat, RunRow>, endings: seq<(nat, Ending)>, now: Clock)
    : (r: (map<nat, AttemptRow>, map<nat, RunRow>))
    requires forall k :: 0 <= k < |endings| ==> endings[k].0 in attempts
    ensures r.0.Keys == attempts.Keys && r.1.Keys == runs.Keys
    ensures forall id :: id in attempts ==> r.0[id].runId == attempts[id].runId
    decreases |endings|
  {
    if endings == [] then (attempts, runs)
    else
      var next := AfterEnding(attempts, runs, endings[0].0, endings[0].1, now);
      Replay(next.0, next.1, endings[1..], now)
  }

  /**
   * Once every running attempt of a run has ended (a refused commit does not
   * end it), and the last to end went through the success or failure branch,
   * the run is completed.
   */
  lemma {:induction false} LastFinishCompletesRun(attempts: map<nat, AttemptRow>, runs: map<nat, RunRow>,
                                                   runId: nat, endings: seq<(nat, Ending)>, now: Clock)
    requires runId in runs
    requires forall k :: 0 <= k < |endings| ==> endings[k].0 in attempts
    requires forall id :: id in attempts && attempts[id].runId == runId && attempts[id].status == Running ==>
               exists k :: 0 <= k < |endings| && endings[k].0 == id && !endings[k].1.Refused?
    requires endings != [] && endings[|endings| - 1].1.Finished?
    requires attempts[endings[|endings| - 1].0].runId == runId
    ensures Replay(attempts, runs, endings, now).1[runId].status == Completed
    decreases |endings|
  {
    var next := AfterEnding(attempts, runs, endings[0].0, endings[0].1, now);
    if |endings| == 1 {
      assert NoneRunning(next.0, runId) by {
        forall id | id in next.0 && next.0[id].runId == runId
          ensures next.0[id].status != Running
        {
          if id != endings[0].0 {
            assert next.0[id] == attempts[id];
          }
        }
      }
      assert Replay(attempts, runs, endings, now) == Replay(next.0, next.1, [], now);
    } else {
      var rest := endings[1..];
      forall id | id in next.0 && next.0[id].runId == runId && next.0[id].status == Running
        ensures exists k :: 0 <= k < |rest| && rest[k].0 == id && !rest[k].1.Refused?
      {
        var k :| 0 <= k < |endings| && endings[k].0 == id && !endings[k].1.Refused?;
        assert k != 0;
        assert rest[k - 1] == endings[k];
      }
      assert rest[|rest| - 1] == endings[|endings| - 1];
      LastFinishCompletesRun(next.0, next.1, runId, rest, now);
    }
  }

  /**
   * A run none of whose attempts ends through the success or failure branch
   * keeps its status: neither the exception handler nor a refused commit
   * re-derives it, so a run whose attempts all crash stays `running`.
   */
  lemma {:induction false} CrashesLeaveRunStatus(attempts: map<nat, AttemptRow>, runs: map<nat, RunRow>,
                                                 runId: nat, endings: seq<(nat, Ending)>, now: Clock)
    requires runId in runs
    requires forall k :: 0 <= k < |endings| ==> endings[k].0 in attempts
    requires forall k :: 0 <= k < |endings| && attempts[endings[k].0].runId == runId ==> !endings[k].1.Finished?
    ensures Replay(attempts, runs, endings, now).1[runId] == runs[runId]
    decreases |endings|
  {
    if endings != [] {
      var next := AfterEnding(attempts, runs, endings[0].0, endings[0].1, now);
      var rest := endings[1..];
      forall k | 0 <= k < |rest| && next.0[rest[k].0].runId == runId
        ensures !rest[k].1.Finished?
      {
        assert rest[k] == endings[k + 1];
      }
      CrashesLeaveRunStatus(next.0, next.1, runId, rest, now);
    }
  }

  // ---------------------------------------------------------------------------
  // The store

  class Store {
    var tasks: map<nat, TaskRow>
    var runs: map<nat, RunRow>
    var attempts: map<nat, AttemptRow>
    var episodes: seq<EpisodeRow>
    var testResults: seq<TestResultRow>
    var nextTaskId: nat
    var nextRunId: nat
    var nextAttemptId: nat

    /**
     * Each table's counter is its next id: every stored id lies between 1 and
     * below it, and it is 1 or one more than a stored id. Every row's parent
     * exists, every ended attempt carries its completion time, and a run
     * marked completed has no running attempt.
     */
    ghost predicate Valid()
      reads this
    {
      && (forall id :: id in tasks ==> 0 < id < nextTaskId)
      && (forall id :: id in runs ==> 0 < id < nextRunId && runs[id].taskId in tasks)
      && (forall id :: id in attempts ==> 0 < id < nextAttemptId && attempts[id].runId in runs)
      && (nextTaskId == 1 || nextTaskId - 1 in tasks)
      && (nextRunId == 1 || nextRunId - 1 in runs)
      && (nextAttemptId == 1 || nextAttemptId - 1 in attempts)
      && (forall k :: 0 <= k < |episodes| ==> episodes[k].attemptId in attempts)
      && (forall k :: 0 <= k < |testResults| ==> testResults[k].attemptId in attempts)
      && (forall id :: id in attempts && attempts[id].status in {Completed, Failed} ==> attempts[id].completedAt.Some?)
      && (forall id :: id in runs && runs[id].status == Completed ==> NoneRunning(attempts, id))
    }

    constructor ()
      ensures Valid()
      ensures tasks == map[] && runs == map[] && attempts == map[] && episodes == [] && testResults == []
    {
      tasks, runs, attempts := map[], map[], map[];
      episodes, testResults := [], [];
      nextTaskId, nextRunId, nextAttemptId := 1, 1, 1;
    }

    /** Inserts a task row. */
    method AddTask(name: string, filePath: string, now: Clock) returns (id: nat)
      requires Valid()
      modifies this
      ensures Valid()
      ensures old(tasks) == map[] ==> id == 1
      ensures old(tasks) != map[] ==> id - 1 in old(tasks)
      ensures forall j :: j in old(tasks) ==> j < id
      ensures id !in old(tasks)
      ensures tasks == old(tasks)[id := TaskRow(name, filePath, now)]
      ensures nextRunId == old(nextRunId) && nextAttemptId == old(nextAttemptId)
      ensures runs == old(runs) && attempts == old(attempts)
      ensures episodes == old(episodes) && testResults == old(testResults)
    {
      id := nextTaskId;
      tasks := tasks[id := TaskRow(name, filePath, now)];
      nextTaskId := nextTaskId + 1;
    }

    /** Inserts a run of an existing task, with the column default status `queued`. */
    method AddRun(taskId: nat, model: string, now: Clock) returns (id: nat)
      requires Valid() && taskId in tasks
      modifies this
      ensures Valid()
      ensures old(runs) == map[] ==> id == 1
      ensures old(runs) != map[] ==> id - 1 in old(runs)
      ensures forall j :: j in old(runs) ==> j < id
      ensures id !in old(runs)
      ensures runs == old(runs)[id := RunRow(taskId, model, Queued, now, None)]
      ensures tasks == old(tasks) && attempts == old(attempts)
      ensures episodes == old(episodes) && testResults == old(testResults)
      ensures nextTaskId == old(nextTaskId) && nextAttemptId == old(nextAttemptId)
    {
      id := nextRunId;
      runs := runs[id := RunRow(taskId, model, Queued, now, None)];
      nextRunId := nextRunId + 1;
    }

    /**
     * Inserts a running attempt of run `runId`. Attempts are only added to a
     * run that is still being set up, never to one already completed.
     */
    method AddAttempt(runId: nat, number: int, now: Clock) returns (id: nat)
      requires Valid() && runId in runs && runs[runId].status != Completed
      modifies this
      ensures Valid()
      ensures id == old(nextAttemptId) && nextAttemptId == id + 1
      ensures old(attempts) == map[] ==> id == 1
      ensures old(attempts) != map[] ==> id - 1 in old(attempts)
      ensures forall j :: j in old(attempts) ==> j < id
      ensures id !in old(attempts)
      ensures attempts == old(attempts)[id := NewAttempt(runId, number, now)]
      ensures tasks == old(tasks) && runs == old(runs)
      ensures episodes == old(episodes) && testResults == old(testResults)
      ensures nextTaskId == old(nextTaskId) && nextRunId == old(nextRunId)
    {
      id := nextAttemptId;
      attempts := attempts[id := NewAttempt(runId, number, now)];
      nextAttemptId := nextAttemptId + 1;
    }

    /** Sets a run's status to `running`. */
    method MarkRunRunning(runId: nat)
      requires Valid() && runId in runs
      modifies this
      ensures Valid()
      ensures runs == old(runs)[runId := old(runs[runId]).(status := Running)]
      ensures tasks == old(tasks) && attempts == old(attempts)
      ensures episodes == old(episodes) && testResults == old(testResults)
      ensures nextAttemptId == old(nextAttemptId) && nextRunId == old(nextRunId)
    {
      runs := runs[runId := runs[runId].(status := Running)];
    }

    /**
     * The success branch up to its commit: the attempt is completed with the
     * result's reward, episode count and output path, and one Episode row per
     * parsed episode and one TestResult row per parsed test are added, in
     * order. When the database refuses one of those rows, the commit raises
     * (`committed` is false) and the transaction is rolled back: nothing
     * changes.
     */
    method RecordSuccess(attemptId: nat, result: HarborResult, now: Clock) returns (committed: bool)
      requires Valid() && attemptId in attempts
      requires result.success
      modifies this
      ensures Valid()
      ensures committed <==> Storable(result)
      ensures committed ==> attempts == old(attempts)[attemptId := Succeeded(old(attempts[attemptId]), result, now)]
      ensures committed ==> episodes == old(episodes) + EpisodeRows(attemptId, result.episodes)
      ensures committed ==> testResults == old(testResults) + TestRows(attemptId, result.testResults)
      ensures !committed ==> attempts == old(attempts) && episodes == old(episodes) && testResults == old(testResults)
      ensures tasks == old(tasks) && runs == old(runs)
      ensures nextTaskId == old(nextTaskId) && nextRunId == old(nextRunId) && nextAttemptId == old(nextAttemptId)
    {
      if !Storable(result) {
        return false;
      }
      committed := true;
      attempts := attempts[attemptId := Succeeded(attempts[attemptId], result, now)];
      AddEpisodes(attemptId, result.episodes);
      AddTestResults(attemptId, result.testResults);
    }

    /** Adds one Episode row per parsed episode, tagged with the attempt id, in order. */
    method AddEpisodes(attemptId: nat, es: seq<EpisodeData>)
      requires Valid() && attemptId in attempts
      modifies this
      ensures Valid()
      ensures episodes == old(episodes) + EpisodeRows(attemptId, es)
      ensures attempts == old(attempts) && testResults == old(testResults)
      ensures tasks == old(tasks) && runs == old(runs)
      ensures nextTaskId == old(nextTaskId) && nextRunId == old(nextRunId) && nextAttemptId == old(nextAttemptId)
    {
      var i := 0;
      while i < |es|
        invariant 0 <= i <= |es|
        invariant episodes == old(episodes) + EpisodeRows(attemptId, es[..i])
        invariant forall k :: 0 <= k < |episodes| ==> episodes[k].attemptId in attempts
        invariant attempts == old(attempts) && testResults == old(testResults)
        invariant tasks == old(tasks) && runs == old(runs)
        invariant nextTaskId == old(nextTaskId) && nextRunId == old(nextRunId) && nextAttemptId == old(nextAttemptId)
      {
        episodes := episodes + [EpisodeRowOf(attemptId, es[i])];
        assert EpisodeRows(attemptId, es[..i + 1]) == EpisodeRows(attemptId, es[..i]) + [EpisodeRowOf(attemptId, es[i])];
        i := i + 1;
      }
      assert es[..i] == es;
    }

    /** Adds one TestResult row per parsed test, tagged with the attempt id, in order. */
    method AddTestResults(attemptId: nat, ts: seq<TestData>)
      requires Valid() && attemptId in attempts
      modifies this
      ensures Valid()
      ensures testResults == old(testResults) + TestRows(attemptId, ts)
      ensures attempts == old(attempts) && episodes == old(episodes)
      ensures tasks == old(tasks) && runs == old(runs)
      ensures nextTaskId == old(nextTaskId) && nextRunId == old(nextRunId) && nextAttemptId == old(nextAttemptId)
    {
      var j := 0;
      while j < |ts|
        invariant 0 <= j <= |ts|
        invariant testResults == old(testResults) + TestRows(attemptId, ts[..j])
        invariant forall k :: 0 <= k < |testResults| ==> testResults[k].attemptId in attempts
        invariant attempts == old(attempts) && episodes == old(episodes)
        invariant tasks == old(tasks) && runs == old(runs)
        invariant nextTaskId == old(nextTaskId) && nextRunId == old(nextRunId) && nextAttemptId == old(nextAttemptId)
      {
        testResults := testResults + [TestRowOf(attemptId, ts[j])];
        assert TestRows(attemptId, ts[..j + 1]) == TestRows(attemptId, ts[..j]) + [TestRowOf(attemptId, ts[j])];
        j := j + 1;
      }
      assert ts[..j] == ts;
    }

    /** The failure branch: the attempt is failed with reward 0.0 and the result's error; no rows are added. */
    method RecordFailure(attemptId: nat, error: Option<string>, now: Clock)
      requires Valid() && attemptId in attempts
      modifies this
      ensures Valid()
      ensures attempts == old(attempts)[attemptId := FailedWith(old(attempts[attemptId]), error, now)]
      ensures episodes == old(episodes) && testResults == old(testResults)
      ensures tasks == old(tasks) && runs == old(runs)
      ensures nextTaskId == old(nextTaskId) && nextRunId == old(nextRunId) && nextAttemptId == old(nextAttemptId)
    {
      attempts := attempts[attemptId := FailedWith(attempts[attemptId], error, now)];
    }

    /** The exception handler's write, when the attempt exists. */
    method RecordWorkerError(attemptId: nat, message: string, now: Clock)
      requires Valid() && attemptId in attempts
      modifies this
      ensures Valid()
      ensures attempts == old(attempts)[attemptId := WorkerErrored(old(attempts[attemptId]), message, now)]
      ensures episodes == old(episodes) && testResults == old(testResults)
      ensures tasks == old(tasks) && runs == old(runs)
      ensures nextTaskId == old(nextTaskId) && nextRunId == old(nextRunId) && nextAttemptId == old(nextAttemptId)
    {
      attempts := attempts[attemptId := WorkerErrored(attempts[attemptId], message, now)];
    }

    /**
     * `update_run_status_if_complete`: collects the run's running attempts
     * and, when there are none, marks the run completed. A missing run is
     * left alone.
     */
    method UpdateRunStatusIfComplete(runId: nat)
      requires Valid()
      modifies this
      ensures Valid()
      ensures runs == SettleRun(old(runs), attempts, runId)
      ensures attempts == old(attempts) && tasks == old(tasks)
      ensures episodes == old(episodes) && testResults == old(testResults)
      ensures nextTaskId == old(nextTaskId) && nextRunId == old(nextRunId) && nextAttemptId == old(nextAttemptId)
    {
      if runId in runs {
        var running := set id | id in attempts && attempts[id].runId == runId && attempts[id].status == Running;
        if |running| == 0 {
          assert NoneRunning(attempts, runId) by {
            forall id | id in attempts && attempts[id].runId == runId
              ensures attempts[id].status != Running
            {
              assert attempts[id].status == Running ==> id in running;
            }
          }
          runs := runs[runId := runs[runId].(status := Completed)];
        } else {
          var id :| id in running;
        }
      }
    }

    /** Deletes every episode row. */
    method ClearEpisodes()
      requires Valid()
      modifies this
      ensures Valid()
      ensures episodes == [] && testResults == old(testResults)
      ensures tasks == old(tasks) && runs == old(runs) && attempts == old(attempts)
      ensures nextTaskId == old(nextTaskId) && nextRunId == old(nextRunId) && nextAttemptId == old(nextAttemptId)
    {
      episodes := [];
    }

    /** Deletes every test result row. */
    method ClearTestResults()
      requires Valid()
      modifies this
      ensures Valid()
      ensures testResults == [] && episodes == old(episodes)
      ensures tasks == old(tasks) && runs == old(runs) && attempts == old(attempts)
      ensures nextTaskId == old(nextTaskId) && nextRunId == old(nextRunId) && nextAttemptId == old(nextAttemptId)
    {
      testResults := [];
    }

    /**
     * Deletes every attempt; no episode or test result may still refer to
     * one. The table is empty, so the next attempt gets id 1 again.
     */
    method ClearAttempts()
      requires Valid() && episodes == [] && testResults == []
      modifies this
      ensures Valid()
      ensures attempts == map[] && episodes == [] && testResults == []
      ensures tasks == old(tasks) && runs == old(runs)
      ensures nextAttemptId == 1 && nextTaskId == old(nextTaskId) && nextRunId == old(nextRunId)
    {
      attempts := map[];
      nextAttemptId := 1;
    }

    /** Deletes every run; no attempt may still refer to one. The next run gets id 1 again. */
    method ClearRuns()
      requires Valid() && attempts == map[]
      modifies this
      ensures Valid()
      ensures runs == map[] && attempts == map[]
      ensures tasks == old(tasks) && episodes == old(episodes) && testResults == old(testResults)
      ensures nextRunId == 1 && nextTaskId == old(nextTaskId) && nextAttemptId == old(nextAttemptId)
    {
      runs := map[];
      nextRunId := 1;
    }

    /** Deletes every task; no run may still refer to one. The next task gets id 1 again. */
    method ClearTasks()
      requires Valid() && runs == map[]
      modifies this
      ensures Valid()
      ensures tasks == map[] && runs == map[]
      ensures attempts == old(attempts) && episodes == old(episodes) && testResults == old(testResults)
      ensures nextTaskId == 1 && nextRunId == old(nextRunId) && nextAttemptId == old(nextAttemptId)
    {
      tasks := map[];
      nextTaskId := 1;
    }
  }
}
