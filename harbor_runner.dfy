/**
 * The runner supervisor and output parser: the command line and environment
 * the runner is started with, the classification of how it ended, and the
 * parsing of the trial directory it leaves behind (episodes, test results and
 * the reward).
 */
module HarborRunner {
  import opened Wrappers
  import opened Text
  import opened Paths
  import opened OutputTree
  import opened Json

  const AGENT := "terminus-2"
  const TIMEOUT_SECONDS: nat := 1800
  const STDERR_LIMIT: nat := 5000
  const STDOUT_LIMIT: nat := 2000
  const API_KEY_VAR := "OPENROUTER_API_KEY"
  const DOCKER_HOST_VAR := "DOCKER_HOST"
  const DOCKER_HOST := "unix:///var/run/docker.sock"
  const EXIT_PREFIX := "Harbor execution failed (exit "
  const TIMEOUT_ERROR := "Harbor execution timed out after 30 minutes"
  const NO_TRIAL_ERROR := "Could not find trial directory in output"
  const UNEXPECTED_PREFIX := "Unexpected error: "

  /** The runner executable as resolved from HARBOR_BIN or the development virtualenv, and whether it exists. */
  datatype Binary = Binary(path: string, present: bool)

  /** What `subprocess.run` is given. */
  datatype Invocation = Invocation(argv: seq<string>, env: map<string, string>, timeoutSeconds: nat)

  /**
   * How `subprocess.run` ended: the process exited (with the output
   * directory as it then is, `None` when it does not exist), the timeout
   * expired, or starting it raised (with `str` of the exception).
   */
  datatype ProcessOutcome =
    | Exited(returnCode: int, stdout: string, stderr: string, outputDir: Option<Node>)
    | TimedOut
    | SpawnFailed(reason: string)

  /** The exceptions the parser lets escape. */
  datatype Fault =
    | MissingDirectory(path: string)
    | NotADirectory(path: string)
    | InvalidLiteral(text: string)

  /**
   * `str(e)` of such an exception. The path or text is shown between single
   * quotes; Python's `repr` switches to double quotes when the text holds a
   * `'` and escapes backslashes and unprintable characters, which is not
   * modelled.
   */
  function FaultMessage(f: Fault): string {
    match f
    case MissingDirectory(p) => "[Errno 2] No such file or directory: '" + p + "'"
    case NotADirectory(p) => "[Errno 20] Not a directory: '" + p + "'"
    case InvalidLiteral(t) => "invalid literal for int() with base 10: '" + t + "'"
  }

  /** A trial directory found in the output: its path and its contents. */
  datatype Trial = Trial(path: string, dir: Node)

  /** One parsed episode. Fields other than the number hold whatever JSON value the response had. */
  datatype EpisodeData = EpisodeData(number: int, analysis: Json, plan: Json, commands: string, taskComplete: Json)

  /** One parsed test result. */
  datatype TestData = TestData(name: Json, status: Json, duration: Json, errorMessage: Option<Json>)

  /** The dictionary `execute_harbor` returns. */
  datatype HarborResult = HarborResult(
    success: bool,
    outputPath: Option<string>,
    reward: real,
    episodes: seq<EpisodeData>,
    testResults: seq<TestData>,
    error: Option<string>)

  /** The one shape every failure record has. */
  function Failure(error: string): HarborResult {
    HarborResult(false, None, 0.0, [], [], Some(error))
  }

  predicate IsFailureRecord(r: HarborResult) {
    && !r.success
    && r.error.Some?
    && r.outputPath.None?
    && r.reward == 0.0
    && r.episodes == []
    && r.testResults == []
  }

  // ---------------------------------------------------------------------------
  // Command line and environment

  /** The options the runner is started with, as `--flag value` pairs, in order. */
  function HarborOptions(taskPath: string, model: string, outputDir: string): seq<(string, string)> {
    [("--path", taskPath),
     ("--agent", AGENT),
     ("--model", model),
     ("--jobs-dir", outputDir),
     ("--n-attempts", "1"),
     ("--n-concurrent", "1"),
     ("--env", "docker")]
  }

  /** The pairs written out one after the other. */
  function FlattenOptions(pairs: seq<(string, string)>): (r: seq<string>)
    ensures |r| == 2 * |pairs|
    decreases |pairs|
  {
    if pairs == [] then [] else [pairs[0].0, pairs[0].1] + FlattenOptions(pairs[1..])
  }

  /** `<bin> run` followed by the options. */
  function HarborCommand(bin: string, taskPath: string, model: string, outputDir: string): seq<string> {
    [bin, "run"] + FlattenOptions(HarborOptions(taskPath, model, outputDir))
  }

  /** Reading `--flag value` pairs back; `None` when a flag lacks its value or does not start with `--`. */
  function OptionPairs(args: seq<string>): Option<seq<(string, string)>>
    decreases |args|
  {
    if args == [] then Some([])
    else if |args| == 1 || !StartsWith(args[0], "--") then None
    else match OptionPairs(args[2..])
      case None => None
      case Some(pairs) => Some([(args[0], args[1])] + pairs)
  }

  /** Options whose flags all start with `--` read back from the command line exactly, in order. */
  lemma {:induction false} OptionPairsRoundTrip(pairs: seq<(string, string)>)
    requires forall k :: 0 <= k < |pairs| ==> StartsWith(pairs[k].0, "--")
    ensures OptionPairs(FlattenOptions(pairs)) == Some(pairs)
    decreases |pairs|
  {
    if pairs != [] {
      var args := FlattenOptions(pairs);
      assert args[2..] == FlattenOptions(pairs[1..]);
      OptionPairsRoundTrip(pairs[1..]);
      assert pairs == [pairs[0]] + pairs[1..];
    }
  }

  /**
   * The runner is started as `<bin> run` followed by the seven options of
   * `HarborOptions` and nothing else: 16 arguments that read back as those
   * pairs.
   */
  lemma HarborCommandOptions(bin: string, taskPath: string, model: string, outputDir: string)
    ensures var cmd := HarborCommand(bin, taskPath, model, outputDir);
      && |cmd| == 16 && cmd[0] == bin && cmd[1] == "run"
      && OptionPairs(cmd[2..]) == Some(HarborOptions(taskPath, model, outputDir))
  {
    var opts := HarborOptions(taskPath, model, outputDir);
    forall k | 0 <= k < |opts| ensures StartsWith(opts[k].0, "--") {
      assert opts[k].0[..2] == "--";
    }
    OptionPairsRoundTrip(opts);
    assert HarborCommand(bin, taskPath, model, outputDir)[2..] == FlattenOptions(opts);
  }

  /** The caller's environment with the API key and the Docker socket set. */
  function HarborEnv(base: map<string, string>, apiKey: string): map<string, string> {
    base[API_KEY_VAR := apiKey][DOCKER_HOST_VAR := DOCKER_HOST]
  }

  function HarborInvocation(bin: Binary, taskPath: string, model: string, outputDir: string,
                            apiKey: string, baseEnv: map<string, string>): Invocation
  {
    Invocation(HarborCommand(bin.path, taskPath, model, outputDir), HarborEnv(baseEnv, apiKey), TIMEOUT_SECONDS)
  }

  /** Only the API key and the Docker host differ from the caller's environment. */
  lemma HarborEnvOverrides(base: map<string, string>, apiKey: string)
    ensures var env := HarborEnv(base, apiKey);
      && env.Keys == base.Keys + {API_KEY_VAR, DOCKER_HOST_VAR}
      && env[API_KEY_VAR] == apiKey && env[DOCKER_HOST_VAR] == DOCKER_HOST
      && forall k :: k in base && k != API_KEY_VAR && k != DOCKER_HOST_VAR ==> env[k] == base[k]
  {
  }

  // ---------------------------------------------------------------------------
  // Failure messages

  /** The error of a run that exited with a nonzero code: a head naming the code, then the stderr and stdout excerpts. */
  function ExitErrorMessage(code: int, stderr: string, stdout: string): string {
    ExitErrorHead(code) + Take(stderr, STDERR_LIMIT) + ExitErrorTail(stdout)
  }

  function ExitErrorHead(code: int): string {
    EXIT_PREFIX + IntToString(code) + "):\n\nSTDERR:\n"
  }

  function ExitErrorTail(stdout: string): string {
    "\n\nSTDOUT:\n" + Take(stdout, STDOUT_LIMIT)
  }

  /** The exit error starts with a fixed prefix after which the exit code reads back up to the closing parenthesis. */
  lemma ExitCodeReadsBack(code: int, stderr: string, stdout: string)
    ensures var msg := ExitErrorMessage(code, stderr, stdout);
      && StartsWith(msg, EXIT_PREFIX)
      && ParseInt(TakeUntil(msg[|EXIT_PREFIX|..], ')')) == Some(code)
  {
    var digits := IntToString(code);
    var rest := "):\n\nSTDERR:\n" + Take(stderr, STDERR_LIMIT) + ExitErrorTail(stdout);
    var msg := ExitErrorMessage(code, stderr, stdout);
    assert msg == EXIT_PREFIX + (digits + rest);
    assert msg[|EXIT_PREFIX|..] == digits + rest;
    TakeUntilAppend(digits, rest, ')');
    IntToStringRoundTrip(code);
  }

  /** The exit error embeds the first 5000 characters of stderr. */
  lemma ExitErrorEmbedsStderr(code: int, stderr: string, stdout: string)
    ensures Occurs(Take(stderr, STDERR_LIMIT), ExitErrorMessage(code, stderr, stdout))
  {
    OccursInMiddle(ExitErrorHead(code), Take(stderr, STDERR_LIMIT), ExitErrorTail(stdout));
  }

  /** The exit error embeds the first 2000 characters of stdout. */
  lemma ExitErrorEmbedsStdout(code: int, stderr: string, stdout: string)
    ensures Occurs(Take(stdout, STDOUT_LIMIT), ExitErrorMessage(code, stderr, stdout))
  {
    var front := ExitErrorHead(code) + Take(stderr, STDERR_LIMIT);
    var sep := "\n\nSTDOUT:\n";
    var out := Take(stdout, STDOUT_LIMIT);
    OccursAtEnd(sep, out);
    OccursShift(front, ExitErrorTail(stdout), out, |sep|);
  }

  /** However long the process output, the exit error stays within the two excerpt limits plus the fixed text. */
  lemma ExitErrorBounded(code: int, stderr: string, stdout: string)
    ensures |ExitErrorMessage(code, stderr, stdout)| <= |EXIT_PREFIX| + |IntToString(code)| + 22 + STDERR_LIMIT + STDOUT_LIMIT
  {
  }

  // ---------------------------------------------------------------------------
  // Locating the trial directory

  /** The trial at position `j` of the date directory at position `i`. */
  predicate TrialAt(dates: seq<Node>, i: int, j: int) {
    0 <= i < |dates| && dates[i].Dir? && 0 <= j < |dates[i].entries| && IsDirWith(dates[i].entries[j], "agent")
  }

  function TrialFrom(outputDir: string, dates: seq<Node>, i: int, j: int): Trial
    requires TrialAt(dates, i, j)
  {
    var t := dates[i].entries[j];
    Trial(JoinPath(JoinPath(outputDir, dates[i].name), t.name), t)
  }

  /**
   * Where the first trial is: the date directory's position and the trial's
   * position in it, scanning date directories in listing order and, within
   * each, its entries in listing order.
   */
  function FirstTrial(dates: seq<Node>): (r: Option<(nat, nat)>)
    ensures r.Some? ==> TrialAt(dates, r.value.0, r.value.1)
    decreases |dates|
  {
    if dates == [] then None
    else if dates[0].Dir? && FirstDirWith(dates[0].entries, "agent").Some? then
      Some((0, FirstDirWith(dates[0].entries, "agent").value))
    else match FirstTrial(dates[1..])
      case None => None
      case Some((i, j)) => Some((i + 1, j))
  }

  /** `find_trial_directory` over the output directory as it is (`None` when it does not exist). */
  function FindTrial(outputDir: string, root: Option<Node>): Result<Option<Trial>, Fault> {
    match root
    case None => Err(MissingDirectory(NormalizePath(outputDir)))
    case Some(File(_, _)) => Err(NotADirectory(NormalizePath(outputDir)))
    case Some(Dir(_, dates)) =>
      match FirstTrial(dates)
      case None => Ok(None)
      case Some((i, j)) => Ok(Some(TrialFrom(outputDir, dates, i, j)))
  }

  /** No trial is found exactly when no date directory holds a directory with an `agent` entry. */
  lemma {:induction false} FirstTrialNone(dates: seq<Node>)
    ensures FirstTrial(dates).None? <==> forall i, j :: !TrialAt(dates, i, j)
    decreases |dates|
  {
    if dates != [] {
      FirstTrialNone(dates[1..]);
      if dates[0].Dir? && FirstDirWith(dates[0].entries, "agent").Some? {
        assert TrialAt(dates, 0, FirstDirWith(dates[0].entries, "agent").value);
      } else {
        forall i, j | TrialAt(dates, i, j) ensures TrialAt(dates[1..], i - 1, j) {
        }
        forall i, j | TrialAt(dates[1..], i, j) ensures TrialAt(dates, i + 1, j) {
        }
      }
    }
  }

  /**
   * The trial found is the first directory with an `agent` entry in listing
   * order, looking inside the directories directly under the output
   * directory in turn. Plain files at either level are passed over.
   */
  lemma {:induction false} FirstTrialIsFirst(dates: seq<Node>, i: int, j: int)
    requires TrialAt(dates, i, j)
    requires forall i', j' :: TrialAt(dates, i', j') ==> i < i' || (i == i' && j <= j')
    ensures FirstTrial(dates) == Some((i, j))
    decreases |dates|
  {
    if i == 0 {
      var first := FirstDirWith(dates[0].entries, "agent");
      assert first.Some? && first.value <= j;
      assert TrialAt(dates, 0, first.value);
    } else {
      if dates[0].Dir? {
        forall k | 0 <= k < |dates[0].entries| ensures !IsDirWith(dates[0].entries[k], "agent") {
          assert !TrialAt(dates, 0, k);
        }
      }
      var rest := dates[1..];
      forall i', j' | TrialAt(rest, i', j') ensures i - 1 < i' || (i - 1 == i' && j <= j') {
        assert TrialAt(dates, i' + 1, j');
      }
      FirstTrialIsFirst(rest, i - 1, j);
    }
  }

  /** `find_trial_directory`: for each date directory, for each trial directory in it, the first with an `agent` entry. */
  method FindTrialDirectory(outputDir: string, root: Option<Node>) returns (r: Result<Option<Trial>, Fault>)
    ensures r == FindTrial(outputDir, root)
  {
    if root.None? {
      return Err(MissingDirectory(NormalizePath(outputDir)));
    }
    if root.value.File? {
      return Err(NotADirectory(NormalizePath(outputDir)));
    }
    var dates := root.value.entries;
    var i := 0;
    while i < |dates|
      invariant 0 <= i <= |dates|
      invariant forall i', j' :: TrialAt(dates, i', j') ==> i <= i'
    {
      var dateDir := dates[i];
      if dateDir.Dir? {
        var trials := dateDir.entries;
        var j := 0;
        while j < |trials|
          invariant 0 <= j <= |trials|
          invariant forall k :: 0 <= k < j ==> !IsDirWith(trials[k], "agent")
        {
          var trialDir := trials[j];
          if trialDir.Dir? && HasEntry(trialDir, "agent") {
            FirstTrialIsFirst(dates, i, j);
            return Ok(Some(TrialFrom(outputDir, dates, i, j)));
          }
          j := j + 1;
        }
      }
      i := i + 1;
    }
    FirstTrialNone(dates);
    return Ok(None);
  }

  // ---------------------------------------------------------------------------
  // Episodes

  predicate IsEpisodeDir(n: Node) {
    n.Dir? && StartsWith(n.name, "episode-")
  }

  /** The directories of `agent/` named `episode-...`, in listing order. */
  function EpisodeDirsIn(es: seq<Node>): (r: seq<Node>)
    ensures |r| <= |es|
    ensures forall k :: 0 <= k < |r| ==> IsEpisodeDir(r[k])
    decreases |es|
  {
    if es == [] then []
    else if IsEpisodeDir(es[0]) then [es[0]] + EpisodeDirsIn(es[1..])
    else EpisodeDirsIn(es[1..])
  }

  /** The filter distributes over concatenation, so the kept directories stay in listing order. */
  lemma {:induction false} EpisodeDirsInAppend(a: seq<Node>, b: seq<Node>)
    ensures EpisodeDirsIn(a + b) == EpisodeDirsIn(a) + EpisodeDirsIn(b)
    decreases |a|
  {
    if a == [] {
      assert a + b == b;
    } else {
      assert (a + b)[0] == a[0];
      assert (a + b)[1..] == a[1..] + b;
      EpisodeDirsInAppend(a[1..], b);
    }
  }

  /** Every `episode-` directory of the listing is kept, and nothing else is. */
  lemma {:induction false} EpisodeDirsInKeepsAll(es: seq<Node>)
    ensures forall x :: x in EpisodeDirsIn(es) <==> x in es && IsEpisodeDir(x)
    decreases |es|
  {
    if es != [] {
      EpisodeDirsInKeepsAll(es[1..]);
      assert forall x :: x in es <==> x == es[0] || x in es[1..];
    }
  }

  /** `name.split('-')[1]` */
  function EpisodeNumberText(name: string): string {
    var pieces := Split(name, '-');
    if |pieces| >= 2 then pieces[1] else ""
  }

  /** `int(name.split('-')[1])` */
  function EpisodeNumber(name: string): Option<int> {
    ParseInt(EpisodeNumberText(name))
  }

  /**
   * The episode read from one episode directory, or `None` when it is
   * skipped: no `response.txt`, a read or JSON error, or a document that is
   * not an object. Absent fields take their defaults.
   */
  function ParseEpisode(d: Node, number: int, codec: Codec): (r: Option<EpisodeData>)
    ensures r.Some? ==> r.value.number == number
  {
    match Lookup(d, "response.txt")
    case None => None
    case Some(f) =>
      match ReadText(f)
      case None => None
      case Some(text) =>
        match codec.loads(text)
        case Some(JObject(m)) =>
          Some(EpisodeData(
            number,
            Get(m, "analysis", JString("")),
            Get(m, "plan", JString("")),
            codec.dumps(Get(m, "commands", JArray([]))),
            Get(m, "task_complete", JBool(false))))
        case _ => None
  }

  /**
   * The loop over the sorted episode directories: a directory whose number
   * does not parse aborts the whole parse; otherwise each directory adds its
   * episode, or nothing when it is skipped.
   */
  function ParseEpisodeDirs(dirs: seq<Node>, codec: Codec): Result<seq<EpisodeData>, Fault>
    decreases |dirs|
  {
    if dirs == [] then Ok([])
    else
      match ParseEpisodeDirs(dirs[..|dirs| - 1], codec)
      case Err(f) => Err(f)
      case Ok(before) =>
        var last := dirs[|dirs| - 1];
        match EpisodeNumber(last.name)
        case None => Err(InvalidLiteral(EpisodeNumberText(last.name)))
        case Some(n) => Ok(before + OptionToSeq(ParseEpisode(last, n, codec)))
  }

  /** `parse_episodes` on a trial directory. */
  function Episodes(trial: Trial, codec: Codec): Result<seq<EpisodeData>, Fault> {
    match Lookup(trial.dir, "agent")
    case None => Ok([])
    case Some(File(_, _)) => Err(NotADirectory(JoinPath(trial.path, "agent")))
    case Some(Dir(_, es)) => ParseEpisodeDirs(SortByName(EpisodeDirsIn(es)), codec)
  }

  lemma {:induction false} ParseEpisodeDirsErrPersists(dirs: seq<Node>, k: nat, codec: Codec)
    requires k <= |dirs| && ParseEpisodeDirs(dirs[..k], codec).Err?
    ensures ParseEpisodeDirs(dirs, codec) == ParseEpisodeDirs(dirs[..k], codec)
    decreases |dirs| - k
  {
    if k < |dirs| {
      assert dirs[..k + 1][..k] == dirs[..k];
      ParseEpisodeDirsErrPersists(dirs, k + 1, codec);
    } else {
      assert dirs[..k] == dirs;
    }
  }

  /** One more directory: the parse so far, extended by it. */
  lemma ParseEpisodeDirsStep(dirs: seq<Node>, i: nat, codec: Codec)
    requires i < |dirs| && ParseEpisodeDirs(dirs[..i], codec).Ok?
    ensures EpisodeNumber(dirs[i].name).None? ==>
      ParseEpisodeDirs(dirs[..i + 1], codec) == Err(InvalidLiteral(EpisodeNumberText(dirs[i].name)))
    ensures EpisodeNumber(dirs[i].name).Some? ==>
      ParseEpisodeDirs(dirs[..i + 1], codec) ==
        Ok(ParseEpisodeDirs(dirs[..i], codec).value + OptionToSeq(ParseEpisode(dirs[i], EpisodeNumber(dirs[i].name).value, codec)))
  {
    assert dirs[..i + 1][..i] == dirs[..i];
  }

  /** One round of the loop of `parse_episodes`: the `i`-th directory's episode, or the fault it raises. */
  method ParseEpisodeAt(dirs: seq<Node>, i: nat, episodes: seq<EpisodeData>, codec: Codec)
    returns (r: Result<seq<EpisodeData>, Fault>)
    requires i < |dirs| && ParseEpisodeDirs(dirs[..i], codec) == Ok(episodes)
    ensures r == ParseEpisodeDirs(dirs[..i + 1], codec)
  {
    ParseEpisodeDirsStep(dirs, i, codec);
    var number := EpisodeNumber(dirs[i].name);
    if number.None? {
      return Err(InvalidLiteral(EpisodeNumberText(dirs[i].name)));
    }
    var episode := ParseEpisode(dirs[i], number.value, codec);
    if episode.Some? {
      r := Ok(episodes + [episode.value]);
    } else {
      r := Ok(episodes);
      assert episodes == episodes + OptionToSeq(episode);
    }
  }

  /** The loop of `parse_episodes` over the sorted episode directories, skipping unreadable episodes. */
  method ParseEpisodeList(dirs: seq<Node>, codec: Codec) returns (r: Result<seq<EpisodeData>, Fault>)
    ensures r == ParseEpisodeDirs(dirs, codec)
  {
    var episodes: seq<EpisodeData> := [];
    var i := 0;
    while i < |dirs|
      invariant 0 <= i <= |dirs|
      invariant ParseEpisodeDirs(dirs[..i], codec) == Ok(episodes)
    {
      var next := ParseEpisodeAt(dirs, i, episodes, codec);
      if next.Err? {
        ParseEpisodeDirsErrPersists(dirs, i + 1, codec);
        return next;
      }
      episodes := next.value;
      i := i + 1;
    }
    assert dirs[..i] == dirs;
    return Ok(episodes);
  }

  /** `parse_episodes` */
  method ParseEpisodes(trial: Trial, codec: Codec) returns (r: Result<seq<EpisodeData>, Fault>)
    ensures r == Episodes(trial, codec)
  {
    var agent := Lookup(trial.dir, "agent");
    if agent.None? {
      return Ok([]);
    }
    if agent.value.File? {
      return Err(NotADirectory(JoinPath(trial.path, "agent")));
    }
    r := ParseEpisodeList(SortByName(EpisodeDirsIn(agent.value.entries)), codec);
  }

  /** No more episodes come out than there are episode directories. */
  lemma {:induction false} EpisodesBounded(dirs: seq<Node>, codec: Codec)
    ensures ParseEpisodeDirs(dirs, codec).Ok? ==> |ParseEpisodeDirs(dirs, codec).value| <= |dirs|
    decreases |dirs|
  {
    if dirs != [] {
      EpisodesBounded(dirs[..|dirs| - 1], codec);
    }
  }

  /** The parse aborts exactly when some episode directory's number is not an integer. */
  lemma {:induction false} EpisodesFailIff(dirs: seq<Node>, codec: Codec)
    ensures ParseEpisodeDirs(dirs, codec).Err? <==> exists k :: 0 <= k < |dirs| && EpisodeNumber(dirs[k].name).None?
    decreases |dirs|
  {
    if dirs != [] {
      var init := dirs[..|dirs| - 1];
      EpisodesFailIff(init, codec);
      if exists k :: 0 <= k < |init| && EpisodeNumber(init[k].name).None? {
        var k :| 0 <= k < |init| && EpisodeNumber(init[k].name).None?;
        assert dirs[k] == init[k];
      }
      if exists k :: 0 <= k < |dirs| && EpisodeNumber(dirs[k].name).None? {
        var k :| 0 <= k < |dirs| && EpisodeNumber(dirs[k].name).None?;
        if k < |dirs| - 1 {
          assert init[k] == dirs[k];
        }
      }
    }
  }

  /** Every directory's number parses (to `numbers[k]`) and every response reads. */
  predicate AllEpisodesReadable(dirs: seq<Node>, numbers: seq<int>, codec: Codec)
    decreases |dirs|
  {
    && |numbers| == |dirs|
    && (dirs != [] ==>
          var n := |dirs| - 1;
          && EpisodeNumber(dirs[n].name) == Some(numbers[n])
          && ParseEpisode(dirs[n], numbers[n], codec).Some?
          && AllEpisodesReadable(dirs[..n], numbers[..n], codec))
  }

  /** When every directory is numbered and readable, there is one episode per directory. */
  lemma {:induction false} EpisodesAllWellFormed(dirs: seq<Node>, numbers: seq<int>, codec: Codec)
    requires AllEpisodesReadable(dirs, numbers, codec)
    ensures ParseEpisodeDirs(dirs, codec).Ok?
    ensures |ParseEpisodeDirs(dirs, codec).value| == |dirs|
    decreases |dirs|
  {
    if dirs != [] {
      var n := |dirs| - 1;
      EpisodesAllWellFormed(dirs[..n], numbers[..n], codec);
      assert dirs == dirs[..n + 1];
      ParseEpisodeDirsStep(dirs, n, codec);
    }
  }

  /**
   * When every directory is numbered and readable, the k-th episode is the
   * one read from the k-th directory, carrying that directory's number.
   */
  lemma {:induction false} EpisodesInDirectoryOrder(dirs: seq<Node>, numbers: seq<int>, codec: Codec)
    requires AllEpisodesReadable(dirs, numbers, codec)
    ensures ParseEpisodeDirs(dirs, codec).Ok?
    ensures forall k :: 0 <= k < |dirs| && k < |ParseEpisodeDirs(dirs, codec).value| ==>
      && Some(ParseEpisodeDirs(dirs, codec).value[k]) == ParseEpisode(dirs[k], numbers[k], codec)
      && ParseEpisodeDirs(dirs, codec).value[k].number == numbers[k]
    decreases |dirs|
  {
    EpisodesAllWellFormed(dirs, numbers, codec);
    if dirs != [] {
      var n := |dirs| - 1;
      EpisodesInDirectoryOrder(dirs[..n], numbers[..n], codec);
      EpisodesAllWellFormed(dirs[..n], numbers[..n], codec);
      assert dirs == dirs[..n + 1];
      ParseEpisodeDirsStep(dirs, n, codec);
      var before := ParseEpisodeDirs(dirs[..n], codec).value;
      var last := ParseEpisode(dirs[n], numbers[n], codec).value;
      var all := ParseEpisodeDirs(dirs, codec).value;
      assert all == before + [last];
      assert last.number == numbers[n];
      forall k | 0 <= k < |all|
        ensures Some(all[k]) == ParseEpisode(dirs[k], numbers[k], codec) && all[k].number == numbers[k]
      {
        if k < n {
          assert all[k] == before[k] && dirs[..n][k] == dirs[k] && numbers[..n][k] == numbers[k];
          assert Some(before[k]) == ParseEpisode(dirs[..n][k], numbers[..n][k], codec);
        } else {
          assert k == n;
          assert all[n] == last;
        }
      }
    }
  }

  /** Every episode that comes out carries the number of one of the directories. */
  lemma {:induction false} EpisodeNumbersFromDirs(dirs: seq<Node>, codec: Codec)
    requires ParseEpisodeDirs(dirs, codec).Ok?
    ensures forall e :: e in ParseEpisodeDirs(dirs, codec).value ==>
      exists k :: 0 <= k < |dirs| && EpisodeNumber(dirs[k].name) == Some(e.number)
    decreases |dirs|
  {
    if dirs != [] {
      var init := dirs[..|dirs| - 1];
      EpisodeNumbersFromDirs(init, codec);
      var last := dirs[|dirs| - 1];
      forall e | e in ParseEpisodeDirs(dirs, codec).value
        ensures exists k :: 0 <= k < |dirs| && EpisodeNumber(dirs[k].name) == Some(e.number)
      {
        if e in ParseEpisodeDirs(init, codec).value {
          var k :| 0 <= k < |init| && EpisodeNumber(init[k].name) == Some(e.number);
          assert dirs[k] == init[k];
        } else {
          assert EpisodeNumber(dirs[|dirs| - 1].name) == Some(e.number);
        }
      }
    }
  }

  /**
   * What one directory does to the parse: a number that does not parse
   * raises, otherwise the directory yields its episode or, when skipped,
   * nothing.
   */
  function EpisodeStep(d: Node, codec: Codec): Result<Option<EpisodeData>, Fault> {
    match EpisodeNumber(d.name)
    case None => Err(InvalidLiteral(EpisodeNumberText(d.name)))
    case Some(n) => Ok(ParseEpisode(d, n, codec))
  }

  /**
   * A loop over `xs` that stops at the first `step` raising and otherwise
   * collects, in order, what each entry yields.
   */
  function Collect<A, B, E>(xs: seq<A>, step: A -> Result<Option<B>, E>): Result<seq<B>, E>
    decreases |xs|
  {
    if xs == [] then Ok([])
    else
      match Collect(xs[..|xs| - 1], step)
      case Err(e) => Err(e)
      case Ok(before) =>
        match step(xs[|xs| - 1])
        case Err(e) => Err(e)
        case Ok(o) => Ok(before + OptionToSeq(o))
  }

  /** `x` occurs in `s` before an occurrence of `y`. */
  predicate OccurInOrder<T(==)>(s: seq<T>, x: T, y: T) {
    exists a, b :: 0 <= a < b < |s| && s[a] == x && s[b] == y
  }

  /** Removing an entry other than the last keeps the last, and removes it from what comes before. */
  lemma RemoveBeforeLast<T>(s: seq<T>, k: nat)
    requires k < |s| - 1
    ensures var r := s[..k] + s[k + 1..];
      && r != [] && r[|r| - 1] == s[|s| - 1]
      && r[..|r| - 1] == s[..|s| - 1][..k] + s[..|s| - 1][k + 1..]
  {
    var n := |s| - 1;
    assert s[..n][..k] == s[..k] && s[..n][k + 1..] == s[k + 1..n];
    assert s[k + 1..] == s[k + 1..n] + [s[n]];
  }

  /** An entry that yields nothing can be left out without changing the outcome, error or not. */
  lemma {:induction false} CollectSkips<A, B, E>(xs: seq<A>, k: nat, step: A -> Result<Option<B>, E>)
    requires k < |xs| && step(xs[k]) == Ok(None)
    ensures Collect(xs, step) == Collect(xs[..k] + xs[k + 1..], step)
    decreases |xs|
  {
    var n := |xs| - 1;
    if k == n {
      assert xs[..k] + xs[k + 1..] == xs[..n];
      if Collect(xs[..n], step).Ok? {
        var before := Collect(xs[..n], step).value;
        assert before + [] == before;
      }
    } else {
      assert xs[..n][k] == xs[k];
      CollectSkips(xs[..n], k, step);
      RemoveBeforeLast(xs, k);
    }
  }

  /** When the loop finishes, every entry's yield is among the results. */
  lemma {:induction false} CollectKeeps<A, B, E>(xs: seq<A>, k: nat, step: A -> Result<Option<B>, E>, y: B)
    requires k < |xs| && Collect(xs, step).Ok? && step(xs[k]) == Ok(Some(y))
    ensures y in Collect(xs, step).value
    decreases |xs|
  {
    var n := |xs| - 1;
    if k < n {
      assert xs[..n][k] == xs[k];
      CollectKeeps(xs[..n], k, step, y);
    }
  }

  /** When the loop finishes, the yields of two entries come out in the entries' order. */
  lemma {:induction false} CollectInOrder<A, B, E>(xs: seq<A>, i: nat, j: nat, step: A -> Result<Option<B>, E>,
                                                   x: B, y: B)
    requires i < j < |xs| && Collect(xs, step).Ok?
    requires step(xs[i]) == Ok(Some(x)) && step(xs[j]) == Ok(Some(y))
    ensures OccurInOrder(Collect(xs, step).value, x, y)
    decreases |xs|
  {
    var n := |xs| - 1;
    var before := Collect(xs[..n], step).value;
    var all := Collect(xs, step).value;
    assert xs[..n][i] == xs[i];
    if j < n {
      assert xs[..n][j] == xs[j];
      CollectInOrder(xs[..n], i, j, step, x, y);
      var a, b :| 0 <= a < b < |before| && before[a] == x && before[b] == y;
      assert all[a] == before[a] && all[b] == before[b];
    } else {
      CollectKeeps(xs[..n], i, step, x);
      var a :| 0 <= a < |before| && before[a] == x;
      assert all == before + [y];
      assert all[a] == before[a] && all[|before|] == y;
    }
  }

  /** The parse of the episode directories is that loop, each directory taking its `EpisodeStep`. */
  lemma {:induction false} ParseEpisodeDirsCollects(dirs: seq<Node>, codec: Codec)
    ensures ParseEpisodeDirs(dirs, codec) == Collect(dirs, d => EpisodeStep(d, codec))
    decreases |dirs|
  {
    if dirs != [] {
      ParseEpisodeDirsCollects(dirs[..|dirs| - 1], codec);
    }
  }

  /** A directory whose episode is skipped adds nothing: the parse is the parse without it. */
  lemma SkippedEpisodeDropped(dirs: seq<Node>, k: nat, codec: Codec)
    requires k < |dirs| && EpisodeStep(dirs[k], codec) == Ok(None)
    ensures ParseEpisodeDirs(dirs, codec) == ParseEpisodeDirs(dirs[..k] + dirs[k + 1..], codec)
  {
    ParseEpisodeDirsCollects(dirs, codec);
    ParseEpisodeDirsCollects(dirs[..k] + dirs[k + 1..], codec);
    CollectSkips(dirs, k, d => EpisodeStep(d, codec));
  }

  /** When the parse succeeds, the episode of every directory that reads is among its episodes. */
  lemma ReadableEpisodeKept(dirs: seq<Node>, k: nat, e: EpisodeData, codec: Codec)
    requires k < |dirs| && ParseEpisodeDirs(dirs, codec).Ok? && EpisodeStep(dirs[k], codec) == Ok(Some(e))
    ensures e in ParseEpisodeDirs(dirs, codec).value
  {
    ParseEpisodeDirsCollects(dirs, codec);
    CollectKeeps(dirs, k, d => EpisodeStep(d, codec), e);
  }

  /**
   * When the parse succeeds, episodes read from two directories come out in
   * the order of those directories, whatever is skipped between them.
   */
  lemma ReadableEpisodesKeepOrder(dirs: seq<Node>, i: nat, j: nat, ei: EpisodeData, ej: EpisodeData, codec: Codec)
    requires i < j < |dirs| && ParseEpisodeDirs(dirs, codec).Ok?
    requires EpisodeStep(dirs[i], codec) == Ok(Some(ei)) && EpisodeStep(dirs[j], codec) == Ok(Some(ej))
    ensures OccurInOrder(ParseEpisodeDirs(dirs, codec).value, ei, ej)
  {
    ParseEpisodeDirsCollects(dirs, codec);
    CollectInOrder(dirs, i, j, d => EpisodeStep(d, codec), ei, ej);
  }

  /**
   * When a trial's episodes parse, every `episode-` directory of its `agent/`
   * listing that reads contributes its episode.
   */
  lemma EpisodesKeepEveryReadable(trial: Trial, codec: Codec, name: string, es: seq<Node>, x: Node, e: EpisodeData)
    requires Lookup(trial.dir, "agent") == Some(Dir(name, es)) && Episodes(trial, codec).Ok?
    requires x in es && IsEpisodeDir(x) && EpisodeStep(x, codec) == Ok(Some(e))
    ensures e in Episodes(trial, codec).value
  {
    var dirs := SortByName(EpisodeDirsIn(es));
    EpisodeDirsInKeepsAll(es);
    assert x in multiset(dirs);
    var k :| 0 <= k < |dirs| && dirs[k] == x;
    ReadableEpisodeKept(dirs, k, e, codec);
  }

  /** Absent fields of a response default to empty analysis and plan, no commands, and not complete. */
  lemma EpisodeDefaults(d: Node, number: int, codec: Codec, f: Node, text: string)
    requires Lookup(d, "response.txt") == Some(f) && ReadText(f) == Some(text)
    requires codec.loads(text) == Some(JObject(map[]))
    ensures ParseEpisode(d, number, codec) ==
      Some(EpisodeData(number, JString(""), JString(""), codec.dumps(JArray([])), JBool(false)))
  {
  }

  /** Directories are taken in code-point order of their names, so `episode-10` comes before `episode-2`. */
  lemma EpisodeTenBeforeTwo(ten: Node, two: Node)
    requires ten.name == "episode-10" && two.name == "episode-2"
    ensures SortByName([two, ten]) == [ten, two]
  {
    assert ten.name == "episode-" + "10" && two.name == "episode-" + "2";
    LexLeCommonPrefix("episode-", "10", "2");
    LexLeCommonPrefix("episode-", "2", "10");
    assert LexLe("10", "2") && !LexLe("2", "10");
    assert SortByName([ten]) == Insert(ten, []) == [ten];
    assert [two, ten][1..] == [ten];
    assert Insert(two, [ten]) == [ten] + Insert(two, []) == [ten, two];
  }

  // ---------------------------------------------------------------------------
  // Test results and reward

  /**
   * One element of `results.tests`. The error message is Python's `None`
   * (here `None`) unless the status is `failed`; a failed test whose
   * `message` is JSON `null` also gets `None`.
   */
  function TestOf(m: map<string, Json>): TestData {
    var message := Get(m, "message", JString(""));
    TestData(
      Get(m, "name", JString("")),
      Get(m, "status", JString("unknown")),
      Get(m, "duration", JNumber(0.0)),
      if "status" in m && m["status"] == JString("failed") && message != JNull then Some(message) else None)
  }

  /** The tests of a ctrf document: every element of `results.tests` when all are objects, otherwise none. */
  function TestsOf(doc: Json): seq<TestData> {
    match doc
    case JObject(top) =>
      (match Get(top, "results", JObject(map[]))
       case JObject(results) =>
         (match Get(results, "tests", JArray([]))
          case JArray(items) =>
            if forall k :: 0 <= k < |items| ==> items[k].JObject? then
              seq(|items|, k requires 0 <= k < |items| => TestOf(items[k].fields))
            else []
          case _ => [])
       case _ => [])
    case _ => []
  }

  /**
   * `parse_test_results`: an error message only on failed tests, and never
   * JSON `null`, which reads as Python's `None`.
   */
  function ParseTestResults(trial: Node, codec: Codec): (r: seq<TestData>)
    ensures forall k :: 0 <= k < |r| ==> (r[k].errorMessage.Some? ==> r[k].status == JString("failed"))
    ensures forall k :: 0 <= k < |r| ==> r[k].errorMessage != Some(JNull)
  {
    match Resolve(trial, ["verifier", "ctrf.json"])
    case None => []
    case Some(f) =>
      match ReadText(f)
      case None => []
      case Some(text) =>
        match codec.loads(text)
        case None => []
        case Some(doc) => TestsOf(doc)
  }

  /** No ctrf file, an unreadable one, or one that is not JSON: no test results. */
  lemma TestResultsMissing(trial: Node, codec: Codec)
    requires Resolve(trial, ["verifier", "ctrf.json"]).None?
          || ReadText(Resolve(trial, ["verifier", "ctrf.json"]).value).None?
          || codec.loads(ReadText(Resolve(trial, ["verifier", "ctrf.json"]).value).value).None?
    ensures ParseTestResults(trial, codec) == []
  {
  }

  /** The ctrf document the trial holds, when there is one. */
  function CtrfDocument(trial: Node, codec: Codec): Option<Json> {
    match Resolve(trial, ["verifier", "ctrf.json"])
    case None => None
    case Some(f) =>
      match ReadText(f)
      case None => None
      case Some(text) => codec.loads(text)
  }

  /**
   * With a ctrf document whose `results.tests` is a list of objects, there
   * is one result per element, in order; a status passes through unchanged
   * and only an absent one reads `unknown`; name and duration default to ''
   * and 0. A test has an error message exactly when it failed and its
   * `message` is not `null`, and then it is that message, '' when absent.
   */
  lemma TestResultsFromCtrf(trial: Node, codec: Codec, top: map<string, Json>, results: map<string, Json>, items: seq<Json>)
    requires CtrfDocument(trial, codec) == Some(JObject(top))
    requires "results" in top && top["results"] == JObject(results)
    requires "tests" in results && results["tests"] == JArray(items)
    requires forall k :: 0 <= k < |items| ==> items[k].JObject?
    ensures var r := ParseTestResults(trial, codec);
      && |r| == |items|
      && forall k :: 0 <= k < |items| ==>
        && r[k].status == Get(items[k].fields, "status", JString("unknown"))
        && r[k].name == Get(items[k].fields, "name", JString(""))
        && r[k].duration == Get(items[k].fields, "duration", JNumber(0.0))
        && (r[k].errorMessage.Some? <==>
              r[k].status == JString("failed") && Get(items[k].fields, "message", JString("")) != JNull)
        && (r[k].errorMessage.Some? ==> r[k].errorMessage.value == Get(items[k].fields, "message", JString("")))
  {
  }

  /** One element of `results.tests` that is not an object discards the whole list. */
  lemma TestResultsAllOrNothing(trial: Node, codec: Codec, top: map<string, Json>, results: map<string, Json>, items: seq<Json>, bad: nat)
    requires CtrfDocument(trial, codec) == Some(JObject(top))
    requires "results" in top && top["results"] == JObject(results)
    requires "tests" in results && results["tests"] == JArray(items)
    requires bad < |items| && !items[bad].JObject?
    ensures ParseTestResults(trial, codec) == []
  {
  }

  /** `parse_reward`: the stripped text of `verifier/reward.txt` as a float, 0.0 when it is missing, unreadable or not a number. */
  function ParseReward(trial: Node, codec: Codec): real {
    match Resolve(trial, ["verifier", "reward.txt"])
    case None => 0.0
    case Some(f) =>
      match ReadText(f)
      case None => 0.0
      case Some(text) =>
        match codec.toFloat(Strip(text))
        case None => 0.0
        case Some(x) => x
  }

  /** A nonzero reward was read from the reward file; a missing, unreadable or non-numeric file gives 0.0. */
  lemma RewardReadOrZero(trial: Node, codec: Codec)
    ensures var r := ParseReward(trial, codec);
      var f := Resolve(trial, ["verifier", "reward.txt"]);
      && (r != 0.0 ==> f.Some? && ReadText(f.value).Some? && codec.toFloat(Strip(ReadText(f.value).value)) == Some(r))
      && (f.None? || ReadText(f.value).None? || codec.toFloat(Strip(ReadText(f.value).value)).None? ==> r == 0.0)
  {
  }

  // ---------------------------------------------------------------------------
  // execute_harbor

  /**
   * `execute_harbor`: start the runner (an abstract `runner` from the
   * invocation to how the process ended) and classify the outcome.
   */
  function ExecuteHarbor(bin: Binary, taskPath: string, model: string, outputDir: string, apiKey: string,
                         baseEnv: map<string, string>, runner: Invocation -> ProcessOutcome, codec: Codec): (r: HarborResult)
    ensures r.success ==> r.error.None? && r.outputPath.Some?
    ensures !r.success ==> IsFailureRecord(r)
    ensures r.success <==>
      var outcome := runner(HarborInvocation(bin, taskPath, model, outputDir, apiKey, baseEnv));
      && bin.present
      && outcome.Exited? && outcome.returnCode == 0
      && FindTrial(outputDir, outcome.outputDir).Ok?
      && FindTrial(outputDir, outcome.outputDir).value.Some?
      && Episodes(FindTrial(outputDir, outcome.outputDir).value.value, codec).Ok?
    ensures r.success ==>
      var outcome := runner(HarborInvocation(bin, taskPath, model, outputDir, apiKey, baseEnv));
      exists t: Trial :: && FindTrial(outputDir, outcome.outputDir) == Ok(Some(t))
                  && r.outputPath == Some(t.path)
                  && Episodes(t, codec) == Ok(r.episodes)
                  && r.testResults == ParseTestResults(t.dir, codec)
                  && r.reward == ParseReward(t.dir, codec)
  {
    if !bin.present then
      Failure("Harbor executable not found at " + bin.path + ". Set HARBOR_BIN env var or install Harbor in harbor-venv/")
    else
      match runner(HarborInvocation(bin, taskPath, model, outputDir, apiKey, baseEnv))
      case TimedOut => Failure(TIMEOUT_ERROR)
      case SpawnFailed(reason) => Failure(UNEXPECTED_PREFIX + reason)
      case Exited(code, stdout, stderr, tree) =>
        if code != 0 then Failure(ExitErrorMessage(code, stderr, stdout))
        else
          match FindTrial(outputDir, tree)
          case Err(f) => Failure(UNEXPECTED_PREFIX + FaultMessage(f))
          case Ok(None) => Failure(NO_TRIAL_ERROR)
          case Ok(Some(trial)) =>
            match Episodes(trial, codec)
            case Err(f) => Failure(UNEXPECTED_PREFIX + FaultMessage(f))
            case Ok(episodes) =>
              HarborResult(true, Some(trial.path), ParseReward(trial.dir, codec), episodes,
                           ParseTestResults(trial.dir, codec), None)
  }

  /** A run that outlives the timeout fails with the timeout message. */
  lemma TimeoutFails(bin: Binary, taskPath: string, model: string, outputDir: string, apiKey: string,
                     baseEnv: map<string, string>, runner: Invocation -> ProcessOutcome, codec: Codec)
    requires bin.present
    requires runner(HarborInvocation(bin, taskPath, model, outputDir, apiKey, baseEnv)).TimedOut?
    ensures ExecuteHarbor(bin, taskPath, model, outputDir, apiKey, baseEnv, runner, codec) == Failure(TIMEOUT_ERROR)
  {
  }

  /** A nonzero exit fails with the exit error, whatever the output directory holds. */
  lemma NonzeroExitFails(bin: Binary, taskPath: string, model: string, outputDir: string, apiKey: string,
                         baseEnv: map<string, string>, runner: Invocation -> ProcessOutcome, codec: Codec)
    requires bin.present
    requires var o := runner(HarborInvocation(bin, taskPath, model, outputDir, apiKey, baseEnv));
      o.Exited? && o.returnCode != 0
    ensures var o := runner(HarborInvocation(bin, taskPath, model, outputDir, apiKey, baseEnv));
      ExecuteHarbor(bin, taskPath, model, outputDir, apiKey, baseEnv, runner, codec)
        == Failure(ExitErrorMessage(o.returnCode, o.stderr, o.stdout))
  {
  }

  /**
   * An episode directory whose number is not an integer aborts the parse,
   * and the attempt fails with an "Unexpected error" naming the bad text.
   */
  lemma BadEpisodeNumberFails(bin: Binary, taskPath: string, model: string, outputDir: string, apiKey: string,
                              baseEnv: map<string, string>, runner: Invocation -> ProcessOutcome, codec: Codec,
                              trial: Trial)
    requires bin.present
    requires var o := runner(HarborInvocation(bin, taskPath, model, outputDir, apiKey, baseEnv));
      o.Exited? && o.returnCode == 0 && FindTrial(outputDir, o.outputDir) == Ok(Some(trial))
    requires Episodes(trial, codec).Err?
    ensures ExecuteHarbor(bin, taskPath, model, outputDir, apiKey, baseEnv, runner, codec)
      == Failure(UNEXPECTED_PREFIX + FaultMessage(Episodes(trial, codec).error))
  {
  }

  /** Without the Harbor executable nothing is started, and the attempt fails naming the path looked at. */
  lemma MissingBinaryFails(bin: Binary, taskPath: string, model: string, outputDir: string, apiKey: string,
                           baseEnv: map<string, string>, runner: Invocation -> ProcessOutcome, codec: Codec)
    requires !bin.present
    ensures ExecuteHarbor(bin, taskPath, model, outputDir, apiKey, baseEnv, runner, codec)
      == Failure("Harbor executable not found at " + bin.path
                 + ". Set HARBOR_BIN env var or install Harbor in harbor-venv/")
  {
  }

  /** A clean exit that leaves no trial directory fails with the no-trial message. */
  lemma NoTrialFails(bin: Binary, taskPath: string, model: string, outputDir: string, apiKey: string,
                     baseEnv: map<string, string>, runner: Invocation -> ProcessOutcome, codec: Codec)
    requires bin.present
    requires var o := runner(HarborInvocation(bin, taskPath, model, outputDir, apiKey, baseEnv));
      o.Exited? && o.returnCode == 0 && FindTrial(outputDir, o.outputDir) == Ok(None)
    ensures ExecuteHarbor(bin, taskPath, model, outputDir, apiKey, baseEnv, runner, codec) == Failure(NO_TRIAL_ERROR)
  {
  }
}
