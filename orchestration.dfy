/** The orchestration side of the control plane: the status of each configured repository, the
  * maintenance actions (bootstrap, smoke, update) with their trimmed output, the action-state file
  * that remembers the last run of each, and the summary the dashboard shows. Files, git and the
  * scripts are not run: what they report is passed in. */
module Orchestration {
  import opened Wrappers
  import opened Text
  import opened Json

  // ---------------------------------------------------------------- repository status

  /** What one git command reports, or the error text of an exception starting it. */
  datatype GitRun = Ran(returncode: int, stdout: string, stderr: string) | Raised(message: string)

  /** What the filesystem and the four git queries say about a repository path. */
  datatype RepoProbe =
    | Absent
    | NoGitDir
    | GitRepo(branch: GitRun, commit: GitRun, committedAt: GitRun, porcelain: GitRun)

  /** One git query: its trimmed stdout, or the error text it raises: stderr if non-empty, else
    * stdout if non-empty, else "git command failed", then trimmed (so a whitespace-only stderr
    * gives an empty error). */
  function GitOutput(run: GitRun): (r: Result<string, string>)
    ensures r.Success? <==> run.Ran? && run.returncode == 0
    ensures r.Success? ==> r.value == Strip(run.stdout)
    ensures run.Ran? ==> IsTrimmed(if r.Success? then r.value else r.error)
  {
    match run
    case Raised(message) => Failure(message)
    case Ran(returncode, stdout, stderr) =>
      if returncode != 0 then
        Failure(Strip(if stderr != [] then stderr else if stdout != [] then stdout else "git command failed"))
      else Success(Strip(stdout))
  }

  datatype GitDetails =
    | NoDetails
    | Details(branch: string, commit: string, committedAt: string, dirty: bool)
    | GitError(error: string)

  datatype RepoStatus = RepoStatus(present: bool, path: string, git: bool, details: GitDetails)

  /** A status that can come out of repo_status: git details only for a present git checkout. */
  predicate WellFormed(s: RepoStatus) {
    (!s.present ==> !s.git) && (!s.git ==> s.details.NoDetails?) && (s.git ==> !s.details.NoDetails?)
  }

  /** repo_status: absent, present without .git, or a git checkout with either its branch, commit,
    * commit time and dirtiness, or the error of the first git query that failed. */
  function RepoStatusOf(path: string, probe: RepoProbe): (s: RepoStatus)
    ensures WellFormed(s) && s.path == path
    ensures s.present <==> !probe.Absent?
    ensures s.git <==> probe.GitRepo?
  {
    match probe
    case Absent => RepoStatus(false, path, false, NoDetails)
    case NoGitDir => RepoStatus(true, path, false, NoDetails)
    case GitRepo(branch, commit, committedAt, porcelain) =>
      RepoStatus(true, path, true, GitDetailsOf(branch, commit, committedAt, porcelain))
  }

  /** The four queries in order; the first failure ends the sequence and its error is reported.
    * The checkout is dirty when `git status --porcelain` prints anything. */
  function GitDetailsOf(branch: GitRun, commit: GitRun, committedAt: GitRun, porcelain: GitRun): (d: GitDetails)
    ensures !d.NoDetails?
    ensures d.GitError? <==>
              GitOutput(branch).Failure? || GitOutput(commit).Failure? ||
              GitOutput(committedAt).Failure? || GitOutput(porcelain).Failure?
    ensures GitOutput(branch).Failure? ==> d == GitError(GitOutput(branch).error)
    ensures GitOutput(branch).Success? && GitOutput(commit).Failure? ==> d == GitError(GitOutput(commit).error)
    ensures GitOutput(branch).Success? && GitOutput(commit).Success? && GitOutput(committedAt).Failure? ==>
              d == GitError(GitOutput(committedAt).error)
    ensures (GitOutput(branch).Success? && GitOutput(commit).Success? && GitOutput(committedAt).Success? &&
             GitOutput(porcelain).Failure?) ==> d == GitError(GitOutput(porcelain).error)
    ensures d.Details? ==> d.branch == Strip(branch.stdout) && d.commit == Strip(commit.stdout)
    ensures d.Details? ==> d.committedAt == Strip(committedAt.stdout)
    ensures d.Details? ==> (d.dirty <==> Strip(porcelain.stdout) != [])
  {
    var b := GitOutput(branch);
    if b.Failure? then GitError(b.error)
    else
      var c := GitOutput(commit);
      if c.Failure? then GitError(c.error)
      else
        var t := GitOutput(committedAt);
        if t.Failure? then GitError(t.error)
        else
          var p := GitOutput(porcelain);
          if p.Failure? then GitError(p.error)
          else Details(b.value, c.value, t.value, p.value != [])
  }

  // ---------------------------------------------------------------- action output

  const OutputLimit := 12000
  const TruncationMarker := "\n... (truncated)"

  /** The stripped stdout and stderr, joined by one newline, empty parts left out. */
  function CombineOutput(stdout: string, stderr: string): (combined: string)
    ensures Strip(stdout) == [] ==> combined == Strip(stderr)
    ensures Strip(stderr) == [] ==> combined == Strip(stdout)
    ensures Strip(stdout) != [] && Strip(stderr) != [] ==> combined == Strip(stdout) + "\n" + Strip(stderr)
  {
    var out, err := Strip(stdout), Strip(stderr);
    if out != [] && err != [] then out + "\n" + err
    else if out != [] then out
    else err
  }

  /** The combined output never starts or ends in whitespace. */
  lemma CombinedIsTrimmed(stdout: string, stderr: string)
    ensures IsTrimmed(CombineOutput(stdout, stderr))
  {
    var out, err := Strip(stdout), Strip(stderr);
    if out != [] && err != [] {
      var c := out + "\n" + err;
      assert c[0] == out[0];
      assert c[|c| - 1] == err[|err| - 1];
    }
  }

  /** The output kept for an action: the combined text, cut at the limit and marked when longer. */
  function TrimOutputWithin(stdout: string, stderr: string, limitChars: nat): (r: string)
    ensures |CombineOutput(stdout, stderr)| <= limitChars ==> r == CombineOutput(stdout, stderr)
    ensures |CombineOutput(stdout, stderr)| > limitChars ==>
              r == CombineOutput(stdout, stderr)[..limitChars] + TruncationMarker
  {
    var combined := CombineOutput(stdout, stderr);
    if |combined| <= limitChars then combined else combined[..limitChars] + TruncationMarker
  }

  function TrimOutput(stdout: string, stderr: string): (r: string) {
    TrimOutputWithin(stdout, stderr, OutputLimit)
  }

  /** Whatever the scripts print, the stored output is at most the limit plus the marker, and it
    * starts with the combined output's first characters. */
  lemma TrimOutputBounds(stdout: string, stderr: string)
    ensures var combined, r := CombineOutput(stdout, stderr), TrimOutput(stdout, stderr);
            |r| <= OutputLimit + |TruncationMarker| &&
            (|combined| > OutputLimit ==> |r| == OutputLimit + |TruncationMarker|) &&
            (|combined| > OutputLimit ==> r[..OutputLimit] == combined[..OutputLimit]) &&
            (|combined| <= OutputLimit ==> r == combined)
  {
    var combined, r := CombineOutput(stdout, stderr), TrimOutput(stdout, stderr);
    if |combined| > OutputLimit {
      assert r == combined[..OutputLimit] + TruncationMarker;
      assert r[..OutputLimit] == combined[..OutputLimit];
    }
  }

  // ---------------------------------------------------------------- action results and state

  /** How running the script went: it was not there, it finished, or it overran its timeout. */
  datatype ScriptRun = MissingScript | Completed(returncode: int, stdout: string, stderr: string) | TimedOut(detail: string)

  datatype ActionResult = ActionResult(
    action: string,
    ok: bool,
    startedAt: string,
    finishedAt: string,
    exitCode: int,
    command: seq<string>,
    output: string)

  /** The command an action runs: bash, the script, and the workspace directory. */
  function ActionCommand(script: string, baseDir: string): seq<string> {
    ["bash", script, baseDir]
  }

  /** The result of one action run: exit code 127 and no output but the missing path when the
    * script is absent, 124 and the timeout when it overran, else its own exit code and output,
    * successful exactly when that code is 0. */
  function SynthesizeResult(action: string, script: string, baseDir: string, timeoutSeconds: int,
                            run: ScriptRun, startedAt: string, finishedAt: string): (r: ActionResult)
    ensures r.action == action && r.startedAt == startedAt && r.finishedAt == finishedAt
    ensures r.command == ActionCommand(script, baseDir)
    ensures r.ok <==> run.Completed? && run.returncode == 0
    ensures run.MissingScript? ==> r.exitCode == 127 && r.output == "missing script: " + script
    ensures run.TimedOut? ==> r.exitCode == 124
    ensures run.TimedOut? ==> r.output == "action timed out after " + IntToString(timeoutSeconds) + "s: " + run.detail
    ensures run.Completed? ==> r.exitCode == run.returncode && r.output == TrimOutput(run.stdout, run.stderr)
  {
    var command := ActionCommand(script, baseDir);
    match run
    case MissingScript =>
      ActionResult(action, false, startedAt, finishedAt, 127, command, "missing script: " + script)
    case Completed(returncode, stdout, stderr) =>
      ActionResult(action, returncode == 0, startedAt, finishedAt, returncode, command, TrimOutput(stdout, stderr))
    case TimedOut(detail) =>
      ActionResult(action, false, startedAt, finishedAt, 124,
                   command, "action timed out after " + IntToString(timeoutSeconds) + "s: " + detail)
  }

  /** A run that is reported successful really exited with code 0; the two synthetic codes never
    * come out of a successful run. */
  lemma OkMeansExitZero(action: string, script: string, baseDir: string, timeoutSeconds: int,
                        run: ScriptRun, startedAt: string, finishedAt: string)
    ensures var r := SynthesizeResult(action, script, baseDir, timeoutSeconds, run, startedAt, finishedAt);
            r.ok <==> r.exitCode == 0 && run.Completed?
  {
  }

  /** The result as it is stored and returned. */
  function ResultJson(r: ActionResult): (j: Json)
    ensures j.JObject? && j.fields.Keys == {"action", "ok", "started_at", "finished_at", "exit_code", "command", "output"}
  {
    JObject(map[
      "action" := JStr(r.action),
      "ok" := JBool(r.ok),
      "started_at" := JStr(r.startedAt),
      "finished_at" := JStr(r.finishedAt),
      "exit_code" := JInt(r.exitCode),
      "command" := JArray(seq(|r.command|, i requires 0 <= i < |r.command| => JStr(r.command[i]))),
      "output" := JStr(r.output)])
  }

  /** The action-state file: missing or unreadable, not JSON, or the JSON value it holds. */
  datatype StateFile = NoStateFile | Corrupt | Stored(payload: Json)

  const ActionNames: set<string> := {"bootstrap", "smoke", "update"}

  /** The last result of each action: exactly the three action names, each with the stored entry
    * or null; entries under other names are dropped. */
  function LoadActionState(file: StateFile): (state: map<string, Json>)
    ensures state.Keys == ActionNames
    ensures !(file.Stored? && file.payload.JObject?) ==> forall k :: k in state ==> state[k] == JNull
    ensures file.Stored? && file.payload.JObject? ==> forall k :: k in state ==> state[k] == Get(file.payload.fields, k)
  {
    var fields := if file.Stored? && file.payload.JObject? then file.payload.fields else map[];
    map["bootstrap" := Get(fields, "bootstrap"), "smoke" := Get(fields, "smoke"), "update" := Get(fields, "update")]
  }

  /** What saving a state writes into the file. */
  function Saved(state: map<string, Json>): StateFile {
    Stored(JObject(state))
  }

  /** Storing an action's result and reading the file back changes that action's entry only. */
  lemma SaveThenLoad(file: StateFile, action: string, entry: Json)
    requires action in ActionNames
    ensures LoadActionState(Saved(LoadActionState(file)[action := entry])) == LoadActionState(file)[action := entry]
  {
    var updated := LoadActionState(file)[action := entry];
    var reloaded := LoadActionState(Saved(updated));
    assert reloaded.Keys == updated.Keys;
    forall k | k in reloaded ensures reloaded[k] == updated[k] {
      assert Get(updated, k) == updated[k];
    }
  }

  /** An action outside the three names is written but never read back. */
  lemma SaveUnknownActionIsLost(file: StateFile, action: string, entry: Json)
    requires action !in ActionNames
    ensures LoadActionState(Saved(LoadActionState(file)[action := entry])) == LoadActionState(file)
  {
    var state := LoadActionState(file);
    var reloaded := LoadActionState(Saved(state[action := entry]));
    forall k | k in reloaded ensures reloaded[k] == state[k] {
      assert k != action;
    }
  }

  /** The action-state file with its read-modify-write: each run loads the state, replaces its own
    * entry and saves the whole state again. */
  class ActionStore {
    var file: StateFile

    constructor (initial: StateFile)
      ensures file == initial
    {
      file := initial;
    }

    /** The last result of each action as the next reader sees it. */
    function LastActions(): (state: map<string, Json>)
      reads this
      ensures state.Keys == ActionNames
    {
      LoadActionState(file)
    }

    /** run_action: runs (here: is told how) the script went, stores the result under the action's
      * name and returns it. The entries of the other actions keep their loaded values. */
    method RunAction(action: string, script: string, baseDir: string, timeoutSeconds: int,
                     run: ScriptRun, startedAt: string, finishedAt: string) returns (result: ActionResult)
      modifies this
      ensures result == SynthesizeResult(action, script, baseDir, timeoutSeconds, run, startedAt, finishedAt)
      ensures file == Saved(LoadActionState(old(file))[action := ResultJson(result)])
      ensures action in ActionNames ==> LastActions() == old(LastActions())[action := ResultJson(result)]
    {
      result := SynthesizeResult(action, script, baseDir, timeoutSeconds, run, startedAt, finishedAt);
      var state := LoadActionState(file);
      state := state[action := ResultJson(result)];
      file := Saved(state);
      if action in ActionNames {
        SaveThenLoad(old(file), action, ResultJson(result));
      }
    }
  }

  // ---------------------------------------------------------------- projects

  datatype Project = Project(
    name: string,
    role: string,
    repo: string,
    verificationKey: string,
    dashboard: map<string, Json>,
    capabilities: map<string, Json>,
    localPath: string,
    status: RepoStatus)

  /** workspace_root / name: a name that is an absolute path replaces the root. */
  function JoinPath(root: string, name: string): (p: string)
    ensures StartsWith(name, "/") ==> p == name
    ensures !StartsWith(name, "/") ==> p == root + "/" + name
  {
    if StartsWith(name, "/") then name else root + "/" + name
  }

  /** The name of a project entry: str(entry.get("name") or "").strip(). */
  function EntryName(fields: map<string, Json>): (name: string)
    ensures IsTrimmed(name)
    ensures !Truthy(Get(fields, "name")) ==> name == []
    ensures Truthy(Get(fields, "name")) ==> name == Strip(Str(Get(fields, "name")))
    ensures Get(fields, "name").JStr? ==> name == Strip(Get(fields, "name").s)
  {
    Strip(StrOr(Get(fields, "name"), ""))
  }

  /** The repository path of an entry: its own local_path when that is non-blank text, else the
    * workspace root joined with the name. */
  function EntryPath(fields: map<string, Json>, root: string, name: string): (path: string)
    ensures Get(fields, "local_path").JStr? && Strip(Get(fields, "local_path").s) != [] ==>
              path == Get(fields, "local_path").s
    ensures !(Get(fields, "local_path").JStr? && Strip(Get(fields, "local_path").s) != []) ==>
              path == JoinPath(root, name)
  {
    var raw := Get(fields, "local_path");
    if raw.JStr? && Strip(raw.s) != [] then raw.s else JoinPath(root, name)
  }

  /** One configured entry: skipped when it is not a mapping or its name is blank. */
  function ProjectOf(entry: Json, root: string, probe: string -> RepoProbe): (p: Option<Project>)
    ensures p.Some? <==> entry.JObject? && EntryName(entry.fields) != []
    ensures p.Some? ==> p.value.name == EntryName(entry.fields) && p.value.name != []
    ensures p.Some? ==> p.value.localPath == EntryPath(entry.fields, root, p.value.name)
    ensures p.Some? ==> p.value.status == RepoStatusOf(p.value.localPath, probe(p.value.localPath))
    ensures p.Some? ==> p.value.role == StrOr(Get(entry.fields, "role"), "")
    ensures p.Some? ==> p.value.repo == StrOr(Get(entry.fields, "repo"), "")
    ensures p.Some? ==> p.value.verificationKey == StrOr(Get(entry.fields, "verification_key"), "")
    ensures p.Some? ==> p.value.dashboard == ObjectOr(Get(entry.fields, "dashboard"))
    ensures p.Some? ==> p.value.capabilities == ObjectOr(Get(entry.fields, "capabilities"))
  {
    if !entry.JObject? then None
    else
      var fields := entry.fields;
      var name := EntryName(fields);
      if name == [] then None
      else
        var path := EntryPath(fields, root, name);
        Some(Project(
          name,
          StrOr(Get(fields, "role"), ""),
          StrOr(Get(fields, "repo"), ""),
          StrOr(Get(fields, "verification_key"), ""),
          ObjectOr(Get(fields, "dashboard")),
          ObjectOr(Get(fields, "capabilities")),
          path,
          RepoStatusOf(path, probe(path))))
  }

  /** The projects of a list of entries, in order. */
  function Projects(entries: seq<Json>, root: string, probe: string -> RepoProbe): (ps: seq<Project>)
    ensures |ps| <= |entries|
    ensures forall k :: 0 <= k < |ps| ==> ps[k].name != [] && IsTrimmed(ps[k].name) && WellFormed(ps[k].status)
  {
    if |entries| == 0 then []
    else
      var init := Projects(entries[..|entries| - 1], root, probe);
      match ProjectOf(entries[|entries| - 1], root, probe)
      case Some(p) => init + [p]
      case None => init
  }

  /** The projects of two lists in a row are those of the first, then those of the second. */
  lemma {:induction false} ProjectsAppend(first: seq<Json>, second: seq<Json>, root: string, probe: string -> RepoProbe)
    ensures Projects(first + second, root, probe) == Projects(first, root, probe) + Projects(second, root, probe)
    decreases |second|
  {
    if |second| > 0 {
      var init := second[..|second| - 1];
      assert (first + second)[..|first + second| - 1] == first + init;
      assert (first + second)[|first + second| - 1] == second[|second| - 1];
      ProjectsAppend(first, init, root, probe);
    } else {
      assert first + second == first;
    }
  }

  /** An entry that is not a mapping, or that has a blank name, contributes nothing. */
  lemma SkippedEntry(entries: seq<Json>, entry: Json, root: string, probe: string -> RepoProbe)
    requires !entry.JObject? || EntryName(entry.fields) == []
    ensures Projects(entries + [entry], root, probe) == Projects(entries, root, probe)
  {
    assert (entries + [entry])[..|entries|] == entries;
  }

  /** One more entry adds its project, if it has one. */
  lemma ProjectsStep(entries: seq<Json>, i: nat, root: string, probe: string -> RepoProbe, project: Option<Project>)
    requires i < |entries| && project == ProjectOf(entries[i], root, probe)
    ensures project.Some? ==> Projects(entries[..i + 1], root, probe) == Projects(entries[..i], root, probe) + [project.value]
    ensures project.None? ==> Projects(entries[..i + 1], root, probe) == Projects(entries[..i], root, probe)
  {
    assert entries[..i + 1][..i] == entries[..i];
  }

  /** The project list of the configuration: the `projects` list of the YAML mapping, or nothing
    * when the file is missing, is not a mapping or has no list there. */
  function ConfiguredEntries(config: Option<Json>): (entries: seq<Json>)
    ensures config.None? ==> entries == []
    ensures config.Some? && Get(ObjectOr(config.value), "projects").JArray? ==>
              entries == Get(ObjectOr(config.value), "projects").items
    ensures !(config.Some? && Get(ObjectOr(config.value), "projects").JArray?) ==> entries == []
  {
    if config.None? then []
    else
      var raw := Get(ObjectOr(config.value), "projects");
      if raw.JArray? then raw.items else []
  }

  /** build_projects_summary: one project per usable entry, in the order of the configuration. */
  method BuildProjectsSummary(config: Option<Json>, root: string, probe: string -> RepoProbe)
    returns (output: seq<Project>)
    ensures output == Projects(ConfiguredEntries(config), root, probe)
  {
    var entries := ConfiguredEntries(config);
    output := [];
    var i := 0;
    while i < |entries|
      invariant 0 <= i <= |entries|
      invariant output == Projects(entries[..i], root, probe)
    {
      var project := ProjectOf(entries[i], root, probe);
      ProjectsStep(entries, i, root, probe, project);
      if project.Some? {
        output := output + [project.value];
      }
      i := i + 1;
    }
    assert entries[..i] == entries;
  }

  // ---------------------------------------------------------------- summary

  predicate IsDirty(p: Project) {
    p.status.details.Details? && p.status.details.dirty
  }

  predicate IsMissing(p: Project) {
    !p.status.present
  }

  /** The names of the dirty projects, in order. */
  function DirtyNames(ps: seq<Project>): (names: seq<string>)
    ensures |names| <= |ps|
    ensures forall x :: x in names <==> exists k :: 0 <= k < |ps| && IsDirty(ps[k]) && ps[k].name == x
  {
    if |ps| == 0 then [] else (if IsDirty(ps[0]) then [ps[0].name] else []) + DirtyNames(ps[1..])
  }

  /** The names of the missing projects, in order. */
  function MissingNames(ps: seq<Project>): (names: seq<string>)
    ensures |names| <= |ps|
    ensures forall x :: x in names <==> exists k :: 0 <= k < |ps| && IsMissing(ps[k]) && ps[k].name == x
  {
    if |ps| == 0 then [] else (if IsMissing(ps[0]) then [ps[0].name] else []) + MissingNames(ps[1..])
  }

  /** The dirty names of two lists in a row are those of the first, then those of the second; with
    * the one-project case this fixes the list's order to the projects' order. */
  lemma {:induction false} NamesAppend(first: seq<Project>, second: seq<Project>)
    ensures DirtyNames(first + second) == DirtyNames(first) + DirtyNames(second)
    ensures MissingNames(first + second) == MissingNames(first) + MissingNames(second)
    ensures |first| == 1 ==> DirtyNames(first) == (if IsDirty(first[0]) then [first[0].name] else [])
    ensures |first| == 1 ==> MissingNames(first) == (if IsMissing(first[0]) then [first[0].name] else [])
  {
    if |first| > 0 {
      assert (first + second)[1..] == first[1..] + second;
      NamesAppend(first[1..], second);
    } else {
      assert first + second == second;
    }
  }

  datatype Summary = Summary(
    projects: seq<Project>,
    projectCount: nat,
    dirtyRepoCount: nat,
    dirtyRepos: seq<string>,
    missingRepoCount: nat,
    missingRepos: seq<string>,
    lastActions: map<string, Json>,
    commands: map<string, seq<string>>)

  /** The scripts of the three actions. */
  datatype Scripts = Scripts(bootstrap: string, smoke: string, update: string) {
    /** The script of a named action. */
    function Of(action: string): string {
      if action == "bootstrap" then bootstrap else if action == "smoke" then smoke else update
    }
  }

  /** build_orchestration_summary over the projects already built and the state file. */
  function OrchestrationSummary(projects: seq<Project>, stateFile: StateFile, scripts: Scripts, root: string): (s: Summary)
    ensures s.projectCount == |s.projects| && s.dirtyRepoCount == |s.dirtyRepos| && s.missingRepoCount == |s.missingRepos|
    ensures s.lastActions.Keys == ActionNames && s.commands.Keys == ActionNames
    ensures s.projects == projects && s.lastActions == LoadActionState(stateFile)
    ensures s.dirtyRepos == DirtyNames(projects) && s.missingRepos == MissingNames(projects)
    ensures forall x :: x in s.dirtyRepos <==> exists k :: 0 <= k < |projects| && IsDirty(projects[k]) && projects[k].name == x
    ensures forall x :: x in s.missingRepos <==> exists k :: 0 <= k < |projects| && IsMissing(projects[k]) && projects[k].name == x
    ensures forall action :: action in ActionNames ==> s.commands[action] == ActionCommand(scripts.Of(action), root)
  {
    Summary(
      projects, |projects|,
      |DirtyNames(projects)|, DirtyNames(projects),
      |MissingNames(projects)|, MissingNames(projects),
      LoadActionState(stateFile),
      map["bootstrap" := ActionCommand(scripts.bootstrap, root),
          "smoke" := ActionCommand(scripts.smoke, root),
          "update" := ActionCommand(scripts.update, root)])
  }

  /** No repository is counted both dirty and missing, so the two counts never exceed the number
    * of projects together. */
  lemma {:induction false} DirtyAndMissingDisjoint(ps: seq<Project>)
    requires forall k :: 0 <= k < |ps| ==> WellFormed(ps[k].status)
    ensures |DirtyNames(ps)| + |MissingNames(ps)| <= |ps|
  {
    if |ps| > 0 {
      assert !(IsDirty(ps[0]) && IsMissing(ps[0]));
      DirtyAndMissingDisjoint(ps[1..]);
    }
  }

  /** No repository is missing exactly when every configured repository path exists. */
  lemma {:induction false} NoMissingMeansAllPresent(ps: seq<Project>)
    ensures MissingNames(ps) == [] <==> forall k :: 0 <= k < |ps| ==> ps[k].status.present
  {
    if |ps| > 0 {
      NoMissingMeansAllPresent(ps[1..]);
      assert forall k :: 1 <= k < |ps| ==> ps[k] == ps[1..][k - 1];
    }
  }

  /** For each of the three actions, the summary's command is exactly the command a run of that
    * action records. */
  lemma CommandsMatchRuns(projects: seq<Project>, stateFile: StateFile, scripts: Scripts, root: string,
                          timeoutSeconds: int, run: ScriptRun, startedAt: string, finishedAt: string)
    ensures forall action :: action in ActionNames ==>
              OrchestrationSummary(projects, stateFile, scripts, root).commands[action] ==
                SynthesizeResult(action, scripts.Of(action), root, timeoutSeconds, run, startedAt, finishedAt).command
  {
  }
}
