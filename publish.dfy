/** The two publishing glob hooks of pipedput/hooks.py:
    PublishToPythonRepository uploads every matched source distribution that
    holds an `.egg-info` member with `twine`, and PublishToDebRepository
    uploads every matched `.changes` file with `dput`. Each checks its
    configuration (only warning at construction, raising before an upload),
    builds its command line, and maps the upload's result to exactly one
    outcome. */
module Publish {
  import opened Common
  import opened Gitlab
  import Constraints
  import Utils
  import opened Hooks

  const PYTHON_DEFAULT_NAME: string := "python repository"
  const PYTHON_GLOB_PATTERN: string := "**/*.tar.gz"
  /** `PublishToPythonRepository.TWINE_ARGS` */
  const TWINE_ARGS: seq<string> := []

  const DEB_DEFAULT_NAME: string := "deb repository"
  const DEB_GLOB_PATTERN: string := "**/*.changes"
  /** `PublishToDebRepository.DPUT_ARGS` */
  const DPUT_ARGS: seq<string> := ["--unchecked"]

  /** The outcome of one upload: a finished command gives one success for
      the asset; a non-zero exit gives one failure for the asset carrying the
      exception (and, when `keepStderr`, the command's stderr as `error`);
      any other exception is not caught here. */
  function UploadOutcome(info: HookInfo, asset: string, r: RunOutcome, keepStderr: bool): (s: Stream)
    ensures r.RunRaised? ==> s == Raise(r.error)
    ensures !r.RunRaised? ==>
      && s.raised.None? && |s.items| == 1
      && s.items[0].targetName == info.name && s.items[0].asset == Some(asset)
      && (s.items[0].wasSuccessful <==> r.Completed?)
    ensures r.Completed? ==>
      s.items[0].exc.None? && s.items[0].error.None? && s.items[0].notify == info.notifyOnSuccess
    ensures r.CalledProcessError? ==>
      && s.items[0].exc == Some(ProcessFailed(r.returnCode, r.output, r.stderr))
      && s.items[0].error == (if keepStderr then r.stderr else None)
      && s.items[0].notify
  {
    match r
    case Completed(_) => Stream([Success(info, Some(asset), None, None, None)], None)
    case CalledProcessError(code, out, err) =>
      Stream([Failure(info, Some(asset), Some(ProcessFailed(code, out, err)),
                      if keepStderr then err else None, None)], None)
    case RunRaised(x) => Raise(x)
  }

  /** `list(args) if args is not None else []` */
  function CallerArgs(args: Option<seq<string>>): seq<string> {
    match args case Some(a) => a case None => []
  }

  /** `_twine` / `_dput` followed by the outcome mapping: the prerequisites
      are checked first (raising ConfigurationError with the first violated
      one's message), then the command runs and its result gives the
      outcome. At most one outcome, and only for this asset. */
  function CheckedUpload(reqs: seq<Utils.Requirement>, info: HookInfo, asset: string,
                         r: RunOutcome, keepStderr: bool): (s: Stream)
    ensures |s.items| <= 1
    ensures forall d :: d in s.items ==> d.asset == Some(asset) && d.targetName == info.name
    ensures Utils.Violations(reqs) != [] ==> s == Raise(ConfigurationError(Utils.Violations(reqs)[0]))
    ensures Utils.Violations(reqs) == [] ==> s == UploadOutcome(info, asset, r, keepStderr)
  {
    Utils.EnforceAllOutcome(reqs);
    match Utils.EnforceAll(reqs, false)
    case Err(x) => Raise(x)
    case Ok(_) => UploadOutcome(info, asset, r, keepStderr)
  }

  // ---------------------------------------------------------------------
  // PublishToPythonRepository

  /** The hook's own constructor arguments. */
  datatype PythonConfig = PythonConfig(pypircPath: Option<string>, repository: Option<string>,
                                       publishToGitlab: bool)

  /** `DISTRIBUTABLE_PATTERN.search(name)` for `\.egg-info$`: `$` also
      matches just before a final newline. */
  predicate IsDistributableMarker(name: string) {
    EndsWith(name, ".egg-info") || EndsWith(name, ".egg-info\n")
  }

  /** Some member of the archive is an `.egg-info` entry. */
  predicate HasDistributable(members: seq<string>) {
    exists i :: 0 <= i < |members| && IsDistributableMarker(members[i])
  }

  /** `_is_python_distributable` over the member names of the opened
      archive: scan in order, answer True at the first marker. */
  method IsPythonDistributable(members: seq<string>) returns (b: bool)
    ensures b <==> HasDistributable(members)
  {
    var i := 0;
    while i < |members|
      invariant 0 <= i <= |members|
      invariant forall j :: 0 <= j < i ==> !IsDistributableMarker(members[j])
    {
      if IsDistributableMarker(members[i]) {
        return true;
      }
      i := i + 1;
    }
    return false;
  }

  /** A source distribution's metadata directory is a marker; a file inside
      it or a name merely containing ".egg-info" is not. */
  lemma DistributableMarkers()
    ensures IsDistributableMarker("pipedput-1.0/pipedput.egg-info")
    ensures IsDistributableMarker("pkg.egg-info\n")
    ensures !IsDistributableMarker("pipedput-1.0/pipedput.egg-info/PKG-INFO")
    ensures !HasDistributable(["pipedput-1.0/setup.py", "pipedput-1.0/README"])
  {
    var m := "pipedput-1.0/pipedput.egg-info";
    assert m[|m| - |".egg-info"|..] == ".egg-info";
    var n := "pkg.egg-info\n";
    assert n[|n| - |".egg-info\n"|..] == ".egg-info\n";
    var f := "pipedput-1.0/pipedput.egg-info/PKG-INFO";
    assert f[|f| - 1] == 'O';
    assert f[|f| - 1] != (".egg-info\n")[9];
  }

  /** `re.match(r"^https?://", repository)` */
  predicate IsHttpUrl(s: string) {
    StartsWith(s, "http://") || StartsWith(s, "https://")
  }

  /** The repository options of `_twine`: an explicit repository URL wins;
      otherwise a configured repository that is an http(s) URL is passed as
      a URL, any other as a repository name. */
  function RepositoryArgs(repositoryUrl: Option<string>, repository: Option<string>): seq<string> {
    match repositoryUrl
    case Some(u) => ["--repository-url", u]
    case None =>
      (match repository
       case None => []
       case Some(r) => if IsHttpUrl(r) then ["--repository-url", r] else ["--repository", r])
  }

  function ConfigFileArgs(cfg: PythonConfig): seq<string> {
    match cfg.pypircPath case Some(p) => ["--config-file", p] case None => []
  }

  /** The options `_twine` passes: the caller's, the class's, the pypirc
      file, the repository. */
  function TwineOptions(twineArgs: Option<seq<string>>, cfg: PythonConfig,
                        repositoryUrl: Option<string>): seq<string>
  {
    CallerArgs(twineArgs) + TWINE_ARGS + ConfigFileArgs(cfg) + RepositoryArgs(repositoryUrl, cfg.repository)
  }

  /** The command line `_twine` runs. */
  function TwineCommand(distPath: string, twineArgs: Option<seq<string>>, cfg: PythonConfig,
                        repositoryUrl: Option<string>): seq<string>
  {
    ["twine", "upload"] + TwineOptions(twineArgs, cfg, repositoryUrl) + [distPath]
  }

  /** `_twine` growing its argument list with `extend`, step by step. */
  method BuildTwineCommand(distPath: string, twineArgs: Option<seq<string>>, cfg: PythonConfig,
                           repositoryUrl: Option<string>) returns (cmd: seq<string>)
    ensures cmd == TwineCommand(distPath, twineArgs, cfg, repositoryUrl)
  {
    var args := if twineArgs.Some? then twineArgs.value else [];
    if TWINE_ARGS != [] {
      args := args + TWINE_ARGS;
    }
    assert args == CallerArgs(twineArgs) + TWINE_ARGS;
    if cfg.pypircPath.Some? {
      args := args + ["--config-file", cfg.pypircPath.value];
    }
    assert args == CallerArgs(twineArgs) + TWINE_ARGS + ConfigFileArgs(cfg);
    ghost var before := args;
    if repositoryUrl.Some? {
      args := args + ["--repository-url", repositoryUrl.value];
    } else if cfg.repository.Some? {
      if IsHttpUrl(cfg.repository.value) {
        args := args + ["--repository-url", cfg.repository.value];
      } else {
        args := args + ["--repository", cfg.repository.value];
      }
    }
    assert args == before + RepositoryArgs(repositoryUrl, cfg.repository);
    assert args == TwineOptions(twineArgs, cfg, repositoryUrl);
    cmd := ["twine", "upload"] + args + [distPath];
  }

  /** The layout of the twine command: `twine upload`, the caller's
      arguments, the pypirc option when configured, then the repository
      option, the distribution last. An explicit repository URL wins over the
      configured repository, which is passed with `--repository-url` exactly
      when it is an http(s) URL. */
  lemma TwineCommandLayout(distPath: string, twineArgs: Option<seq<string>>, cfg: PythonConfig,
                           repositoryUrl: Option<string>)
    ensures var cmd := TwineCommand(distPath, twineArgs, cfg, repositoryUrl);
      var a := CallerArgs(twineArgs);
      && |cmd| == 3 + |a| + |ConfigFileArgs(cfg)| + |RepositoryArgs(repositoryUrl, cfg.repository)|
      && cmd[..2] == ["twine", "upload"]
      && cmd[2..2 + |a|] == a
      && cmd[|cmd| - 1] == distPath
      && (cfg.pypircPath.Some? ==> cmd[2 + |a|..4 + |a|] == ["--config-file", cfg.pypircPath.value])
      && (repositoryUrl.Some? ==> cmd[|cmd| - 3..] == ["--repository-url", repositoryUrl.value, distPath])
      && (repositoryUrl.None? && cfg.repository.Some? && IsHttpUrl(cfg.repository.value) ==>
            cmd[|cmd| - 3..] == ["--repository-url", cfg.repository.value, distPath])
      && (repositoryUrl.None? && cfg.repository.Some? && !IsHttpUrl(cfg.repository.value) ==>
            cmd[|cmd| - 3..] == ["--repository", cfg.repository.value, distPath])
      && (repositoryUrl.None? && cfg.repository.None? ==> |cmd| == 3 + |a| + |ConfigFileArgs(cfg)|)
  {
    var a := CallerArgs(twineArgs);
    assert TwineOptions(twineArgs, cfg, repositoryUrl) == a + ConfigFileArgs(cfg) + RepositoryArgs(repositoryUrl, cfg.repository);
    ConcatLayout(["twine", "upload"], a, ConfigFileArgs(cfg), RepositoryArgs(repositoryUrl, cfg.repository), distPath);
  }

  /** Where the parts of `h + a + c + r + [d]` sit. */
  lemma ConcatLayout<T>(h: seq<T>, a: seq<T>, c: seq<T>, r: seq<T>, d: T)
    ensures var x := h + (a + c + r) + [d];
      && |x| == |h| + |a| + |c| + |r| + 1
      && x[..|h|] == h
      && x[|h|..|h| + |a|] == a
      && x[|h| + |a|..|h| + |a| + |c|] == c
      && x[|x| - |r| - 1..] == r + [d]
      && x[|x| - 1] == d
  {
    var x := h + (a + c + r) + [d];
    assert x == h + (a + (c + (r + [d])));
    assert x[..|h|] == h;
    assert x[|h|..|h| + |a|] == a;
    assert x[|h| + |a|..|h| + |a| + |c|] == c;
    assert x == (h + a + c) + (r + [d]);
  }

  /** `_handle_artifact` with publish_to_gitlab: the GitLab project's PyPI
      endpoint. */
  function GitlabPypiUrl(e: Event): (u: string)
    ensures StartsWith(u, Utils.ApiBaseUrl(e.webUrl) + "/projects/")
    ensures EndsWith(u, "/packages/pypi")
  {
    var p := Utils.ApiBaseUrl(e.webUrl) + "/projects/";
    var u := p + IntToString(e.projectId) + "/packages/pypi";
    assert u[..|p|] == p;
    assert u[|u| - |"/packages/pypi"|..] == "/packages/pypi";
    u
  }

  /** The GitLab PyPI endpoint of a project: the API base, `/projects/`,
      the project id, then `/packages/pypi`. */
  lemma GitlabPypiUrlSegments(e: Event)
    ensures var u := GitlabPypiUrl(e);
      var p := Utils.ApiBaseUrl(e.webUrl) + "/projects/";
      var i := IntToString(e.projectId);
      && StartsWith(u, p)
      && |u| == |p| + |i| + 14
      && u[|p|..|p| + |i|] == i
      && EndsWith(u, "/packages/pypi")
  {
    var u := GitlabPypiUrl(e);
    var p := Utils.ApiBaseUrl(e.webUrl) + "/projects/";
    var i := IntToString(e.projectId);
    assert u == p + i + "/packages/pypi";
    assert u[|p|..|p| + |i|] == i;
  }

  /** Under one GitLab instance, projects with different ids publish to
      different endpoints. */
  lemma GitlabPypiUrlDeterminesProject(e1: Event, e2: Event)
    requires e1.webUrl == e2.webUrl
    ensures GitlabPypiUrl(e1) == GitlabPypiUrl(e2) <==> e1.projectId == e2.projectId
  {
    var p := Utils.ApiBaseUrl(e1.webUrl) + "/projects/";
    var i1, i2 := IntToString(e1.projectId), IntToString(e2.projectId);
    var u1, u2 := GitlabPypiUrl(e1), GitlabPypiUrl(e2);
    assert u1 == p + i1 + "/packages/pypi";
    assert u2 == p + i2 + "/packages/pypi";
    if u1 == u2 {
      assert i1 == u1[|p|..|u1| - 14];
      assert i2 == u2[|p|..|u2| - 14];
      IntToStringInjective(e1.projectId, e2.projectId);
    }
  }

  function PythonRepositoryUrl(cfg: PythonConfig, e: Event): Option<string> {
    if cfg.publishToGitlab then Some(GitlabPypiUrl(e)) else None
  }

  /** `check_prerequisites` of the Python hook. */
  function PythonRequirements(cfg: PythonConfig, w: World): seq<Utils.Requirement> {
    [ Utils.AssertFalse(cfg.publishToGitlab && cfg.repository.Some?,
        "You may only specify a repository OR set publish_to_gitlab to True. "
        + "Specifying both for the same hook is not supported."),
      Utils.AssertFalse(cfg.publishToGitlab && cfg.pypircPath.None?,
        "When publishing python packages to GitLab it is required to configure "
        + "the credentials in a pypirc configuration file. Please provide the "
        + "pypirc_path configuration option."),
      Utils.BinExists("twine", w.onPath("twine")) ]
    + (match cfg.pypircPath
       case Some(p) => [Utils.FileExists(p, w.pathExists(p))]
       case None => [])
  }

  /** `_handle_artifact` of the Python hook for one matched archive: at
      most one outcome, for this archive; none when the archive is not a
      Python distribution; the tar error raised when it cannot be read;
      otherwise the checked twine upload, to the GitLab project's PyPI
      endpoint under publish_to_gitlab. */
  function PythonArtifact(cfg: PythonConfig, info: HookInfo, e: Event, path: string, name: string,
                          ctx: Context, w: World): (s: Stream)
    ensures |s.items| <= 1
    ensures forall d :: d in s.items ==> d.asset == Some(name) && d.targetName == info.name
    ensures w.tarMembers(path).Err? ==> s == Raise(w.tarMembers(path).error)
    ensures w.tarMembers(path).Ok? && !HasDistributable(w.tarMembers(path).value) ==> s == Empty
    ensures w.tarMembers(path).Ok? && HasDistributable(w.tarMembers(path).value) ==>
      s == CheckedUpload(PythonRequirements(cfg, w), info, name,
             w.run(TwineCommand(path, Some(ContextArgs(ctx, "twine_args")), cfg, PythonRepositoryUrl(cfg, e))),
             false)
  {
    match w.tarMembers(path)
    case Err(x) => Raise(x)
    case Ok(members) =>
      if !HasDistributable(members) then Empty
      else
        var cmd := TwineCommand(path, Some(ContextArgs(ctx, "twine_args")), cfg, PythonRepositoryUrl(cfg, e));
        CheckedUpload(PythonRequirements(cfg, w), info, name, w.run(cmd), false)
  }

  /** With publish_to_gitlab the upload goes to the GitLab project's PyPI
      endpoint, given as `--repository-url` right before the archive. */
  lemma GitlabRepositoryUrl(cfg: PythonConfig, e: Event, path: string, twineArgs: seq<string>)
    requires cfg.publishToGitlab
    ensures var cmd := TwineCommand(path, Some(twineArgs), cfg, PythonRepositoryUrl(cfg, e));
      cmd[|cmd| - 3..] == ["--repository-url", GitlabPypiUrl(e), path]
  {
    TwineCommandLayout(path, Some(twineArgs), cfg, PythonRepositoryUrl(cfg, e));
  }

  /** Constructing the hook only warns: it never raises, and logs one
      warning per violated requirement. */
  function PythonInitWarnings(cfg: PythonConfig, w: World): (r: Result<seq<string>>)
    ensures r == Ok(Utils.Violations(PythonRequirements(cfg, w)))
  {
    Utils.EnforceAllOutcome(PythonRequirements(cfg, w));
    Utils.EnforceAll(PythonRequirements(cfg, w), true)
  }

  /** `PublishToPythonRepository(...)`: a glob hook named "python
      repository" unless named otherwise, matching source archives unless
      given another pattern. */
  function NewPythonHook(cfg: PythonConfig, gate: Option<Constraints.Constraint>, name: Option<string>,
                         notifyOnSuccess: Option<bool>, globPattern: Option<string>): (h: Hook)
    ensures h.Hook? && h.gate == gate && h.body.Glob?
    ensures h.info == MakeInfo(name, Some(PYTHON_DEFAULT_NAME), "PublishToPythonRepository", notifyOnSuccess)
    ensures h.body.pattern == (match globPattern case Some(p) => p case None => PYTHON_GLOB_PATTERN)
  {
    var r := NewGlobHook(gate, name, Some(PYTHON_DEFAULT_NAME), "PublishToPythonRepository",
                         notifyOnSuccess, globPattern, Some(PYTHON_GLOB_PATTERN), NoContext,
                         (info, e, path, fname, ctx, w) => PythonArtifact(cfg, info, e, path, fname, ctx, w));
    r.value
  }

  // ---------------------------------------------------------------------
  // PublishToDebRepository

  /** The command line `_dput` runs. */
  function DputCommand(changePath: string, dputArgs: Option<seq<string>>, configPath: string): seq<string> {
    ["dput", "--config", configPath] + CallerArgs(dputArgs) + DPUT_ARGS + [changePath]
  }

  /** `_dput` growing its argument list with `extend`. */
  method BuildDputCommand(changePath: string, dputArgs: Option<seq<string>>, configPath: string)
    returns (cmd: seq<string>)
    ensures cmd == DputCommand(changePath, dputArgs, configPath)
  {
    var args := if dputArgs.Some? then dputArgs.value else [];
    if DPUT_ARGS != [] {
      args := args + DPUT_ARGS;
    }
    cmd := ["dput", "--config", configPath] + args + [changePath];
  }

  /** The layout of the dput command: the configuration file first, the
      caller's arguments, `--unchecked`, the changes file last. */
  lemma DputCommandLayout(changePath: string, dputArgs: Option<seq<string>>, configPath: string)
    ensures var cmd := DputCommand(changePath, dputArgs, configPath);
      var a := CallerArgs(dputArgs);
      && |cmd| == |a| + 5
      && cmd[..3] == ["dput", "--config", configPath]
      && cmd[3..3 + |a|] == a
      && cmd[|cmd| - 2..] == ["--unchecked", changePath]
  {
    var a := CallerArgs(dputArgs);
    var cmd := DputCommand(changePath, dputArgs, configPath);
    assert cmd == ["dput", "--config", configPath] + a + ["--unchecked", changePath];
  }

  /** `check_prerequisites` of the Debian hook. */
  function DebRequirements(configPath: string, w: World): seq<Utils.Requirement> {
    [ Utils.BinExists("dput", w.onPath("dput")),
      Utils.FileExists(configPath, w.pathExists(configPath)) ]
  }

  /** `_handle_artifact` of the Debian hook for one matched changes file:
      the checked dput upload, whose failure outcome also carries the
      command's stderr. */
  function DebArtifact(configPath: string, info: HookInfo, e: Event, path: string, name: string,
                       ctx: Context, w: World): (s: Stream)
    ensures |s.items| <= 1
    ensures forall d :: d in s.items ==> d.asset == Some(name) && d.targetName == info.name
    ensures Utils.Violations(DebRequirements(configPath, w)) != [] ==>
      s == Raise(ConfigurationError(Utils.Violations(DebRequirements(configPath, w))[0]))
    ensures var r := w.run(DputCommand(path, Some(ContextArgs(ctx, "dput_args")), configPath));
      Utils.Violations(DebRequirements(configPath, w)) == [] ==>
        && (r.RunRaised? ==> s == Raise(r.error))
        && (r.Completed? ==> s.raised.None? && |s.items| == 1 && s.items[0].wasSuccessful)
        && (r.CalledProcessError? ==>
              && s.raised.None? && |s.items| == 1 && !s.items[0].wasSuccessful && s.items[0].notify
              && s.items[0].exc == Some(ProcessFailed(r.returnCode, r.output, r.stderr))
              && s.items[0].error == r.stderr)
  {
    CheckedUpload(DebRequirements(configPath, w), info, name,
      w.run(DputCommand(path, Some(ContextArgs(ctx, "dput_args")), configPath)), true)
  }

  /** Constructing the Debian hook only warns. */
  function DebInitWarnings(configPath: string, w: World): (r: Result<seq<string>>)
    ensures r == Ok(Utils.Violations(DebRequirements(configPath, w)))
  {
    Utils.EnforceAllOutcome(DebRequirements(configPath, w));
    Utils.EnforceAll(DebRequirements(configPath, w), true)
  }

  /** `PublishToDebRepository(dput_config_path, ...)`. */
  function NewDebHook(configPath: string, gate: Option<Constraints.Constraint>, name: Option<string>,
                      notifyOnSuccess: Option<bool>, globPattern: Option<string>): (h: Hook)
    ensures h.Hook? && h.gate == gate && h.body.Glob?
    ensures h.info == MakeInfo(name, Some(DEB_DEFAULT_NAME), "PublishToDebRepository", notifyOnSuccess)
    ensures h.body.pattern == (match globPattern case Some(p) => p case None => DEB_GLOB_PATTERN)
  {
    var r := NewGlobHook(gate, name, Some(DEB_DEFAULT_NAME), "PublishToDebRepository",
                         notifyOnSuccess, globPattern, Some(DEB_GLOB_PATTERN), NoContext,
                         (info, e, path, fname, ctx, w) => DebArtifact(configPath, info, e, path, fname, ctx, w));
    r.value
  }
}
