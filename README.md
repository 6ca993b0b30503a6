# pipedput, modelled in Dafny

pipedput receives GitLab pipeline web hooks. For each accepted pipeline event it decides which configured hooks
are interested, downloads the job artifact archives, runs every hook on every unpacked archive, collects the
deployment outcomes and mails a report to the people concerned. This project models that event-gated dispatch
engine and proves what it promises:

- `constraints.dfy` covers the constraint algebra and `legacy_tests.dfy` the older test algebra. `p & q` and
  `p | q` are the constructors `And(p, q)` and `Or(p, q)`, operands in the order written. Evaluation returns
  the answer or the raised exception, and a call trace lists the leaves actually invoked.
- `hooks.dfy` covers the hook protocol: name resolution, the outcome constructors, the gate, the exception
  boundary of a hook call, the glob loop and the clone URL. A generator is a `Stream`: the items it yielded,
  then the exception that ended it, if any.
- `publish.dfy` covers the Python and Debian publishing hooks: configuration checks, command lines, the
  distributable test, and the mapping from an upload result to an outcome. `system_hooks.dfy` covers the
  example JPEG backup hook.
- `handler.dfy` covers the dispatcher:
  - artifact URLs;
  - the cheap interest check before any download;
  - outcome order;
  - the notification flag;
  - recipients and maintainer mails;
  - the error boundary;
  - the `Project` class.
- `utils.dfy` covers the API base URL, the raise-or-warn configuration checks and the template renderer whose
  defaults every call updates.
- `app.dfy` covers request admission: the 404, 403, 400 and 200 answers, checked in that order.
- `legacy_config.dfy` covers the older `ProjectConfig` class. `test_utils.dfy` covers the test suite's
  `is_contained_in_order` helper, as written and corrected.

Every external effect is an input. A `World` value supplies:

- the glob matches, the tar member names and the subprocess results;
- the copy result and the `shutil.which` and `os.path.exists` answers;
- the artifact download (the directory it unpacks to, or the exception).

A sent mail is a record of its subject, recipients, report and maintainer.

## Model

| member | source | states |
|---|---|---|
| Constraints.DefaultCallback | pipedput/constraints.py:33-40 | `Callback(callback)` expects the boolean True by default |
| Constraints.EvalLeaf | pipedput/constraints.py:31-68 | Callback is true iff the truthiness of the callback's result is identical to `expect`, so a non-boolean expect never matches. RequireProject is true iff the path matches. RequireTag is true iff the tag is the boolean True. RequireSuccess is true iff the status is "success". On a well-formed event, where every field the leaves read is present, only a callback raises, and its exception passes through. The `IsUser(u)` leaf of the Debian system hooks is true iff the event's username is `u`. |
| Constraints.AndShortCircuits | pipedput/constraints.py:21-23 | `p & q` is the conjunction. `q` is not invoked when `p` is false or raised, and `p`'s exception propagates. |
| Constraints.OrShortCircuits | pipedput/constraints.py:26-28 | `p \| q` is the disjunction. `q` is not invoked when `p` is true or raised. |
| Constraints.EvalMatchesHolds | pipedput/constraints.py:21-28 | when no leaf raises, evaluation equals the plain boolean reading of the tree |
| Constraints.RaiseStopsEvaluation | pipedput/constraints.py:21-28 | every leaf invoked before the last returned normally. The constraint raises iff the last invoked leaf raised, and with that leaf's exception. |
| Constraints.OnlyInvokedLeavesMatter | pipedput/constraints.py:21-28 | two events on which all invoked leaves agree give the same result and the same calls, whatever the operands that were not invoked would give |
| Constraints.AndAssociative | pipedput/constraints.py:21-23 | regrouping a chain of `&` changes neither the result nor the leaves invoked |
| Constraints.OrAssociative | pipedput/constraints.py:26-28 | regrouping a chain of `\|` changes neither the result nor the leaves invoked |
| LegacyTests.TestsAreConstraints | pipedput/tests.py:1-60 | each test, translated to a constraint, answers exactly as the constraint does, exceptions included. `CallbackTest` translates to a callback expecting True. |
| Hooks.ConcatOutcome | pipedput/hooks.py:145-150 | consecutive `yield from`s raise iff one of the streams raised. With no raise, the result is all the items in order. |
| Hooks.ConcatStopsAtRaise | pipedput/hooks.py:145-150 | nothing after the first raising stream is yielded |
| Hooks.ResolveName | pipedput/hooks.py:40-45 | the hook name is the explicit name, else `DEFAULT_NAME`, else the class name |
| Hooks.MakeInfo | pipedput/hooks.py:32-45 | `notify_on_success` defaults to `DEFAULT_NOTIFY`, which is True |
| Hooks.Failure | pipedput/hooks.py:47-49 | `_error` is unsuccessful, named after the hook, and notifies unless told otherwise |
| Hooks.Success | pipedput/hooks.py:51-53 | `_success` is successful, named after the hook, and notifies per `notify_on_success` unless told otherwise |
| Hooks.ShouldExecuteFor | pipedput/hooks.py:55-59 | with no constraint the hook runs. Otherwise the constraint's result, or its exception, decides. |
| Hooks.Isolate | pipedput/hooks.py:69-73 | the exception boundary never raises. It keeps the items and adds exactly one `_error(exc=…)` when the action raised. |
| Hooks.HookIsolation | pipedput/hooks.py:66-73 | a gate's exception is not caught. A false gate yields nothing in every world. A true gate yields the action's k outcomes, then one notifying failure carrying the exception if the action raised. |
| Hooks.GlobPattern | pipedput/hooks.py:120-127 | the pattern comes from the argument, else `GLOB_PATTERN`, else ValueError "A glob pattern must be defined for <name>." |
| Hooks.NewGlobHook | pipedput/hooks.py:117-127 | construction succeeds iff a pattern is available, with the resolved name and the gate given |
| Hooks.MatchStreams | pipedput/hooks.py:145-150 | one handler call per match, in match order, with the path, its base name and the one shared context |
| Hooks.GlobExecute | pipedput/hooks.py:140-153 | a context error raises. The outcomes are the per-match streams concatenated. `_handle_no_match` runs exactly once iff nothing matched. |
| Hooks.HandleMatches | pipedput/hooks.py:144-150 | the loop yields the concatenation of the per-match streams, stops at a handler's exception, and `had_match` holds iff there were matches |
| Hooks.BuildCloneUrl | pipedput/hooks.py:85-98 | the URL built by successive appends equals the reference `CloneUrl` |
| Hooks.CloneUrlShape | pipedput/hooks.py:87-98 | ValueError iff there is no clone token. Otherwise the URL starts with `scheme://PRIVATE-TOKEN:<token>@`, ends with the path when there is no query, and ignores the original user-info. |
| Publish.UploadOutcome | pipedput/hooks.py:277-293 | a finished upload gives exactly one success for the asset. CalledProcessError gives exactly one notifying failure carrying the exception. Any other exception is not caught. |
| Publish.CheckedUpload | pipedput/hooks.py:209-248 | the prerequisites are checked first, with ConfigurationError of the first violation. At most one outcome, and only for this asset. |
| Publish.IsPythonDistributable | pipedput/hooks.py:202-207 | the scan answers True iff some member name ends in `.egg-info` |
| Publish.BuildTwineCommand | pipedput/hooks.py:216-228 | the argument list grown with `extend` equals the reference `TwineCommand` |
| Publish.TwineCommandLayout | pipedput/hooks.py:216-228 | `twine upload`, the caller's args, then `--config-file` when pypirc is set, then the repository option, the file last. An explicit URL wins. A configured repository goes as `--repository-url` iff it is an http(s) URL, else as `--repository`. |
| Publish.GitlabPypiUrlSegments | pipedput/hooks.py:272-276 | the GitLab PyPI endpoint is the API base and `/projects/`, then the project id as decimal text, then `/packages/pypi` |
| Publish.GitlabPypiUrlDeterminesProject | pipedput/hooks.py:272-276 | under one GitLab instance, two projects get the same endpoint iff their ids are equal |
| Publish.GitlabRepositoryUrl | pipedput/hooks.py:272-278 | with `publish_to_gitlab`, twine gets that endpoint as `--repository-url` just before the archive |
| Publish.PythonArtifact | pipedput/hooks.py:264-293 | an unreadable archive raises. An archive without an `.egg-info` member yields nothing. Otherwise the checked twine upload decides. At most one outcome, for this archive. |
| Publish.PythonInitWarnings | pipedput/hooks.py:178-200 | construction never raises and logs one warning per violated requirement, with the exact messages, in order |
| Publish.NewPythonHook | pipedput/hooks.py:165-182 | default name "python repository" and pattern `**/*.tar.gz` |
| Publish.BuildDputCommand | pipedput/hooks.py:313-317 | the argument list grown with `extend` equals the reference `DputCommand` |
| Publish.DputCommandLayout | pipedput/hooks.py:314-317 | `dput --config <cfg>`, the caller's args, then `--unchecked`, the changes file last |
| Publish.DebArtifact | pipedput/hooks.py:351-373 | a failed dput gives exactly one notifying failure whose `error` is the command's stderr. Success gives one success. A violated prerequisite raises. |
| Publish.DebInitWarnings | pipedput/hooks.py:301-308 | construction only warns: one warning per violated requirement |
| Publish.NewDebHook | pipedput/hooks.py:296-304 | default name "deb repository" and pattern `**/*.changes` |
| SystemHooks.BackupArtifact | debian/system-files/hooks.py:26-38 | a copy gives one success for the file. PermissionError gives one notifying failure. Any other error propagates. |
| SystemHooks.NewBackupJPEGs | debian/system-files/hooks.py:21-25 | default name "copy JPEGs" and pattern `**/*.jpeg` |
| SystemHooks.OtherCopyErrorEndsRun | debian/system-files/hooks.py:33-38 | another copy error ends the glob loop. The hook yields the k earlier outcomes plus one failure carrying the error, and does not raise. |
| SystemHooks.CopiesStopAtRaise | debian/system-files/hooks.py:33-38 | the copy streams raise the first raising copy's exception. Before it there is exactly one outcome per earlier file, in match order. |
| SystemHooks.PrefixWithoutRaise | debian/system-files/hooks.py:33-38 | per-file streams that each yield one outcome for their own file and do not raise concatenate, without raising, to those outcomes in match order |
| Handler.JobArtifactsUrlSegments | pipedput/handler.py:41-47 | a job's URL is the API base, then `/projects/` and the project id, then `/jobs/`, then the job id as decimal text at its own position, then `/artifacts` |
| Handler.JobArtifactsUrlDeterminesIds | pipedput/handler.py:41-47 | under one GitLab instance, two artifact URLs are equal iff both the project ids and the job ids are equal |
| Handler.ArtifactUrlsDistinct | pipedput/handler.py:44-47 | jobs with pairwise different ids get pairwise different artifact URLs |
| Handler.ArtifactUrlsMembership | pipedput/handler.py:41-47 | a URL is listed iff some job with an artifact file has it |
| Handler.ArtifactUrlsInBuildOrder | pipedput/handler.py:44-47 | URLs follow the build order. A job contributes its URL iff it kept artifacts. |
| Handler.Subject | pipedput/handler.py:66-67 | the subject is `[pipedput] ` followed by the project path, then ` deployment`. The characters between the fixed prefix and suffix are exactly the path. |
| Handler.DefaultRecipients | pipedput/handler.py:50-56 | the set built with `add` equals the reference recipient list |
| Handler.DefaultRecipientsSpec | pipedput/handler.py:50-56 | the user and the commit author (when named), without duplicates, and nobody else |
| Handler.SendReportMail | pipedput/handler.py:59-92 | the mails sent by the maintainer loop equal the reference `ReportMails` |
| Handler.Qualifying | pipedput/handler.py:85-86 | the maintainers who pass the loop's test are exactly those with a non-empty address outside the recipients, kept in maintainer order |
| Handler.MaintainerMailsFollowQualifying | pipedput/handler.py:84-92 | the k-th maintainer mail is addressed to the k-th qualifying maintainer alone |
| Handler.MaintainerMailsSpec | pipedput/handler.py:84-92 | there are exactly as many maintainer mails as qualifying maintainer entries, in maintainer order, each to its maintainer alone. A maintainer gets a mail iff they have a non-empty address outside the recipients. |
| Handler.ReportMailsSpec | pipedput/handler.py:59-92 | exactly one main mail, first, to the explicit or else the default recipients. Then exactly one mail per qualifying maintainer entry, in maintainer order, and nothing else. There are no maintainer mails when they are disabled. |
| Handler.AuthorMaintainerGetsNoSecondMail | pipedput/handler.py:84-92 | a maintainer who is the commit author gets no second mail |
| Handler.AnyNotifyExists | pipedput/handler.py:118-128 | `notify \|=` accumulates the OR of the outcomes' flags |
| Handler.CollectDeployments | pipedput/handler.py:114-135 | the loop collects all outcomes in stream order with the OR of their flags. An exception escapes and the outcomes are lost. |
| Handler.AnyInterestedSpec | pipedput/handler.py:217 | `any` is true iff some gate is true and all before it false. It is false iff every gate is false. |
| Handler.HookStreams | pipedput/handler.py:209-210 | every hook is called on the directory, in declaration order |
| Handler.DispatchPolicy | pipedput/handler.py:95-139 | a raising pass sends exactly one error report and no deployment report. Otherwise a deployment report of all outcomes goes out iff one asks to notify. |
| Handler.NoInterestNoWork | pipedput/handler.py:217-219 | with no interested hook nothing is downloaded, nothing yielded and no mail sent |
| Handler.StandardHooksNeverRaise | pipedput/handler.py:209-210 | hooks with the standard call and non-raising gates never raise, so only the download can end an artifact's processing |
| Handler.PipelineOrder | pipedput/handler.py:200-219 | outcomes come by artifact URL in build order, then by hook declaration order |
| Handler.FetchedUrlsPrefix | pipedput/handler.py:218-219 | the downloads are a prefix of the URLs. Every download before the last one returned normally, and the last one raised unless all URLs were fetched. When the k-th artifact is the first to raise, exactly the first k+1 URLs are fetched. When none raises, all are fetched. |
| Handler.FetchedDecideStream | pipedput/handler.py:218-219 | the outcome of the pass over the artifacts equals that of the fetched artifacts alone |
| Handler.PipelineUsesFetched | pipedput/handler.py:216-219 | with an interested hook, the pass's stream is that of the artifacts it downloads, in order |
| Handler.NormalizeHooks | pipedput/handler.py:188-193 | None gives `[]`, an iterable a list copy, a single hook `[hook]` |
| Handler.Project.constructor | pipedput/handler.py:159-193 | the project keeps its key, secret, token and maintainers. Its hooks are normalised. |
| Handler.Project.AddHook | pipedput/handler.py:195-197 | `add_hook` appends at the end and returns the project itself |
| Handler.Project.ProcessPipeline | pipedput/handler.py:213-219 | one pass sends exactly the mails `DispatchMails` describes, with the error boundary outside the report collector |
| Utils.ApiBaseUrl | pipedput/utils.py:52-54 | `scheme://netloc/api/v4` |
| Utils.ApiBaseUrlInjective | pipedput/utils.py:52-54 | the base URL determines the scheme and the network location |
| Utils.AssertFalse | pipedput/utils.py:104-106 | `assert_false` passes its condition and message on unchanged |
| Utils.BinExists | pipedput/utils.py:108-115 | violated iff the binary is not on PATH, with the message naming it |
| Utils.FileExists | pipedput/utils.py:117-124 | violated iff the path does not exist, with the message naming it |
| Utils.Enforce | pipedput/utils.py:96-102 | a holding check does nothing. A violated one warns under `warn_only` and raises ConfigurationError(message) otherwise. |
| Utils.EnforceAllOutcome | pipedput/utils.py:96-124 | warn-only checks never raise and warn once per violation. Strict checks raise iff something is violated, with the first violation's message. |
| Utils.TemplateRenderer.constructor | pipedput/utils.py:84-89 | the renderer captures the template and the defaults |
| Utils.TemplateRenderer.Render | pipedput/utils.py:85-87 | the defaults are updated in place with the call's context, and rendering uses the result |
| Utils.RenderTwice | pipedput/utils.py:84-89 | keys of an earlier call persist into a later one unless overridden, and a call's own keys win |
| App.GetProjectByKey | pipedput/app.py:33-37 | the first project with the key. `DoesNotExist` iff none has it. |
| App.IsAllowed | pipedput/app.py:40-41 | allowed iff the project has no secret or the token equals it |
| App.HandlePipelineEvent | pipedput/app.py:44-70 | 404 iff the key is unknown. Then 403 iff not allowed. Then 400 iff not a pipeline event. Otherwise 200. Dispatch happens exactly once iff 200. Each answer has its exact message. |
| LegacyConfig.Deliver | pipedput/config.py:41-45 | the wrapper calls the callback with the payload iff it listens to every event or to this one |
| LegacyConfig.ShouldProcessSpecHolds | pipedput/config.py:18-19 | true iff every constraint returns true, so true with none. The first exception propagates. With no exception every constraint is called. |
| LegacyConfig.ShouldProcessIsNotShortCircuit | pipedput/config.py:18-19 | a false first constraint does not spare the second: its exception surfaces, unlike with `&` |
| LegacyConfig.ArtifactPayloads | pipedput/config.py:23-32 | one payload per reported change, carrying project, event, URL, change and success |
| LegacyConfig.ProjectConfig.constructor | pipedput/config.py:10-16 | a new configuration starts with no constraints and no hooks |
| LegacyConfig.ProjectConfig.AddConstraint | pipedput/config.py:36-39 | the arguments are appended in order, and the configuration itself is returned |
| LegacyConfig.ProjectConfig.On | pipedput/config.py:41-45 | exactly one listener is appended |
| LegacyConfig.ProjectConfig.ShouldProcess | pipedput/config.py:18-19 | the list-then-`all` evaluation equals `ShouldProcessSpec` |
| LegacyConfig.ProjectConfig.Process | pipedput/config.py:21-34 | nothing when the constraints fail, and their exception when one raises. Otherwise the payloads per artifact and change, in order, each fired as a publish event before it is yielded. |
| TestUtils.ScanOutcome | tests/utils.py:37-42 | the loop answers true iff the remaining members fit and match. It raises IndexError iff, with the `>` bound, they run past the end while matching. |
| TestUtils.RunAt | tests/utils.py:33-42 | the member-by-member checks are equivalent to a contiguous run at the first occurrence |
| TestUtils.AsWrittenOutcome | tests/utils.py:31-42 | as written: true iff the run from the first occurrence of `members[0]` matches; IndexError iff there are no members or the run matches up to the end with members left over; false otherwise |
| TestUtils.InOrderOutcome | tests/utils.py:31-42 | with `>=`: no IndexError for non-empty members, and true iff the run from the first occurrence matches |
| TestUtils.BoundFixOnlyRemovesRaise | tests/utils.py:38-40 | the corrected bound keeps every answer of the original and turns its IndexError into False |
| TestUtils.AsWrittenRaisesAtEnd | tests/utils.py:38-40 | members [1, 2] in [1] raise IndexError as written and give False when corrected |
| TestUtils.IsContainedInOrderAsWritten | tests/utils.py:31-42 | the loop as written equals the `>`-bound reference |
| TestUtils.IsContainedInOrder | tests/utils.py:31-42 | the corrected loop: true iff the members form a contiguous run at the first occurrence of `members[0]`, and never IndexError once there is a member |

## Left out

- Network and file-system I/O are inputs from `World`:
  - the download and unzip of artifact archives;
  - the temporary directories;
  - `glob`, `tarfile` and `shutil.copy`.
- The subprocess runs of twine, dput and git are inputs from `World`.
  - `stderr=subprocess.STDOUT` leaves `exc.stderr` as None in practice; the model carries whatever stderr the world supplies.
- `GetVersionMixin._get_version` and the git check of `GetVersionMixin.check_prerequisites` are not modelled: they are subprocess work with no logic of their own beyond the clone URL, which is modelled.
- Mail sending, Jinja rendering, HTML-to-text conversion, BCC defaults and the deployment-documentation render argument are not modelled. A mail is a record, and a rendering is the template name with its context.
- Mail delivery failures are not modelled: an exception raised by `send_mail` inside `_handle_error` would escape.
- Logging, the uwsgi `mulefunc` offload, Flask application setup and Sentry are left out.
- `urlsplit`/`urlparse` and `re` internals are left out; URL components arrive already split.
- Handler.DefaultRecipients: fixes the order user-then-author, where `list(set)` leaves the order unspecified.
- Missing payload keys are not modelled. An `Event` always carries every field the dispatcher and the constraints read, so the KeyError of a payload without one is not modelled:
  - `project.path_with_namespace`, read by `RequireProject` and the mail subject;
  - `object_attributes.tag` and `object_attributes.status`, read by `RequireTag` and `RequireSuccess`;
  - `user.username` and `user.email`, read by `IsUser` and the default recipients;
  - `project.id`, `project.web_url` and `builds`, read for the artifact URLs;
  - a KeyError raised by `_get_default_recipients` inside `_handle_error` would escape the error boundary.
- Handler.DefaultRecipients: a commit author whose email is JSON `null` adds `None` to the recipients in the source. The model reads it as a missing key, so no second recipient is added.
- App.HandlePipelineEvent: does not model the KeyError (an HTTP 500) that an accepted event missing its `object_attributes` fields raises in the log line, nor a JSON body that is absent, which is modelled as `JsonOther`.
- Hooks.GlobExecute: `_handle_no_match` is counted rather than run; the publishing hooks' versions only log.
- `invoke_all`, `get_artifact_urls` and `process_artifact`, which pipedput/config.py imports, are not defined in the repository. They are parameters of `LegacyConfig.ProjectConfig.Process`, and `Process` returns the fired events instead of invoking them.
- The constraints `IsProject`, `IsTag`, `OnBranch`, `OnDefaultBranch`, `WasManuallyStarted` and `WasPipelineStartedFromUI`, and a NOT combinator, are not part of this model: pipedput/conf.py imports them from a module version whose source is not shown.
- tests/test_constraints.py:23-30 expects `Callback(mock, 4)` to hold, but the code compares with `is self.expect`, which no boolean is for 4. The model follows the code.
- The other helpers of tests/utils.py are not part of this model: the mock GitLab server, the binary patchers and the HTML assertions.

## Findings

| source | as written | input that shows it | evidently intended | confidence | as-written member | corrected member |
|---|---|---|---|---|---|---|
| tests/utils.py:38-40 | the bound `first_member_index + index > container_length` lets the index reach `len(container)`, and `container[...]` then raises IndexError | members `[1, 2]`, container `[1]` (`TestUtils.AsWrittenRaisesAtEnd`) | a bound of `>=`, answering False when the members run past the container's end (`TestUtils.InOrderOutcome`) | not executed | TestUtils.IsContainedInOrderAsWritten | TestUtils.IsContainedInOrder |
