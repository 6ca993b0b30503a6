/** The hook protocol of pipedput/hooks.py.

    A hook's `__call__` is a generator. Run to its end it has yielded some
    deployment states and then either stopped or raised; a `Stream` records
    exactly that. A hook checks its gate itself, runs its action only when
    the gate passes, and turns an exception raised by the action into one
    final error outcome, keeping the outcomes yielded before it. The glob
    hook runs a per-match handler over the files a glob pattern matches in
    the artifact directory. */
module Hooks {
  import opened Common
  import opened Gitlab
  import Constraints

  /** One outcome of a hook (`DeploymentState`). */
  datatype DeploymentState = DeploymentState(
    targetName: string,
    wasSuccessful: bool,
    notify: bool,
    asset: Option<string>,
    exc: Option<Error>,
    error: Option<string>)

  /** A generator run to its end: what it yielded, and the exception that
      ended it, if one did. */
  datatype Stream = Stream(items: seq<DeploymentState>, raised: Option<Error>)

  const Empty: Stream := Stream([], None)

  function Raise(x: Error): (s: Stream)
    ensures s.items == [] && s.raised == Some(x)
  {
    Stream([], Some(x))
  }

  /** `yield from s; yield from t`: `t` only runs if `s` did not raise. */
  function Then(s: Stream, t: Stream): (r: Stream)
    ensures s.raised.Some? ==> r == s
    ensures s.raised.None? ==> r.items == s.items + t.items && r.raised == t.raised
  {
    if s.raised.Some? then s else Stream(s.items + t.items, t.raised)
  }

  /** `for x in xs: yield from stream(x)`, the streams given in order. */
  function Concat(ss: seq<Stream>): Stream
    decreases |ss|
  {
    if ss == [] then Empty else Then(Concat(ss[..|ss| - 1]), ss[|ss| - 1])
  }

  /** All items of the streams, in order. */
  function Items(ss: seq<Stream>): seq<DeploymentState>
    decreases |ss|
  {
    if ss == [] then [] else Items(ss[..|ss| - 1]) + ss[|ss| - 1].items
  }

  lemma ConcatSnoc(ss: seq<Stream>, t: Stream)
    ensures Concat(ss + [t]) == Then(Concat(ss), t)
    ensures Items(ss + [t]) == Items(ss) + t.items
  {
    assert (ss + [t])[..|ss|] == ss;
  }

  /** One more stream after a prefix that did not raise. */
  lemma ConcatStep(ss: seq<Stream>, i: nat, items: seq<DeploymentState>)
    requires i < |ss| && Concat(ss[..i]) == Stream(items, None)
    ensures Concat(ss[..i + 1]) == Stream(items + ss[i].items, ss[i].raised)
  {
    ConcatSnoc(ss[..i], ss[i]);
    assert ss[..i + 1] == ss[..i] + [ss[i]];
  }

  /** Once a prefix of the streams has raised, the later streams run no
      more: the whole concatenation is that prefix's. */
  lemma {:induction false} ConcatStopsAtRaise(ss: seq<Stream>, k: nat)
    requires k <= |ss|
    requires Concat(ss[..k]).raised.Some?
    ensures Concat(ss) == Concat(ss[..k])
    decreases |ss|
  {
    if k < |ss| {
      var n := |ss| - 1;
      assert ss[..n][..k] == ss[..k];
      ConcatStopsAtRaise(ss[..n], k);
    } else {
      assert ss[..k] == ss;
    }
  }

  /** The concatenation raises exactly when one of the streams raises; when
      none does, it yields all their items in order. */
  lemma {:induction false} ConcatOutcome(ss: seq<Stream>)
    ensures Concat(ss).raised.Some? <==> exists i :: 0 <= i < |ss| && ss[i].raised.Some?
    ensures (forall i :: 0 <= i < |ss| ==> ss[i].raised.None?) ==>
      Concat(ss) == Stream(Items(ss), None)
    decreases |ss|
  {
    if ss != [] {
      var n := |ss| - 1;
      ConcatOutcome(ss[..n]);
      assert forall i :: 0 <= i < n ==> ss[..n][i] == ss[i];
    }
  }

  /** What outcome constructors and error boundaries need of a hook: its
      name and its default for notifying on success. */
  datatype HookInfo = HookInfo(name: string, notifyOnSuccess: bool)

  /** `Hook.DEFAULT_NOTIFY`, also the default of `notify_on_success`. */
  const DEFAULT_NOTIFY: bool := true

  /** The name a hook takes: the `name` argument if given, else the class's
      DEFAULT_NAME if it sets one, else the class name. */
  function ResolveName(name: Option<string>, defaultName: Option<string>, className: string): (r: string)
    ensures name.Some? ==> r == name.value
    ensures name.None? && defaultName.Some? ==> r == defaultName.value
    ensures name.None? && defaultName.None? ==> r == className
  {
    match name
    case Some(n) => n
    case None => (match defaultName case Some(d) => d case None => className)
  }

  /** `Hook.__init__`'s naming and notification settings; a missing
      `notify_on_success` is DEFAULT_NOTIFY. */
  function MakeInfo(name: Option<string>, defaultName: Option<string>, className: string,
                    notifyOnSuccess: Option<bool>): (info: HookInfo)
    ensures info.name == ResolveName(name, defaultName, className)
    ensures notifyOnSuccess.None? ==> info.notifyOnSuccess == DEFAULT_NOTIFY
    ensures notifyOnSuccess.Some? ==> info.notifyOnSuccess == notifyOnSuccess.value
  {
    HookInfo(ResolveName(name, defaultName, className),
             match notifyOnSuccess case Some(b) => b case None => DEFAULT_NOTIFY)
  }

  /** `Hook._error(**kwargs)`: a failed outcome named after the hook that
      notifies unless `notify` is passed. */
  function Failure(info: HookInfo, asset: Option<string>, exc: Option<Error>,
                   error: Option<string>, notify: Option<bool>): (d: DeploymentState)
    ensures d.targetName == info.name && !d.wasSuccessful
    ensures notify.None? ==> d.notify
    ensures notify.Some? ==> d.notify == notify.value
    ensures d.asset == asset && d.exc == exc && d.error == error
  {
    DeploymentState(info.name, false, match notify case Some(b) => b case None => true,
                    asset, exc, error)
  }

  /** `Hook._success(**kwargs)`: a successful outcome named after the hook
      that notifies as the hook's `notify_on_success` says unless `notify`
      is passed. */
  function Success(info: HookInfo, asset: Option<string>, exc: Option<Error>,
                   error: Option<string>, notify: Option<bool>): (d: DeploymentState)
    ensures d.targetName == info.name && d.wasSuccessful
    ensures notify.None? ==> d.notify == info.notifyOnSuccess
    ensures notify.Some? ==> d.notify == notify.value
    ensures d.asset == asset && d.exc == exc && d.error == error
  {
    DeploymentState(info.name, true, match notify case Some(b) => b case None => info.notifyOnSuccess,
                    asset, exc, error)
  }

  /** The keyword context a glob hook builds once per artifact directory
      and passes to every per-match handler (`twine_args`, `dput_args`). */
  type Context = map<string, seq<string>>

  /** `kwargs.pop(key, [])`. */
  function ContextArgs(ctx: Context, key: string): seq<string> {
    if key in ctx then ctx[key] else []
  }

  /** What a hook does once its gate has passed (`_execute`): either the
      glob-and-handle loop of GenericGlobHook, given its pattern, its
      `_get_context` and its `_handle_artifact`, or an action of its own. */
  datatype Body =
    | Glob(pattern: string,
           context: (Event, string) -> Result<Context>,
           handle: (HookInfo, Event, string, string, Context, World) -> Stream)
    | Execute(execute: (HookInfo, Event, string, World) -> Stream)

  /** A configured hook. `Hook` uses the `__call__` of the Hook class;
      `CustomCall` is a hook class that overrides `__call__` itself and so
      has neither the gate check nor the exception boundary. */
  datatype Hook =
    | Hook(info: HookInfo, gate: Option<Constraints.Constraint>, body: Body)
    | CustomCall(info: HookInfo, gate: Option<Constraints.Constraint>,
                 call: (Event, string, World) -> Stream)

  /** `should_execute_for`: true without a gate, else the gate's result
      (or the exception it raised). */
  function ShouldExecuteFor(h: Hook, e: Event): (r: Result<bool>)
    ensures h.gate.None? ==> r == Ok(true)
    ensures h.gate.Some? ==> r == Constraints.Eval(h.gate.value, e)
  {
    match h.gate
    case None => Ok(true)
    case Some(c) => Constraints.Eval(c, e)
  }

  /** The streams of the per-match handler, one per matched file, in match
      order, each given the file's path, its base name and the shared
      context. */
  function MatchStreams(info: HookInfo, handle: (HookInfo, Event, string, string, Context, World) -> Stream,
                       e: Event, matches: seq<string>, ctx: Context, w: World): (ss: seq<Stream>)
    ensures |ss| == |matches|
    ensures forall i :: 0 <= i < |matches| ==>
      ss[i] == handle(info, e, matches[i], BaseName(matches[i]), ctx, w)
  {
    seq(|matches|, i requires 0 <= i < |matches| => handle(info, e, matches[i], BaseName(matches[i]), ctx, w))
  }

  /** The files a glob hook's pattern matches under the artifact directory. */
  function GlobMatches(pattern: string, dir: string, w: World): seq<string> {
    w.glob(JoinPath(dir, pattern))
  }

  /** GenericGlobHook._execute: build the context (its exception ends the
      run), then yield from the handler for each match in order. */
  function GlobStream(info: HookInfo, pattern: string, context: (Event, string) -> Result<Context>,
                      handle: (HookInfo, Event, string, string, Context, World) -> Stream,
                      e: Event, dir: string, w: World): Stream
  {
    match context(e, dir)
    case Err(x) => Raise(x)
    case Ok(ctx) => Concat(MatchStreams(info, handle, e, GlobMatches(pattern, dir, w), ctx, w))
  }

  /** The glob loop as the source runs it: a `had_match` flag, the handler's
      outcomes passed on as they come, an exception from a handler ending the
      loop, and the no-match callback run (here: counted) once the loop has
      finished without any match. The context is built once, before the
      loop, and the same value is passed to every handler. */
  method GlobExecute(info: HookInfo, pattern: string, context: (Event, string) -> Result<Context>,
                     handle: (HookInfo, Event, string, string, Context, World) -> Stream,
                     e: Event, dir: string, w: World)
    returns (s: Stream, noMatchCalls: nat)
    ensures s == GlobStream(info, pattern, context, handle, e, dir, w)
    ensures noMatchCalls == (if context(e, dir).Ok? && GlobMatches(pattern, dir, w) == [] then 1 else 0)
  {
    var ctx := context(e, dir);
    if ctx.Err? {
      return Raise(ctx.error), 0;
    }
    var matches := w.glob(JoinPath(dir, pattern));
    var hadMatch;
    s, hadMatch := HandleMatches(info, handle, e, matches, ctx.value, w);
    noMatchCalls := if !hadMatch then 1 else 0;
  }

  /** The `for` loop of the glob hook over the matches. */
  method HandleMatches(info: HookInfo, handle: (HookInfo, Event, string, string, Context, World) -> Stream,
                       e: Event, matches: seq<string>, ctx: Context, w: World)
    returns (s: Stream, hadMatch: bool)
    ensures s == Concat(MatchStreams(info, handle, e, matches, ctx, w))
    ensures hadMatch <==> matches != []
  {
    ghost var streams := MatchStreams(info, handle, e, matches, ctx, w);
    hadMatch := false;
    var items: seq<DeploymentState> := [];
    var i := 0;
    while i < |matches|
      invariant 0 <= i <= |matches|
      invariant hadMatch <==> i > 0
      invariant Concat(streams[..i]) == Stream(items, None)
    {
      hadMatch := true;
      var filename := BaseName(matches[i]);
      var out := handle(info, e, matches[i], filename, ctx, w);
      ConcatStep(streams, i, items);
      items := items + out.items;
      if out.raised.Some? {
        ConcatStopsAtRaise(streams, i + 1);
        return Stream(items, out.raised), true;
      }
      i := i + 1;
    }
    assert streams[..i] == streams;
    s := Stream(items, None);
  }

  /** `_execute` of a hook's body. */
  function ExecuteBody(info: HookInfo, body: Body, e: Event, dir: string, w: World): Stream {
    match body
    case Glob(pattern, context, handle) => GlobStream(info, pattern, context, handle, e, dir, w)
    case Execute(execute) => execute(info, e, dir, w)
  }

  /** The exception boundary of `Hook.__call__`: what the action yielded is
      kept, and an exception becomes one final `_error(exc=...)` outcome;
      nothing escapes. */
  function Isolate(info: HookInfo, s: Stream): (r: Stream)
    ensures r.raised.None?
    ensures s.raised.None? ==> r.items == s.items
    ensures s.raised.Some? ==> r.items == s.items + [Failure(info, None, s.raised, None, None)]
  {
    Stream(s.items + (if s.raised.Some? then [Failure(info, None, s.raised, None, None)] else []), None)
  }

  /** Calling a hook on an event and an artifact directory. */
  function RunHook(h: Hook, e: Event, dir: string, w: World): Stream {
    match h
    case CustomCall(_, _, call) => call(e, dir, w)
    case Hook(info, _, body) =>
      (match ShouldExecuteFor(h, e)
       case Err(x) => Raise(x)
       case Ok(go) => if go then Isolate(info, ExecuteBody(info, body, e, dir, w)) else Empty)
  }

  /** For a hook with the standard `__call__`: an exception of the gate is not
      caught; a failing gate yields nothing whatever the world holds, so the
      action never runs; a passing gate runs the action, keeps the k outcomes
      it yielded and, if it raised, adds exactly one error outcome named after
      the hook, carrying the exception and notifying; the hook itself then
      never raises. */
  lemma HookIsolation(h: Hook, e: Event, dir: string, w: World)
    requires h.Hook?
    ensures ShouldExecuteFor(h, e).Err? ==> RunHook(h, e, dir, w) == Raise(ShouldExecuteFor(h, e).error)
    ensures ShouldExecuteFor(h, e) == Ok(false) ==>
      forall w' :: RunHook(h, e, dir, w') == Empty
    ensures ShouldExecuteFor(h, e) == Ok(true) ==>
      var s := ExecuteBody(h.info, h.body, e, dir, w);
      var r := RunHook(h, e, dir, w);
      && r.raised.None?
      && |r.items| == |s.items| + (if s.raised.Some? then 1 else 0)
      && r.items[..|s.items|] == s.items
      && (s.raised.Some? ==>
            var last := r.items[|s.items|];
            !last.wasSuccessful && last.notify && last.exc == s.raised && last.targetName == h.info.name)
  {
  }

  /** GenericGlobHook's pattern: the argument if given, else the class's
      GLOB_PATTERN, else ValueError naming the hook. */
  function GlobPattern(pattern: Option<string>, classPattern: Option<string>, hookName: string): (r: Result<string>)
    ensures pattern.Some? ==> r == Ok(pattern.value)
    ensures pattern.None? && classPattern.Some? ==> r == Ok(classPattern.value)
    ensures pattern.None? && classPattern.None? ==>
      r == Err(ValueError("A glob pattern must be defined for " + hookName + "."))
  {
    match pattern
    case Some(p) => Ok(p)
    case None =>
      (match classPattern
       case Some(p) => Ok(p)
       case None => Err(ValueError("A glob pattern must be defined for " + hookName + ".")))
  }

  /** `_get_context` of GenericGlobHook: no keyword arguments. */
  function NoContext(e: Event, dir: string): Result<Context> {
    Ok(map[])
  }

  /** Constructing a glob hook: the name is resolved first, then the pattern,
      whose absence raises ValueError. */
  function NewGlobHook(gate: Option<Constraints.Constraint>, name: Option<string>,
                       defaultName: Option<string>, className: string, notifyOnSuccess: Option<bool>,
                       pattern: Option<string>, classPattern: Option<string>,
                       context: (Event, string) -> Result<Context>,
                       handle: (HookInfo, Event, string, string, Context, World) -> Stream): (r: Result<Hook>)
    ensures r.Ok? <==> pattern.Some? || classPattern.Some?
    ensures r.Ok? ==>
      && r.value.Hook? && r.value.gate == gate && r.value.body.Glob?
      && r.value.info == MakeInfo(name, defaultName, className, notifyOnSuccess)
      && Ok(r.value.body.pattern) == GlobPattern(pattern, classPattern, r.value.info.name)
  {
    var info := MakeInfo(name, defaultName, className, notifyOnSuccess);
    match GlobPattern(pattern, classPattern, info.name)
    case Err(x) => Err(x)
    case Ok(p) => Ok(Hook(info, gate, Glob(p, context, handle)))
  }

  /** `GetVersionMixin._get_clone_url`: the project's clone URL with the
      clone token as user-info. The original user-info is dropped, the port
      kept only when it is set and non-zero, the query only when non-empty;
      a missing host name prints as "None". */
  function CloneUrl(cloneToken: Option<string>, u: SplitUrl): Result<string> {
    match cloneToken
    case None => Err(ValueError("clone_token must be defined if you use the GetVersionMixin."))
    case Some(token) => Ok(CloneCredentials(u.scheme, token) + CloneLocation(u))
  }

  /** The scheme and the token as credentials: `scheme://PRIVATE-TOKEN:token@`. */
  function CloneCredentials(scheme: string, token: string): string {
    scheme + "://PRIVATE-TOKEN:" + token + "@"
  }

  /** Host, optional port, path and optional query of the clone URL. */
  function CloneLocation(u: SplitUrl): string {
    (match u.hostname case Some(h) => h case None => "None")
    + (if u.port.Some? && u.port.value != 0 then ":" + IntToString(u.port.value) else "")
    + u.path
    + (if u.query != "" then "?" + u.query else "")
  }

  /** The clone URL built as the source builds it, one piece after another. */
  method BuildCloneUrl(cloneToken: Option<string>, u: SplitUrl) returns (r: Result<string>)
    ensures r == CloneUrl(cloneToken, u)
  {
    if cloneToken.None? {
      return Err(ValueError("clone_token must be defined if you use the GetVersionMixin."));
    }
    var host := match u.hostname case Some(h) => h case None => "None";
    var credentials := u.scheme + "://PRIVATE-TOKEN:" + cloneToken.value + "@";
    var url := credentials + host;
    ghost var location := host;
    var portPart := "";
    if u.port.Some? && u.port.value != 0 {
      portPart := ":" + IntToString(u.port.value);
      url := url + portPart;
      location := location + portPart;
    }
    assert url == credentials + location;
    url := url + u.path;
    location := location + u.path;
    assert url == credentials + location;
    var queryPart := "";
    if u.query != "" {
      queryPart := "?" + u.query;
      url := url + queryPart;
      location := location + queryPart;
    }
    assert url == credentials + location;
    assert location == CloneLocation(u);
    r := Ok(url);
  }

  /** Without a token the clone URL raises ValueError; with one it starts
      with the scheme and the token as credentials, keeps the path, and does
      not depend on the user-info of the original URL. */
  lemma CloneUrlShape(cloneToken: Option<string>, u: SplitUrl, otherUserinfo: Option<string>)
    ensures CloneUrl(cloneToken, u).Err? <==> cloneToken.None?
    ensures cloneToken.Some? ==>
      StartsWith(CloneUrl(cloneToken, u).value, u.scheme + "://PRIVATE-TOKEN:" + cloneToken.value + "@")
    ensures cloneToken.Some? && u.query == "" ==> EndsWith(CloneUrl(cloneToken, u).value, u.path)
    ensures CloneUrl(cloneToken, u) == CloneUrl(cloneToken, u.(userinfo := otherUserinfo))
  {
    if cloneToken.Some? {
      var p, r := CloneCredentials(u.scheme, cloneToken.value), CloneLocation(u);
      assert (p + r)[..|p|] == p;
      if u.query == "" {
        var front := (match u.hostname case Some(h) => h case None => "None")
          + (if u.port.Some? && u.port.value != 0 then ":" + IntToString(u.port.value) else "");
        assert p + r == (p + front) + u.path;
      }
    }
  }

}
